/** Looking for a marker in a text: where it stands whole, and where a text that ends too early may
    have begun it. */
module Text {

  datatype Option<T> = None | Some(value: T)

  /** `m` stands at `i`. */
  predicate At(s: string, i: nat, m: string) {
    i + |m| <= |s| && s[i..i + |m|] == m
  }

  /** From `i` on, `s` is a beginning of `m` that is cut short. */
  predicate Begins(s: string, i: nat, m: string) {
    i < |s| && |s| - i < |m| && s[i..] == m[..|s| - i]
  }

  /** `j` is the first place at or after `i` where `m` stands. */
  ghost predicate IsFirst(s: string, m: string, i: nat, j: nat) {
    i <= j && At(s, j, m) && forall k: nat | i <= k < j :: !At(s, k, m)
  }

  ghost function FindFrom(s: string, m: string, i: nat): (r: Option<nat>)
    ensures r.Some? ==> i <= r.value && r.value + |m| <= |s|
  {
    if j: nat :| IsFirst(s, m, i, j) then Some(j) else None
  }

  lemma {:induction false} FindFromIs(s: string, m: string, i: nat)
    ensures
      var r := FindFrom(s, m, i);
      && (r.Some? ==> At(s, r.value, m))
      && forall j: nat | i <= j && (r.Some? ==> j < r.value) :: !At(s, j, m)
  {
    if FindFrom(s, m, i).None? {
      forall j: nat | i <= j
        ensures !At(s, j, m)
      {
        NotFirst(s, m, i, j);
      }
    }
  }

  lemma {:induction false} NotFirst(s: string, m: string, i: nat, j: nat)
    requires i <= j && forall k: nat :: !IsFirst(s, m, i, k)
    ensures !At(s, j, m)
    decreases j
  {
    assert !IsFirst(s, m, i, j);
    forall k: nat | i <= k < j
      ensures !At(s, k, m)
    {
      NotFirst(s, m, i, k);
    }
  }

  method Find(s: string, m: string, i: nat) returns (r: Option<nat>)
    requires i <= |s|
    ensures r == FindFrom(s, m, i)
  {
    FindFromIs(s, m, i);
    var j := i;
    while j <= |s|
      invariant i <= j
      invariant forall k: nat | i <= k < j :: !At(s, k, m)
    {
      if At(s, j, m) {
        assert IsFirst(s, m, i, j);
        return Some(j);
      }
      j := j + 1;
    }
    return None;
  }

  /** How many of the last characters of `s` may be the start of `m`: the most of them, at most `k`. */
  function OverlapFrom(s: string, m: string, k: nat): (r: nat)
    requires k <= |s| && (k < |m| || k == 0)
    ensures r <= k
  {
    if k == 0 then 0
    else if s[|s| - k..] == m[..k] then k
    else OverlapFrom(s, m, k - 1)
  }

  function Overlap(s: string, m: string): (r: nat)
    ensures r <= |s|
  {
    OverlapFrom(s, m, if |m| == 0 then 0 else if |s| < |m| then |s| else |m| - 1)
  }

  lemma {:induction false} OverlapFromIs(s: string, m: string, k: nat)
    requires k <= |s| && (k < |m| || k == 0)
    ensures
      var r := OverlapFrom(s, m, k);
      && (r > 0 ==> Begins(s, |s| - r, m))
      && forall j: nat | |s| - k <= j < |s| - r :: !Begins(s, j, m)
  {
    if k > 0 && s[|s| - k..] != m[..k] {
      OverlapFromIs(s, m, k - 1);
    }
  }

  lemma OverlapIs(s: string, m: string)
    ensures
      var r := Overlap(s, m);
      && (r > 0 ==> Begins(s, |s| - r, m))
      && forall j: nat | j < |s| - r :: !Begins(s, j, m)
  {
    OverlapFromIs(s, m, if |m| == 0 then 0 else if |s| < |m| then |s| else |m| - 1);
  }

  // More text arrives.

  lemma SliceOfSlice(s: string, i: nat, j: nat, a: nat, b: nat)
    requires i <= j <= |s| && a <= b <= j - i
    ensures s[i..j][a..b] == s[i + a..i + b]
  {
    assert |s[i..j][a..b]| == |s[i + a..i + b]|;
    assert forall k | 0 <= k < b - a :: s[i..j][a..b][k] == s[i + a..i + b][k];
  }

  lemma Associates<T>(a: seq<T>, b: seq<T>, c: seq<T>)
    ensures a + (b + c) == a + b + c
  {}

  lemma AssociatesInFour(r: string, p: string, t: string, x: string)
    ensures r + (p + t + x) == (r + p) + t + x
    ensures r + p + t + x == r + p + (t + x)
  {}

  lemma AtShifts(r: string, x: string, i: nat, m: string)
    ensures At(r + x, |r| + i, m) <==> At(x, i, m)
  {
    if i + |m| <= |x| {
      assert (r + x)[|r| + i..|r| + i + |m|] == x[i..i + |m|];
    }
  }

  lemma AtInPrefix(b: string, d: string, i: nat, m: string)
    requires At(b + d, i, m) && i + |m| <= |b|
    ensures At(b, i, m)
  {
    assert b[i..i + |m|] == (b + d)[i..i + |m|];
  }

  lemma AtCuts(s: string, i: nat, m: string)
    requires At(s, i, m)
    ensures s == s[..i] + m + s[i + |m|..]
  {}

  lemma AtStays(b: string, d: string, i: nat, m: string)
    requires At(b, i, m)
    ensures At(b + d, i, m)
  {
    assert (b + d)[i..i + |m|] == b[i..i + |m|];
  }

  lemma AtWasBegun(b: string, d: string, i: nat, m: string)
    requires i < |b| && At(b + d, i, m)
    ensures At(b, i, m) || Begins(b, i, m)
  {
    if i + |m| <= |b| {
      assert b[i..i + |m|] == (b + d)[i..i + |m|];
    } else {
      assert b[i..] == (b + d)[i..i + |m|][..|b| - i];
    }
  }

  lemma BeginsWasBegun(b: string, d: string, i: nat, m: string)
    requires i < |b| && Begins(b + d, i, m)
    ensures Begins(b, i, m)
  {
    assert b[i..] == (b + d)[i..][..|b| - i];
  }

  /** Every `n` taken out, the first one first. */
  function Del(s: string, n: string): string
    requires n != ""
    decreases |s|
  {
    if s == "" then ""
    else if At(s, 0, n) then Del(s[|n|..], n)
    else [s[0]] + Del(s[1..], n)
  }

  lemma {:induction false} DelSkips(w: string, x: string, n: string)
    requires n != "" && forall o: nat | o < |w| :: !At(w + x, o, n)
    ensures Del(w + x, n) == w + Del(x, n)
    decreases |w|
  {
    if w == "" {
      assert w + x == x;
    } else {
      assert !At(w + x, 0, n);
      assert (w + x)[1..] == w[1..] + x;
      forall o: nat | o < |w[1..]|
        ensures !At(w[1..] + x, o, n)
      {
        Shifted(w + x, 1, o, n);
      }
      DelSkips(w[1..], x, n);
    }
  }

  lemma Shifted(s: string, d: nat, o: nat, n: string)
    requires d <= |s|
    ensures At(s[d..], o, n) <==> At(s, d + o, n)
  {
    if d + o + |n| <= |s| {
      assert s[d..][o..o + |n|] == s[d + o..d + o + |n|];
    }
  }

  lemma AtChar(s: string, i: nat, m: string, p: nat)
    requires At(s, i, m) && p < |m|
    ensures s[i + p] == m[p]
  {
    assert m[p] == s[i..i + |m|][p];
  }

  lemma BeginsChar(s: string, i: nat, m: string, p: nat)
    requires Begins(s, i, m) && i + p < |s|
    ensures p < |m| && s[i + p] == m[p]
  {
    assert s[i..][p] == m[..|s| - i][p];
  }

  /** Where a character differs, the marker neither stands nor begins. */
  lemma OtherChar(s: string, i: nat, m: string, p: nat)
    requires p < |m| && i + p < |s| && s[i + p] != m[p]
    ensures !At(s, i, m) && !Begins(s, i, m)
  {
    assert s[i..][p] == s[i + p];
    assert i + |m| <= |s| ==> s[i..i + |m|][p] == s[i + p];
  }

  // Any of several markers.

  /** One of the markers stands at `i`. */
  predicate Starts(s: string, ms: seq<string>, i: nat) {
    exists m | m in ms :: At(s, i, m)
  }

  /** From `i` on, the text may be the start of one of them. */
  predicate MayStart(s: string, ms: seq<string>, i: nat) {
    exists m | m in ms :: Begins(s, i, m)
  }

  lemma StartsWasSeen(b: string, d: string, ms: seq<string>, i: nat)
    requires i < |b| && Starts(b + d, ms, i)
    ensures Starts(b, ms, i) || MayStart(b, ms, i)
  {
    var m :| m in ms && At(b + d, i, m);
    AtWasBegun(b, d, i, m);
  }

  lemma MayStartWasSeen(b: string, d: string, ms: seq<string>, i: nat)
    requires i < |b| && MayStart(b + d, ms, i)
    ensures MayStart(b, ms, i)
  {
    var m :| m in ms && Begins(b + d, i, m);
    BeginsWasBegun(b, d, i, m);
  }

  lemma StartsStays(b: string, d: string, ms: seq<string>, i: nat)
    requires Starts(b, ms, i)
    ensures Starts(b + d, ms, i)
  {
    var m :| m in ms && At(b, i, m);
    AtStays(b, d, i, m);
  }

  lemma InsideOf(s: string, i: nat, m: string, e: nat, k: string)
    requires i <= e && e + |k| <= i + |m| && At(s, i, m) && At(s, e, k)
    ensures At(m, e - i, k)
  {
    var o := e - i;
    SliceOfSlice(s, i, i + |m|, o, o + |k|);
  }

  /** A marker that was not there yet spans one that was. */
  lemma Spans(s: string, b: string, i: nat, t: string, e: nat, u: string)
    requires i <= e && i < |s| && At(s, e, u) && At(s + b, i, t) && !At(s, i, t)
    ensures At(t, e - i, u)
  {
    AtWasBegun(s, b, i, t);
    AtStays(s, b, e, u);
    InsideOf(s + b, i, t, e, u);
  }

  lemma OneMore(s: string, ms: seq<string>, m: string, i: nat)
    ensures Starts(s, ms + [m], i) <==> Starts(s, ms, i) || At(s, i, m)
    ensures MayStart(s, ms + [m], i) <==> MayStart(s, ms, i) || Begins(s, i, m)
  {
    assert m in ms + [m];
    assert forall k | k in ms :: k in ms + [m];
  }

  /** White space, as Unicode lists it. */
  predicate IsSpace(c: char) {
    || '\t' <= c <= '\r' || c == ' ' || c == '\U{85}' || c == '\U{A0}' || c == '\U{1680}'
    || '\U{2000}' <= c <= '\U{200A}' || c == '\U{2028}' || c == '\U{2029}' || c == '\U{202F}'
    || c == '\U{205F}' || c == '\U{3000}'
  }

  predicate AllSpace(s: string) {
    forall i | 0 <= i < |s| :: IsSpace(s[i])
  }

  /** White space taken off the front. */
  function TrimStart(s: string): (r: string)
    decreases |s|
  {
    if s == [] || !IsSpace(s[0]) then s else TrimStart(s[1..])
  }

  lemma SpaceAdds(t: string, u: string)
    ensures AllSpace(t + u) <==> AllSpace(t) && AllSpace(u)
  {
    assert forall i | 0 <= i < |t| :: (t + u)[i] == t[i];
    assert forall i | 0 <= i < |u| :: (t + u)[|t| + i] == u[i];
  }

  lemma TrimStartOf(c: char, r: string)
    ensures TrimStart([c] + r) == if IsSpace(c) then TrimStart(r) else [c] + r
  {
    assert ([c] + r)[1..] == r;
  }

  lemma {:induction false} TrimStartAdds(t: string, u: string)
    ensures TrimStart(t + u) == if AllSpace(t) then TrimStart(u) else TrimStart(t) + u
    decreases |t|
  {
    if t == "" {
      assert t + u == u;
    } else {
      var c, r := t[0], t[1..];
      assert t == [c] + r && t + u == [c] + (r + u);
      TrimStartOf(c, r);
      TrimStartOf(c, r + u);
      TrimStartAdds(r, u);
      SpaceAdds([c], r);
    }
  }

  function TrimEnd(s: string): (r: string)
    decreases |s|
  {
    if s == [] || !IsSpace(s[|s| - 1]) then s else TrimEnd(s[..|s| - 1])
  }

  lemma {:induction false} TrimStartIs(s: string)
    ensures
      var r := TrimStart(s);
      && |r| <= |s| && r == s[|s| - |r|..] && AllSpace(s[..|s| - |r|])
      && (r != "" ==> !IsSpace(r[0])) && (r == "" <==> AllSpace(s))
    decreases |s|
  {
    if s != "" && IsSpace(s[0]) {
      TrimStartIs(s[1..]);
      assert s == [s[0]] + s[1..];
      SpaceAdds([s[0]], s[1..]);
      var n := |s| - |TrimStart(s)|;
      assert s[..n] == [s[0]] + s[1..][..n - 1];
      SpaceAdds([s[0]], s[1..][..n - 1]);
    }
  }

  lemma {:induction false} TrimEndIs(s: string)
    ensures TrimEnd(s) == "" <==> AllSpace(s)
    decreases |s|
  {
    if s != "" && IsSpace(s[|s| - 1]) {
      TrimEndIs(s[..|s| - 1]);
      assert s == s[..|s| - 1] + [s[|s| - 1]];
      SpaceAdds(s[..|s| - 1], [s[|s| - 1]]);
    }
  }

  lemma TrimIsEmpty(s: string)
    ensures Trim(s) == "" <==> AllSpace(s)
  {
    TrimStartIs(s);
    TrimEndIs(TrimStart(s));
  }

  function Trim(s: string): string {
    TrimEnd(TrimStart(s))
  }

  function Concat(chunks: seq<string>): string {
    if chunks == [] then "" else chunks[0] + Concat(chunks[1..])
  }
}
