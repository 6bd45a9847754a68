/**
 The turn tokens that are taken out of an answer. The code deletes five of them one after the other,
 from the whole of the text it has in hand. A text cut into pieces gives the same answer only where
 deleting a token does not put another one together.
 */
module HarmonyNoise {
  import opened Text

  const NOISE := ["<|start|>assistant<|channel|>final<|message|>", "<|channel|>final<|message|>",
                  "<|start|>assistant", "<|return|>", "<|end|>"]

  /** The first `k` tokens taken out, in order. */
  function Stage(s: string, k: nat): string
    requires k <= |NOISE|
  {
    if k == 0 then s else Del(Stage(s, k - 1), NOISE[k - 1])
  }

  function Strip(s: string): string { Stage(s, |NOISE|) }

  method StripHarmonyNoise(text: string) returns (t: string)
    ensures t == Strip(text)
  {
    t := text;
    for i := 0 to |NOISE|
      invariant t == Stage(text, i)
    {
      t := Del(t, NOISE[i]);
    }
  }

  /** The token at the front; of two, the longer. */
  function FirstNoise(s: string): (r: Option<nat>)
    ensures r.Some? ==> r.value < |NOISE| && At(s, 0, NOISE[r.value])
    ensures r.Some? ==> forall k | 0 <= k < r.value :: !At(s, 0, NOISE[k])
    ensures r.None? ==> forall k | 0 <= k < |NOISE| :: !At(s, 0, NOISE[k])
  {
    if At(s, 0, NOISE[0]) then Some(0)
    else if At(s, 0, NOISE[1]) then Some(1)
    else if At(s, 0, NOISE[2]) then Some(2)
    else if At(s, 0, NOISE[3]) then Some(3)
    else if At(s, 0, NOISE[4]) then Some(4)
    else None
  }

  /** The tokens that stand in the text itself taken out, and nothing else. */
  function OnePass(s: string): string
    decreases |s|
  {
    if s == "" then ""
    else match FirstNoise(s)
      case Some(k) => OnePass(s[|NOISE[k]|..])
      case None => [s[0]] + OnePass(s[1..])
  }

  /** Somewhere, taking out one token puts together another that is yet to be taken out. */
  predicate Joined(s: string)
    decreases |s|
  {
    s != "" &&
    match FirstNoise(s)
    case Some(k) => Joined(s[|NOISE[k]|..])
    case None => JoinsAtFront(s[0], s[1..]) || Joined(s[1..])
  }

  predicate JoinsAtFront(c: char, r: string) {
    exists i | 0 <= i < |NOISE| :: At([c] + Stage(r, i), 0, NOISE[i])
  }

  // ----- How the tokens differ -----

  /** `n` cannot start at `o` in a text that goes on like `w`. */
  predicate Clash(w: string, o: nat, n: string) {
    exists p: nat | p < |n| && o + p < |w| :: w[o + p] != n[p]
  }

  lemma ClashIsFinal(w: string, x: string, o: nat, n: string)
    requires Clash(w, o, n)
    ensures !At(w + x, o, n)
  {
    var p: nat :| p < |n| && o + p < |w| && w[o + p] != n[p];
    if o + |n| <= |w + x| {
      assert (w + x)[o..o + |n|][p] == w[o + p];
    }
  }

  /** Where a '<' stands in the tokens, besides their start. */
  lemma Openers(j: nat, o: nat)
    requires 1 <= j < |NOISE| && 1 <= o < |NOISE[j]| && NOISE[j][o] == '<'
    ensures j == 1 && o == 16
  {}

  lemma Starters(i: nat)
    requires i < |NOISE|
    ensures |NOISE[i]| >= 7 && NOISE[i][0] == '<' && NOISE[i][2] in "scre"
  {
    assert NOISE[0][0] == '<' && NOISE[0][2] == 's';
    assert NOISE[1][0] == '<' && NOISE[1][2] == 'c';
    assert NOISE[2][0] == '<' && NOISE[2][2] == 's';
    assert NOISE[3][0] == '<' && NOISE[3][2] == 'r';
    assert NOISE[4][0] == '<' && NOISE[4][2] == 'e';
  }

  /** No token starts inside another, but for the second, which is the end of the first. */
  lemma NoneInside(j: nat, o: nat, i: nat)
    requires 1 <= j < |NOISE| && 1 <= o < |NOISE[j]| && i < |NOISE|
    ensures Clash(NOISE[j], o, NOISE[i])
  {
    Starters(i);
    if NOISE[j][o] == '<' {
      Openers(j, o);
      assert NOISE[1][18] == 'm';
      assert NOISE[j][o + 2] != NOISE[i][2];
    } else {
      assert NOISE[j][o + 0] != NOISE[i][0];
    }
  }

  /** Of two tokens, neither starts the other, but for the third, which starts the first. */
  lemma NotBoth(j: nat, i: nat)
    requires j < |NOISE| && i < j && !(i == 0 && j == 2)
    ensures Clash(NOISE[j], 0, NOISE[i])
  {
    assert j == 4 ==> NOISE[j][0 + 2] == 'e';
    assert j == 3 ==> NOISE[j][0 + 2] == 'r';
    assert j == 2 ==> NOISE[j][0 + 2] == 's';
    assert j == 1 ==> NOISE[j][0 + 2] == 'c';
    assert i == 3 ==> NOISE[i][2] == 'r';
    assert i == 2 ==> NOISE[i][2] == 's';
    assert i == 1 ==> NOISE[i][2] == 'c';
    assert i == 0 ==> NOISE[i][2] == 's';
  }

  // ----- The stages, one token or character at a time -----

  /** A token waits, untouched, while the ones before it are taken out of what follows. */
  lemma TokenWaits(j: nat, i: nat, x: string)
    requires i < j < |NOISE| && (i == 0 ==> !At(NOISE[j] + x, 0, NOISE[0]))
    ensures Del(NOISE[j] + x, NOISE[i]) == NOISE[j] + Del(x, NOISE[i])
  {
    var w, n := NOISE[j], NOISE[i];
    forall o: nat | o < |w|
      ensures !At(w + x, o, n)
    {
      if o > 0 {
        NoneInside(j, o, i);
        ClashIsFinal(w, x, o, n);
      } else if i > 0 {
        NotBoth(j, i);
        ClashIsFinal(w, x, o, n);
      }
    }
    DelSkips(w, x, n);
  }

  lemma TokenGoes(n: string, x: string)
    requires n != ""
    ensures Del(n + x, n) == Del(x, n)
  {
    assert At(n + x, 0, n) && (n + x)[|n|..] == x;
  }

  /** A token at the front goes at its own stage, and until then nothing happens to it. */
  lemma {:induction false} StageOfToken(r: string, j: nat, k: nat)
    requires k <= |NOISE| && j < |NOISE| && FirstNoise(NOISE[j] + r) == Some(j)
    ensures k <= j ==> Stage(NOISE[j] + r, k) == NOISE[j] + Stage(r, k)
    ensures k > j ==> Stage(NOISE[j] + r, k) == Stage(r, k)
  {
    if k > 0 {
      StageOfToken(r, j, k - 1);
      if k - 1 == j {
        TokenGoes(NOISE[j], Stage(r, j));
      } else if k - 1 < j {
        TokenWaits(j, k - 1, Stage(r, k - 1));
      }
    }
  }

  lemma {:induction false} StageOfChar(c: char, r: string, k: nat)
    requires k <= |NOISE| && !JoinsAtFront(c, r)
    ensures Stage([c] + r, k) == [c] + Stage(r, k)
  {
    if k > 0 {
      StageOfChar(c, r, k - 1);
      var x := [c] + Stage(r, k - 1);
      assert !At(x, 0, NOISE[k - 1]);
      assert x[1..] == Stage(r, k - 1);
    }
  }

  lemma StageOfNothing(k: nat)
    requires k <= |NOISE|
    ensures Stage("", k) == ""
  {}

  // ----- One pass, one token or character at a time -----

  lemma CharStays(c: char, r: string)
    requires forall k | 0 <= k < |NOISE| :: !At([c] + r, 0, NOISE[k])
    ensures OnePass([c] + r) == [c] + OnePass(r)
  {
    assert ([c] + r)[1..] == r;
  }

  lemma TokenTaken(j: nat, x: string)
    requires j < |NOISE| && FirstNoise(NOISE[j] + x) == Some(j)
    ensures OnePass(NOISE[j] + x) == OnePass(x)
  {
    assert (NOISE[j] + x)[|NOISE[j]|..] == x;
  }

  lemma PlainChar(c: char, r: string)
    requires c != '<'
    ensures OnePass([c] + r) == [c] + OnePass(r)
  {
    forall k: nat | k < |NOISE|
      ensures !At([c] + r, 0, NOISE[k])
    {
      Starters(k);
      assert [c][0 + 0] != NOISE[k][0];
      ClashIsFinal([c], r, 0, NOISE[k]);
    }
    CharStays(c, r);
  }

  /** Text without a '<' stays. */
  lemma {:induction false} PlainStays(w: string, x: string)
    requires '<' !in w
    ensures OnePass(w + x) == w + OnePass(x)
    decreases |w|
  {
    if w == "" {
      assert w + x == x;
    } else {
      var c, r := w[0], w[1..];
      assert w == [c] + r && w + x == [c] + (r + x);
      PlainStays(r, x);
      PlainChar(c, r + x);
      Associates([c], r, OnePass(x));
    }
  }

  /** Where nothing is put together, the five deletions are one pass. */
  lemma {:induction false} NotJoinedIsOnePass(s: string)
    requires !Joined(s)
    ensures Strip(s) == OnePass(s)
    decreases |s|
  {
    if s == "" {
      StageOfNothing(|NOISE|);
    } else {
      match FirstNoise(s)
      case Some(k) =>
        var r := s[|NOISE[k]|..];
        assert s == NOISE[k] + r;
        StageOfToken(r, k, |NOISE|);
        NotJoinedIsOnePass(r);
      case None =>
        assert s == [s[0]] + s[1..];
        StageOfChar(s[0], s[1..], |NOISE|);
        NotJoinedIsOnePass(s[1..]);
    }
  }

  // ----- Cutting a text -----

  /** No token of `ns` is cut in two where `p` ends. */
  ghost predicate CleanOf(ns: seq<string>, p: string, q: string) {
    forall i: nat, n | i < |p| && n in ns && At(p + q, i, n) :: i + |n| <= |p|
  }

  ghost predicate Clean(p: string, q: string) { CleanOf(NOISE, p, q) }

  lemma CleanAfter(p: string, q: string, d: nat)
    requires Clean(p, q) && d <= |p|
    ensures Clean(p[d..], q)
  {
    assert (p + q)[d..] == p[d..] + q;
    forall i: nat, n | i < |p[d..]| && n in NOISE && At(p[d..] + q, i, n)
      ensures i + |n| <= |p[d..]|
    {
      Shifted(p + q, d, i, n);
    }
  }

  /** A clean cut leaves the token at the front alone. */
  lemma FirstNoiseOfCut(p: string, q: string)
    requires Clean(p, q) && p != ""
    ensures FirstNoise(p + q) == FirstNoise(p)
  {
    forall k: nat | k < |NOISE|
      ensures At(p + q, 0, NOISE[k]) <==> At(p, 0, NOISE[k])
    {
      if At(p, 0, NOISE[k]) {
        AtStays(p, q, 0, NOISE[k]);
      } else if |NOISE[k]| <= |p| {
        assert (p + q)[..|NOISE[k]|] == p[..|NOISE[k]|];
      }
    }
  }

  /** At every stage the whole is the two sides joined. */
  ghost predicate Additive(p: string, q: string) {
    forall k: nat | k <= |NOISE| :: Stage(p + q, k) == Stage(p, k) + Stage(q, k)
  }

  lemma EmptyIsAdditive(q: string)
    ensures Additive("", q)
  {
    assert "" + q == q;
    forall k: nat | k <= |NOISE|
      ensures Stage("" + q, k) == Stage("", k) + Stage(q, k)
    {
      StageOfNothing(k);
    }
  }

  lemma TokenAdds(j: nat, r: string, q: string)
    requires j < |NOISE| && FirstNoise(NOISE[j] + r) == FirstNoise(NOISE[j] + (r + q)) == Some(j)
    requires Additive(r, q)
    ensures Additive(NOISE[j] + r, q)
  {
    var p := NOISE[j] + r;
    assert p + q == NOISE[j] + (r + q);
    forall k: nat | k <= |NOISE|
      ensures Stage(p + q, k) == Stage(p, k) + Stage(q, k)
    {
      StageOfToken(r + q, j, k);
      StageOfToken(r, j, k);
    }
  }

  lemma NoJoinBeforeCut(c: char, r: string, q: string)
    requires !JoinsAtFront(c, r + q) && Additive(r, q)
    ensures !JoinsAtFront(c, r)
  {
    forall i | 0 <= i < |NOISE|
      ensures !At([c] + Stage(r, i), 0, NOISE[i])
    {
      var x, y := [c] + Stage(r, i), Stage(q, i);
      assert [c] + Stage(r + q, i) == x + y;
      assert !At(x + y, 0, NOISE[i]);
      if At(x, 0, NOISE[i]) {
        AtStays(x, y, 0, NOISE[i]);
      }
    }
  }

  lemma CharAdds(c: char, r: string, q: string)
    requires !JoinsAtFront(c, r + q) && !JoinsAtFront(c, r) && Additive(r, q)
    ensures Additive([c] + r, q)
  {
    forall k: nat | k <= |NOISE|
      ensures Stage([c] + r + q, k) == Stage([c] + r, k) + Stage(q, k)
    {
      CharAddsAt(c, r, q, k);
    }
  }

  lemma CharAddsAt(c: char, r: string, q: string, k: nat)
    requires k <= |NOISE| && !JoinsAtFront(c, r + q) && !JoinsAtFront(c, r)
    requires Stage(r + q, k) == Stage(r, k) + Stage(q, k)
    ensures Stage([c] + r + q, k) == Stage([c] + r, k) + Stage(q, k)
  {
    StageOfChar(c, r + q, k);
    StageOfChar(c, r, k);
    Associates([c], r, q);
    Associates([c], Stage(r, k), Stage(q, k));
  }

  lemma JoinedOfToken(j: nat, r: string)
    requires j < |NOISE| && FirstNoise(NOISE[j] + r) == Some(j)
    ensures Joined(NOISE[j] + r) <==> Joined(r)
  {
    assert (NOISE[j] + r)[|NOISE[j]|..] == r;
  }

  lemma JoinedOfChar(c: char, r: string)
    requires FirstNoise([c] + r) == None
    ensures Joined([c] + r) <==> JoinsAtFront(c, r) || Joined(r)
  {
    assert ([c] + r)[1..] == r;
  }

  /** A clean cut through a text in which nothing is put together: both sides are such texts, and at
      every stage the whole is the two sides joined. */
  lemma {:induction false} CutsAdd(p: string, q: string)
    requires Clean(p, q) && !Joined(p + q)
    ensures !Joined(p) && !Joined(q) && Additive(p, q)
    decreases |p|
  {
    if p == "" {
      assert p + q == q;
      EmptyIsAdditive(q);
    } else {
      FirstNoiseOfCut(p, q);
      match FirstNoise(p)
      case Some(j) =>
        var n, r := NOISE[j], p[|NOISE[j]|..];
        CleanAfter(p, q, |n|);
        assert p == n + r;
        Associates(n, r, q);
        JoinedOfToken(j, r + q);
        JoinedOfToken(j, r);
        CutsAdd(r, q);
        TokenAdds(j, r, q);
      case None =>
        var c, r := p[0], p[1..];
        CleanAfter(p, q, 1);
        assert p == [c] + r;
        Associates([c], r, q);
        JoinedOfChar(c, r + q);
        JoinedOfChar(c, r);
        CutsAdd(r, q);
        NoJoinBeforeCut(c, r, q);
        CharAdds(c, r, q);
    }
  }

  /** One pass never minds a clean cut. */
  lemma {:induction false} OnePassAdds(p: string, q: string)
    requires Clean(p, q)
    ensures OnePass(p + q) == OnePass(p) + OnePass(q)
    decreases |p|
  {
    if p == "" {
      assert p + q == q;
    } else {
      FirstNoiseOfCut(p, q);
      var d := match FirstNoise(p) case Some(k) => |NOISE[k]| case None => 1;
      CleanAfter(p, q, d);
      assert (p + q)[d..] == p[d..] + q;
      OnePassAdds(p[d..], q);
    }
  }

  // ----- Where something is put together -----

  /** The characters that are not white space. */
  function Visible(s: string): nat {
    if s == "" then 0 else (if IsSpace(s[0]) then 0 else 1) + Visible(s[1..])
  }

  lemma {:induction false} VisibleAdds(s: string, t: string)
    ensures Visible(s + t) == Visible(s) + Visible(t)
    decreases |s|
  {
    if s == "" {
      assert s + t == t;
    } else {
      assert (s + t)[1..] == s[1..] + t;
      VisibleAdds(s[1..], t);
    }
  }

  lemma NoTokenInRest(i: nat, x: string, m: nat, o: nat)
    requires 1 <= i < |NOISE| && m < |NOISE| && o + 1 < |NOISE[i]|
    ensures !At(NOISE[i][1..] + x, o, NOISE[m])
  {
    NoneInside(i, o + 1, m);
    ClashIsFinal(NOISE[i], x, o + 1, NOISE[m]);
    Shifted(NOISE[i] + x, 1, o, NOISE[m]);
    assert (NOISE[i] + x)[1..] == NOISE[i][1..] + x;
  }

  lemma RestOfToken(i: nat, x: string, m: nat)
    requires 1 <= i < |NOISE| && m < |NOISE|
    ensures Del(NOISE[i][1..] + x, NOISE[m]) == NOISE[i][1..] + Del(x, NOISE[m])
  {
    var w := NOISE[i][1..];
    forall o: nat | o < |w|
      ensures !At(w + x, o, NOISE[m])
    {
      NoTokenInRest(i, x, m, o);
    }
    DelSkips(w, x, NOISE[m]);
  }

  lemma JoinTaken(c: char, x: string, n: string, y: string)
    requires n != "" && At([c] + x, 0, n) && y == ([c] + x)[|n|..]
    ensures x == n[1..] + y
  {
    var s := [c] + x;
    assert s == s[..|n|] + y;
    assert x == s[1..];
  }

  /** Once `c` has been taken for the start of a token, the rest of that token is missing from the
      text from then on. */
  lemma {:induction false} AfterJoin(c: char, r: string, i: nat, k: nat)
    requires 1 <= i < k <= |NOISE| && At([c] + Stage(r, i), 0, NOISE[i])
    requires Stage([c] + r, i) == [c] + Stage(r, i)
    ensures Stage(r, k) == NOISE[i][1..] + Stage([c] + r, k)
  {
    if k == i + 1 {
      var y := ([c] + Stage(r, i))[|NOISE[i]|..];
      JoinTaken(c, Stage(r, i), NOISE[i], y);
      RestOfToken(i, y, i);
    } else {
      AfterJoin(c, r, i, k - 1);
      RestOfToken(i, Stage([c] + r, k - 1), k - 1);
    }
  }

  lemma {:induction false} FirstJoin(c: char, r: string, i: nat)
    requires i < |NOISE| && At([c] + Stage(r, i), 0, NOISE[i])
    ensures exists j: nat | j < |NOISE| ::
              At([c] + Stage(r, j), 0, NOISE[j]) && Stage([c] + r, j) == [c] + Stage(r, j)
    decreases i
  {
    if j: nat :| j < i && At([c] + Stage(r, j), 0, NOISE[j]) {
      FirstJoin(c, r, j);
    } else {
      UntilJoin(c, r, i);
    }
  }

  lemma {:induction false} UntilJoin(c: char, r: string, i: nat)
    requires i < |NOISE| && forall j: nat | j < i :: !At([c] + Stage(r, j), 0, NOISE[j])
    ensures Stage([c] + r, i) == [c] + Stage(r, i)
  {
    if i > 0 {
      UntilJoin(c, r, i - 1);
      assert !At([c] + Stage(r, i - 1), 0, NOISE[i - 1]);
      assert ([c] + Stage(r, i - 1))[1..] == Stage(r, i - 1);
    }
  }

  /** What is put together before the last token, being the last token, is gone in the end. */
  lemma GoneInTheEnd(c: char, r: string)
    requires forall j: nat | j < 4 :: !At([c] + Stage(r, j), 0, NOISE[j])
    requires [c] + Stage(r, 4) == NOISE[4]
    ensures Strip([c] + r) == ""
  {
    UntilJoin(c, r, 4);
    assert NOISE[4] + "" == NOISE[4];
    TokenGoes(NOISE[4], "");
    assert Del("", NOISE[4]) == "";
  }

  lemma JoinShortens(c: char, r: string)
    requires JoinsAtFront(c, r) && FirstNoise([c] + r) == None
    ensures Visible(Strip([c] + r)) < Visible(Strip(r))
  {
    var i :| 0 <= i < |NOISE| && At([c] + Stage(r, i), 0, NOISE[i]);
    FirstJoin(c, r, i);
    var j: nat :| j < |NOISE| && At([c] + Stage(r, j), 0, NOISE[j]) && Stage([c] + r, j) == [c] + Stage(r, j);
    if j > 0 {
      AfterJoin(c, r, j, |NOISE|);
      var w := NOISE[j][1..];
      VisibleAdds(w, Strip([c] + r));
      SecondIsBar(j);
      assert Visible(w) >= 1;
    }
  }

  lemma SecondIsBar(j: nat)
    requires j < |NOISE|
    ensures |NOISE[j]| > 1 && NOISE[j][1] == '|'
  {
    assert NOISE[0][1] == '|' && NOISE[1][1] == '|' && NOISE[2][1] == '|' && NOISE[3][1] == '|' && NOISE[4][1] == '|';
  }

  /** The deletions never leave more than one pass does, and they leave less, to the eye, exactly where
      they put a token together. */
  lemma {:induction false} JoinedShows(s: string)
    ensures Visible(Strip(s)) <= Visible(OnePass(s))
    ensures Visible(Strip(s)) < Visible(OnePass(s)) <==> Joined(s)
    decreases |s|
  {
    if s == "" {
      StageOfNothing(|NOISE|);
    } else {
      match FirstNoise(s)
      case Some(k) =>
        var r := s[|NOISE[k]|..];
        assert s == NOISE[k] + r;
        StageOfToken(r, k, |NOISE|);
        JoinedShows(r);
      case None =>
        var c, r := s[0], s[1..];
        assert s == [c] + r;
        JoinedShows(r);
        if JoinsAtFront(c, r) {
          JoinShortens(c, r);
        } else {
          StageOfChar(c, r, |NOISE|);
        }
    }
  }

  /** The five deletions take out just what stands in the text: a test on the text alone. */
  predicate Settled(s: string) {
    Strip(s) == OnePass(s)
  }

  lemma SettledIff(s: string)
    ensures Settled(s) <==> !Joined(s)
  {
    JoinedShows(s);
    if !Joined(s) {
      NotJoinedIsOnePass(s);
    }
  }
}
