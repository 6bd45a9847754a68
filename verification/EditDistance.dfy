/**
 Word errors: the one-row dynamic program gives the least number of single-word edits (a word in, a
 word out, a word for another) that turn one list of words into the other.
 */
module EditDistance {

  type Word = string

  function Min(a: nat, b: nat): nat { if a <= b then a else b }

  /** The recurrence the table is filled by, on the ends of the two lists. */
  function Distance(a: seq<Word>, b: seq<Word>): nat
    decreases |a| + |b|
  {
    if a == [] then |b|
    else if b == [] then |a|
    else
      var x, y := a[..|a| - 1], b[..|b| - 1];
      Min(Min(Distance(x, b) + 1, Distance(a, y) + 1), Distance(x, y) + if a[|a| - 1] != b[|b| - 1] then 1 else 0)
  }

  lemma Ends(x: seq<Word>, r: Word, y: seq<Word>, h: Word)
    ensures Distance(x + [r], y + [h]) ==
            Min(Min(Distance(x, y + [h]) + 1, Distance(x + [r], y) + 1), Distance(x, y) + if r != h then 1 else 0)
  {
    var a, b := x + [r], y + [h];
    assert a[..|a| - 1] == x && b[..|b| - 1] == y;
  }

  lemma EndsEmpty(a: seq<Word>)
    ensures Distance(a, []) == |a| && Distance([], a) == |a|
  {}

  function Cell(a: seq<Word>, b: seq<Word>, i: nat, j: nat): nat
    requires i <= |a| && j <= |b|
  {
    Distance(a[..i], b[..j])
  }

  /** One row, overwritten in place for each word of the reference. */
  method Edits(ref: seq<Word>, hyp: seq<Word>) returns (errors: nat)
    ensures errors == Distance(ref, hyp)
  {
    var n := |hyp|;
    var row := new nat[n + 1](j => j);
    for i := 0 to |ref|
      invariant forall j | 0 <= j <= n :: row[j] == Cell(ref, hyp, i, j)
    {
      NextRow(row, ref, hyp, i);
    }
    assert ref[..|ref|] == ref && hyp[..n] == hyp;
    return row[n];
  }

  /** Row `i` becomes row `i + 1`. */
  method NextRow(row: array<nat>, ref: seq<Word>, hyp: seq<Word>, i: nat)
    requires i < |ref| && row.Length == |hyp| + 1
    requires forall j | 0 <= j <= |hyp| :: row[j] == Cell(ref, hyp, i, j)
    modifies row
    ensures forall j | 0 <= j <= |hyp| :: row[j] == Cell(ref, hyp, i + 1, j)
  {
    var prev := row[0];
    row[0] := i + 1;
    assert hyp[..0] == [];
    for j := 0 to |hyp|
      invariant prev == Cell(ref, hyp, i, j)
      invariant forall k | 0 <= k <= j :: row[k] == Cell(ref, hyp, i + 1, k)
      invariant forall k | j < k <= |hyp| :: row[k] == old(row[k])
    {
      var above := row[j + 1];
      var cur := Min(Min(above + 1, row[j] + 1), prev + if ref[i] != hyp[j] then 1 else 0);
      CellAt(ref, hyp, i, j);
      prev, row[j + 1] := above, cur;
    }
  }

  lemma CellAt(a: seq<Word>, b: seq<Word>, i: nat, j: nat)
    requires i < |a| && j < |b|
    ensures Cell(a, b, i + 1, j + 1) ==
            Min(Min(Cell(a, b, i, j + 1) + 1, Cell(a, b, i + 1, j) + 1), Cell(a, b, i, j) + if a[i] != b[j] then 1 else 0)
  {
    var c, d := a[..i + 1], b[..j + 1];
    assert c[..i] == a[..i] && d[..j] == b[..j];
  }

  // ----- Edits -----

  /** `c` is `a` with one word more, at `k`. */
  predicate Inserted(a: seq<Word>, c: seq<Word>, k: nat) {
    k < |c| && a == c[..k] + c[k + 1..]
  }

  /** `c` is `a` with another word at `k`. */
  predicate Replaced(a: seq<Word>, c: seq<Word>, k: nat) {
    |a| == |c| && k < |a| && a[k] != c[k] && a[..k] == c[..k] && a[k + 1..] == c[k + 1..]
  }

  predicate EditAt(a: seq<Word>, c: seq<Word>, k: nat) {
    Inserted(a, c, k) || Inserted(c, a, k) || Replaced(a, c, k)
  }

  ghost predicate OneEdit(a: seq<Word>, c: seq<Word>) {
    exists k: nat :: EditAt(a, c, k)
  }

  /** An edit script: the lists it passes through, one edit apart. */
  ghost predicate Script(path: seq<seq<Word>>, a: seq<Word>, b: seq<Word>) {
    && path != [] && path[0] == a && path[|path| - 1] == b
    && forall i | 0 < i < |path| :: OneEdit(path[i - 1], path[i])
  }

  // ----- No script is shorter -----

  lemma {:induction false} LastWord(x: seq<Word>, w: Word, b: seq<Word>)
    ensures Distance(x + [w], b) <= Distance(x, b) + 1
    ensures Distance(x, b) <= Distance(x + [w], b) + 1
    decreases |b|
  {
    if b == [] {
      EndsEmpty(x);
      EndsEmpty(x + [w]);
    } else {
      var y, h := b[..|b| - 1], b[|b| - 1];
      assert b == y + [h];
      Ends(x, w, y, h);
      LastWord(x, w, y);
      LastColumn(x, y, h);
    }
  }

  lemma LastColumn(a: seq<Word>, y: seq<Word>, h: Word)
    ensures Distance(a, y + [h]) <= Distance(a, y) + 1
  {
    if a == [] {
      EndsEmpty(y);
      EndsEmpty(y + [h]);
    } else {
      var x := a[..|a| - 1];
      assert a == x + [a[|a| - 1]];
      Ends(x, a[|a| - 1], y, h);
    }
  }

  lemma {:induction false} LastWords(x: seq<Word>, v: Word, w: Word, b: seq<Word>)
    ensures Distance(x + [v], b) <= Distance(x + [w], b) + 1
    decreases |b|
  {
    if b == [] {
      EndsEmpty(x + [v]);
      EndsEmpty(x + [w]);
    } else {
      var y, h := b[..|b| - 1], b[|b| - 1];
      assert b == y + [h];
      Ends(x, v, y, h);
      Ends(x, w, y, h);
      LastWords(x, v, w, y);
    }
  }

  /** Before a common last word, an edit costs no more than it does without it. */
  lemma SameLast(a: seq<Word>, c: seq<Word>, w: Word, y: seq<Word>, h: Word)
    requires Distance(a, y + [h]) <= Distance(c, y + [h]) + 1
    requires Distance(a + [w], y) <= Distance(c + [w], y) + 1
    requires Distance(a, y) <= Distance(c, y) + 1
    ensures Distance(a + [w], y + [h]) <= Distance(c + [w], y + [h]) + 1
  {
    Ends(a, w, y, h);
    Ends(c, w, y, h);
  }

  /** The edit is the last thing that happens to the longer of the two. */
  predicate AtEnd(a: seq<Word>, c: seq<Word>, k: nat) {
    (Inserted(a, c, k) && k == |c| - 1) || (Inserted(c, a, k) && k == |a| - 1) || (Replaced(a, c, k) && k == |a| - 1)
  }

  lemma EndCostsOne(a: seq<Word>, c: seq<Word>, k: nat, b: seq<Word>)
    requires AtEnd(a, c, k)
    ensures Distance(a, b) <= Distance(c, b) + 1
  {
    if Inserted(a, c, k) && k == |c| - 1 {
      assert c == a + [c[k]];
      LastWord(a, c[k], b);
    } else if Inserted(c, a, k) && k == |a| - 1 {
      assert a == c + [a[k]];
      LastWord(c, a[k], b);
    } else {
      assert a == a[..k] + [a[k]] && c == a[..k] + [c[k]];
      LastWords(a[..k], a[k], c[k], b);
    }
  }

  lemma InsertedBefore(a: seq<Word>, c: seq<Word>, k: nat)
    requires Inserted(a, c, k) && k < |c| - 1
    ensures Inserted(a[..|a| - 1], c[..|c| - 1], k) && a[|a| - 1] == c[|c| - 1]
  {
    var z := c[..|c| - 1];
    var tail := c[k + 1..];
    assert a[|a| - 1] == tail[|tail| - 1] == c[|c| - 1];
    assert z[..k] == c[..k] && z[k + 1..] == tail[..|tail| - 1];
    assert a[..|a| - 1] == c[..k] + tail[..|tail| - 1];
  }

  lemma ReplacedBefore(a: seq<Word>, c: seq<Word>, k: nat)
    requires Replaced(a, c, k) && k < |a| - 1
    ensures Replaced(a[..|a| - 1], c[..|c| - 1], k) && a[|a| - 1] == c[|c| - 1]
  {
    var x, z, n := a[..|a| - 1], c[..|c| - 1], |a| - k - 2;
    assert a[|a| - 1] == a[k + 1..][n] == c[k + 1..][n] == c[|c| - 1];
    assert x[..k] == a[..k] && z[..k] == c[..k];
    assert x[k + 1..] == a[k + 1..][..n] && z[k + 1..] == c[k + 1..][..n];
  }

  /** An edit that is not at the end leaves the last word alone. */
  lemma EditBefore(a: seq<Word>, c: seq<Word>, k: nat) returns (x: seq<Word>, z: seq<Word>, w: Word)
    requires EditAt(a, c, k) && !AtEnd(a, c, k)
    ensures a == x + [w] && c == z + [w] && EditAt(x, z, k)
  {
    x, z, w := a[..|a| - 1], c[..|c| - 1], a[|a| - 1];
    if Inserted(a, c, k) {
      InsertedBefore(a, c, k);
    } else if Inserted(c, a, k) {
      InsertedBefore(c, a, k);
    } else {
      ReplacedBefore(a, c, k);
    }
  }

  lemma EditIsOneLonger(a: seq<Word>, c: seq<Word>, k: nat)
    requires EditAt(a, c, k)
    ensures |a| <= |c| + 1
  {}

  /** One edit changes the distance to any list by one at most. */
  lemma {:induction false} EditCostsOne(a: seq<Word>, c: seq<Word>, k: nat, b: seq<Word>)
    requires EditAt(a, c, k)
    ensures Distance(a, b) <= Distance(c, b) + 1
    decreases |a| + |c| + |b|
  {
    if AtEnd(a, c, k) {
      EndCostsOne(a, c, k, b);
    } else if b == [] {
      EditIsOneLonger(a, c, k);
      EndsEmpty(a);
      EndsEmpty(c);
    } else {
      var x, z, w := EditBefore(a, c, k);
      var y, h := b[..|b| - 1], b[|b| - 1];
      assert b == y + [h];
      EditCostsOne(x, z, k, b);
      EditCostsOne(a, c, k, y);
      EditCostsOne(x, z, k, y);
      SameLast(x, z, w, y, h);
    }
  }

  lemma {:induction false} NoScriptIsShorter(path: seq<seq<Word>>, a: seq<Word>, b: seq<Word>)
    requires Script(path, a, b)
    ensures Distance(a, b) <= |path| - 1
    decreases |path|
  {
    if |path| == 1 {
      NoDistance(a);
    } else {
      var rest := path[1..];
      assert forall i | 0 < i < |rest| :: rest[i - 1] == path[i] && rest[i] == path[i + 1];
      assert OneEdit(path[0], path[1]);
      NoScriptIsShorter(rest, path[1], b);
      var k: nat :| EditAt(a, path[1], k);
      EditCostsOne(a, path[1], k, b);
    }
  }

  lemma {:induction false} NoDistance(a: seq<Word>)
    ensures Distance(a, a) == 0
    decreases |a|
  {
    if a != [] {
      NoDistance(a[..|a| - 1]);
    }
  }

  // ----- There is a script as short -----

  lemma Append(path: seq<seq<Word>>, a: seq<Word>, b: seq<Word>, c: seq<Word>, k: nat)
    requires Script(path, a, b) && EditAt(b, c, k)
    ensures Script(path + [c], a, c)
  {
    var all := path + [c];
    forall i | 0 < i < |all|
      ensures OneEdit(all[i - 1], all[i])
    {
      if i < |path| {
        assert OneEdit(path[i - 1], path[i]);
      }
    }
  }

  lemma Prepend(path: seq<seq<Word>>, z: seq<Word>, a: seq<Word>, b: seq<Word>, k: nat)
    requires Script(path, a, b) && EditAt(z, a, k)
    ensures Script([z] + path, z, b)
  {
    var all := [z] + path;
    forall i | 0 < i < |all|
      ensures OneEdit(all[i - 1], all[i])
    {
      if i > 1 {
        assert OneEdit(path[i - 2], path[i - 1]);
      }
    }
  }

  lemma EditUnder(a: seq<Word>, c: seq<Word>, k: nat, w: Word)
    requires EditAt(a, c, k)
    ensures EditAt(a + [w], c + [w], k)
  {
    if Inserted(a, c, k) {
      assert a + [w] == (c + [w])[..k] + (c + [w])[k + 1..];
    } else if Inserted(c, a, k) {
      assert c + [w] == (a + [w])[..k] + (a + [w])[k + 1..];
    } else {
      assert (a + [w])[..k] == a[..k] && (c + [w])[..k] == c[..k];
      assert (a + [w])[k + 1..] == a[k + 1..] + [w] && (c + [w])[k + 1..] == c[k + 1..] + [w];
    }
  }

  /** Every list of a script with a word more at its end. */
  lemma Under(path: seq<seq<Word>>, a: seq<Word>, b: seq<Word>, w: Word) returns (all: seq<seq<Word>>)
    requires Script(path, a, b)
    ensures Script(all, a + [w], b + [w]) && |all| == |path|
  {
    all := seq(|path|, i requires 0 <= i < |path| => path[i] + [w]);
    forall i | 0 < i < |all|
      ensures OneEdit(all[i - 1], all[i])
    {
      assert OneEdit(path[i - 1], path[i]);
      var k: nat :| EditAt(path[i - 1], path[i], k);
      EditUnder(path[i - 1], path[i], k, w);
    }
  }

  lemma {:induction false} ScriptExists(a: seq<Word>, b: seq<Word>) returns (path: seq<seq<Word>>)
    ensures Script(path, a, b) && |path| == Distance(a, b) + 1
    decreases |a| + |b|
  {
    if a == [] && b == [] {
      path := [a];
    } else if a == [] || (b != [] && Distance(a, b) == Distance(a, b[..|b| - 1]) + 1) {
      var y := b[..|b| - 1];
      path := ScriptExists(a, y);
      assert Inserted(y, b, |b| - 1);
      Append(path, a, y, b, |b| - 1);
      path := path + [b];
    } else if b == [] || Distance(a, b) == Distance(a[..|a| - 1], b) + 1 {
      var x := a[..|a| - 1];
      path := ScriptExists(x, b);
      assert Inserted(x, a, |a| - 1);
      Prepend(path, a, x, b, |a| - 1);
      path := [a] + path;
    } else {
      path := LastWordsKept(a, b);
    }
  }

  lemma {:induction false} LastWordsKept(a: seq<Word>, b: seq<Word>) returns (path: seq<seq<Word>>)
    requires a != [] && b != []
    requires Distance(a, b) == Distance(a[..|a| - 1], b[..|b| - 1]) + if a[|a| - 1] != b[|b| - 1] then 1 else 0
    ensures Script(path, a, b) && |path| == Distance(a, b) + 1
    decreases |a| + |b|, 0
  {
    var x, y, r, h := a[..|a| - 1], b[..|b| - 1], a[|a| - 1], b[|b| - 1];
    path := ScriptExists(x, y);
    path := Under(path, x, y, r);
    assert a == x + [r] && b == y + [h];
    if r != h {
      assert Replaced(y + [r], b, |y|);
      Append(path, a, y + [r], b, |y|);
      path := path + [b];
    }
  }

  // ----- What the distance is -----

  /** The distance is the length of the shortest edit script. */
  lemma IsShortest(a: seq<Word>, b: seq<Word>)
    ensures exists path :: Script(path, a, b) && |path| - 1 == Distance(a, b)
    ensures forall path | Script(path, a, b) :: Distance(a, b) <= |path| - 1
  {
    var path := ScriptExists(a, b);
    forall p | Script(p, a, b)
      ensures Distance(a, b) <= |p| - 1
    {
      NoScriptIsShorter(p, a, b);
    }
  }

  lemma IsZeroIff(a: seq<Word>, b: seq<Word>)
    ensures Distance(a, b) == 0 <==> a == b
  {
    NoDistance(a);
    var path := ScriptExists(a, b);
  }

  lemma IsSymmetric(a: seq<Word>, b: seq<Word>)
    ensures Distance(a, b) == Distance(b, a)
    decreases |a| + |b|
  {
    if a != [] && b != [] {
      IsSymmetric(a[..|a| - 1], b);
      IsSymmetric(a, b[..|b| - 1]);
      IsSymmetric(a[..|a| - 1], b[..|b| - 1]);
    }
  }

  lemma Triangle(a: seq<Word>, b: seq<Word>, c: seq<Word>)
    ensures Distance(a, c) <= Distance(a, b) + Distance(b, c)
  {
    var p := ScriptExists(a, b);
    var q := ScriptExists(b, c);
    var all := p + q[1..];
    forall i | 0 < i < |all|
      ensures OneEdit(all[i - 1], all[i])
    {
      if i < |p| {
        assert OneEdit(p[i - 1], p[i]);
      } else {
        var j := i - |p| + 1;
        assert OneEdit(q[j - 1], q[j]);
        assert all[i] == q[j] && all[i - 1] == q[j - 1];
      }
    }
    assert all[|all| - 1] == c;
    NoScriptIsShorter(all, a, c);
  }
}
