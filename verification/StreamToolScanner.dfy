/**
 The streaming side of tool calls: text is passed on as it arrives until a marker that starts a tool
 call stands in it whole, and an end of it that may be the start of one is held back. However the
 text is cut into chunks, what has been passed on after each of them depends only on the text so
 far.
 */
module StreamToolScanner {
  import opened Text

  datatype ToolFormat = Hermes | Mistral | Llama3 | Harmony | DeepSeek | DeepSeekDsml
  {
    /** The markers that start a call in this format. */
    function StartMarkers(): seq<string> {
      match this
      case Hermes => ["<tool_call>", "<function="]
      case Mistral => ["[TOOL_CALLS]"]
      case Llama3 => ["<|python_tag|>"]
      case Harmony => ["<|channel|>commentary"]
      case DeepSeek => ["<\U{FF5C}tool\U{2581}calls\U{2581}begin\U{FF5C}>"]
      case DeepSeekDsml => ["<\U{FF5C}DSML\U{FF5C} calls>"]
    }

    function Markers(): seq<string> {
      StartMarkers() + [BARE_JSON_MARKER, GENERIC_TOOL_CALLS_MARKER]
    }
  }

  const BARE_JSON_MARKER := "{\"name\""
  const GENERIC_TOOL_CALLS_MARKER := "<tool_calls>"

  // ----- What the text so far says -----

  /** `e` is the first marker in the text if there is one (`hit`); otherwise the text from `e` on is
      the most of its end that may be the start of one. */
  ghost predicate IsBoundary(s: string, ms: seq<string>, e: nat, hit: bool) {
    && e <= |s|
    && (hit ==> Starts(s, ms, e) && forall i: nat | i < e :: !Starts(s, ms, i))
    && (!hit ==> forall i: nat :: !Starts(s, ms, i))
    && (!hit ==> (e < |s| ==> MayStart(s, ms, e)) && forall i: nat | i < e :: !MayStart(s, ms, i))
  }

  lemma BoundaryIsUnique(s: string, ms: seq<string>, e: nat, hit: bool, e': nat, hit': bool)
    requires IsBoundary(s, ms, e, hit) && IsBoundary(s, ms, e', hit')
    ensures e == e' && hit == hit'
  {
    assert hit ==> Starts(s, ms, e);
    assert hit' ==> Starts(s, ms, e');
    if !hit {
      assert e < |s| ==> MayStart(s, ms, e);
      assert e' < |s| ==> MayStart(s, ms, e');
    }
  }

  /** No marker stands inside another, past its start. */
  ghost predicate NoneInside(ms: seq<string>) {
    forall m, k, o: nat | m in ms && k in ms && o >= 1 :: !At(m, o, k)
  }

  // ----- More text -----

  lemma NothingStartsBeforeAHit(b: string, d: string, ms: seq<string>, e: nat, i: nat)
    requires NoneInside(ms) && IsBoundary(b, ms, e, true) && i < e
    ensures !Starts(b + d, ms, i)
  {
    var k :| k in ms && At(b, e, k);
    AtStays(b, d, e, k);
    assert !Starts(b, ms, i);
    forall m | m in ms
      ensures !At(b + d, i, m)
    {
      assert !At(b, i, m);
      if At(b + d, i, m) {
        AtWasBegun(b, d, i, m);
        InsideOf(b + d, i, m, e, k);
      }
    }
  }

  /** Nothing that was passed on turns out to start a marker, whatever follows. */
  lemma NothingStartsBefore(b: string, d: string, ms: seq<string>, e: nat, hit: bool, i: nat)
    requires NoneInside(ms) && IsBoundary(b, ms, e, hit) && i < e
    ensures !Starts(b + d, ms, i)
    ensures !hit ==> !MayStart(b + d, ms, i)
  {
    if hit {
      NothingStartsBeforeAHit(b, d, ms, e, i);
    } else {
      assert !Starts(b, ms, i) && !MayStart(b, ms, i);
      if Starts(b + d, ms, i) {
        StartsWasSeen(b, d, ms, i);
      }
      if MayStart(b + d, ms, i) {
        MayStartWasSeen(b, d, ms, i);
      }
    }
  }

  lemma InRegionStays(b: string, d: string, ms: seq<string>, e: nat)
    requires NoneInside(ms) && IsBoundary(b, ms, e, true)
    ensures IsBoundary(b + d, ms, e, true)
  {
    StartsStays(b, d, ms, e);
    forall i: nat | i < e
      ensures !Starts(b + d, ms, i)
    {
      NothingStartsBefore(b, d, ms, e, true, i);
    }
  }

  /** The boundary only moves forward. */
  lemma BoundaryGrows(b: string, d: string, ms: seq<string>, e: nat, hit: bool, e': nat, hit': bool)
    requires NoneInside(ms) && IsBoundary(b, ms, e, hit) && IsBoundary(b + d, ms, e', hit')
    ensures e <= e' && (hit ==> e == e' && hit')
  {
    if hit {
      InRegionStays(b, d, ms, e);
      BoundaryIsUnique(b + d, ms, e, true, e', hit');
    } else if e' < e {
      NothingStartsBefore(b, d, ms, e, hit, e');
    }
  }

  // ----- The scanner -----

  /** How many trailing characters may be the start of `marker`. */
  method PartialMarkerOverlap(buf: string, marker: string) returns (k: nat)
    requires marker != []
    ensures k < |marker| && k <= |buf|
    ensures k > 0 ==> Begins(buf, |buf| - k, marker)
    ensures forall i: nat | i < |buf| - k :: !Begins(buf, i, marker)
  {
    k := if |buf| < |marker| then |buf| else |marker| - 1;
    while k > 0
      invariant k < |marker| || (k == |marker| - 1)
      invariant k <= |buf|
      invariant forall i: nat | i < |buf| - k :: !Begins(buf, i, marker)
    {
      if buf[|buf| - k..] == marker[..k] {
        return;
      }
      k := k - 1;
    }
  }

  /** The first place at or after `from` where a marker starts. */
  method FirstMarker(buf: string, from: nat, markers: seq<string>) returns (first: Option<nat>)
    requires from <= |buf|
    ensures first.Some? ==> from <= first.value <= |buf| && Starts(buf, markers, first.value)
    ensures first.Some? ==> forall i: nat | from <= i < first.value :: !Starts(buf, markers, i)
    ensures first.None? ==> forall i: nat | from <= i :: !Starts(buf, markers, i)
  {
    first := None;
    ghost var seen := [];
    for n := 0 to |markers|
      invariant seen == markers[..n]
      invariant first.Some? ==> from <= first.value <= |buf| && Starts(buf, seen, first.value)
      invariant forall i: nat | from <= i && (first.Some? ==> i < first.value) :: !Starts(buf, seen, i)
    {
      var m := markers[n];
      var found := Find(buf, m, from);
      FindFromIs(buf, m, from);
      if found.Some? {
        if first.None? || found.value < first.value {
          first := found;
        }
      }
      ghost var before := seen;
      seen := seen + [m];
      forall i: nat
        ensures Starts(buf, seen, i) <==> Starts(buf, before, i) || At(buf, i, m)
      {
        OneMore(buf, before, m, i);
      }
    }
    assert markers[..|markers|] == markers;
  }

  /** How many trailing characters may be the start of some marker. */
  method HoldBack(buf: string, markers: seq<string>) returns (hold: nat)
    requires forall m | m in markers :: m != []
    ensures hold <= |buf|
    ensures hold > 0 ==> MayStart(buf, markers, |buf| - hold)
    ensures forall i: nat | i < |buf| - hold :: !MayStart(buf, markers, i)
  {
    hold := 0;
    ghost var seen := [];
    for n := 0 to |markers|
      invariant seen == markers[..n]
      invariant hold <= |buf|
      invariant hold > 0 ==> MayStart(buf, seen, |buf| - hold)
      invariant forall i: nat | i < |buf| - hold :: !MayStart(buf, seen, i)
    {
      var m := markers[n];
      assert m in markers;
      var k := PartialMarkerOverlap(buf, m);
      if k > hold {
        hold := k;
      }
      ghost var before := seen;
      seen := seen + [m];
      forall i: nat
        ensures MayStart(buf, seen, i) <==> MayStart(buf, before, i) || Begins(buf, i, m)
      {
        OneMore(buf, before, m, i);
      }
    }
    assert markers[..|markers|] == markers;
  }

  class Scanner {
    const format: ToolFormat
    const markers: seq<string>
    var buf: string
    var emitted: nat
    var inToolRegion: bool

    /** Where the scanner stands is what the text so far says. */
    ghost predicate Valid()
      reads this
    {
      && markers == format.Markers()
      && IsBoundary(buf, markers, emitted, inToolRegion)
    }

    constructor (f: ToolFormat)
      ensures Valid() && format == f && markers == f.Markers() && buf == "" && emitted == 0
    {
      format, markers := f, f.Markers();
      buf, emitted, inToolRegion := "", 0, false;
      new;
      RealMarkers(f);
    }

    /** Take a chunk; give back what may be passed on now. */
    method Push(delta: string) returns (out: string)
      requires Valid()
      modifies this`buf, this`emitted, this`inToolRegion
      ensures Valid() && buf == old(buf) + delta
      ensures old(emitted) <= emitted && out == buf[old(emitted)..emitted]
      ensures out == Passed(old(buf), delta, format)
    {
      ghost var b, was, hit := buf, emitted, inToolRegion;
      RealMarkers(format);
      buf := buf + delta;
      if inToolRegion {
        InRegionStays(b, delta, markers, emitted);
        PassedIs(b, delta, format, was, emitted, hit, true);
        return "";
      }
      forall i: nat | i < emitted
        ensures !Starts(buf, markers, i) && !MayStart(buf, markers, i)
      {
        NothingStartsBefore(b, delta, markers, emitted, false, i);
      }
      out := LetGo();
      PassedIs(b, delta, format, was, emitted, hit, inToolRegion);
    }

    /** Before any marker: pass on what comes before the first, or all but the end that may start one. */
    method LetGo() returns (out: string)
      requires markers == format.Markers() && !inToolRegion && emitted <= |buf| && forall m | m in markers :: m != []
      requires forall i: nat | i < emitted :: !Starts(buf, markers, i) && !MayStart(buf, markers, i)
      modifies this`emitted, this`inToolRegion
      ensures IsBoundary(buf, markers, emitted, inToolRegion)
      ensures old(emitted) <= emitted <= |buf| && out == buf[old(emitted)..emitted]
    {
      var first := FirstMarker(buf, emitted, markers);
      if first.Some? {
        out := buf[emitted..first.value];
        emitted, inToolRegion := first.value, true;
      } else {
        var hold := HoldBack(buf, markers);
        var safeEnd := |buf| - hold;
        if safeEnd <= emitted {
          out := "";
        } else {
          out := buf[emitted..safeEnd];
          emitted := safeEnd;
        }
      }
    }

    /** What was held back, to be passed on after all if it holds no call. A start marker alone is not
        content. */
    method Unstreamed() returns (rest: string)
      requires Valid()
      ensures rest == if Trim(buf[emitted..]) in markers then "" else buf[emitted..]
    {
      rest := buf[emitted..];
      if Trim(rest) in markers {
        rest := "";
      }
    }
  }

  // ----- The markers there are -----

  predicate IsOpener(c: char) { c == '<' || c == '[' || c == '{' }

  predicate OneOpener(m: string) {
    m != [] && IsOpener(m[0]) && forall i | 1 <= i < |m| :: !IsOpener(m[i])
  }

  lemma OneOpenerEach(ms: seq<string>)
    requires forall m | m in ms :: OneOpener(m)
    ensures NoneInside(ms)
  {
    forall m, k, o: nat | m in ms && k in ms && o >= 1
      ensures !At(m, o, k)
    {
      if o + |k| <= |m| {
        assert m[o] == m[o..o + |k|][0];
      }
    }
  }

  lemma MarkersAreOneOpener(f: ToolFormat)
    ensures forall m | m in f.Markers() :: OneOpener(m)
  {
    assert OneOpener(BARE_JSON_MARKER);
    assert OneOpener(GENERIC_TOOL_CALLS_MARKER);
    StartMarkersAreOneOpener(f);
  }

  lemma StartMarkersAreOneOpener(f: ToolFormat)
    ensures forall m | m in f.StartMarkers() :: OneOpener(m)
  {
    if f.DeepSeek? || f.DeepSeekDsml? || f.Harmony? {
      LaterMarkersAreOneOpener(f);
    }
  }

  lemma LaterMarkersAreOneOpener(f: ToolFormat)
    requires f.DeepSeek? || f.DeepSeekDsml? || f.Harmony?
    ensures forall m | m in f.StartMarkers() :: OneOpener(m)
  {}

  /** Every format's markers are told apart by their first character. */
  lemma RealMarkers(f: ToolFormat)
    ensures forall m | m in f.Markers() :: m != []
    ensures NoneInside(f.Markers())
    ensures IsBoundary("", f.Markers(), 0, false)
  {
    MarkersAreOneOpener(f);
    OneOpenerEach(f.Markers());
  }

  // ----- Any way of cutting the text -----

  /** What the scanner has passed on once it has seen `s`. */
  ghost function Boundary(s: string, f: ToolFormat): (e: nat)
    ensures exists hit :: IsBoundary(s, f.Markers(), e, hit)
  {
    BoundaryExists(s, f);
    var e, hit :| IsBoundary(s, f.Markers(), e, hit);
    e
  }

  lemma BoundaryExists(s: string, f: ToolFormat)
    ensures exists e, hit :: IsBoundary(s, f.Markers(), e, hit)
  {
    var ms := f.Markers();
    if i: nat :| Starts(s, ms, i) {
      var e := Least(s, ms, i, true);
      assert IsBoundary(s, ms, e, true);
    } else {
      var e := Least(s, ms, |s|, false);
      assert IsBoundary(s, ms, e, false);
    }
  }

  ghost function Least(s: string, ms: seq<string>, i: nat, whole: bool): (e: nat)
    requires whole ==> Starts(s, ms, i)
    ensures e <= i && (whole ==> Starts(s, ms, e)) && (!whole ==> e == i || MayStart(s, ms, e))
    ensures forall j: nat | j < e :: if whole then !Starts(s, ms, j) else !MayStart(s, ms, j)
  {
    if j: nat :| j < i && if whole then Starts(s, ms, j) else MayStart(s, ms, j) then Least(s, ms, j, whole) else i
  }

  lemma BoundaryIs(s: string, f: ToolFormat, e: nat, hit: bool)
    requires IsBoundary(s, f.Markers(), e, hit)
    ensures Boundary(s, f) == e
  {
    var b := Boundary(s, f);
    var h :| IsBoundary(s, f.Markers(), b, h);
    BoundaryIsUnique(s, f.Markers(), e, hit, b, h);
  }

  /** What a chunk lets through, after `before`. */
  ghost function Passed(before: string, delta: string, f: ToolFormat): (out: string)
    ensures Boundary(before, f) <= Boundary(before + delta, f) <= |before + delta|
  {
    RealMarkers(f);
    var hit :| IsBoundary(before, f.Markers(), Boundary(before, f), hit);
    var hit' :| IsBoundary(before + delta, f.Markers(), Boundary(before + delta, f), hit');
    BoundaryGrows(before, delta, f.Markers(), Boundary(before, f), hit, Boundary(before + delta, f), hit');
    (before + delta)[Boundary(before, f)..Boundary(before + delta, f)]
  }

  lemma PassedIs(b: string, d: string, f: ToolFormat, e: nat, e': nat, hit: bool, hit': bool)
    requires IsBoundary(b, f.Markers(), e, hit) && IsBoundary(b + d, f.Markers(), e', hit')
    ensures e <= e' && Passed(b, d, f) == (b + d)[e..e']
  {
    BoundaryIs(b, f, e, hit);
    BoundaryIs(b + d, f, e', hit');
    assert e == Boundary(b, f) <= Boundary(b + d, f) by { var p := Passed(b, d, f); }
  }

  /** What the chunks let through together: the pieces `Push` gives back, in order. */
  ghost function Streamed(before: string, chunks: seq<string>, f: ToolFormat): string
    decreases |chunks|
  {
    if chunks == [] then ""
    else Passed(before, chunks[0], f) + Streamed(before + chunks[0], chunks[1..], f)
  }

  lemma Join(now: string, rest: string, a: nat, b: nat, c: nat)
    requires a <= b <= |now| && b <= c <= |now + rest|
    ensures now[a..b] + (now + rest)[b..c] == (now + rest)[a..c]
  {}

  lemma {:induction false} StreamedIs(before: string, chunks: seq<string>, f: ToolFormat)
    ensures
      var all := before + Concat(chunks);
      && Boundary(before, f) <= Boundary(all, f) <= |all|
      && Streamed(before, chunks, f) == all[Boundary(before, f)..Boundary(all, f)]
    decreases |chunks|
  {
    var all := before + Concat(chunks);
    if chunks == [] {
      assert all == before;
      var p := Passed(before, "", f);
      assert before + "" == before;
    } else {
      var now := before + chunks[0];
      var p := Passed(before, chunks[0], f);
      StreamedIs(now, chunks[1..], f);
      assert all == now + Concat(chunks[1..]);
      Join(now, Concat(chunks[1..]), Boundary(before, f), Boundary(now, f), Boundary(all, f));
    }
  }

  /** However a text is cut, the pieces passed on join up to the text before the boundary: before the
      first marker if there is one, and otherwise all but the end that may start one. */
  lemma ChunkingIsFree(chunks: seq<string>, f: ToolFormat)
    ensures exists hit :: IsBoundary(Concat(chunks), f.Markers(), Boundary(Concat(chunks), f), hit)
    ensures Streamed("", chunks, f) == Concat(chunks)[..Boundary(Concat(chunks), f)]
  {
    RealMarkers(f);
    BoundaryIs("", f, 0, false);
    StreamedIs("", chunks, f);
    assert "" + Concat(chunks) == Concat(chunks);
  }

  /** No marker is ever cut by the boundary or lies before it, however the text goes on. */
  lemma NoMarkerIsPassedOn(s: string, f: ToolFormat, rest: string, i: nat)
    requires i < Boundary(s, f)
    ensures !Starts(s + rest, f.Markers(), i)
  {
    RealMarkers(f);
    var hit :| IsBoundary(s, f.Markers(), Boundary(s, f), hit);
    NothingStartsBefore(s, rest, f.Markers(), Boundary(s, f), hit, i);
  }

  lemma Completed(s: string, e: nat, m: string)
    requires Begins(s, e, m)
    ensures At(s + m[|s| - e..], e, m)
  {
    var rest := m[|s| - e..];
    assert (s + rest)[e..e + |m|] == s[e..] + rest;
  }

  /** Nothing is held back for longer than it must be: without a marker in the text so far, what is
      held back could still become one. */
  lemma HeldBackForAReason(s: string, f: ToolFormat)
    requires IsBoundary(s, f.Markers(), Boundary(s, f), false)
    requires Boundary(s, f) < |s|
    ensures exists rest :: Starts(s + rest, f.Markers(), Boundary(s, f))
  {
    var e := Boundary(s, f);
    var m :| m in f.Markers() && Begins(s, e, m);
    Completed(s, e, m);
  }

  // ----- Where a call stops the text -----

  /** The markers, format by format; bare JSON and the generic tag in every one. */
  predicate IsMarker(f: ToolFormat, m: string) {
    || (f == Hermes && (m == "<tool_call>" || m == "<function="))
    || (f == Mistral && m == "[TOOL_CALLS]")
    || (f == Llama3 && m == "<|python_tag|>")
    || (f == Harmony && m == "<|channel|>commentary")
    || (f == DeepSeek && m == "<\U{FF5C}tool\U{2581}calls\U{2581}begin\U{FF5C}>")
    || (f == DeepSeekDsml && m == "<\U{FF5C}DSML\U{FF5C} calls>")
    || m == "{\"name\"" || m == "<tool_calls>"
  }

  lemma MarkersAre(f: ToolFormat, m: string)
    ensures m in f.Markers() <==> IsMarker(f, m)
  {
    var own, both := f.StartMarkers(), [BARE_JSON_MARKER, GENERIC_TOOL_CALLS_MARKER];
    assert m in f.Markers() <==> m in own || m in both;
  }

  ghost predicate NoMarker(f: ToolFormat, s: string) {
    forall i: nat, m | IsMarker(f, m) :: !At(s, i, m)
  }

  /** No marker runs from the text into the marker after it. */
  lemma NoneRunsOver(f: ToolFormat, before: string, m: string, x: string, i: nat, k: string)
    requires NoMarker(f, before) && IsMarker(f, k) && OneOpener(k) && OneOpener(m) && i < |before|
    ensures !At(before + (m + x), i, k)
  {
    var s, p := before + (m + x), |before| - i;
    if p >= |k| {
      assert !At(before, i, k);
      if i + |k| <= |s| {
        assert s[i..i + |k|] == before[i..i + |k|];
      }
    } else {
      assert s[i + p] == m[0];
      OtherChar(s, i, k, p);
    }
  }

  lemma MarkerIsBoundary(f: ToolFormat, m: string, before: string, x: string)
    requires IsMarker(f, m) && NoMarker(f, before)
    ensures IsBoundary(before + (m + x), f.Markers(), |before|, true)
  {
    var s, ms := before + (m + x), f.Markers();
    MarkersAre(f, m);
    MarkersAreOneOpener(f);
    assert s[|before|..|before| + |m|] == m;
    assert At(s, |before|, m) && m in ms;
    forall i: nat | i < |before|
      ensures !Starts(s, ms, i)
    {
      forall k | k in ms
        ensures !At(s, i, k)
      {
        MarkersAre(f, k);
        NoneRunsOver(f, before, m, x, i, k);
      }
    }
  }

  /** However it is cut: of a text in which a marker of the format stands, what comes before the first of
      them is passed on, and nothing else. */
  lemma StopsAtMarker(f: ToolFormat, m: string, before: string, x: string, chunks: seq<string>)
    requires IsMarker(f, m) && NoMarker(f, before) && Concat(chunks) == before + (m + x)
    ensures Streamed("", chunks, f) == before
  {
    var s := before + (m + x);
    MarkerIsBoundary(f, m, before, x);
    BoundaryIs(s, f, |before|, true);
    ChunkingIsFree(chunks, f);
    assert s[..|before|] == before;
  }
}
