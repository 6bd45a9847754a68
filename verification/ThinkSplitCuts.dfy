/**
 Cutting a stream into chunks makes no difference to how it splits into reasoning and answer: what a
 push of two chunks joined does, the pushes of the two do one after the other.
 */
module ThinkSplitCuts {
  import opened Text
  import opened HarmonyNoise
  import opened ThinkSplit

  /** The tags that matter for what is held back. */
  function Watched(inside: bool, close: string): seq<string> {
    Candidates(inside, close) + NOISE
  }

  // ----- Tags as more text arrives -----

  /** No tag stands inside another that may come at the same time. */
  lemma TagsApart(inside: bool, close: string, t: string, u: string, o: nat)
    requires Ok(inside, close) && t in Candidates(inside, close) && u in Candidates(inside, close) && At(t, o, u)
    ensures o == 0 && t == u
  {
    if inside {
      assert t == u == close && |close| > 0;
    } else {
      assert u[0] == t[o] && u[1] == t[o + 1] && u[2] == t[o + 2];
      assert OPEN_HARMONY[19 + 2] == 'm';
      if o > 0 {
        OpenersAt(t, o);
      } else {
        assert OPEN[1] == 't' && OPEN_HARMONY[1] == '|' && OPEN_GEMMA[1] == '|';
        assert OPEN_HARMONY[9] == '|' && OPEN_GEMMA[9] == '>';
        assert |u| > 9 ==> u[9] == t[9];
      }
    }
  }

  lemma OpenersAt(t: string, o: nat)
    requires t in OPENERS && 1 <= o < |t| && t[o] == '<'
    ensures t == OPEN_HARMONY && o == 19
  {}

  lemma HitIs(s: string, inside: bool, close: string, h: Hit)
    requires Ok(inside, close) && h.tag in Candidates(inside, close) && At(s, h.at, h.tag)
    requires forall i: nat | i < h.at :: !Starts(s, Candidates(inside, close), i)
    ensures FirstTag(s, Candidates(inside, close)) == Some(h)
  {
    var tags := Candidates(inside, close);
    assert Starts(s, tags, h.at);
    FirstTagIs(s, tags);
    var f := FirstTag(s, tags);
    assert f.Some? && Starts(s, tags, f.value.at);
    assert f.value.at == h.at;
    if |f.value.tag| <= |h.tag| {
      InsideOf(s, h.at, h.tag, h.at, f.value.tag);
      TagsApart(inside, close, h.tag, f.value.tag, 0);
    } else {
      InsideOf(s, h.at, f.value.tag, h.at, h.tag);
      TagsApart(inside, close, f.value.tag, h.tag, 0);
    }
  }

  lemma NoTagBefore(s: string, b: string, inside: bool, close: string, e: nat, u: string, i: nat, t: string)
    requires Ok(inside, close) && t in Candidates(inside, close) && u in Candidates(inside, close)
    requires i < e && At(s, e, u) && !At(s, i, t)
    ensures !At(s + b, i, t)
  {
    if At(s + b, i, t) {
      Spans(s, b, i, t, e, u);
      TagsApart(inside, close, t, u, e - i);
    }
  }

  /** The first tag stays the first, whatever follows. */
  lemma HitStays(s: string, b: string, inside: bool, close: string, h: Hit)
    requires Ok(inside, close) && FirstTag(s, Candidates(inside, close)) == Some(h)
    ensures FirstTag(s + b, Candidates(inside, close)) == Some(h)
  {
    FirstTagIs(s, Candidates(inside, close));
    AtStays(s, b, h.at, h.tag);
    forall i: nat, t | i < h.at && t in Candidates(inside, close)
      ensures !At(s + b, i, t)
    {
      assert !Starts(s, Candidates(inside, close), i);
      NoTagBefore(s, b, inside, close, h.at, h.tag, i, t);
    }
    HitIs(s + b, inside, close, h);
  }

  lemma BeginsShifts(r: string, x: string, i: nat, m: string)
    ensures Begins(r + x, |r| + i, m) <==> Begins(x, i, m)
  {
    if i < |x| {
      assert (r + x)[|r| + i..] == x[i..];
    }
  }

  lemma StartsShifts(r: string, x: string, ms: seq<string>, i: nat)
    ensures Starts(r + x, ms, |r| + i) <==> Starts(x, ms, i)
    ensures MayStart(r + x, ms, |r| + i) <==> MayStart(x, ms, i)
  {
    forall m | m in ms
      ensures At(r + x, |r| + i, m) <==> At(x, i, m)
      ensures Begins(r + x, |r| + i, m) <==> Begins(x, i, m)
    {
      AtShifts(r, x, i, m);
      BeginsShifts(r, x, i, m);
    }
  }

  /** `r` was let go: nothing that starts in it is a tag or a turn token, or may become one. */
  ghost predicate LetGo(r: string, x: string, tags: seq<string>) {
    forall i: nat | i < |r| :: !MayStart(r + x, tags, i)
  }

  lemma NoTagShifts(r: string, x: string, tags: seq<string>, e: nat)
    requires forall i: nat | i < |r| :: !Starts(r + x, tags, i)
    requires forall i: nat | i < e :: !Starts(x, tags, i)
    ensures forall i: nat | i < |r| + e :: !Starts(r + x, tags, i)
  {
    forall i: nat | i < |r| + e
      ensures !Starts(r + x, tags, i)
    {
      if i >= |r| {
        StartsShifts(r, x, tags, i - |r|);
      }
    }
  }

  lemma HitShifts(r: string, x: string, inside: bool, close: string, h: Hit)
    requires Ok(inside, close) && FirstTag(x, Candidates(inside, close)) == Some(h)
    requires forall i: nat | i < |r| :: !Starts(r + x, Candidates(inside, close), i)
    ensures FirstTag(r + x, Candidates(inside, close)) == Some(Hit(|r| + h.at, h.tag))
  {
    FirstTagIs(x, Candidates(inside, close));
    AtShifts(r, x, h.at, h.tag);
    NoTagShifts(r, x, Candidates(inside, close), h.at);
    HitIs(r + x, inside, close, Hit(|r| + h.at, h.tag));
  }

  lemma NoHitShifts(r: string, x: string, tags: seq<string>)
    requires FirstTag(x, tags) == None
    requires forall i: nat | i < |r| :: !Starts(r + x, tags, i)
    ensures FirstTag(r + x, tags) == None
  {
    FirstTagIs(x, tags);
    forall i: nat
      ensures !Starts(r + x, tags, i)
    {
      if i >= |r| {
        StartsShifts(r, x, tags, i - |r|);
      }
    }
    FirstTagIs(r + x, tags);
    var f := FirstTag(r + x, tags);
    assert f.Some? ==> Starts(r + x, tags, f.value.at);
  }

  lemma KeepIsThis(s: string, tags: seq<string>, k: nat)
    requires k <= |s| && (k > 0 ==> MayStart(s, tags, |s| - k))
    requires forall i: nat | i < |s| - k :: !MayStart(s, tags, i)
    ensures Keep(s, tags) == k
  {
    KeepIs(s, tags);
    var f := Keep(s, tags);
    assert f > 0 ==> MayStart(s, tags, |s| - f);
  }

  lemma KeepShifts(r: string, x: string, tags: seq<string>)
    requires LetGo(r, x, tags)
    ensures Keep(r + x, tags) == Keep(x, tags)
  {
    var k := Keep(x, tags);
    KeepIs(x, tags);
    StartsShifts(r, x, tags, |x| - k);
    forall i: nat | i < |r + x| - k
      ensures !MayStart(r + x, tags, i)
    {
      if i >= |r| {
        StartsShifts(r, x, tags, i - |r|);
      }
    }
    KeepIsThis(r + x, tags, k);
  }

  /** What was let go stays let go. */
  lemma LetGoStays(s: string, b: string, tags: seq<string>, r: string, x: string)
    requires |r| == |s| - Keep(s, tags) && r + x == s + b
    ensures LetGo(r, x, tags)
  {
    KeepIs(s, tags);
    forall i: nat | i < |r|
      ensures !MayStart(s + b, tags, i)
    {
      assert !MayStart(s, tags, i);
      if MayStart(s + b, tags, i) {
        MayStartWasSeen(s, b, tags, i);
      }
    }
  }

  lemma MoreTags(s: string, a: seq<string>, b: seq<string>, i: nat)
    ensures MayStart(s, a, i) ==> MayStart(s, a + b, i)
  {
    assert forall m | m in a :: m in a + b;
  }

  /** No tag starts in what was let go. */
  lemma NoTagLetGo(s: string, cut: nat, b: string, tags: seq<string>, more: seq<string>, i: nat)
    requires cut == |s| - Keep(s, tags + more) && FirstTag(s, tags) == None && i < cut
    ensures !Starts(s + b, tags, i)
  {
    KeepIs(s, tags + more);
    FirstTagIs(s, tags);
    MoreTags(s, tags, more, i);
    assert !Starts(s, tags, i) && !MayStart(s, tags + more, i);
    if Starts(s + b, tags, i) {
      StartsWasSeen(s, b, tags, i);
    }
  }

  // ----- What is said, in pieces -----

  /** The same state, the same reasoning and the same answer; the segments may be cut otherwise. */
  ghost predicate Same(a: Step, b: Step) {
    a.state == b.state && ThinkingOf(a.out) == ThinkingOf(b.out) && ContentOf(a.out) == ContentOf(b.out)
  }

  function SaidInTurn(a: Said, b: Said): Said { Said(b.lead, a.out + b.out) }

  ghost predicate SameSaid(a: Said, b: Said) {
    a.lead == b.lead && ThinkingOf(a.out) == ThinkingOf(b.out) && ContentOf(a.out) == ContentOf(b.out)
  }

  lemma OneSegmentSays(t: string)
    ensures ContentOf([Content(t)]) == t && ThinkingOf([Content(t)]) == ""
    ensures ThinkingOf([Thinking(t)]) == t && ContentOf([Thinking(t)]) == ""
  {
    assert [Content(t)][1..] == [] && [Thinking(t)][1..] == [];
  }

  lemma AnswerAdds(lead: Lead, t: string, u: string)
    ensures SameSaid(Answer(lead, t + u), SaidInTurn(Answer(lead, t), Answer(Answer(lead, t).lead, u)))
  {
    var a := Answer(lead, t);
    var b := Answer(a.lead, u);
    OutAdds(a.out, b.out);
    if t == "" {
      assert t + u == u;
    } else if u == "" {
      assert t + u == t;
    } else {
      AnswerAddsText(lead, t, u);
      AnswerAddsLead(lead, t, u);
      AnswerSays(lead, t + u);
      AnswerSays(lead, t);
      AnswerSays(a.lead, u);
    }
  }

  lemma {:induction false} AnswerSays(lead: Lead, t: string)
    ensures ThinkingOf(Answer(lead, t).out) == ""
    ensures ContentOf(Answer(lead, t).out) ==
            if lead.started then t else if lead.thought then TrimStart(t)
            else if AllSpace(t) then "" else lead.held + t
    ensures Answer(lead, t).lead ==
            if lead.started || AllSpace(t) then
              if lead.started || lead.thought then lead else lead.(held := lead.held + t)
            else if lead.thought then lead.(started := true) else lead.(started := true, held := "")
  {
    TrimIsEmpty(t);
    TrimStartIs(t);
    OneSegmentSays(t);
    OneSegmentSays(TrimStart(t));
    OneSegmentSays(lead.held + t);
  }

  lemma AnswerAddsLead(lead: Lead, t: string, u: string)
    ensures Answer(lead, t + u).lead == Answer(Answer(lead, t).lead, u).lead
  {
    AnswerSays(lead, t + u);
    AnswerSays(lead, t);
    AnswerSays(Answer(lead, t).lead, u);
    SpaceAdds(t, u);
    Associates(lead.held, t, u);
  }

  lemma AnswerAddsText(lead: Lead, t: string, u: string)
    ensures
      var b := Answer(lead, t).lead;
      ContentOf(Answer(lead, t + u).out) == ContentOf(Answer(lead, t).out) + ContentOf(Answer(b, u).out)
  {
    AnswerSays(lead, t + u);
    AnswerSays(lead, t);
    AnswerSays(Answer(lead, t).lead, u);
    SpaceAdds(t, u);
    if lead.started {
    } else if lead.thought {
      TrimStartAdds(t, u);
    } else {
      Associates(lead.held, t, u);
    }
  }

  /** One piece said in two, where the turn tokens allow it. */
  lemma EmitAdds(inside: bool, lead: Lead, p: string, q: string, clean: string -> string)
    requires inside || clean(p + q) == clean(p) + clean(q)
    ensures SameSaid(Emit(inside, lead, p + q, clean),
                     SaidInTurn(Emit(inside, lead, p, clean), Emit(inside, Emit(inside, lead, p, clean).lead, q, clean)))
  {
    var a := Emit(inside, lead, p, clean);
    var b := Emit(inside, a.lead, q, clean);
    OutAdds(a.out, b.out);
    if p == "" {
      assert p + q == q;
    } else if q == "" {
      assert p + q == p;
    } else if inside {
      OneSegmentSays(p);
      OneSegmentSays(q);
      OneSegmentSays(p + q);
    } else {
      AnswerAdds(lead, clean(p), clean(q));
    }
  }

  // ----- Cutting a push in two -----

  /** What is so of every piece of the answer that a push says. */
  ghost predicate AllPieces(inside: bool, close: string, text: string, ok: string -> bool)
    requires Ok(inside, close)
    decreases |text|
  {
    match FirstTag(text, Candidates(inside, close))
    case Some(h) =>
      NextIsOk(inside, close, text, h);
      && (inside || ok(text[..h.at]))
      && AllPieces(!inside, if inside then close else CloserOf(h.tag), text[h.at + |h.tag|..], ok)
    case None => inside || ok(text[..|text| - Keep(text, Watched(inside, close))])
  }

  /** Where `ok` holds, `clean` works on the two sides of a clean cut as it does on the whole. */
  ghost predicate Splits(clean: string -> string, ok: string -> bool) {
    forall p, q {:trigger Clean(p, q)} | Clean(p, q) && ok(p + q) :: clean(p + q) == clean(p) + clean(q) && ok(p) && ok(q)
  }

  predicate Always(s: string) { true }

  lemma StripSplits()
    ensures Splits(Strip, Settled)
  {
    forall p, q | Clean(p, q) && Settled(p + q)
      ensures Strip(p + q) == Strip(p) + Strip(q) && Settled(p) && Settled(q)
    {
      SettledIff(p + q);
      SettledIff(p);
      SettledIff(q);
      CutsAdd(p, q);
    }
  }

  lemma OnePassSplits()
    ensures Splits(OnePass, Always)
  {
    forall p, q | Clean(p, q)
      ensures OnePass(p + q) == OnePass(p) + OnePass(q)
    {
      OnePassAdds(p, q);
    }
  }

  /** Everything that is ever watched for. */
  const ALL_TAGS := OPENERS + CLOSERS + NOISE

  lemma WatchedTags(inside: bool, close: string, t: string)
    requires Ok(inside, close) && t in Watched(inside, close)
    ensures t in ALL_TAGS
  {}

  lemma TagLooks(t: string)
    requires t in ALL_TAGS
    ensures |t| > 2 && t[0] == '<' && t[2] != 'm'
  {
    assert OPEN[2] == 'h' && OPEN_HARMONY[2] == 'c' && OPEN_GEMMA[2] == 'c';
    assert CLOSE[2] == 't' && CLOSE_HARMONY[2] == 'e' && CLOSE_GEMMA[2] == 'h';
    if t in NOISE {
      var j :| 0 <= j < |NOISE| && NOISE[j] == t;
      Starters(j);
    }
  }

  lemma InnerOpeners(j: nat, o: nat)
    requires j < |NOISE| && 1 <= o < |NOISE[j]| && NOISE[j][o] == '<'
    ensures (j == 1 && o == 16) || (j == 0 && o == 34) || (j == 0 && o == 18)
  {}

  lemma LongTags(t: string)
    requires t in ALL_TAGS && |t| > 27
    ensures t == OPEN_HARMONY || t == NOISE[0]
  {
    assert |OPEN| == 7 && |OPEN_GEMMA| == 18 && |CLOSE| == 8 && |CLOSE_HARMONY| == 7 && |CLOSE_GEMMA| == 10;
    assert |NOISE[1]| == 27 && |NOISE[2]| == 18 && |NOISE[3]| == 10 && |NOISE[4]| == 7;
  }

  /** The end of a turn token is no beginning, cut short, of anything watched for. */
  lemma EndIsNoBeginning(t: string, j: nat, o: nat)
    requires t in ALL_TAGS && j < |NOISE| && 1 <= o < |NOISE[j]| && |NOISE[j]| - o < |t|
    ensures exists p: nat | p < |NOISE[j]| - o :: NOISE[j][o + p] != t[p]
  {
    TagLooks(t);
    var n := NOISE[j];
    if n[o] != '<' {
      assert n[o + 0] != t[0];
    } else {
      InnerOpeners(j, o);
      assert NOISE[1][16 + 2] == 'm' && NOISE[0][34 + 2] == 'm';
      if j == 0 && o == 18 {
        LongTags(t);
        assert NOISE[0][18 + 2] == 'c' && NOISE[0][2] == 's';
        assert NOISE[0][18 + 11] == 'f' && OPEN_HARMONY[11] == 'a';
        assert n[o + 11] != t[11] || n[o + 2] != t[2];
      } else {
        assert n[o + 2] != t[2];
      }
    }
  }

  /** What is held back never starts inside a turn token: an end of the token is no beginning, cut
      short, of anything watched for. */
  ghost predicate EndsFree(tags: seq<string>, ns: seq<string>) {
    forall t, n | t in tags && n in ns :: EndFree(t, n)
  }

  ghost predicate EndFree(t: string, n: string) {
    forall o: nat | 1 <= o < |n| && |n| - o < |t| :: Differ(t, n, o)
  }

  ghost predicate Differ(t: string, n: string, o: nat) {
    exists p: nat | o + p < |n| && p < |t| :: n[o + p] != t[p]
  }

  lemma WatchedEndsFree(inside: bool, close: string)
    requires Ok(inside, close)
    ensures EndsFree(Watched(inside, close), NOISE)
  {
    forall t, n, o: nat | t in Watched(inside, close) && n in NOISE && 1 <= o < |n| && |n| - o < |t|
      ensures Differ(t, n, o)
    {
      WatchedTags(inside, close, t);
      var j :| 0 <= j < |NOISE| && NOISE[j] == n;
      EndIsNoBeginning(t, j, o);
      var p: nat :| p < |n| - o && n[o + p] != t[p];
      assert o + p < |n| && p < |t| && n[o + p] != t[p];
    }
  }

  lemma HeldIsClean(s: string, i: nat, n: string, t: string, c: nat)
    requires EndFree(t, n) && i < c && At(s, i, n) && Begins(s, c, t)
    ensures i + |n| <= c
  {
    if i + |n| > c {
      var o := c - i;
      assert Differ(t, n, o);
      var p: nat :| o + p < |n| && p < |t| && n[o + p] != t[p];
      AtChar(s, i, n, o + p);
      BeginsChar(s, c, t, p);
    }
  }

  /** A turn token that starts in what was let go was there whole. */
  lemma NoiseWasThere(s: string, b: string, tags: seq<string>, cut: nat, i: nat, n: string)
    requires cut == |s| - Keep(s, tags) && i < cut && n in tags && At(s + b, i, n)
    ensures At(s, i, n)
  {
    KeepIs(s, tags);
    assert !MayStart(s, tags, i);
    AtWasBegun(s, b, i, n);
  }

  lemma NoiseEndsInTime(s: string, b: string, tags: seq<string>, n: string, cut: nat, i: nat)
    requires (forall t | t in tags :: EndFree(t, n)) && n in tags && cut == |s| - Keep(s, tags)
    requires i < cut && At(s + b, i, n)
    ensures i + |n| <= cut
  {
    NoiseWasThere(s, b, tags, cut, i, n);
    if cut < |s| {
      KeepIs(s, tags);
      var t :| t in tags && Begins(s, cut, t);
      HeldIsClean(s, i, n, t, cut);
    }
  }

  /** Where a push let go, no turn token is cut, whatever follows. */
  lemma LetGoIsClean(s: string, b: string, tags: seq<string>, ns: seq<string>, r: string, x: string)
    requires EndsFree(tags, ns) && (forall n | n in ns :: n in tags)
    requires |r| == |s| - Keep(s, tags) && r + x == s + b
    ensures CleanOf(ns, r, x)
  {
    forall i: nat, n | i < |r| && n in ns && At(r + x, i, n)
      ensures i + |n| <= |r|
    {
      NoiseEndsInTime(s, b, tags, n, |r|, i);
    }
  }

  lemma CleanPrefix(ns: seq<string>, r: string, x: string, p: string)
    requires CleanOf(ns, r, x) && p <= x
    ensures CleanOf(ns, r, p)
  {
    var rest := x[|p|..];
    assert r + x == (r + p) + rest;
    forall i: nat, n | i < |r| && n in ns && At(r + p, i, n)
      ensures i + |n| <= |r|
    {
      AtStays(r + p, rest, i, n);
    }
  }

  /** After `first`, a push of `b`. */
  ghost function Continue(first: Step, b: string, clean: string -> string): (r: Step)
    requires Ok(first.state.inside, first.state.close)
  {
    var d := Drain(first.state.(pending := first.state.pending + b), clean);
    Step(d.state, first.out + d.out)
  }

  lemma ContinueAdds(state: State, said: seq<Segment>, out: seq<Segment>, b: string, clean: string -> string)
    requires Ok(state.inside, state.close)
    ensures Continue(Step(state, said + out), b, clean) ==
            Step(Continue(Step(state, out), b, clean).state, said + Continue(Step(state, out), b, clean).out)
  {
    Associates(said, out, Drain(state.(pending := state.pending + b), clean).out);
  }

  lemma SameAfter(said: seq<Segment>, a: Step, b: Step)
    requires Same(a, b)
    ensures Same(Step(a.state, said + a.out), Step(b.state, said + b.out))
  {
    OutAdds(said, a.out);
    OutAdds(said, b.out);
  }

  // A tag stands in the first chunk: both ways read it alike.

  function AfterHit(s: State, h: Hit, clean: string -> string): State
    requires h.at + |h.tag| <= |s.pending|
  {
    Past(s, Emit(s.inside, s.lead, s.pending[..h.at], clean).lead, h)
  }

  /** The other side of a tag that was read. */
  predicate IsPast(s: State, h: Hit, next: State) {
    && h.at + |h.tag| <= |s.pending| && next.inside == !s.inside
    && next.close == (if s.inside then s.close else CloserOf(h.tag))
    && next.pending == s.pending[h.at + |h.tag|..]
  }

  lemma AfterHitIsPast(s: State, h: Hit, clean: string -> string)
    requires h.at + |h.tag| <= |s.pending|
    ensures IsPast(s, h, AfterHit(s, h, clean))
  {}

  lemma WholePastTag(s: State, b: string, clean: string -> string, h: Hit)
    requires Ok(s.inside, s.close) && FirstTag(s.pending, Candidates(s.inside, s.close)) == Some(h)
    ensures
      var whole := s.(pending := s.pending + b);
      && FirstTag(whole.pending, Candidates(s.inside, s.close)) == Some(h)
      && whole.pending[..h.at] == s.pending[..h.at]
      && AfterHit(whole, h, clean) == AfterHit(s, h, clean).(pending := AfterHit(s, h, clean).pending + b)
  {
    HitStays(s.pending, b, s.inside, s.close, h);
    var whole := s.(pending := s.pending + b);
    assert whole.pending[..h.at] == s.pending[..h.at];
    assert whole.pending[h.at + |h.tag|..] == s.pending[h.at + |h.tag|..] + b;
  }

  lemma PiecesPastTag(s: State, b: string, h: Hit, ok: string -> bool)
    requires Ok(s.inside, s.close) && FirstTag(s.pending, Candidates(s.inside, s.close)) == Some(h)
    requires AllPieces(s.inside, s.close, s.pending + b, ok)
    ensures Ok(!s.inside, if s.inside then s.close else CloserOf(h.tag))
    ensures AllPieces(!s.inside, if s.inside then s.close else CloserOf(h.tag), s.pending[h.at + |h.tag|..] + b, ok)
  {
    HitStays(s.pending, b, s.inside, s.close, h);
    FirstTagIs(s.pending, Candidates(s.inside, s.close));
    var p, rest := s.pending[..h.at], s.pending[h.at + |h.tag|..];
    AtCuts(s.pending, h.at, h.tag);
    AssociatesInFour(p, h.tag, rest, b);
    PiecesTag(s.inside, s.close, s.pending + b, p, h.tag, rest + b, ok);
  }

  // No tag stands in the first chunk: it has let go of `r`, and what it held back goes on as `x`.

  /** A push of `x` after `r` was said. */
  ghost function Later(inside: bool, close: string, lead: Lead, r: string, x: string, clean: string -> string): Step
    requires Ok(inside, close)
  {
    var e := Emit(inside, lead, r, clean);
    var d := Drain(State(inside, close, x, e.lead), clean);
    Step(d.state, e.out + d.out)
  }

  lemma OutsJoin(a: seq<Segment>, b: seq<Segment>, c: seq<Segment>, d: seq<Segment>)
    requires ThinkingOf(a) == ThinkingOf(b + c) && ContentOf(a) == ContentOf(b + c)
    ensures ThinkingOf(a + d) == ThinkingOf(b + (c + d)) && ContentOf(a + d) == ContentOf(b + (c + d))
  {
    assert b + (c + d) == (b + c) + d;
    OutAdds(a, d);
    OutAdds(b + c, d);
  }

  /** Where a push goes on once `tag` was read. */
  function Across(inside: bool, close: string, lead: Lead, tag: string, rest: string): State {
    State(!inside, if inside then close else CloserOf(tag), rest,
          if inside then lead.(thought := true) else lead.(held := ""))
  }

  lemma DrainAt(s: State, before: string, tag: string, rest: string, clean: string -> string)
    requires Ok(s.inside, s.close) && s.pending == before + tag + rest
    requires FirstTag(s.pending, Candidates(s.inside, s.close)) == Some(Hit(|before|, tag))
    ensures
      var e := Emit(s.inside, s.lead, before, clean);
      var next := Across(s.inside, s.close, e.lead, tag, rest);
      && Ok(next.inside, next.close)
      && Drain(s, clean) == Step(Drain(next, clean).state, e.out + Drain(next, clean).out)
  {
    DrainTag(s, Hit(|before|, tag), clean);
    assert s.pending[..|before|] == before;
    assert s.pending[|before| + |tag|..] == rest;
  }

  lemma LaterTag(inside: bool, close: string, lead: Lead, r: string, x: string, clean: string -> string,
                 p: string, tag: string, rest: string)
    requires Ok(inside, close) && x == p + tag + rest
    requires FirstTag(x, Candidates(inside, close)) == Some(Hit(|p|, tag))
    requires FirstTag(r + x, Candidates(inside, close)) == Some(Hit(|r + p|, tag))
    requires inside || clean(r + p) == clean(r) + clean(p)
    ensures Same(Drain(State(inside, close, r + x, lead), clean), Later(inside, close, lead, r, x, clean))
  {
    var e := Emit(inside, lead, r, clean);
    AssociatesInFour(r, p, tag, rest);
    DrainAt(State(inside, close, r + x, lead), r + p, tag, rest, clean);
    DrainAt(State(inside, close, x, e.lead), p, tag, rest, clean);
    EmitAdds(inside, lead, r, p, clean);
    var next := Across(inside, close, Emit(inside, e.lead, p, clean).lead, tag, rest);
    OutsJoin(Emit(inside, lead, r + p, clean).out, e.out, Emit(inside, e.lead, p, clean).out, Drain(next, clean).out);
  }

  lemma DrainAll(s: State, p: string, k: string, clean: string -> string)
    requires Ok(s.inside, s.close) && s.pending == p + k
    requires FirstTag(s.pending, Candidates(s.inside, s.close)) == None && |k| == Keep(s.pending, Watched(s.inside, s.close))
    ensures
      var e := Emit(s.inside, s.lead, p, clean);
      Drain(s, clean) == Step(State(s.inside, s.close, k, e.lead), e.out)
  {
    DrainRest(s, clean);
    assert s.pending[..|p|] == p && s.pending[|p|..] == k;
  }

  lemma LaterRest(inside: bool, close: string, lead: Lead, r: string, x: string, clean: string -> string, p: string, k: string)
    requires Ok(inside, close) && x == p + k && FirstTag(x, Candidates(inside, close)) == None
    requires FirstTag(r + x, Candidates(inside, close)) == None
    requires |k| == Keep(x, Watched(inside, close)) == Keep(r + x, Watched(inside, close))
    requires inside || clean(r + p) == clean(r) + clean(p)
    ensures Same(Drain(State(inside, close, r + x, lead), clean), Later(inside, close, lead, r, x, clean))
  {
    var e := Emit(inside, lead, r, clean);
    Associates(r, p, k);
    DrainAll(State(inside, close, r + x, lead), r + p, k, clean);
    DrainAll(State(inside, close, x, e.lead), p, k, clean);
    EmitAdds(inside, lead, r, p, clean);
  }

  lemma PiecesTag(inside: bool, close: string, text: string, p: string, tag: string, rest: string, ok: string -> bool)
    requires Ok(inside, close) && text == p + tag + rest
    requires FirstTag(text, Candidates(inside, close)) == Some(Hit(|p|, tag))
    ensures Ok(!inside, if inside then close else CloserOf(tag)) &&
            (AllPieces(inside, close, text, ok) <==>
            (inside || ok(p)) && AllPieces(!inside, if inside then close else CloserOf(tag), rest, ok))
  {
    NextIsOk(inside, close, text, Hit(|p|, tag));
    assert text[..|p|] == p && text[|p| + |tag|..] == rest;
  }

  lemma PiecesRest(inside: bool, close: string, text: string, p: string, k: string, ok: string -> bool)
    requires Ok(inside, close) && text == p + k && FirstTag(text, Candidates(inside, close)) == None
    requires |k| == Keep(text, Watched(inside, close))
    ensures AllPieces(inside, close, text, ok) <==> inside || ok(p)
  {
    assert text[..|p|] == p;
  }

  lemma SplitsHere(clean: string -> string, ok: string -> bool, p: string, q: string)
    requires Splits(clean, ok) && Clean(p, q) && ok(p + q)
    ensures clean(p + q) == clean(p) + clean(q) && ok(p) && ok(q)
  {}

  /** What the pieces of the whole tell about the pieces of its end. */
  lemma PiecesOfTag(inside: bool, close: string, r: string, x: string, p: string, tag: string, rest: string,
                    clean: string -> string, ok: string -> bool)
    requires Ok(inside, close) && x == p + tag + rest
    requires FirstTag(x, Candidates(inside, close)) == Some(Hit(|p|, tag))
    requires FirstTag(r + x, Candidates(inside, close)) == Some(Hit(|r + p|, tag))
    requires Splits(clean, ok) && Clean(r, p) && AllPieces(inside, close, r + x, ok)
    ensures AllPieces(inside, close, x, ok)
    ensures inside || clean(r + p) == clean(r) + clean(p)
  {
    AssociatesInFour(r, p, tag, rest);
    PiecesTag(inside, close, x, p, tag, rest, ok);
    PiecesTag(inside, close, r + x, r + p, tag, rest, ok);
    if !inside {
      SplitsHere(clean, ok, r, p);
    }
  }

  lemma PiecesOfRest(inside: bool, close: string, r: string, x: string, p: string, k: string,
                     clean: string -> string, ok: string -> bool)
    requires Ok(inside, close) && x == p + k && FirstTag(x, Candidates(inside, close)) == None
    requires FirstTag(r + x, Candidates(inside, close)) == None
    requires |k| == Keep(x, Watched(inside, close)) == Keep(r + x, Watched(inside, close))
    requires Splits(clean, ok) && Clean(r, p) && AllPieces(inside, close, r + x, ok)
    ensures AllPieces(inside, close, x, ok)
    ensures inside || clean(r + p) == clean(r) + clean(p)
  {
    Associates(r, p, k);
    PiecesRest(inside, close, x, p, k, ok);
    PiecesRest(inside, close, r + x, r + p, k, ok);
    if !inside {
      SplitsHere(clean, ok, r, p);
    }
  }

  // `r` was let go, and no tag starts in it.

  lemma LaterToTag(inside: bool, close: string, lead: Lead, r: string, x: string, clean: string -> string, ok: string -> bool,
                   h: Hit)
    requires Ok(inside, close) && Splits(clean, ok) && AllPieces(inside, close, r + x, ok)
    requires FirstTag(x, Candidates(inside, close)) == Some(h) && Clean(r, x)
    requires forall i: nat | i < |r| :: !Starts(r + x, Candidates(inside, close), i)
    ensures Same(Drain(State(inside, close, r + x, lead), clean), Later(inside, close, lead, r, x, clean))
    ensures AllPieces(inside, close, x, ok)
  {
    FirstTagIs(x, Candidates(inside, close));
    HitShifts(r, x, inside, close, h);
    var p, rest := x[..h.at], x[h.at + |h.tag|..];
    AtCuts(x, h.at, h.tag);
    CleanPrefix(NOISE, r, x, p);
    PiecesOfTag(inside, close, r, x, p, h.tag, rest, clean, ok);
    LaterTag(inside, close, lead, r, x, clean, p, h.tag, rest);
  }

  lemma LaterToEnd(inside: bool, close: string, lead: Lead, r: string, x: string, clean: string -> string, ok: string -> bool)
    requires Ok(inside, close) && Splits(clean, ok) && AllPieces(inside, close, r + x, ok)
    requires FirstTag(x, Candidates(inside, close)) == None && Clean(r, x)
    requires LetGo(r, x, Watched(inside, close))
    requires forall i: nat | i < |r| :: !Starts(r + x, Candidates(inside, close), i)
    ensures Same(Drain(State(inside, close, r + x, lead), clean), Later(inside, close, lead, r, x, clean))
    ensures AllPieces(inside, close, x, ok)
  {
    var cut := |x| - Keep(x, Watched(inside, close));
    NoHitShifts(r, x, Candidates(inside, close));
    KeepShifts(r, x, Watched(inside, close));
    var p, k := x[..cut], x[cut..];
    CleanPrefix(NOISE, r, x, p);
    PiecesOfRest(inside, close, r, x, p, k, clean, ok);
    LaterRest(inside, close, lead, r, x, clean, p, k);
  }

  lemma LaterIsSame(inside: bool, close: string, lead: Lead, r: string, x: string, clean: string -> string, ok: string -> bool)
    requires Ok(inside, close) && Splits(clean, ok) && AllPieces(inside, close, r + x, ok)
    requires LetGo(r, x, Watched(inside, close)) && Clean(r, x)
    requires forall i: nat | i < |r| :: !Starts(r + x, Candidates(inside, close), i)
    ensures Same(Drain(State(inside, close, r + x, lead), clean), Later(inside, close, lead, r, x, clean))
    ensures AllPieces(inside, close, x, ok)
  {
    match FirstTag(x, Candidates(inside, close))
    case Some(h) => LaterToTag(inside, close, lead, r, x, clean, ok, h);
    case None => LaterToEnd(inside, close, lead, r, x, clean, ok);
  }

  lemma CutWithoutTag(s: State, b: string, clean: string -> string, ok: string -> bool)
    requires Ok(s.inside, s.close) && FirstTag(s.pending, Candidates(s.inside, s.close)) == None
    requires Splits(clean, ok) && AllPieces(s.inside, s.close, s.pending + b, ok)
    ensures
      var first := Drain(s, clean).state;
      first.inside == s.inside && first.close == s.close && AllPieces(s.inside, s.close, first.pending + b, ok)
    ensures Same(Drain(s.(pending := s.pending + b), clean), Continue(Drain(s, clean), b, clean))
  {
    var r, x := s.pending[..Cut(s)], s.pending[Cut(s)..] + b;
    assert r + x == s.pending + b;
    LetGoStays(s.pending, b, Watched(s.inside, s.close), r, x);
    CleanWhereCut(s.pending, b, s.inside, s.close, r, x);
    NoTagsLetGo(s.pending, b, Candidates(s.inside, s.close), NOISE, r, x);
    LaterIsSame(s.inside, s.close, s.lead, r, x, clean, ok);
    DrainRest(s, clean);
  }

  lemma NoTagsLetGo(s: string, b: string, tags: seq<string>, more: seq<string>, r: string, x: string)
    requires |r| == |s| - Keep(s, tags + more) && FirstTag(s, tags) == None && r + x == s + b
    ensures forall i: nat | i < |r| :: !Starts(r + x, tags, i)
  {
    forall i: nat | i < |r|
      ensures !Starts(r + x, tags, i)
    {
      NoTagLetGo(s, |r|, b, tags, more, i);
    }
  }

  lemma CleanWhereCut(s: string, b: string, inside: bool, close: string, r: string, x: string)
    requires Ok(inside, close) && |r| == |s| - Keep(s, Watched(inside, close)) && r + x == s + b
    ensures Clean(r, x)
  {
    WatchedEndsFree(inside, close);
    NoiseIsWatched(inside, close);
    LetGoIsClean(s, b, Watched(inside, close), NOISE, r, x);
  }

  lemma NoiseIsWatched(inside: bool, close: string)
    ensures forall n | n in NOISE :: n in Watched(inside, close)
  {}

  /** One push of two chunks joined is two pushes. */
  /** If what stands after a tag may be pushed in two, so may the whole. */
  lemma SplitsAtTag(s: State, b: string, clean: string -> string, h: Hit)
    requires Ok(s.inside, s.close) && FirstTag(s.pending, Candidates(s.inside, s.close)) == Some(h)
    requires
      var next := AfterHit(s, h, clean);
      var first := Drain(next, clean);
      && Ok(next.inside, next.close) && Ok(first.state.inside, first.state.close)
      && Same(Drain(next.(pending := next.pending + b), clean), Continue(first, b, clean))
    ensures Drain(s, clean).state == Drain(AfterHit(s, h, clean), clean).state
    ensures Same(Drain(s.(pending := s.pending + b), clean), Continue(Drain(s, clean), b, clean))
  {
    var whole, next := s.(pending := s.pending + b), AfterHit(s, h, clean);
    WholePastTag(s, b, clean, h);
    DrainTag(s, h, clean);
    DrainTag(whole, h, clean);
    var said, first := Emit(s.inside, s.lead, s.pending[..h.at], clean).out, Drain(next, clean);
    ContinueAdds(first.state, said, first.out, b, clean);
    SameAfter(said, Drain(next.(pending := next.pending + b), clean), Continue(first, b, clean));
  }

  lemma {:induction false} PushSplits(s: State, b: string, clean: string -> string, ok: string -> bool)
    requires Ok(s.inside, s.close) && Splits(clean, ok) && AllPieces(s.inside, s.close, s.pending + b, ok)
    ensures
      var first := Drain(s, clean).state;
      Ok(first.inside, first.close) && AllPieces(first.inside, first.close, first.pending + b, ok)
    ensures Same(Drain(s.(pending := s.pending + b), clean), Continue(Drain(s, clean), b, clean))
    decreases |s.pending|
  {
    match FirstTag(s.pending, Candidates(s.inside, s.close))
    case None => CutWithoutTag(s, b, clean, ok);
    case Some(h) =>
      PiecesPastTag(s, b, h, ok);
      DrainTag(s, h, clean);
      PushSplits(AfterHit(s, h, clean), b, clean, ok);
      SplitsAtTag(s, b, clean, h);
  }

  // ----- Any way of cutting a text -----

  lemma {:induction false} RunIsOnePush(s: State, chunks: seq<string>, clean: string -> string, ok: string -> bool)
    requires Ok(s.inside, s.close) && Splits(clean, ok) && chunks != []
    requires AllPieces(s.inside, s.close, s.pending + Concat(chunks), ok)
    ensures Same(Run(s, chunks, clean), Drain(s.(pending := s.pending + Concat(chunks)), clean))
    decreases |chunks|
  {
    var c, rest := chunks[0], chunks[1..];
    var here := s.(pending := s.pending + c);
    var d := Drain(here, clean);
    DrainKeepsOk(here, clean);
    if rest == [] {
      assert c + Concat(rest) == c;
      assert d.out + [] == d.out;
    } else {
      Associates(s.pending, c, Concat(rest));
      PushSplits(here, Concat(rest), clean, ok);
      RunIsOnePush(d.state, rest, clean, ok);
      SameAfter(d.out, Run(d.state, rest, clean), Drain(d.state.(pending := d.state.pending + Concat(rest)), clean));
    }
  }

  lemma DrainEmpty(s: State, clean: string -> string)
    requires Ok(s.inside, s.close) && s.pending == ""
    ensures Drain(s, clean) == Step(s, [])
  {
    var tags := Candidates(s.inside, s.close);
    FirstTagIs("", tags);
    if h :| FirstTag("", tags) == Some(h) {
      NextIsOk(s.inside, s.close, "", h);
    }
    DrainRest(s, clean);
  }

  lemma RunIsPush(byPrompt: bool, chunks: seq<string>, clean: string -> string, ok: string -> bool)
    requires Splits(clean, ok) && AllPieces(byPrompt, Opened(byPrompt).close, Concat(chunks), ok)
    ensures Same(Run(Opened(byPrompt), chunks, clean), Drain(Opened(byPrompt).(pending := Concat(chunks)), clean))
  {
    var s := Opened(byPrompt);
    if chunks == [] {
      DrainEmpty(s, clean);
    } else {
      assert s.pending + Concat(chunks) == Concat(chunks);
      RunIsOnePush(s, chunks, clean, ok);
    }
  }

  /** The answer and the reasoning do not depend on how the text was cut. */
  lemma ChunkingIsFree(byPrompt: bool, chunks: seq<string>)
    requires AllPieces(byPrompt, Opened(byPrompt).close, Concat(chunks), Settled)
    ensures Outcome(byPrompt, chunks) == Outcome(byPrompt, [Concat(chunks)])
  {
    StripSplits();
    var s, text := Opened(byPrompt), Concat(chunks);
    assert Concat([text]) == text by { assert [text][1..] == []; assert text + "" == text; }
    RunIsPush(byPrompt, chunks, Strip, Settled);
    RunIsPush(byPrompt, [text], Strip, Settled);
    var a, b := Run(s, chunks, Strip), Run(s, [text], Strip);
    OutAdds(a.out, Finished(a.state).out);
    OutAdds(b.out, Finished(b.state).out);
  }
}
