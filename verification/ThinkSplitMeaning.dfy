/**
 What the answer and the reasoning are, said of the text alone: the reasoning is what stands between
 the tags; the answer is what stands outside them less its turn tokens, and less the white space
 before it when it follows a block.
 */
module ThinkSplitMeaning {
  import opened Text
  import opened HarmonyNoise
  import opened ThinkSplit
  import opened ThinkSplitCuts
  import opened ThinkSplitExact

  /** What stands between the tags. */
  ghost function Inside(inside: bool, close: string, text: string): string
    requires Ok(inside, close)
    decreases |text|
  {
    match FirstTag(text, Candidates(inside, close))
    case Some(h) =>
      NextIsOk(inside, close, text, h);
      (if inside then text[..h.at] else "") +
      Inside(!inside, if inside then close else CloserOf(h.tag), text[h.at + |h.tag|..])
    case None => if inside then text else ""
  }

  /** What stands outside them, without its turn tokens. */
  ghost function Outside(inside: bool, close: string, text: string, clean: string -> string): string
    requires Ok(inside, close)
    decreases |text|
  {
    match FirstTag(text, Candidates(inside, close))
    case Some(h) =>
      NextIsOk(inside, close, text, h);
      (if inside then "" else clean(text[..h.at])) +
      Outside(!inside, if inside then close else CloserOf(h.tag), text[h.at + |h.tag|..], clean)
    case None => if inside then "" else clean(text)
  }

  /** The answer. With no block before it, it keeps its leading white space; white space alone before
      a block is no answer, and what follows a block starts at its first other character. */
  ghost function AnswerIn(byPrompt: bool, text: string): string {
    if byPrompt then TrimStart(Outside(true, CLOSE, text, OnePass))
    else match FirstTag(text, OPENERS)
      case None => OnePass(text)
      case Some(h) =>
        var first, rest := OnePass(text[..h.at]), Outside(true, CloserOf(h.tag), text[h.at + |h.tag|..], OnePass);
        if AllSpace(first) then TrimStart(rest) else first + rest
  }

  lemma OutsideTag(inside: bool, close: string, text: string, h: Hit, clean: string -> string)
    requires Ok(inside, close) && FirstTag(text, Candidates(inside, close)) == Some(h)
    ensures Ok(!inside, if inside then close else CloserOf(h.tag)) &&
            (Outside(inside, close, text, clean) ==
            (if inside then "" else clean(text[..h.at])) +
            Outside(!inside, if inside then close else CloserOf(h.tag), text[h.at + |h.tag|..], clean))
  {
    NextIsOk(inside, close, text, h);
  }

  lemma InsideTag(inside: bool, close: string, text: string, h: Hit)
    requires Ok(inside, close) && FirstTag(text, Candidates(inside, close)) == Some(h)
    ensures Ok(!inside, if inside then close else CloserOf(h.tag)) &&
            (Inside(inside, close, text) ==
            (if inside then text[..h.at] else "") +
            Inside(!inside, if inside then close else CloserOf(h.tag), text[h.at + |h.tag|..]))
  {
    NextIsOk(inside, close, text, h);
  }

  /** Everything said from here to the end of the stream. */
  ghost function ToTheEnd(s: State): seq<Segment>
    requires Ok(s.inside, s.close)
  {
    Drain(s, Strip).out + Finished(Drain(s, Strip).state).out
  }

  lemma ToTheEndTag(s: State, h: Hit)
    requires Ok(s.inside, s.close) && FirstTag(s.pending, Candidates(s.inside, s.close)) == Some(h)
    ensures Ok(AfterHit(s, h, Strip).inside, AfterHit(s, h, Strip).close)
    ensures ToTheEnd(s) == Emit(s.inside, s.lead, s.pending[..h.at], Strip).out + ToTheEnd(AfterHit(s, h, Strip))
  {
    DrainTag(s, h, Strip);
    var d := Drain(AfterHit(s, h, Strip), Strip);
    Associates(Emit(s.inside, s.lead, s.pending[..h.at], Strip).out, d.out, Finished(d.state).out);
  }

  lemma ContentPastTag(s: State, h: Hit)
    requires Ok(s.inside, s.close) && FirstTag(s.pending, Candidates(s.inside, s.close)) == Some(h)
    ensures
      var next := AfterHit(s, h, Strip);
      && Ok(next.inside, next.close)
      && ContentOf(ToTheEnd(s)) ==
           ContentOf(Emit(s.inside, s.lead, s.pending[..h.at], Strip).out) + ContentOf(ToTheEnd(next))
  {
    ToTheEndTag(s, h);
    OutAdds(Emit(s.inside, s.lead, s.pending[..h.at], Strip).out, ToTheEnd(AfterHit(s, h, Strip)));
  }

  // ----- The reasoning -----

  lemma EmitThinks(inside: bool, lead: Lead, text: string)
    ensures ThinkingOf(Emit(inside, lead, text, Strip).out) == if inside then text else ""
  {
    OneSegmentSays(text);
    AnswerSays(lead, Strip(text));
  }

  lemma FinishThinks(s: State)
    ensures ThinkingOf(Finished(s).out) == if s.inside then s.pending else ""
  {
    EmitThinks(s.inside, s.lead, s.pending);
    var e := Emit(s.inside, s.lead, s.pending, Strip);
    OneSegmentSays(e.lead.held);
    OutAdds(e.out, [Content(e.lead.held)]);
  }

  lemma {:induction false} ThinksInside(s: State)
    requires Ok(s.inside, s.close)
    ensures ThinkingOf(ToTheEnd(s)) == Inside(s.inside, s.close, s.pending)
    decreases |s.pending|
  {
    match FirstTag(s.pending, Candidates(s.inside, s.close))
    case Some(h) =>
      var next := AfterHit(s, h, Strip);
      NextIsOk(s.inside, s.close, s.pending, h);
      ToTheEndTag(s, h);
      InsideTag(s.inside, s.close, s.pending, h);
      EmitThinks(s.inside, s.lead, s.pending[..h.at]);
      ThinksInside(next);
      OutAdds(Emit(s.inside, s.lead, s.pending[..h.at], Strip).out, ToTheEnd(next));
    case None =>
      var p, k := s.pending[..Cut(s)], s.pending[Cut(s)..];
      assert s.pending == p + k;
      DrainRest(s, Strip);
      EmitThinks(s.inside, s.lead, p);
      FinishThinks(Drain(s, Strip).state);
      OutAdds(Drain(s, Strip).out, Finished(Drain(s, Strip).state).out);
  }

  // ----- The answer -----

  /** The last piece, said in two: what the push let go and what the end of the stream releases. */
  lemma LastPiece(inside: bool, close: string, text: string, p: string, k: string)
    requires Ok(inside, close) && !inside && text == p + k && FirstTag(text, Candidates(inside, close)) == None
    requires |k| == Keep(text, Watched(inside, close)) && Settled(p)
    ensures Strip(p) + Strip(k) == OnePass(text)
  {
    HeldIsQuiet(inside, close, text, p, k);
    if k != "" {
      QuietBegins(inside, close, k);
    }
    PieceSettles(k, ' ', k);
    assert text + "" == text;
    CleanWhereCut(text, "", inside, close, p, k);
    OnePassAdds(p, k);
  }

  /** What is said of an answer, or of what may be one, once a block has come. */
  function Rest(lead: Lead, t: string): string {
    if lead.started then t else TrimStart(t)
  }

  lemma RestAdds(lead: Lead, t: string, u: string)
    requires lead.started || lead.thought
    ensures Rest(lead, t + u) == ContentOf(Answer(lead, t).out) + Rest(Answer(lead, t).lead, u)
    ensures Answer(lead, t).lead.held == lead.held && (Answer(lead, t).lead.started || Answer(lead, t).lead.thought)
    ensures Answer(lead, t).lead.thought == lead.thought
  {
    AnswerSays(lead, t);
    TrimStartAdds(t, u);
    TrimStartIs(t);
  }

  lemma EmitIsAnswer(lead: Lead, text: string)
    ensures Emit(false, lead, text, Strip) == Answer(lead, Strip(text))
  {
    StageOfNothing(|NOISE|);
  }

  lemma {:induction false} AnswersOutside(s: State)
    requires Ok(s.inside, s.close) && AllPieces(s.inside, s.close, s.pending, Settled)
    requires s.lead.held == "" && (s.inside || s.lead.started || s.lead.thought)
    ensures ContentOf(ToTheEnd(s)) == Rest(s.lead, Outside(s.inside, s.close, s.pending, OnePass))
    decreases |s.pending|
  {
    match FirstTag(s.pending, Candidates(s.inside, s.close))
    case Some(h) =>
      var next := AfterHit(s, h, Strip);
      AfterHitIsPast(s, h, Strip);
      OutsidePast(s, h, next);
      LeadPast(s, h);
      AnswersOutside(next);
      AnswersPastTag(s, h, Outside(next.inside, next.close, next.pending, OnePass));
    case None =>
      var p, k := s.pending[..Cut(s)], s.pending[Cut(s)..];
      assert s.pending == p + k;
      if s.inside {
        NothingInside(s, p, k);
      } else {
        AnswersRest(s, p, k);
      }
  }

  lemma NothingInside(s: State, p: string, k: string)
    requires Ok(s.inside, s.close) && s.inside && s.pending == p + k && s.lead.held == ""
    requires FirstTag(s.pending, Candidates(s.inside, s.close)) == None && |k| == Keep(s.pending, Watched(s.inside, s.close))
    ensures ContentOf(ToTheEnd(s)) == ""
  {
    DrainAll(s, p, k, Strip);
    OneSegmentSays(p);
    OneSegmentSays(k);
    OutAdds(Drain(s, Strip).out, Finished(Drain(s, Strip).state).out);
  }

  lemma AnswersRest(s: State, p: string, k: string)
    requires Ok(s.inside, s.close) && !s.inside && s.pending == p + k && s.lead.held == ""
    requires s.lead.started || s.lead.thought
    requires FirstTag(s.pending, Candidates(s.inside, s.close)) == None && |k| == Keep(s.pending, Watched(s.inside, s.close))
    requires AllPieces(s.inside, s.close, s.pending, Settled)
    ensures ContentOf(ToTheEnd(s)) == Rest(s.lead, OnePass(s.pending))
  {
    PiecesRest(s.inside, s.close, s.pending, p, k, Settled);
    LastPiece(s.inside, s.close, s.pending, p, k);
    DrainAll(s, p, k, Strip);
    var t, u := Strip(p), Strip(k);
    var a := Answer(s.lead, t);
    EmitIsAnswer(s.lead, p);
    EmitIsAnswer(a.lead, k);
    RestAdds(s.lead, t, u);
    RestAdds(a.lead, u, "");
    assert u + "" == u;
    OutAdds(a.out, Answer(a.lead, u).out);
  }

  lemma {:induction false} OutsidePast(s: State, h: Hit, next: State)
    requires Ok(s.inside, s.close) && FirstTag(s.pending, Candidates(s.inside, s.close)) == Some(h)
    requires IsPast(s, h, next) && AllPieces(s.inside, s.close, s.pending, Settled)
    ensures Ok(next.inside, next.close) && AllPieces(next.inside, next.close, next.pending, Settled)
    ensures Outside(s.inside, s.close, s.pending, OnePass) ==
            (if s.inside then "" else OnePass(s.pending[..h.at])) + Outside(next.inside, next.close, next.pending, OnePass)
    ensures !s.inside ==> Settled(s.pending[..h.at])
  {
    NextIsOk(s.inside, s.close, s.pending, h);
    OutsideTag(s.inside, s.close, s.pending, h, OnePass);
    PiecesOfHit(s.inside, s.close, s.pending, h, Settled);
  }

  /** A piece and then the rest, once the answer has begun or a block came before it. */
  lemma {:induction false} AnswersPastTag(s: State, h: Hit, rest: string)
    requires Ok(s.inside, s.close) && FirstTag(s.pending, Candidates(s.inside, s.close)) == Some(h)
    requires s.lead.held == "" && (s.inside || s.lead.started || s.lead.thought)
    requires Ok(AfterHit(s, h, Strip).inside, AfterHit(s, h, Strip).close)
    requires ContentOf(ToTheEnd(AfterHit(s, h, Strip))) == Rest(AfterHit(s, h, Strip).lead, rest)
    ensures ContentOf(ToTheEnd(s)) == Rest(s.lead, (if s.inside then "" else Strip(s.pending[..h.at])) + rest)
  {
    var p := s.pending[..h.at];
    ContentPastTag(s, h);
    if s.inside {
      OneSegmentSays(p);
      assert "" + rest == rest;
    } else {
      EmitIsAnswer(s.lead, p);
      RestAdds(s.lead, Strip(p), rest);
    }
  }

  lemma LeadPast(s: State, h: Hit)
    requires h.at + |h.tag| <= |s.pending|
    requires s.lead.held == "" && (s.inside || s.lead.started || s.lead.thought)
    ensures
      var next := AfterHit(s, h, Strip);
      next.lead.held == "" && (next.inside || next.lead.started || next.lead.thought)
  {}

  // Before any block.

  lemma FirstSays(t: string)
    ensures
      var a := Answer(Lead(false, false, ""), t);
      && ContentOf(a.out) == (if AllSpace(t) then "" else t)
      && a.lead == if AllSpace(t) then Lead(false, false, t) else Lead(true, false, "")
  {
    AnswerSays(Lead(false, false, ""), t);
    assert "" + t == t;
  }

  /** What is said after a first piece `t` and an opening tag. */
  lemma FirstThenRest(t: string, rest: string)
    ensures
      var a := Answer(Lead(false, false, ""), t);
      ContentOf(a.out) + Rest(a.lead.(held := ""), rest) == if AllSpace(t) then TrimStart(rest) else t + rest
  {
    FirstSays(t);
    assert "" + TrimStart(rest) == TrimStart(rest);
  }

  /** The first piece of an answer and then the rest. */
  lemma {:induction false} FirstPastTag(s: State, h: Hit, rest: string)
    requires !s.inside && FirstTag(s.pending, OPENERS) == Some(h) && s.lead == Lead(false, false, "")
    requires Ok(AfterHit(s, h, Strip).inside, AfterHit(s, h, Strip).close)
    requires ContentOf(ToTheEnd(AfterHit(s, h, Strip))) == Rest(AfterHit(s, h, Strip).lead, rest)
    ensures
      var first := Strip(s.pending[..h.at]);
      ContentOf(ToTheEnd(s)) == if AllSpace(first) then TrimStart(rest) else first + rest
  {
    var p := s.pending[..h.at];
    ContentPastTag(s, h);
    EmitIsAnswer(s.lead, p);
    FirstThenRest(Strip(p), rest);
  }

  lemma {:induction false} AnswerBeforeTag(text: string, h: Hit)
    requires FirstTag(text, OPENERS) == Some(h) && AllPieces(false, "", text, Settled)
    ensures ContentOf(ToTheEnd(Opened(false).(pending := text))) == AnswerIn(false, text)
  {
    var s := Opened(false).(pending := text);
    var next := AfterHit(s, h, Strip);
    AfterHitIsPast(s, h, Strip);
    OutsidePast(s, h, next);
    AnswersOutside(next);
    FirstPastTag(s, h, Outside(next.inside, next.close, next.pending, OnePass));
  }

  lemma AnswerAlone(text: string)
    requires FirstTag(text, OPENERS) == None && AllPieces(false, "", text, Settled)
    ensures ContentOf(ToTheEnd(Opened(false).(pending := text))) == OnePass(text)
  {
    var s := Opened(false).(pending := text);
    var p, k := text[..Cut(s)], text[Cut(s)..];
    assert text == p + k;
    PiecesRest(false, "", text, p, k, Settled);
    LastPiece(false, "", text, p, k);
    DrainAll(s, p, k, Strip);
    EmitIsAnswer(s.lead, p);
    AloneInTwo(Strip(p), Strip(k));
    EmitIsAnswer(Answer(s.lead, Strip(p)).lead, k);
    OutAdds(Drain(s, Strip).out, Finished(Drain(s, Strip).state).out);
    var b := Answer(Answer(s.lead, Strip(p)).lead, Strip(k));
    OutAdds(b.out, [Content(b.lead.held)]);
    OneSegmentSays(b.lead.held);
  }

  /** White space alone is an answer after all when nothing else came. */
  lemma AloneInTwo(t: string, u: string)
    ensures
      var a := Answer(Lead(false, false, ""), t);
      var b := Answer(a.lead, u);
      t + u == ContentOf(a.out) + (ContentOf(b.out) + if b.lead.started then "" else b.lead.held)
  {
    var a := Answer(Lead(false, false, ""), t);
    FirstSays(t);
    AnswerSays(a.lead, u);
    assert t + u == "" + (t + u) == t + (u + "") == "" + ("" + (t + u));
  }

  lemma WholeMeans(byPrompt: bool, text: string)
    requires AllPieces(byPrompt, Opened(byPrompt).close, text, Settled)
    ensures
      var out := ToTheEnd(Opened(byPrompt).(pending := text));
      && ThinkingOf(out) == Inside(byPrompt, Opened(byPrompt).close, text)
      && ContentOf(out) == AnswerIn(byPrompt, text)
  {
    var s := Opened(byPrompt).(pending := text);
    ThinksInside(s);
    if byPrompt {
      AnswersOutside(s);
    } else {
      match FirstTag(text, OPENERS)
      case Some(h) => AnswerBeforeTag(text, h);
      case None => AnswerAlone(text);
    }
  }

  /** However a stream is cut: its reasoning is what stands between its tags, and its answer is what
      the text says it is. */
  lemma StreamMeans(byPrompt: bool, chunks: seq<string>)
    requires AllPieces(byPrompt, Opened(byPrompt).close, Concat(chunks), Settled)
    ensures Outcome(byPrompt, chunks) ==
            (Inside(byPrompt, Opened(byPrompt).close, Concat(chunks)), AnswerIn(byPrompt, Concat(chunks)))
  {
    var text := Concat(chunks);
    ChunkingIsFree(byPrompt, chunks);
    RunOne(Opened(byPrompt), text);
    assert Opened(byPrompt).pending + text == text;
    WholeMeans(byPrompt, text);
  }
}
