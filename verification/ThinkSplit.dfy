/**
 Where a model's reasoning ends and its answer begins. Tags are read out of a stream of chunks; the
 end of the text that may be the start of a tag is held back. However the text is cut, the reasoning
 and the answer come out the same, as long as deleting turn tokens puts no other one together; and
 only then.
 */
module ThinkSplit {
  import opened Text
  import opened HarmonyNoise

  const OPEN := "<think>"
  const CLOSE := "</think>"
  const OPEN_HARMONY := "<|channel|>analysis<|message|>"
  const CLOSE_HARMONY := "<|end|>"
  const OPEN_GEMMA := "<|channel>thought\n"
  const CLOSE_GEMMA := "<channel|>"

  const OPENERS := [OPEN, OPEN_HARMONY, OPEN_GEMMA]
  const CLOSERS := [CLOSE, CLOSE_HARMONY, CLOSE_GEMMA]

  datatype Segment = Thinking(text: string) | Content(text: string)

  /** What decides the white space before an answer: whether the answer has begun, whether a block has
      closed, and the white space kept back until it is known what it precedes. */
  datatype Lead = Lead(started: bool, thought: bool, held: string)

  datatype State = State(inside: bool, close: string, pending: string, lead: Lead)

  /** The tags that may come next. */
  function Candidates(inside: bool, close: string): seq<string> {
    if inside then [close] else OPENERS
  }

  predicate Ok(inside: bool, close: string) {
    inside ==> close in CLOSERS
  }

  function CloserOf(tag: string): string {
    if tag == OPEN_HARMONY then CLOSE_HARMONY else if tag == OPEN_GEMMA then CLOSE_GEMMA else CLOSE
  }

  // ----- Reading a tag, holding back its beginning -----

  datatype Hit = Hit(at: nat, tag: string)

  /** The first of the tags that stands in the text. */
  ghost function FirstTag(s: string, tags: seq<string>): (r: Option<Hit>)
    ensures r.Some? ==> r.value.tag in tags && r.value.at + |r.value.tag| <= |s|
  {
    FirstOf(s, tags, |tags|)
  }

  /** The first of the first `n` tags. */
  ghost function FirstOf(s: string, tags: seq<string>, n: nat): (r: Option<Hit>)
    requires n <= |tags|
    ensures r.Some? ==> r.value.tag in tags && r.value.at + |r.value.tag| <= |s|
  {
    if n == 0 then None else
      var rest, found := FirstOf(s, tags, n - 1), FindFrom(s, tags[n - 1], 0);
      if found.Some? && (rest.None? || found.value < rest.value.at) then Some(Hit(found.value, tags[n - 1])) else rest
  }

  method FindTag(s: string, tags: seq<string>) returns (r: Option<Hit>)
    ensures r == FirstTag(s, tags)
  {
    r := None;
    for n := 0 to |tags|
      invariant r == FirstOf(s, tags, n)
    {
      var found := Find(s, tags[n], 0);
      if found.Some? && (r.None? || found.value < r.value.at) {
        r := Some(Hit(found.value, tags[n]));
      }
    }
  }

  /** How much of the end of the text may be the start of one of the tags. */
  function Keep(s: string, tags: seq<string>): (r: nat)
    ensures r <= |s|
  {
    KeepOf(s, tags, |tags|)
  }

  function KeepOf(s: string, tags: seq<string>, n: nat): (r: nat)
    requires n <= |tags|
    ensures r <= |s|
  {
    if n == 0 then 0 else
      var rest, here := KeepOf(s, tags, n - 1), Overlap(s, tags[n - 1]);
      if here > rest then here else rest
  }

  lemma {:induction false} FirstOfIs(s: string, tags: seq<string>, n: nat)
    requires n <= |tags|
    ensures
      var r := FirstOf(s, tags, n);
      && (r.Some? ==> At(s, r.value.at, r.value.tag))
      && forall i: nat | r.Some? ==> i < r.value.at :: !Starts(s, tags[..n], i)
  {
    if n > 0 {
      var before, tag := tags[..n - 1], tags[n - 1];
      FirstOfIs(s, tags, n - 1);
      FindFromIs(s, tag, 0);
      assert tags[..n] == before + [tag];
      forall i: nat
        ensures Starts(s, tags[..n], i) <==> Starts(s, before, i) || At(s, i, tag)
      {
        OneMore(s, before, tag, i);
      }
    }
  }

  lemma FirstTagIs(s: string, tags: seq<string>)
    ensures
      var r := FirstTag(s, tags);
      && (r.Some? ==> At(s, r.value.at, r.value.tag))
      && forall i: nat | r.Some? ==> i < r.value.at :: !Starts(s, tags, i)
  {
    FirstOfIs(s, tags, |tags|);
    assert tags[..|tags|] == tags;
  }

  lemma {:induction false} KeepOfIs(s: string, tags: seq<string>, n: nat)
    requires n <= |tags|
    ensures
      var r := KeepOf(s, tags, n);
      && (r > 0 ==> MayStart(s, tags[..n], |s| - r))
      && forall i: nat | i < |s| - r :: !MayStart(s, tags[..n], i)
  {
    if n > 0 {
      var before, tag := tags[..n - 1], tags[n - 1];
      KeepOfIs(s, tags, n - 1);
      OverlapIs(s, tag);
      assert tags[..n] == before + [tag];
      forall i: nat
        ensures MayStart(s, tags[..n], i) <==> MayStart(s, before, i) || Begins(s, i, tag)
      {
        OneMore(s, before, tag, i);
      }
    }
  }

  lemma KeepIs(s: string, tags: seq<string>)
    ensures
      var r := Keep(s, tags);
      && (r > 0 ==> MayStart(s, tags, |s| - r))
      && forall i: nat | i < |s| - r :: !MayStart(s, tags, i)
  {
    KeepOfIs(s, tags, |tags|);
    assert tags[..|tags|] == tags;
  }

  // ----- What is said -----

  /** What one step leaves and lets out. */
  datatype Said = Said(lead: Lead, out: seq<Segment>)
  datatype Step = Step(state: State, out: seq<Segment>)

  /** A piece of the answer. With no block before it, white space before it is part of it. */
  function Answer(lead: Lead, t: string): Said {
    if t == "" then Said(lead, [])
    else if lead.started then Said(lead, [Content(t)])
    else if lead.thought then
      var u := TrimStart(t);
      if u == "" then Said(lead, []) else Said(lead.(started := true), [Content(u)])
    else if Trim(t) == "" then Said(lead.(held := lead.held + t), [])
    else Said(lead.(started := true, held := ""), [Content(lead.held + t)])
  }

  /** A piece of what is said; `clean` takes the turn tokens out of an answer. */
  function Emit(inside: bool, lead: Lead, text: string, clean: string -> string): Said {
    if text == "" then Said(lead, [])
    else if inside then Said(lead, [Thinking(text)])
    else Answer(lead, clean(text))
  }

  /** Past a tag, on the other side of it. */
  function Past(s: State, lead: Lead, hit: Hit): State
    requires hit.at + |hit.tag| <= |s.pending|
  {
    State(!s.inside, if s.inside then s.close else CloserOf(hit.tag), s.pending[hit.at + |hit.tag|..],
          if s.inside then lead.(thought := true) else lead.(held := ""))
  }

  function Cut(s: State): (cut: nat)
    ensures cut <= |s.pending|
  {
    |s.pending| - Keep(s.pending, Candidates(s.inside, s.close) + NOISE)
  }

  /** Everything in `pending` that can be read is read. */
  ghost function Drain(s: State, clean: string -> string): Step
    requires Ok(s.inside, s.close)
    decreases |s.pending|
  {
    match FirstTag(s.pending, Candidates(s.inside, s.close))
    case Some(hit) =>
      NextIsOk(s.inside, s.close, s.pending, hit);
      var e := Emit(s.inside, s.lead, s.pending[..hit.at], clean);
      var d := Drain(Past(s, e.lead, hit), clean);
      Step(d.state, e.out + d.out)
    case None =>
      var e := Emit(s.inside, s.lead, s.pending[..Cut(s)], clean);
      Step(s.(pending := s.pending[Cut(s)..], lead := e.lead), e.out)
  }

  lemma DrainTag(s: State, h: Hit, clean: string -> string)
    requires Ok(s.inside, s.close) && FirstTag(s.pending, Candidates(s.inside, s.close)) == Some(h)
    ensures
      var e := Emit(s.inside, s.lead, s.pending[..h.at], clean);
      var next := Past(s, e.lead, h);
      && Ok(next.inside, next.close)
      && Drain(s, clean) == Step(Drain(next, clean).state, e.out + Drain(next, clean).out)
  {
    NextIsOk(s.inside, s.close, s.pending, h);
  }

  lemma DrainRest(s: State, clean: string -> string)
    requires Ok(s.inside, s.close) && FirstTag(s.pending, Candidates(s.inside, s.close)) == None
    ensures
      var e := Emit(s.inside, s.lead, s.pending[..Cut(s)], clean);
      Drain(s, clean) == Step(State(s.inside, s.close, s.pending[Cut(s)..], e.lead), e.out)
  {}

  lemma TagsAreReal(inside: bool, close: string, tag: string)
    requires Ok(inside, close) && tag in Candidates(inside, close)
    ensures tag != "" && Ok(!inside, if inside then close else CloserOf(tag))
  {}

  /** Past a tag that was found the splitter is in order again. */
  lemma {:induction false} NextIsOk(inside: bool, close: string, text: string, h: Hit)
    requires Ok(inside, close) && FirstTag(text, Candidates(inside, close)) == Some(h)
    ensures h.tag != "" && Ok(!inside, if inside then close else CloserOf(h.tag))
  {
    TagsAreReal(inside, close, h.tag);
  }

  /** What a stream that ended still holds. */
  function Finished(s: State): Step {
    var e := Emit(s.inside, s.lead, s.pending, Strip);
    if !e.lead.started && e.lead.held != "" then
      Step(s.(pending := "", lead := e.lead.(held := "")), e.out + [Content(e.lead.held)])
    else Step(s.(pending := "", lead := e.lead), e.out)
  }

  function Opened(byPrompt: bool): State {
    State(byPrompt, if byPrompt then CLOSE else "", "", Lead(false, false, ""))
  }

  function ThinkingOf(out: seq<Segment>): string {
    if out == [] then ""
    else (match out[0] case Thinking(t) => t case Content(_) => "") + ThinkingOf(out[1..])
  }

  function ContentOf(out: seq<Segment>): string {
    if out == [] then ""
    else (match out[0] case Thinking(_) => "" case Content(t) => t) + ContentOf(out[1..])
  }

  // ----- The splitter -----

  class Splitter {
    var inside: bool
    var close: string
    var pending: string
    var contentStarted: bool
    var thought: bool
    var held: string

    ghost function View(): State
      reads this
    {
      State(inside, close, pending, Lead(contentStarted, thought, held))
    }

    constructor (byPrompt: bool)
      ensures View() == Opened(byPrompt) && Ok(inside, close)
    {
      inside, close := byPrompt, if byPrompt then CLOSE else "";
      pending, contentStarted, thought, held := "", false, false, "";
    }

    method EmitText(text: string) returns (out: seq<Segment>)
      modifies this`contentStarted, this`held
      ensures Said(View().lead, out) == Emit(inside, old(View()).lead, text, Strip)
      ensures View() == old(View()).(lead := View().lead)
    {
      if text == "" {
        return [];
      }
      if inside {
        return [Thinking(text)];
      }
      var t := StripHarmonyNoise(text);
      if t == "" {
        return [];
      }
      if contentStarted {
        return [Content(t)];
      } else if thought {
        var u := TrimStart(t);
        if u == "" {
          return [];
        }
        contentStarted := true;
        return [Content(u)];
      } else if Trim(t) == "" {
        held := held + t;
        return [];
      }
      contentStarted := true;
      out := [Content(held + t)];
      held := "";
    }

    /** A tag has come: say what stands before it and pass to its other side. */
    method TakeTag(h: Hit) returns (out: seq<Segment>)
      requires Ok(inside, close) && FirstTag(pending, Candidates(inside, close)) == Some(h)
      modifies this
      ensures Ok(inside, close) && |pending| < old(|pending|)
      ensures
        var was := old(View());
        var said := Emit(was.inside, was.lead, was.pending[..h.at], Strip);
        out == said.out && View() == Past(was, said.lead, h)
    {
      NextIsOk(inside, close, pending, h);
      var before := pending[..h.at];
      pending := pending[h.at + |h.tag|..];
      out := EmitText(before);
      if inside {
        thought := true;
      } else {
        held := "";
        close := CloserOf(h.tag);
      }
      inside := !inside;
    }

    /** No tag stands in what is pending: say all of it but the end that may start one. */
    method Release() returns (out: seq<Segment>)
      requires Ok(inside, close) && FirstTag(pending, Candidates(inside, close)) == None
      modifies this`pending, this`contentStarted, this`held
      ensures Step(View(), out) == Drain(old(View()), Strip)
    {
      var cut := |pending| - Keep(pending, Candidates(inside, close) + NOISE);
      var release := pending[..cut];
      pending := pending[cut..];
      out := EmitText(release);
    }

    /** Take a chunk; give back what can be said now. */
    method Push(chunk: string) returns (out: seq<Segment>)
      requires Ok(inside, close)
      modifies this
      ensures Ok(inside, close)
      ensures Step(View(), out) == Drain(old(View()).(pending := old(pending) + chunk), Strip)
    {
      pending := pending + chunk;
      out := [];
      ghost var all := Drain(View(), Strip);
      ghost var left := all;
      while true
        invariant Ok(inside, close)
        invariant left == Drain(View(), Strip)
        invariant all.state == left.state && all.out == out + left.out
        decreases |pending|
      {
        var hit := FindTag(pending, Candidates(inside, close));
        match hit {
          case Some(h) =>
            ghost var was := View();
            var said := TakeTag(h);
            DrainTag(was, h, Strip);
            left := Drain(View(), Strip);
            Associates(out, said, left.out);
            out := out + said;
          case None =>
            var said := Release();
            out := out + said;
            return;
        }
      }
    }

    /** The stream has ended. */
    method Finish() returns (out: seq<Segment>)
      modifies this
      ensures Step(View(), out) == Finished(old(View()))
    {
      var rest := pending;
      pending := "";
      out := EmitText(rest);
      if !contentStarted && held != "" {
        out := out + [Content(held)];
        held := "";
      }
    }
  }

  /** What the segments of each kind say together. */
  method Collect(segments: seq<Segment>) returns (thinking: string, content: string)
    ensures thinking == ThinkingOf(segments) && content == ContentOf(segments)
  {
    thinking, content := "", "";
    for i := 0 to |segments|
      invariant thinking == ThinkingOf(segments[..i]) && content == ContentOf(segments[..i])
    {
      OutAdds(segments[..i], [segments[i]]);
      assert segments[..i + 1] == segments[..i] + [segments[i]];
      match segments[i]
      case Thinking(x) => thinking := thinking + x;
      case Content(x) => content := content + x;
    }
    assert segments[..|segments|] == segments;
  }

  /** The whole-text form. */
  method SplitThinkingOpened(byPrompt: bool, text: string) returns (thinking: Option<string>, content: string)
    ensures
      var (whole, answer) := Outcome(byPrompt, [text]);
      && thinking == (if Trim(whole) == "" then None else Some(Trim(whole)))
      && content == answer
  {
    var split := new Splitter(byPrompt);
    ghost var start := split.View();
    var segments := split.Push(text);
    RunOne(start, text);
    var last := split.Finish();
    segments := segments + last;
    var t;
    t, content := Collect(segments);
    t := Trim(t);
    thinking := if t == "" then None else Some(t);
  }

  /** A run over any chunks. */
  ghost function Run(s: State, chunks: seq<string>, clean: string -> string): (r: Step)
    requires Ok(s.inside, s.close)
    ensures Ok(r.state.inside, r.state.close)
    decreases |chunks|
  {
    if chunks == [] then Step(s, []) else
      var d := Drain(s.(pending := s.pending + chunks[0]), clean);
      DrainKeepsOk(s.(pending := s.pending + chunks[0]), clean);
      var rest := Run(d.state, chunks[1..], clean);
      Step(rest.state, d.out + rest.out)
  }

  /** The reasoning and the answer that come of pushing the chunks and finishing. */
  ghost function Outcome(byPrompt: bool, chunks: seq<string>): (string, string) {
    var run := Run(Opened(byPrompt), chunks, Strip);
    var all := run.out + Finished(run.state).out;
    (ThinkingOf(all), ContentOf(all))
  }

  lemma RunOne(s: State, text: string)
    requires Ok(s.inside, s.close)
    ensures Run(s, [text], Strip) == Drain(s.(pending := s.pending + text), Strip)
  {
    var d := Drain(s.(pending := s.pending + text), Strip);
    DrainKeepsOk(s.(pending := s.pending + text), Strip);
    assert [text][1..] == [];
    assert Run(d.state, [], Strip) == Step(d.state, []);
    assert d.out + [] == d.out;
  }

  lemma {:induction false} DrainKeepsOk(s: State, clean: string -> string)
    requires Ok(s.inside, s.close)
    ensures Ok(Drain(s, clean).state.inside, Drain(s, clean).state.close)
    decreases |s.pending|
  {
    match FirstTag(s.pending, Candidates(s.inside, s.close))
    case Some(hit) =>
      NextIsOk(s.inside, s.close, s.pending, hit);
      DrainKeepsOk(Past(s, Emit(s.inside, s.lead, s.pending[..hit.at], clean).lead, hit), clean);
    case None =>
  }

  lemma {:induction false} OutAdds(a: seq<Segment>, b: seq<Segment>)
    ensures ThinkingOf(a + b) == ThinkingOf(a) + ThinkingOf(b)
    ensures ContentOf(a + b) == ContentOf(a) + ContentOf(b)
    decreases |a|
  {
    if a == [] {
      assert a + b == b;
    } else {
      var rest := a[1..];
      assert (a + b)[1..] == rest + b;
      OutAdds(rest, b);
      match a[0]
      case Thinking(x) => Associates(x, ThinkingOf(rest), ThinkingOf(b));
      case Content(x) => Associates(x, ContentOf(rest), ContentOf(b));
    }
  }
}
