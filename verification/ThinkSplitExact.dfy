/**
 What a splitter holds back is exactly what it must, and the condition under which cutting a stream
 makes no difference is exact: where it fails, a stream that comes one character at a time is read
 otherwise than the same text whole.
 */
module ThinkSplitExact {
  import opened Text
  import opened HarmonyNoise
  import opened ThinkSplit
  import opened ThinkSplitCuts

  // ----- Where a stream stands -----

  datatype Place = Place(inside: bool, close: string, last: string)

  /** The side of a tag the text ends on, and what stands after that tag. */
  ghost function Last(inside: bool, close: string, text: string): Place
    requires Ok(inside, close)
    decreases |text|
  {
    match FirstTag(text, Candidates(inside, close))
    case Some(h) =>
      NextIsOk(inside, close, text, h);
      Last(!inside, if inside then close else CloserOf(h.tag), text[h.at + |h.tag|..])
    case None => Place(inside, close, text)
  }

  lemma LastTag(inside: bool, close: string, text: string, h: Hit)
    requires Ok(inside, close) && FirstTag(text, Candidates(inside, close)) == Some(h)
    ensures Ok(!inside, if inside then close else CloserOf(h.tag)) &&
            (Last(inside, close, text) == Last(!inside, if inside then close else CloserOf(h.tag), text[h.at + |h.tag|..]))
  {
    NextIsOk(inside, close, text, h);
  }

  /** `held` is the most of the end of `text` that may be the start of a tag or a turn token. */
  ghost predicate IsLongestBeginning(held: string, text: string, tags: seq<string>) {
    && |held| <= |text| && held == text[|text| - |held|..]
    && (held != "" ==> MayStart(text, tags, |text| - |held|))
    && forall i: nat | i < |text| - |held| :: !MayStart(text, tags, i)
  }

  ghost predicate StandsAt(s: State, text: string, from: State)
    requires Ok(from.inside, from.close)
  {
    var p := Last(from.inside, from.close, text);
    && s.inside == p.inside && s.close == p.close
    && IsLongestBeginning(s.pending, p.last, (if p.inside then [p.close] else OPENERS) + NOISE)
  }

  function HeldOf(text: string, tags: seq<string>): string {
    text[|text| - Keep(text, tags)..]
  }

  lemma HeldIsLongest(text: string, tags: seq<string>)
    ensures IsLongestBeginning(HeldOf(text, tags), text, tags)
  {
    KeepIs(text, tags);
  }

  predicate HoldsAt(s: State, p: Place) {
    s.inside == p.inside && s.close == p.close && s.pending == HeldOf(p.last, Watched(p.inside, p.close))
  }

  /** Where the text ends, seen from past its first tag. */
  lemma {:induction false} StandsPastTag(s: State, h: Hit, next: State)
    requires Ok(s.inside, s.close) && FirstTag(s.pending, Candidates(s.inside, s.close)) == Some(h)
    requires IsPast(s, h, next)
    ensures Ok(next.inside, next.close) && |next.pending| < |s.pending|
    ensures Last(s.inside, s.close, s.pending) == Last(next.inside, next.close, next.pending)
  {
    NextIsOk(s.inside, s.close, s.pending, h);
    LastTag(s.inside, s.close, s.pending, h);
  }

  lemma {:induction false} DrainStands(s: State, clean: string -> string)
    requires Ok(s.inside, s.close)
    ensures HoldsAt(Drain(s, clean).state, Last(s.inside, s.close, s.pending))
    decreases |s.pending|
  {
    match FirstTag(s.pending, Candidates(s.inside, s.close))
    case Some(h) =>
      DrainTag(s, h, clean);
      LastTag(s.inside, s.close, s.pending, h);
      AfterHitIsPast(s, h, clean);
      StandsPastTag(s, h, AfterHit(s, h, clean));
      DrainStands(AfterHit(s, h, clean), clean);
    case None =>
      DrainRest(s, clean);
  }

  /** The two stand at the same place in the text; what they have said may differ. */
  predicate SamePlace(a: State, b: State) {
    a.inside == b.inside && a.close == b.close && a.pending == b.pending
  }

  lemma {:induction false} DrainPlaces(a: State, b: State, f: string -> string, g: string -> string)
    requires SamePlace(a, b) && Ok(a.inside, a.close)
    ensures SamePlace(Drain(a, f).state, Drain(b, g).state)
    decreases |a.pending|
  {
    match FirstTag(a.pending, Candidates(a.inside, a.close))
    case Some(h) =>
      DrainTag(a, h, f);
      DrainTag(b, h, g);
      DrainPlaces(AfterHit(a, h, f), AfterHit(b, h, g), f, g);
    case None =>
      DrainRest(a, f);
      DrainRest(b, g);
  }

  lemma {:induction false} RunPlaces(a: State, b: State, chunks: seq<string>, f: string -> string, g: string -> string)
    requires SamePlace(a, b) && Ok(a.inside, a.close)
    ensures SamePlace(Run(a, chunks, f).state, Run(b, chunks, g).state)
    decreases |chunks|
  {
    if chunks != [] {
      var x, y := a.(pending := a.pending + chunks[0]), b.(pending := b.pending + chunks[0]);
      DrainPlaces(x, y, f, g);
      DrainKeepsOk(x, f);
      DrainKeepsOk(y, g);
      RunPlaces(Drain(x, f).state, Drain(y, g).state, chunks[1..], f, g);
    }
  }

  lemma {:induction false} AlwaysSettles(inside: bool, close: string, text: string)
    requires Ok(inside, close)
    ensures AllPieces(inside, close, text, Always)
    decreases |text|
  {
    match FirstTag(text, Candidates(inside, close))
    case Some(h) =>
      NextIsOk(inside, close, text, h);
      AlwaysSettles(!inside, if inside then close else CloserOf(h.tag), text[h.at + |h.tag|..]);
    case None =>
  }

  /** After any chunks whatever: the splitter is on the side of the tags it has read, and it holds back
      the longest end of the text since the last of them that may begin a tag or a turn token. */
  lemma PendingIsExact(byPrompt: bool, chunks: seq<string>)
    ensures StandsAt(Run(Opened(byPrompt), chunks, Strip).state, Concat(chunks), Opened(byPrompt))
  {
    var s := Opened(byPrompt);
    OnePassSplits();
    AlwaysSettles(byPrompt, s.close, Concat(chunks));
    RunIsPush(byPrompt, chunks, OnePass, Always);
    RunPlaces(s, s, chunks, Strip, OnePass);
    DrainStands(s.(pending := Concat(chunks)), OnePass);
    var p := Last(s.inside, s.close, Concat(chunks));
    HeldIsLongest(p.last, Watched(p.inside, p.close));
  }

  // ----- One character at a time -----

  ghost predicate NoNoise(s: string) {
    forall y: nat, k: nat | k < |NOISE| :: !At(s, y, NOISE[k])
  }

  lemma NoNoiseStage(s: string, k: nat)
    requires NoNoise(s) && k <= |NOISE|
    ensures Stage(s, k) == s
  {
    if k > 0 {
      NoNoiseStage(s, k - 1);
      assert s + "" == s;
      DelSkips(s, "", NOISE[k - 1]);
    }
  }

  lemma {:induction false} NoNoiseIsSettled(s: string)
    requires NoNoise(s)
    ensures !Joined(s)
    decreases |s|
  {
    if s != "" {
      var c, r := s[0], s[1..];
      assert s == [c] + r;
      forall y: nat, k: nat | k < |NOISE|
        ensures !At(r, y, NOISE[k])
      {
        Shifted(s, 1, y, NOISE[k]);
      }
      forall i | 0 <= i < |NOISE|
        ensures !At([c] + Stage(r, i), 0, NOISE[i])
      {
        NoNoiseStage(r, i);
      }
      assert FirstNoise(s) == None;
      NoNoiseIsSettled(r);
    }
  }

  /** A token at the very front, at most, is no harm. */
  lemma FrontNoiseIsSettled(p: string)
    requires forall y: nat, k: nat | y >= 1 && k < |NOISE| :: !At(p, y, NOISE[k])
    ensures !Joined(p)
  {
    match FirstNoise(p)
    case None => NoNoiseIsSettled(p);
    case Some(j) =>
      var d := |NOISE[j]|;
      forall y: nat, k: nat | k < |NOISE|
        ensures !At(p[d..], y, NOISE[k])
      {
        Shifted(p, d, y, NOISE[k]);
      }
      NoNoiseIsSettled(p[d..]);
  }

  lemma InnerOpenerOf(t: string, y: nat)
    requires (t in OPENERS || t in CLOSERS) && 1 <= y < |t| && t[y] == '<'
    ensures t == OPEN_HARMONY && y == 19 && y + 2 < |t| && t[y + 2] == 'm'
  {}

  lemma InnerOpenersOf(t: string, y: nat)
    requires t in ALL_TAGS && 1 <= y && y + 2 < |t| && t[y] == '<'
    ensures t[y + 2] == 'm' || (t == NOISE[0] && y == 18)
  {
    if t in NOISE {
      var j :| 0 <= j < |NOISE| && NOISE[j] == t;
      InnerOpeners(j, y);
      assert NOISE[1][16 + 2] == 'm' && NOISE[0][34 + 2] == 'm';
    } else {
      InnerOpenerOf(t, y);
    }
  }

  /** A beginning of a tag and one more character: a turn token past the front of it can only be the
      end of the longest one. */
  lemma InnerNoise(b: string, c: char, t: string, y: nat, k: nat)
    requires t in ALL_TAGS && |b| < |t| && b == t[..|b|] && y >= 1 && k < |NOISE| && At(b + [c], y, NOISE[k])
    ensures b + [c] == NOISE[0]
  {
    var s := b + [c];
    Starters(k);
    AtChar(s, y, NOISE[k], 0);
    AtChar(s, y, NOISE[k], 2);
    InnerOpenersOf(t, y);
    assert NOISE[0][18 + 2] == 'c';
    SecondKind(k);
    assert |NOISE[0]| == 45 && |NOISE[1]| == 27;
    LongestIs(s, t);
  }

  lemma SecondKind(k: nat)
    requires k < |NOISE| && NOISE[k][2] == 'c'
    ensures k == 1
  {
    assert NOISE[0][2] == 's' && NOISE[2][2] == 's' && NOISE[3][2] == 'r' && NOISE[4][2] == 'e';
  }

  lemma LongestIs(s: string, t: string)
    requires t == NOISE[0] && |s| == 45 && s[..44] == t[..44] && At(s, 18, NOISE[1])
    ensures s == NOISE[0]
  {
    assert s[44] == s[18..18 + 27][26] == NOISE[1][26] == NOISE[0][44];
    assert s == s[..44] + [s[44]] && t == t[..44] + [t[44]];
  }

  lemma InnerOfPiece(b: string, t: string, q: string, d: char, y: nat, k: nat)
    requires t in ALL_TAGS && Begins(b, 0, t) && q <= b && y >= 1 && k < |NOISE| && At(q + [d], y, NOISE[k])
    ensures q + [d] == NOISE[0]
  {
    assert q == b[..|q|] == t[..|q|];
    InnerNoise(q, d, t, y, k);
  }

  lemma AllButOne(b: string, c: char, p: string, q: string, d: char)
    requires p <= b + [c] && p != "" && q == p[..|p| - 1] && d == p[|p| - 1]
    ensures p == q + [d] && q <= b
  {}

  lemma NoInnerOfPiece(b: string, c: char, p: string, y: nat, k: nat)
    requires b != "" ==> exists t | t in ALL_TAGS :: Begins(b, 0, t)
    requires p <= b + [c] && p != NOISE[0] && y >= 1 && k < |NOISE|
    ensures !At(p, y, NOISE[k])
  {
    Starters(k);
    if |p| > 1 {
      var t :| t in ALL_TAGS && Begins(b, 0, t);
      var q, d := p[..|p| - 1], p[|p| - 1];
      AllButOne(b, c, p, q, d);
      if At(q + [d], y, NOISE[k]) {
        InnerOfPiece(b, t, q, d, y, k);
      }
    }
  }

  /** What is let go when one character comes is settled: no token in it was put together. */
  lemma PieceSettles(b: string, c: char, p: string)
    requires b != "" ==> exists t | t in ALL_TAGS :: Begins(b, 0, t)
    requires p <= b + [c]
    ensures Settled(p)
  {
    SettledIff(p);
    if p == NOISE[0] {
      LongestIsSettled();
    } else {
      forall y: nat, k: nat | y >= 1 && k < |NOISE|
        ensures !At(p, y, NOISE[k])
      {
        NoInnerOfPiece(b, c, p, y, k);
      }
      FrontNoiseIsSettled(p);
    }
  }

  lemma LongestIsSettled()
    ensures !Joined(NOISE[0])
  {
    assert NOISE[0] + "" == NOISE[0];
    JoinedOfToken(0, "");
  }

  /** No tag stands in what is pending, and all of it is held back. */
  ghost predicate Quiet(inside: bool, close: string, pending: string) {
    FirstTag(pending, Candidates(inside, close)) == None && Keep(pending, Watched(inside, close)) == |pending|
  }

  lemma QuietBegins(inside: bool, close: string, pending: string)
    requires Ok(inside, close) && Quiet(inside, close, pending) && pending != ""
    ensures exists t | t in ALL_TAGS :: Begins(pending, 0, t)
  {
    KeepIs(pending, Watched(inside, close));
    var t :| t in Watched(inside, close) && Begins(pending, 0, t);
    WatchedTags(inside, close, t);
  }

  /** A tag that one more character completes ends with it. */
  lemma HitEnds(inside: bool, close: string, b: string, c: char, h: Hit)
    requires Ok(inside, close) && Quiet(inside, close, b)
    requires FirstTag(b + [c], Candidates(inside, close)) == Some(h)
    ensures h.at + |h.tag| == |b| + 1
  {
    FirstTagIs(b, Candidates(inside, close));
    FirstTagIs(b + [c], Candidates(inside, close));
    assert !Starts(b, Candidates(inside, close), h.at);
    if h.at + |h.tag| <= |b| {
      AtInPrefix(b, [c], h.at, h.tag);
    }
  }

  lemma HeldIsQuiet(inside: bool, close: string, text: string, p: string, k: string)
    requires Ok(inside, close) && text == p + k && FirstTag(text, Candidates(inside, close)) == None
    requires |k| == Keep(text, Watched(inside, close))
    ensures Quiet(inside, close, k)
  {
    var tags := Candidates(inside, close);
    FirstTagIs(text, tags);
    FirstTagIs(k, tags);
    match FirstTag(k, tags) {
      case None =>
      case Some(h) => StartsShifts(p, k, tags, h.at);
    }
    KeepIs(text, Watched(inside, close));
    KeepShifts(p, k, Watched(inside, close));
  }

  lemma EmptyIsQuiet(inside: bool, close: string)
    requires Ok(inside, close)
    ensures Quiet(inside, close, "")
  {
    var tags := Candidates(inside, close);
    FirstTagIs("", tags);
    match FirstTag("", tags)
    case None =>
    case Some(h) => NextIsOk(inside, close, "", h);
  }

  lemma CharTag(s: State, c: char, h: Hit)
    requires Ok(s.inside, s.close) && Quiet(s.inside, s.close, s.pending)
    requires FirstTag(s.pending + [c], Candidates(s.inside, s.close)) == Some(h)
    ensures
      var next := s.(pending := s.pending + [c]);
      && Drain(next, Strip) == Drain(next, OnePass)
      && Ok(Drain(next, Strip).state.inside, Drain(next, Strip).state.close)
      && Quiet(Drain(next, Strip).state.inside, Drain(next, Strip).state.close, Drain(next, Strip).state.pending)
  {
    var text := s.pending + [c];
    var next, p := s.(pending := text), text[..h.at];
    HitEnds(s.inside, s.close, s.pending, c, h);
    FirstTagIs(text, Candidates(s.inside, s.close));
    AtCuts(text, h.at, h.tag);
    assert text[h.at + |h.tag|..] == "";
    CharPiece(s, c, p);
    DrainAt(next, p, h.tag, "", Strip);
    DrainAt(next, p, h.tag, "", OnePass);
    NextIsOk(s.inside, s.close, text, h);
    var after := Across(s.inside, s.close, Emit(s.inside, s.lead, p, Strip).lead, h.tag, "");
    DrainEmpty(after, Strip);
    DrainEmpty(after, OnePass);
    EmptyIsQuiet(after.inside, after.close);
  }

  lemma CharPiece(s: State, c: char, p: string)
    requires Ok(s.inside, s.close) && Quiet(s.inside, s.close, s.pending) && p <= s.pending + [c]
    ensures Emit(s.inside, s.lead, p, Strip) == Emit(s.inside, s.lead, p, OnePass)
  {
    if s.pending != "" {
      QuietBegins(s.inside, s.close, s.pending);
    }
    PieceSettles(s.pending, c, p);
  }

  lemma CharRest(s: State, c: char)
    requires Ok(s.inside, s.close) && Quiet(s.inside, s.close, s.pending)
    requires FirstTag(s.pending + [c], Candidates(s.inside, s.close)) == None
    ensures
      var next := s.(pending := s.pending + [c]);
      && Drain(next, Strip) == Drain(next, OnePass)
      && Ok(Drain(next, Strip).state.inside, Drain(next, Strip).state.close)
      && Quiet(Drain(next, Strip).state.inside, Drain(next, Strip).state.close, Drain(next, Strip).state.pending)
  {
    var text := s.pending + [c];
    var next, cut := s.(pending := text), |text| - Keep(text, Watched(s.inside, s.close));
    var p, k := text[..cut], text[cut..];
    assert text == p + k;
    CharPiece(s, c, p);
    DrainAll(next, p, k, Strip);
    DrainAll(next, p, k, OnePass);
    HeldIsQuiet(s.inside, s.close, text, p, k);
  }

  function Chars(text: string): seq<string> {
    if text == "" then [] else [[text[0]]] + Chars(text[1..])
  }

  lemma {:induction false} CharsJoin(text: string)
    ensures Concat(Chars(text)) == text
    decreases |text|
  {
    if text != "" {
      var c, r := text[0], text[1..];
      var rest := Chars(r);
      assert text == [c] + r;
      assert Chars(text) == [[c]] + rest;
      assert ([[c]] + rest)[1..] == rest;
      CharsJoin(r);
    }
  }

  /** One character at a time, the deletions only ever take out what stands in the text. */
  lemma {:induction false} CharRun(s: State, text: string)
    requires Ok(s.inside, s.close) && Quiet(s.inside, s.close, s.pending)
    ensures Run(s, Chars(text), Strip) == Run(s, Chars(text), OnePass)
    decreases |text|
  {
    if text != "" {
      var c := text[0];
      match FirstTag(s.pending + [c], Candidates(s.inside, s.close)) {
        case Some(h) => CharTag(s, c, h);
        case None => CharRest(s, c);
      }
      assert Chars(text)[0] == [c] && Chars(text)[1..] == Chars(text[1..]);
      CharRun(Drain(s.(pending := s.pending + [c]), Strip).state, text[1..]);
    }
  }

  /** One character at a time is one push that deletes in one pass. */
  lemma CharsAreOnePass(byPrompt: bool, text: string)
    ensures Same(Run(Opened(byPrompt), Chars(text), Strip), Drain(Opened(byPrompt).(pending := text), OnePass))
  {
    var s := Opened(byPrompt);
    EmptyIsQuiet(s.inside, s.close);
    CharRun(s, text);
    CharsJoin(text);
    OnePassSplits();
    AlwaysSettles(byPrompt, s.close, text);
    RunIsPush(byPrompt, Chars(text), OnePass, Always);
  }

  // ----- What shows of it -----

  /** How much of the answer shows, as the pieces are cleaned. */
  ghost function Shown(inside: bool, close: string, text: string, clean: string -> string): nat
    requires Ok(inside, close)
    decreases |text|
  {
    match FirstTag(text, Candidates(inside, close))
    case Some(h) =>
      NextIsOk(inside, close, text, h);
      (if inside then 0 else Visible(clean(text[..h.at]))) +
      Shown(!inside, if inside then close else CloserOf(h.tag), text[h.at + |h.tag|..], clean)
    case None => if inside then 0 else Visible(clean(text[..|text| - Keep(text, Watched(inside, close))]))
  }

  lemma SpaceIsHidden(s: string)
    requires AllSpace(s)
    ensures Visible(s) == 0
  {}

  lemma {:induction false} TrimHidesNothing(s: string)
    ensures Visible(TrimStart(s)) == Visible(s)
    decreases |s|
  {
    if s != "" {
      assert s == [s[0]] + s[1..];
      TrimStartOf(s[0], s[1..]);
      TrimHidesNothing(s[1..]);
    }
  }

  lemma EmitShows(inside: bool, lead: Lead, text: string, clean: string -> string)
    requires AllSpace(lead.held) && clean("") == ""
    ensures AllSpace(Emit(inside, lead, text, clean).lead.held)
    ensures Visible(ContentOf(Emit(inside, lead, text, clean).out)) == if inside then 0 else Visible(clean(text))
  {
    var t := clean(text);
    OneSegmentSays(text);
    AnswerSays(lead, t);
    TrimHidesNothing(t);
    SpaceAdds(lead.held, t);
    SpaceIsHidden(lead.held);
    VisibleAdds(lead.held, t);
    if AllSpace(t) {
      SpaceIsHidden(t);
    }
  }

  lemma {:induction false} ShownInside(close: string, text: string, h: Hit, clean: string -> string)
    requires Ok(true, close) && FirstTag(text, Candidates(true, close)) == Some(h)
    ensures Shown(true, close, text, clean) == Shown(false, close, text[h.at + |h.tag|..], clean)
  {}

  lemma {:induction false} ShownOutside(close: string, text: string, h: Hit, next: string, clean: string -> string)
    requires FirstTag(text, Candidates(false, close)) == Some(h) && next == CloserOf(h.tag) && Ok(true, next)
    ensures Shown(false, close, text, clean) == Visible(clean(text[..h.at])) + Shown(true, next, text[h.at + |h.tag|..], clean)
  {}

  lemma {:induction false} ShownTag(inside: bool, close: string, text: string, h: Hit, clean: string -> string)
    requires Ok(inside, close) && FirstTag(text, Candidates(inside, close)) == Some(h)
    ensures Ok(!inside, if inside then close else CloserOf(h.tag)) &&
            (Shown(inside, close, text, clean) ==
            (if inside then 0 else Visible(clean(text[..h.at]))) +
            Shown(!inside, if inside then close else CloserOf(h.tag), text[h.at + |h.tag|..], clean))
  {
    NextIsOk(inside, close, text, h);
    if inside {
      ShownInside(close, text, h, clean);
    } else {
      ShownOutside(close, text, h, CloserOf(h.tag), clean);
    }
  }

  lemma ShowsAdd(a: seq<Segment>, b: seq<Segment>)
    ensures Visible(ContentOf(a + b)) == Visible(ContentOf(a)) + Visible(ContentOf(b))
  {
    OutAdds(a, b);
    VisibleAdds(ContentOf(a), ContentOf(b));
  }

  lemma {:induction false} ShownPast(s: State, h: Hit, next: State, clean: string -> string)
    requires Ok(s.inside, s.close) && FirstTag(s.pending, Candidates(s.inside, s.close)) == Some(h)
    requires IsPast(s, h, next)
    ensures Ok(next.inside, next.close)
    ensures Shown(s.inside, s.close, s.pending, clean) ==
            (if s.inside then 0 else Visible(clean(s.pending[..h.at]))) + Shown(next.inside, next.close, next.pending, clean)
  {
    NextIsOk(s.inside, s.close, s.pending, h);
    ShownTag(s.inside, s.close, s.pending, h, clean);
  }

  /** What shows of the text after a tag makes what shows of the whole. */
  lemma {:induction false} ShowsAtTag(s: State, h: Hit, clean: string -> string)
    requires Ok(s.inside, s.close) && FirstTag(s.pending, Candidates(s.inside, s.close)) == Some(h)
    requires AllSpace(s.lead.held) && clean("") == ""
    requires
      var next := AfterHit(s, h, clean);
      && Ok(next.inside, next.close)
      && Visible(ContentOf(Drain(next, clean).out)) == Shown(next.inside, next.close, next.pending, clean)
    ensures Drain(s, clean).state == Drain(AfterHit(s, h, clean), clean).state
    ensures Visible(ContentOf(Drain(s, clean).out)) == Shown(s.inside, s.close, s.pending, clean)
  {
    var p, next := s.pending[..h.at], AfterHit(s, h, clean);
    EmitShows(s.inside, s.lead, p, clean);
    DrainTag(s, h, clean);
    AfterHitIsPast(s, h, clean);
    ShownPast(s, h, next, clean);
    ShowsAdd(Emit(s.inside, s.lead, p, clean).out, Drain(next, clean).out);
  }

  lemma {:induction false} DrainShows(s: State, clean: string -> string)
    requires Ok(s.inside, s.close) && AllSpace(s.lead.held) && clean("") == ""
    ensures AllSpace(Drain(s, clean).state.lead.held)
    ensures Visible(ContentOf(Drain(s, clean).out)) == Shown(s.inside, s.close, s.pending, clean)
    decreases |s.pending|
  {
    match FirstTag(s.pending, Candidates(s.inside, s.close))
    case Some(h) =>
      NextIsOk(s.inside, s.close, s.pending, h);
      EmitShows(s.inside, s.lead, s.pending[..h.at], clean);
      DrainShows(AfterHit(s, h, clean), clean);
      ShowsAtTag(s, h, clean);
    case None =>
      DrainRest(s, clean);
      EmitShows(s.inside, s.lead, s.pending[..Cut(s)], clean);
  }

  lemma PieceShows(p: string)
    ensures Visible(Strip(p)) <= Visible(OnePass(p))
    ensures Visible(Strip(p)) == Visible(OnePass(p)) <==> Settled(p)
  {
    JoinedShows(p);
    SettledIff(p);
  }

  lemma PiecesOfHit(inside: bool, close: string, text: string, h: Hit, ok: string -> bool)
    requires Ok(inside, close) && FirstTag(text, Candidates(inside, close)) == Some(h)
    ensures Ok(!inside, if inside then close else CloserOf(h.tag)) &&
            (AllPieces(inside, close, text, ok) <==>
            (inside || ok(text[..h.at])) &&
            AllPieces(!inside, if inside then close else CloserOf(h.tag), text[h.at + |h.tag|..], ok))
  {
    NextIsOk(inside, close, text, h);
  }

  /** The deletions show no more than one pass, and less exactly where a piece is not settled. */
  lemma {:induction false} UnsettledShowsLess(inside: bool, close: string, text: string)
    requires Ok(inside, close)
    ensures Shown(inside, close, text, Strip) <= Shown(inside, close, text, OnePass)
    ensures Shown(inside, close, text, Strip) == Shown(inside, close, text, OnePass) <==> AllPieces(inside, close, text, Settled)
    decreases |text|
  {
    match FirstTag(text, Candidates(inside, close))
    case Some(h) =>
      ShownTag(inside, close, text, h, Strip);
      ShownTag(inside, close, text, h, OnePass);
      PiecesOfHit(inside, close, text, h, Settled);
      PieceShows(text[..h.at]);
      UnsettledShowsLess(!inside, if inside then close else CloserOf(h.tag), text[h.at + |h.tag|..]);
    case None => PieceShows(text[..|text| - Keep(text, Watched(inside, close))]);
  }

  lemma FinishShows(s: State)
    requires AllSpace(s.lead.held)
    ensures Visible(ContentOf(Finished(s).out)) == if s.inside then 0 else Visible(Strip(s.pending))
  {
    StageOfNothing(|NOISE|);
    EmitShows(s.inside, s.lead, s.pending, Strip);
    var e := Emit(s.inside, s.lead, s.pending, Strip);
    OneSegmentSays(e.lead.held);
    SpaceIsHidden(e.lead.held);
    OutAdds(e.out, [Content(e.lead.held)]);
    VisibleAdds(ContentOf(e.out), e.lead.held);
  }

  /** One character at a time, the answer shows what one pass leaves. */
  lemma CharsShow(byPrompt: bool, text: string)
    ensures
      var run := Run(Opened(byPrompt), Chars(text), Strip);
      && Visible(ContentOf(run.out)) == Shown(byPrompt, Opened(byPrompt).close, text, OnePass)
      && AllSpace(run.state.lead.held)
  {
    CharsAreOnePass(byPrompt, text);
    DrainShows(Opened(byPrompt).(pending := text), OnePass);
  }

  lemma WholeShows(byPrompt: bool, text: string)
    ensures
      var run := Run(Opened(byPrompt), [text], Strip);
      && Visible(ContentOf(run.out)) == Shown(byPrompt, Opened(byPrompt).close, text, Strip)
      && AllSpace(run.state.lead.held)
  {
    var s := Opened(byPrompt);
    RunOne(s, text);
    assert s.pending + text == text;
    StageOfNothing(|NOISE|);
    DrainShows(s.(pending := text), Strip);
  }

  lemma ConcatOne(text: string)
    ensures Concat([text]) == text
  {
    assert [text][1..] == [];
    assert text + "" == text;
  }

  /** Where a piece is not settled, the text one character at a time is read otherwise than whole. */
  lemma UnsettledIsSeen(byPrompt: bool, text: string)
    requires !AllPieces(byPrompt, Opened(byPrompt).close, text, Settled)
    ensures Outcome(byPrompt, Chars(text)).1 != Outcome(byPrompt, [text]).1
  {
    var s := Opened(byPrompt);
    var a, b := Run(s, Chars(text), Strip), Run(s, [text], Strip);
    CharsShow(byPrompt, text);
    WholeShows(byPrompt, text);
    UnsettledShowsLess(byPrompt, s.close, text);
    SameEnd(byPrompt, text);
    FinishShows(a.state);
    FinishShows(b.state);
    OutAdds(a.out, Finished(a.state).out);
    OutAdds(b.out, Finished(b.state).out);
    VisibleAdds(ContentOf(a.out), ContentOf(Finished(a.state).out));
    VisibleAdds(ContentOf(b.out), ContentOf(Finished(b.state).out));
  }

  lemma SameEnd(byPrompt: bool, text: string)
    ensures SamePlace(Run(Opened(byPrompt), Chars(text), Strip).state, Run(Opened(byPrompt), [text], Strip).state)
  {
    var s := Opened(byPrompt);
    OnePassSplits();
    AlwaysSettles(byPrompt, s.close, text);
    CharsJoin(text);
    ConcatOne(text);
    RunIsPush(byPrompt, Chars(text), OnePass, Always);
    RunIsPush(byPrompt, [text], OnePass, Always);
    RunPlaces(s, s, Chars(text), Strip, OnePass);
    RunPlaces(s, s, [text], Strip, OnePass);
  }

  ghost predicate AnyCutting(byPrompt: bool, text: string) {
    forall chunks | Concat(chunks) == text :: Outcome(byPrompt, chunks) == Outcome(byPrompt, [text])
  }

  /** Every way of cutting a text gives the same reasoning and the same answer exactly if, in every
      piece of the answer that the text pushed whole says, the five deletions in turn leave what one
      pass over the piece leaves. */
  lemma CuttingIsFreeIff(byPrompt: bool, text: string)
    ensures AnyCutting(byPrompt, text) <==> AllPieces(byPrompt, Opened(byPrompt).close, text, Settled)
  {
    if AllPieces(byPrompt, Opened(byPrompt).close, text, Settled) {
      forall chunks | Concat(chunks) == text
        ensures Outcome(byPrompt, chunks) == Outcome(byPrompt, [text])
      {
        ChunkingIsFree(byPrompt, chunks);
      }
    } else {
      UnsettledIsSeen(byPrompt, text);
      CharsJoin(text);
    }
  }

  lemma NoNoiseInParts(text: string, d: nat)
    requires NoNoise(text) && d <= |text|
    ensures NoNoise(text[..d]) && NoNoise(text[d..])
  {
    forall y: nat, k: nat | k < |NOISE|
      ensures !At(text[..d], y, NOISE[k]) && !At(text[d..], y, NOISE[k])
    {
      Shifted(text, d, y, NOISE[k]);
      if At(text[..d], y, NOISE[k]) {
        assert text[..d] + text[d..] == text;
        AtStays(text[..d], text[d..], y, NOISE[k]);
      }
    }
  }

  lemma NoiseFreePart(text: string, d: nat)
    requires NoNoise(text) && d <= |text|
    ensures Settled(text[..d]) && NoNoise(text[d..])
  {
    NoNoiseInParts(text, d);
    NoNoiseIsSettled(text[..d]);
    SettledIff(text[..d]);
  }

  /** In particular a text that holds no turn token at all is settled. */
  lemma {:induction false} NoiseFreeIsSettled(inside: bool, close: string, text: string)
    requires Ok(inside, close) && NoNoise(text)
    ensures AllPieces(inside, close, text, Settled)
    decreases |text|
  {
    match FirstTag(text, Candidates(inside, close))
    case Some(h) =>
      PiecesOfHit(inside, close, text, h, Settled);
      NoiseFreePart(text, h.at);
      NoiseFreePart(text, h.at + |h.tag|);
      NoiseFreeIsSettled(!inside, if inside then close else CloserOf(h.tag), text[h.at + |h.tag|..]);
    case None =>
      var cut := |text| - Keep(text, Watched(inside, close));
      assert text == text[..cut] + text[cut..];
      NoiseFreePart(text, cut);
      PiecesRest(inside, close, text, text[..cut], text[cut..], Settled);
  }

  /** Any two ways of cutting a text without turn tokens give the same reasoning and answer. */
  lemma NoiseFreeCutsAgree(byPrompt: bool, chunks: seq<string>, others: seq<string>)
    requires NoNoise(Concat(chunks)) && Concat(others) == Concat(chunks)
    ensures Outcome(byPrompt, chunks) == Outcome(byPrompt, others)
  {
    NoiseFreeIsSettled(byPrompt, Opened(byPrompt).close, Concat(chunks));
    ChunkingIsFree(byPrompt, chunks);
    ChunkingIsFree(byPrompt, others);
  }

  // ----- A text that is read in two ways -----

  const TRAP := "<|en<|return|>d|>"

  lemma TrapOpeners(y: nat)
    requires y < |TRAP| && TRAP[y] == '<'
    ensures y == 0 || y == 4
  {}

  lemma TrapTail(r: string, k: nat, y: nat)
    requires r == TRAP[1..] && k < 3
    ensures !At(r, y, NOISE[k])
  {
    Starters(k);
    assert NOISE[0][2] == 's' && NOISE[1][2] == 'c' && NOISE[2][2] == 's' && TRAP[1 + 5] == 'r';
    if y < |r| {
      if r[y] == '<' {
        TrapOpeners(y + 1);
        assert r[3 + 2] != NOISE[k][2];
      } else {
        assert r[y + 0] != NOISE[k][0];
      }
      assert Clash(r, y, NOISE[k]);
      ClashIsFinal(r, "", y, NOISE[k]);
      assert r + "" == r;
    }
  }

  lemma TrapStage(k: nat)
    requires k <= 3
    ensures Stage(TRAP[1..], k) == TRAP[1..]
  {
    if k > 0 {
      TrapStage(k - 1);
      var r, n := TRAP[1..], NOISE[k - 1];
      assert r + "" == r;
      forall y: nat | y < |r|
        ensures !At(r + "", y, n)
      {
        TrapTail(r, k - 1, y);
      }
      DelSkips(r, "", n);
    }
  }

  lemma TrapMiddle()
    ensures Stage(TRAP[1..], 4) == "|en" + "d|>"
  {
    var w, n, x := "|en", NOISE[3], "d|>";
    assert TRAP[1..] == w + (n + x);
    TrapStage(3);
    forall y: nat | y < |w|
      ensures !At(w + (n + x), y, n)
    {
      assert w[y + 0] != n[0];
      ClashIsFinal(w, n + x, y, n);
    }
    DelSkips(w, n + x, n);
    TokenGoes(n, x);
    assert x + "" == x;
    forall y: nat | y < |x|
      ensures !At(x + "", y, n)
    {
      assert x[y + 0] != n[0];
      ClashIsFinal(x, "", y, n);
    }
    DelSkips(x, "", n);
  }

  lemma TrapFront(k: nat)
    requires k < |NOISE|
    ensures !At(TRAP, 0, NOISE[k])
  {
    assert TRAP[0 + 2] == 'e' && TRAP[0 + 4] == '<' && NOISE[4][4] == 'd';
    assert NOISE[0][2] == 's' && NOISE[1][2] == 'c' && NOISE[2][2] == 's' && NOISE[3][2] == 'r';
    OtherChar(TRAP, 0, NOISE[k], if k == 4 then 4 else 2);
  }

  lemma TrapHoldsNoTag(t: string, y: nat)
    requires t in Watched(false, "") && y < |TRAP|
    ensures !Begins(TRAP, y, t) && (t in OPENERS ==> !At(TRAP, y, t))
  {
    WatchedTags(false, "", t);
    TagLooks(t);
    if TRAP[y] == '<' {
      TrapOpeners(y);
      assert TRAP[0 + 2] == 'e' && TRAP[4 + 2] == 'r' && TRAP[0 + 4] == '<' && NOISE[4][4] == 'd';
      assert OPEN[2] == 'h' && OPEN_HARMONY[2] == 'c' && OPEN_GEMMA[2] == 'c' && |NOISE[3]| == 10 && |NOISE[4]| == 7;
      assert NOISE[0][2] == 's' && NOISE[1][2] == 'c' && NOISE[2][2] == 's' && NOISE[3][2] == 'r';
      if y == 0 || t != NOISE[3] {
        OtherChar(TRAP, y, t, if y == 0 && t == NOISE[4] then 4 else 2);
      }
    } else {
      OtherChar(TRAP, y, t, 0);
    }
  }

  lemma TrapReadWhole()
    ensures FirstTag(TRAP, OPENERS) == None && Keep(TRAP, Watched(false, "")) == 0
  {
    var tags, watched := Candidates(false, ""), Watched(false, "");
    forall y: nat, t | y < |TRAP| && t in watched
      ensures !Begins(TRAP, y, t) && (t in tags ==> !At(TRAP, y, t))
    {
      TrapHoldsNoTag(t, y);
    }
    FirstTagIs(TRAP, tags);
    KeepIsThis(TRAP, watched, 0);
  }

  lemma TrapStripped(c: char, r: string)
    requires [c] + r == TRAP
    ensures Strip([c] + r) == ""
  {
    assert c == TRAP[0] && r == TRAP[1..];
    forall k: nat | k < 4
      ensures !At([c] + Stage(r, k), 0, NOISE[k])
    {
      TrapStage(k);
      TrapFront(k);
    }
    TrapMiddle();
    GoneInTheEnd(c, r);
  }

  lemma ReturnIsFirst(x: string)
    ensures FirstNoise(NOISE[3] + x) == Some(3)
  {
    NotBoth(3, 0);
    NotBoth(3, 1);
    NotBoth(3, 2);
    ClashIsFinal(NOISE[3], x, 0, NOISE[0]);
    ClashIsFinal(NOISE[3], x, 0, NOISE[1]);
    ClashIsFinal(NOISE[3], x, 0, NOISE[2]);
  }

  lemma OnePassAround(c: char, w: string, x: string)
    requires [c] + (w + (NOISE[3] + x)) == TRAP && '<' !in w && '<' !in x
    ensures OnePass(TRAP) == [c] + (w + x)
  {
    forall k: nat | k < |NOISE|
      ensures !At(TRAP, 0, NOISE[k])
    {
      TrapFront(k);
    }
    CharStays(c, w + (NOISE[3] + x));
    PlainStays(w, NOISE[3] + x);
    ReturnIsFirst(x);
    TokenTaken(3, x);
    PlainStays(x, "");
    assert x + "" == x && OnePass("") == "";
  }

  lemma TrapPieces(w: string, x: string)
    requires w == "|en" && x == "d|>"
    ensures ['<'] + (w + (NOISE[3] + x)) == TRAP && '<' !in w && '<' !in x
    ensures ['<'] + (w + x) == CLOSE_HARMONY
  {}

  lemma TrapOnePass()
    ensures OnePass(TRAP) == CLOSE_HARMONY
  {
    TrapPieces("|en", "d|>");
    OnePassAround('<', "|en", "d|>");
  }

  /** A text without a tag, nothing of which is held back, is said in one piece. */
  lemma SaidWhole(text: string, said: string, clean: string -> string)
    requires FirstTag(text, OPENERS) == None && Keep(text, Watched(false, "")) == 0 && clean(text) == said
    requires text != ""
    requires said == "" || !IsSpace(said[0])
    ensures
      var d := Drain(Opened(false).(pending := text), clean);
      && ThinkingOf(d.out) == "" && ContentOf(d.out) == said && Finished(d.state).out == []
  {
    var s := Opened(false).(pending := text);
    DrainRest(s, clean);
    assert s.pending[..Cut(s)] == text && s.pending[Cut(s)..] == "";
    AnswerSays(s.lead, said);
    assert said == "" || !AllSpace(said);
    assert s.lead.held + said == said;
  }

  lemma NothingAtTheEnd(byPrompt: bool, chunks: seq<string>, run: Step)
    requires run == Run(Opened(byPrompt), chunks, Strip) && Finished(run.state).out == []
    ensures Outcome(byPrompt, chunks) == (ThinkingOf(run.out), ContentOf(run.out))
  {
    assert run.out + [] == run.out;
  }

  lemma WholeOutcome(text: string, said: string)
    requires FirstTag(text, OPENERS) == None && Keep(text, Watched(false, "")) == 0 && Strip(text) == said
    requires text != "" && (said == "" || !IsSpace(said[0]))
    ensures Outcome(false, [text]) == ("", said)
  {
    var s := Opened(false);
    assert s.pending + text == text;
    RunOne(s, text);
    SaidWhole(text, said, Strip);
    NothingAtTheEnd(false, [text], Run(s, [text], Strip));
  }

  lemma CharsOutcome(text: string, said: string, chars: seq<string>)
    requires FirstTag(text, OPENERS) == None && Keep(text, Watched(false, "")) == 0 && OnePass(text) == said
    requires text != "" && (said == "" || !IsSpace(said[0])) && chars == Chars(text)
    ensures Outcome(false, chars) == ("", said)
  {
    CharsAreOnePass(false, text);
    SaidWhole(text, said, OnePass);
    NothingAtTheEnd(false, chars, Run(Opened(false), chars, Strip));
  }

  lemma TrapIsGone()
    ensures Strip(TRAP) == ""
  {
    assert [TRAP[0]] + TRAP[1..] == TRAP;
    TrapStripped(TRAP[0], TRAP[1..]);
  }

  /** A text in one piece: pushed whole it says what the deletions leave, one character at a time what
      one pass leaves. */
  lemma ReadInTwoWays(text: string, whole: string, said: string)
    requires FirstTag(text, OPENERS) == None && Keep(text, Watched(false, "")) == 0 && text != ""
    requires Strip(text) == whole && (whole == "" || !IsSpace(whole[0]))
    requires OnePass(text) == said && (said == "" || !IsSpace(said[0]))
    ensures Outcome(false, [text]) == ("", whole)
    ensures Outcome(false, Chars(text)) == ("", said)
  {
    WholeOutcome(text, whole);
    CharsOutcome(text, said, Chars(text));
  }

  /** Pushed whole, this text says nothing; one character at a time, it says a turn token. */
  lemma CuttingMatters()
    ensures Outcome(false, [TRAP]) == ("", "")
    ensures Outcome(false, Chars(TRAP)) == ("", "<|end|>")
  {
    TrapReadWhole();
    TrapIsGone();
    TrapOnePass();
    ReadInTwoWays(TRAP, "", CLOSE_HARMONY);
  }
}
