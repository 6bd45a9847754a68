/**
 What a written text is split into, with its tags spelled out: an answer, or the start of one, and any
 number of reasoning blocks of any of the three families, each with more of the answer after it. However
 such a text is cut, the reasoning is what was written inside the blocks and the answer what was written
 outside, without turn tokens.
 */
module ThinkSplitBlocks {
  import opened Text
  import opened HarmonyNoise
  import opened ThinkSplit
  import opened ThinkSplitCuts
  import opened ThinkSplitExact
  import opened ThinkSplitMeaning

  /** Which tag closes which block. */
  predicate Family(open: string, close: string) {
    || (open == "<think>" && close == "</think>")
    || (open == "<|channel|>analysis<|message|>" && close == "<|end|>")
    || (open == "<|channel>thought\n" && close == "<channel|>")
  }

  /** A block, and what is written after it. */
  datatype Block = Block(open: string, close: string, thought: string, answer: string)

  function Spelled(blocks: seq<Block>): string {
    if blocks == [] then ""
    else
      var b := blocks[0];
      b.open + (b.thought + (b.close + (b.answer + Spelled(blocks[1..]))))
  }

  function Thoughts(blocks: seq<Block>): string {
    if blocks == [] then "" else blocks[0].thought + Thoughts(blocks[1..])
  }

  function Answers(blocks: seq<Block>): string {
    if blocks == [] then "" else OnePass(blocks[0].answer) + Answers(blocks[1..])
  }

  /** The closing tag comes only at the end. */
  ghost predicate EndsFirstWith(thought: string, close: string) {
    forall i: nat | i < |thought| :: !At(thought + close, i, close)
  }

  /** No block opens in it, and deleting its turn tokens puts no other together. */
  ghost predicate IsAnswer(a: string) {
    (forall i: nat :: !At(a, i, "<think>") && !At(a, i, "<|channel|>analysis<|message|>") && !At(a, i, "<|channel>thought\n"))
    && Settled(a)
  }

  ghost predicate IsBlock(b: Block) {
    Family(b.open, b.close) && EndsFirstWith(b.thought, b.close) && IsAnswer(b.answer)
  }

  // ----- The first tag -----

  lemma FamilyIs(open: string, close: string)
    requires Family(open, close)
    ensures open in OPENERS && close in CLOSERS && CloserOf(open) == close && close != ""
    ensures |open| > 2 && open[0] == '<' && open[2] != 'm'
  {
    assert OPEN[2] == 'h' && OPEN_HARMONY[2] == 'c' && OPEN_GEMMA[2] == 'c';
    assert OPEN[1] == 't' && OPEN_HARMONY[1] == '|' && OPEN_GEMMA[1] == '|' && OPEN_HARMONY[9] == '|' && OPEN_GEMMA[9] == '>';
  }

  lemma NoneStarts(a: string, i: nat)
    requires IsAnswer(a)
    ensures !Starts(a, OPENERS, i)
  {
    forall m | m in OPENERS
      ensures !At(a, i, m)
    {
      assert m == OPEN || m == OPEN_HARMONY || m == OPEN_GEMMA;
    }
  }

  lemma AtPrefix(a: string, x: string, i: nat, m: string)
    requires i + |m| <= |a|
    ensures At(a + x, i, m) <==> At(a, i, m)
  {
    assert (a + x)[i..i + |m|] == a[i..i + |m|];
  }

  lemma OneOpener(s: string, i: nat, m: string, k: string)
    requires m in OPENERS && k in OPENERS && At(s, i, m) && At(s, i, k)
    ensures m == k
  {
    assert OPEN[1] == 't' && OPEN_HARMONY[1] == '|' && OPEN_GEMMA[1] == '|' && OPEN_HARMONY[9] == '|' && OPEN_GEMMA[9] == '>';
    AtChar(s, i, m, 1);
    AtChar(s, i, k, 1);
    if m != OPEN && k != OPEN {
      AtChar(s, i, m, 9);
      AtChar(s, i, k, 9);
    }
  }

  /** No opener runs from an answer into the tag after it. */
  lemma NoneRunsOver(a: string, open: string, x: string, i: nat, m: string)
    requires IsAnswer(a) && open in OPENERS && m in OPENERS && i < |a|
    requires |open| > 2 && open[0] == '<' && open[2] != 'm'
    ensures !At(a + (open + x), i, m)
  {
    var s := a + (open + x);
    var p := |a| - i;
    if p >= |m| {
      NoneStarts(a, i);
      AtPrefix(a, open + x, i, m);
    } else if m[p] == '<' {
      InnerOpenerOf(m, p);
      assert s[i + (p + 2)] == open[2];
      OtherChar(s, i, m, p + 2);
    } else {
      assert s[i + p] == open[0];
      OtherChar(s, i, m, p);
    }
  }

  lemma FirstOpens(a: string, open: string, x: string)
    requires IsAnswer(a) && open in OPENERS && |open| > 2 && open[0] == '<' && open[2] != 'm'
    ensures FirstTag(a + (open + x), OPENERS) == Some(Hit(|a|, open))
  {
    var s := a + (open + x);
    assert s[|a|..|a| + |open|] == open;
    assert At(s, |a|, open);
    assert Starts(s, OPENERS, |a|);
    FirstTagIs(s, OPENERS);
    forall i: nat | i < |a|
      ensures !Starts(s, OPENERS, i)
    {
      forall m | m in OPENERS
        ensures !At(s, i, m)
      {
        NoneRunsOver(a, open, x, i, m);
      }
    }
    var h := FirstTag(s, OPENERS).value;
    assert Starts(s, OPENERS, h.at);
    OneOpener(s, |a|, open, h.tag);
  }

  lemma NoneOpens(a: string)
    requires IsAnswer(a)
    ensures FirstTag(a, OPENERS) == None
  {
    FirstTagIs(a, OPENERS);
    if FirstTag(a, OPENERS).Some? {
      var h := FirstTag(a, OPENERS).value;
      assert Starts(a, OPENERS, h.at);
      NoneStarts(a, h.at);
    }
  }

  lemma FirstCloses(thought: string, close: string, x: string)
    requires EndsFirstWith(thought, close)
    ensures FirstTag(thought + (close + x), [close]) == Some(Hit(|thought|, close))
  {
    var s := thought + (close + x);
    assert s[|thought|..|thought| + |close|] == close;
    assert At(s, |thought|, close) && close in [close];
    assert Starts(s, [close], |thought|);
    FirstTagIs(s, [close]);
    forall i: nat | i < |thought|
      ensures !Starts(s, [close], i)
    {
      assert s == (thought + close) + x;
      AtPrefix(thought + close, x, i, close);
    }
    assert Starts(s, [close], FirstTag(s, [close]).value.at);
  }

  // ----- What the text says -----

  /** The last of the answer is settled as far as it is said before the end, too. */
  lemma LastIsSettled(close: string, a: string)
    requires IsAnswer(a)
    ensures AllPieces(false, close, a, Settled)
  {
    NoneOpens(a);
    var cut := |a| - Keep(a, Watched(false, close));
    var p, k := a[..cut], a[cut..];
    assert a == p + k && a + "" == a;
    PiecesRest(false, close, a, p, k, Settled);
    CleanWhereCut(a, "", false, close, p, k);
    SettledIff(a);
    CutsAdd(p, k);
    SettledIff(p);
  }

  /** From outside, with the rest of an answer first. */
  ghost predicate Says(inside: bool, close: string, text: string, thoughts: string, answers: string)
    requires Ok(inside, close)
  {
    && AllPieces(inside, close, text, Settled)
    && Inside(inside, close, text) == thoughts && Outside(inside, close, text, OnePass) == answers
  }

  lemma SaysAlone(close: string, a: string)
    requires IsAnswer(a)
    ensures Says(false, close, a, "", OnePass(a))
  {
    LastIsSettled(close, a);
    NoneOpens(a);
  }

  lemma SaysClosed(close: string, thought: string, x: string, thoughts: string, answers: string)
    requires close in CLOSERS && EndsFirstWith(thought, close) && Says(false, close, x, thoughts, answers)
    ensures Says(true, close, thought + (close + x), thought + thoughts, answers)
  {
    var text, h := thought + (close + x), Hit(|thought|, close);
    FirstCloses(thought, close, x);
    assert text[..h.at] == thought && text[h.at + |h.tag|..] == x;
    InsideTag(true, close, text, h);
    OutsideTag(true, close, text, h, OnePass);
    PiecesOfHit(true, close, text, h, Settled);
  }

  lemma SaysOpened(before: string, a: string, open: string, close: string, x: string, thoughts: string, answers: string)
    requires IsAnswer(a) && Family(open, close) && close in CLOSERS && Says(true, close, x, thoughts, answers)
    ensures Says(false, before, a + (open + x), thoughts, OnePass(a) + answers)
  {
    var text, h := a + (open + x), Hit(|a|, open);
    FamilyIs(open, close);
    FirstOpens(a, open, x);
    assert text[..h.at] == a && text[h.at + |h.tag|..] == x;
    InsideTag(false, before, text, h);
    OutsideTag(false, before, text, h, OnePass);
    PiecesOfHit(false, before, text, h, Settled);
  }

  lemma SaysBlock(before: string, a: string, b: Block, x: string, thoughts: string, answers: string)
    requires IsAnswer(a) && IsBlock(b) && Says(false, b.close, x, thoughts, answers)
    ensures Says(false, before, a + (b.open + (b.thought + (b.close + x))), b.thought + thoughts, OnePass(a) + answers)
  {
    FamilyIs(b.open, b.close);
    SaysClosed(b.close, b.thought, x, thoughts, answers);
    SaysOpened(before, a, b.open, b.close, b.thought + (b.close + x), b.thought + thoughts, answers);
  }

  ghost predicate AreBlocks(blocks: seq<Block>) {
    forall i | 0 <= i < |blocks| :: IsBlock(blocks[i])
  }

  lemma {:induction false} SaysBlocks(before: string, a: string, blocks: seq<Block>)
    requires IsAnswer(a) && AreBlocks(blocks)
    ensures Says(false, before, a + Spelled(blocks), Thoughts(blocks), OnePass(a) + Answers(blocks))
    decreases |blocks|
  {
    if blocks == [] {
      SaysAlone(before, a);
      assert a + "" == a && OnePass(a) + "" == OnePass(a);
    } else {
      var b, rest := blocks[0], blocks[1..];
      SaysBlocks(b.close, b.answer, rest);
      SaysBlock(before, a, b, b.answer + Spelled(rest), Thoughts(rest), OnePass(b.answer) + Answers(rest));
    }
  }

  // ----- However it is cut -----

  /** An answer that is written around any blocks: its reasoning is what they hold, in order. Its answer is
      the rest without turn tokens; white space before the first block, and after it if nothing came before,
      is dropped. */
  lemma BlocksAreRead(first: string, blocks: seq<Block>, chunks: seq<string>)
    requires IsAnswer(first) && AreBlocks(blocks) && Concat(chunks) == first + Spelled(blocks)
    ensures Outcome(false, chunks) ==
            (Thoughts(blocks),
             if blocks != [] && AllSpace(OnePass(first)) then TrimStart(Answers(blocks)) else OnePass(first) + Answers(blocks))
  {
    var text := first + Spelled(blocks);
    SaysBlocks("", first, blocks);
    StreamMeans(false, chunks);
    AnswerOfBlocks(first, blocks);
  }

  lemma AnswerAround(first: string, open: string, close: string, x: string, thoughts: string, answers: string)
    requires IsAnswer(first) && Family(open, close) && close in CLOSERS && Says(true, close, x, thoughts, answers)
    ensures AnswerIn(false, first + (open + x)) ==
            if AllSpace(OnePass(first)) then TrimStart(answers) else OnePass(first) + answers
  {
    FamilyIs(open, close);
    FirstOpens(first, open, x);
    AnswerPast(first + (open + x), Hit(|first|, open), first, close, x);
  }

  lemma AnswerPast(text: string, h: Hit, first: string, close: string, x: string)
    requires FirstTag(text, OPENERS) == Some(h) && CloserOf(h.tag) == close && close in CLOSERS
    requires |first| == h.at && text == first + (h.tag + x)
    ensures AnswerIn(false, text) ==
            var answers := Outside(true, close, x, OnePass);
            if AllSpace(OnePass(first)) then TrimStart(answers) else OnePass(first) + answers
  {
    assert text[..h.at] == first && text[h.at + |h.tag|..] == x;
  }

  lemma AnswerOfBlocks(first: string, blocks: seq<Block>)
    requires IsAnswer(first) && AreBlocks(blocks)
    ensures AnswerIn(false, first + Spelled(blocks)) ==
            if blocks != [] && AllSpace(OnePass(first)) then TrimStart(Answers(blocks)) else OnePass(first) + Answers(blocks)
  {
    if blocks == [] {
      NoneOpens(first);
      assert first + "" == first && OnePass(first) + "" == OnePass(first);
    } else {
      var b, rest := blocks[0], blocks[1..];
      var x, answers := b.answer + Spelled(rest), OnePass(b.answer) + Answers(rest);
      FamilyIs(b.open, b.close);
      SaysBlocks(b.close, b.answer, rest);
      SaysClosed(b.close, b.thought, x, Thoughts(rest), answers);
      AnswerAround(first, b.open, b.close, b.thought + (b.close + x), b.thought + Thoughts(rest), answers);
    }
  }

  /** One block alone, of any family. */
  lemma BlockIsRead(open: string, close: string, thought: string, a: string, chunks: seq<string>)
    requires Family(open, close) && EndsFirstWith(thought, close) && IsAnswer(a)
    requires Concat(chunks) == open + (thought + (close + a))
    ensures Outcome(false, chunks) == (thought, TrimStart(OnePass(a)))
  {
    var b := Block(open, close, thought, a);
    NothingIsAnswer();
    assert [b][1..] == [] && a + "" == a && thought + "" == thought && OnePass(a) + "" == OnePass(a);
    assert "" + Spelled([b]) == Spelled([b]);
    BlocksAreRead("", [b], chunks);
  }

  lemma NothingIsAnswer()
    ensures IsAnswer("") && OnePass("") == "" && AllSpace("")
  {
    StageOfNothing(|NOISE|);
  }

  /** Where the prompt opened the block, it is closed by `</think>`. */
  lemma PromptBlockIsRead(thought: string, a: string, blocks: seq<Block>, chunks: seq<string>)
    requires EndsFirstWith(thought, "</think>") && IsAnswer(a) && AreBlocks(blocks)
    requires Concat(chunks) == thought + ("</think>" + (a + Spelled(blocks)))
    ensures Outcome(true, chunks) == (thought + Thoughts(blocks), TrimStart(OnePass(a) + Answers(blocks)))
  {
    SaysBlocks(CLOSE, a, blocks);
    SaysClosed(CLOSE, thought, a + Spelled(blocks), Thoughts(blocks), OnePass(a) + Answers(blocks));
    StreamMeans(true, chunks);
  }
}
