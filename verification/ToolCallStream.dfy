/**
 What is written for a model's tool calls stops the stream: of the text around them, what comes before
 the calls is passed on, to the last character, and nothing from the calls on.
 */
module ToolCallStream {
  import opened Text
  import Json
  import opened StreamToolScanner
  import M = Mistral
  import R = MistralRoundTrip
  import D = Dsml

  lemma {:induction false} RenderOpens(calls: seq<M.Call>)
    requires R.Expected(calls) != []
    ensures exists x :: M.Render(calls) == "[TOOL_CALLS]" + x
    decreases |calls|
  {
    match calls[0].function_
    case None => RenderOpens(calls[1..]);
    case Some(f) =>
      var rest := " " + (M.ListText(f.name, M.ArgsOf(f)) + "\n");
      assert M.Render(calls) == M.TOOL_CALLS_MARK + (rest + M.Render(calls[1..]));
  }

  /** Mistral's lines, after any text without a marker and with anything after them, however it is cut. */
  lemma MistralCallsStop(before: string, calls: seq<M.Call>, after: string, chunks: seq<string>)
    requires NoMarker(Mistral, before) && R.Expected(calls) != []
    requires Concat(chunks) == before + (M.Render(calls) + after)
    ensures Streamed("", chunks, Mistral) == before
  {
    RenderOpens(calls);
    var x :| M.Render(calls) == "[TOOL_CALLS]" + x;
    Associates("[TOOL_CALLS]", x, after);
    StopsAtMarker(Mistral, "[TOOL_CALLS]", before, x + after, chunks);
  }

  /** And DSML's block. */
  lemma DsmlCallsStop(before: string, calls: seq<D.Call>, after: string, chunks: seq<string>)
    requires NoMarker(DeepSeekDsml, before) && Concat(chunks) == before + (D.Block(calls) + after)
    ensures Streamed("", chunks, DeepSeekDsml) == before
  {
    var x := "\n" + (if calls == [] then "\n" else D.InvokeLines(calls)) + D.CALLS_CLOSE;
    assert D.Block(calls) == D.CALLS_OPEN + x;
    Associates(D.CALLS_OPEN, x, after);
    StopsAtMarker(DeepSeekDsml, D.CALLS_OPEN, before, x + after, chunks);
  }
}
