/**
 Both tool-call syntaxes with a JSON reader in place of the library: what was written is read back, with no
 assumption about the reader.
 */
module ToolCallReader {
  import opened Text
  import opened Json
  import J = JsonReader
  import M = Mistral
  import MR = MistralRoundTrip
  import D = Dsml
  import DR = DsmlRoundTrip

  // ----- One of Mistral's calls -----

  /** The text of a call, from its brace on, entry by entry. */
  function CallEntries(name: string, p: string, rest: string): string {
    "" + (Quoted("name") + (":" + (" " + (Quoted(name) + ("," + LastEntry(p, rest))))))
  }

  function LastEntry(p: string, rest: string): string {
    " " + (Quoted("arguments") + (":" + (" " + (p + rest))))
  }

  lemma FieldText(k: string, text: string, rest: string)
    ensures k + ": " + text + rest == k + (":" + (" " + (text + rest)))
  {
    assert ": " + (text + rest) == ":" + (" " + (text + rest));
    Associates(k + ": ", text, rest);
    Associates(k, ": ", text + rest);
  }

  lemma KeysArePlain()
    ensures MR.PlainName("name") && MR.PlainName("arguments")
  {}

  lemma FieldsWrapped(a: string, b: string, rest: string)
    ensures ['{'] + (a + (", " + b)) + ['}'] + rest == "{" + (a + ("," + (" " + (b + ("}" + rest)))))
  {
    var end := "}" + rest;
    J.Wrapped("{", a + (", " + b), "}", rest);
    Associates(a, ", " + b, end);
    Associates(", ", b, end);
    assert ", " + (b + end) == "," + (" " + (b + end));
  }

  lemma CallFieldsAre(name: string, p: string)
    requires MR.PlainName(name)
    ensures M.CallText(name, p) ==
            ['{'] + ((Quoted("name") + ": " + Quoted(name)) + (", " + (Quoted("arguments") + ": " + p))) + ['}']
  {
    KeysArePlain();
    MR.KeyIsQuoted("name");
    MR.KeyIsQuoted("arguments");
    MR.KeyIsQuoted(name);
  }

  lemma EntriesText(n: string, q: string, k: string, p: string, end: string)
    ensures (n + ": " + q) + ("," + (" " + ((k + ": " + p) + end))) ==
            "" + (n + (":" + (" " + (q + ("," + (" " + (k + (":" + (" " + (p + end))))))))))
  {
    FieldText(k, p, end);
    FieldText(n, q, "," + (" " + (k + (":" + (" " + (p + end))))));
  }

  lemma CallIs(name: string, p: string, rest: string)
    requires MR.PlainName(name)
    ensures M.CallText(name, p) + rest == "{" + CallEntries(name, p, "}" + rest)
  {
    CallFieldsAre(name, p);
    FieldsWrapped(Quoted("name") + ": " + Quoted(name), Quoted("arguments") + ": " + p, rest);
    EntriesText(Quoted("name"), Quoted(name), Quoted("arguments"), p, "}" + rest);
  }

  lemma LastIsRead(v: Value, rest: string)
    requires WellFormed(v)
    ensures J.ReadEntries(LastEntry(Print(v), "}" + rest)) == Some(J.Rest([Entry("arguments", v)], rest))
  {
    var end := "}" + rest;
    J.ValueIsRead(v, end);
    J.PrintSkips(v, end);
    LastOf(Print(v), v, end, rest);
  }

  lemma LastOf(p: string, v: Value, end: string, rest: string)
    requires end == "}" + rest && J.ReadValue(p + end) == Some(J.Rest(v, end)) && J.Skip(p + end) == p + end
    ensures J.ReadEntries(LastEntry(p, end)) == Some(J.Rest([Entry("arguments", v)], rest))
  {
    OneEntry("arguments", p, v, end, rest);
  }

  lemma OneEntry(key: string, p: string, v: Value, end: string, rest: string)
    requires end == "}" + rest && J.ReadValue(p + end) == Some(J.Rest(v, end)) && J.Skip(p + end) == p + end
    ensures J.ReadEntries(" " + (Quoted(key) + (":" + (" " + (p + end))))) == Some(J.Rest([Entry(key, v)], rest))
  {
    J.EntryIsRead(" ", key, " ", p, v, end);
    assert end[1..] == rest;
    J.EntriesStep(" " + (Quoted(key) + (":" + (" " + (p + end)))), Entry(key, v), end, [], rest);
  }

  lemma NameIsRead(name: string, s: string)
    requires J.Ends(s)
    ensures J.ReadValue(Quoted(name) + s) == Some(J.Rest(String(name), s)) && J.Skip(Quoted(name) + s) == Quoted(name) + s
  {
    J.ValueIsRead(String(name), s);
    J.PrintSkips(String(name), s);
  }

  lemma EntriesAreRead(name: string, last: string, v: Value, rest: string)
    requires J.ReadEntries(last) == Some(J.Rest([Entry("arguments", v)], rest))
    ensures J.ReadEntries("" + (Quoted("name") + (":" + (" " + (Quoted(name) + ("," + last)))))) ==
            Some(J.Rest([Entry("name", String(name)), Entry("arguments", v)], rest))
  {
    var more := "," + last;
    NameIsRead(name, more);
    J.EntryIsRead("", "name", " ", Quoted(name), String(name), more);
    assert more[1..] == last;
    var e, es := Entry("name", String(name)), [Entry("arguments", v)];
    J.EntriesStep("" + (Quoted("name") + (":" + (" " + (Quoted(name) + more)))), e, more, es, rest);
    assert [e] + es == [e, es[0]];
  }

  lemma ObjectFrom(text: string, entries: seq<Entry>, rest: string)
    requires text != "" && text[0] == '"' && J.ReadEntries(text) == Some(J.Rest(entries, rest))
    ensures J.ReadValue("{" + text) == Some(J.Rest(Object(entries), rest))
  {
    assert J.Skip(text) == text;
    J.ObjectOf(text, entries, rest);
  }

  lemma CallIsRead(name: string, v: Value, rest: string)
    requires MR.PlainName(name) && WellFormed(v)
    ensures J.ReadValue(M.CallText(name, Print(v)) + rest) == Some(J.Rest(MR.CallValue(name, v), rest))
  {
    var p, end := Print(v), "}" + rest;
    LastIsRead(v, rest);
    EntriesAreRead(name, LastEntry(p, end), v, rest);
    CallIs(name, p, rest);
    ObjectFrom(CallEntries(name, p, end), [Entry("name", String(name)), Entry("arguments", v)], rest);
  }

  lemma ListIsRead(name: string, v: Value)
    requires MR.PlainName(name) && WellFormed(v)
    ensures J.ReadValue(M.ListText(name, Print(v))) == Some(J.Rest(Array([MR.CallValue(name, v)]), ""))
  {
    var call, s := M.CallText(name, Print(v)), "]" + "";
    CallIsRead(name, v, s);
    assert s[1..] == "";
    J.ItemsStep(call, MR.CallValue(name, v), s, [], "");
    assert call[0] == '{' && (call + s)[0] == '{';
    J.ArrayOf(call + s, [MR.CallValue(name, v)], "");
    assert M.ListText(name, Print(v)) == "[" + (call + s);
  }

  /** The law that reading Mistral's calls asks of its JSON parser. */
  lemma ReaderReadsBack(name: string, v: Value)
    requires MR.PlainName(name) && WellFormed(v)
    ensures MR.ReadsBack(J.Parser(), name, v)
  {
    J.PrintIsParsed(v);
    CallIsRead(name, v, "");
    assert M.CallText(name, Print(v)) + "" == M.CallText(name, Print(v));
    ListIsRead(name, v);
  }

  // ----- Whole texts -----

  /** Mistral's calls after any prose without markers, with nothing asked of a JSON parser: each function's
      name is plain, and its arguments are JSON as it is written, neither null nor a bare string. */
  lemma MistralIsReadBack(prose: string, calls: seq<M.Call>, bare: string -> M.Parsed)
    requires forall i | 0 <= i < |calls| && calls[i].function_.Some? ::
               MR.PlainName(calls[i].function_.value.name) && IsWritten(M.ArgsOf(calls[i].function_.value))
    requires MR.Expected(calls) != [] && MR.NoMark(prose) && forall i: nat :: !At(prose, i, M.CLOSE_MARK)
    ensures M.Read(prose + M.Render(calls), J.Parser(), bare) == M.Parsed(Trim(prose), MR.Expected(calls))
  {
    forall i | 0 <= i < |calls| && calls[i].function_.Some?
      ensures MR.Writable(calls[i].function_.value, J.Parser())
    {
      var f := calls[i].function_.value;
      var v :| MR.Lasting(v) && M.ArgsOf(f) == Print(v);
      ReaderReadsBack(f.name, v);
    }
    MR.RoundTrip(prose, calls, J.Parser(), bare);
  }

  ghost predicate IsWritten(text: string) {
    exists v :: MR.Lasting(v) && text == Print(v)
  }

  /** A DSML block within prose: each value holds none of the block's closing tags. */
  lemma DsmlIsReadBack(before: string, calls: seq<D.Call>, after: string, write: D.Args -> string)
    requires DR.Without(before, D.CALLS_OPEN) && forall i | 0 <= i < |calls| :: IsPlainCall(calls[i])
    ensures D.Read(before + (D.Block(calls) + after), J.Parser(), write) == D.Parsed(Trim(before + after), DR.Expected(calls, write))
  {
    forall i, k | 0 <= i < |calls| && 0 <= k < |calls[i].arguments|
      ensures DR.WritableEntry(calls[i].arguments[k], J.Parser())
    {
      assert IsPlainEntry(calls[i].arguments[k]);
      J.PrintIsParsed(calls[i].arguments[k].value);
    }
    DR.RoundTrip(before, calls, after, J.Parser(), write);
  }

  ghost predicate IsPlainEntry(e: Entry) {
    && DR.PlainName(e.key) && WellFormed(e.value)
    && DR.Without(D.ValueText(e.value), D.CALLS_CLOSE) && DR.Without(D.ValueText(e.value), D.INVOKE_CLOSE)
    && DR.Without(D.ValueText(e.value), D.PARAM_CLOSE)
  }

  ghost predicate IsPlainCall(c: D.Call) {
    DR.PlainName(c.name) && forall k | 0 <= k < |c.arguments| :: IsPlainEntry(c.arguments[k])
  }
}
