/**
 Writing a turn's calls and reading them back, and where the other spellings are read.
 */
module MistralRoundTrip {
  import opened Text
  import opened Json
  import opened Mistral

  // ----- What the round trip is about -----

  /** A name that JSON writes as it is. */
  predicate PlainName(name: string) {
    forall c | c in name :: c != '"' && c != '\\' && c as int >= 32
  }

  /** The inverse law of the JSON parser, for one call: it reads what was written, the arguments alone
      and within the call. */
  ghost predicate ReadsBack(parse: string -> Option<Value>, name: string, v: Value) {
    && parse(Print(v)) == Some(v)
    && parse(CallText(name, Print(v))) == Some(CallValue(name, v))
    && parse(ListText(name, Print(v))) == Some(Array([CallValue(name, v)]))
  }

  function CallValue(name: string, v: Value): Value {
    Object([Entry("name", String(name)), Entry("arguments", v)])
  }

  /** Arguments that come back as they were written: any value but null and a bare string. */
  predicate Lasting(v: Value) {
    WellFormed(v) && !v.Null? && !v.String?
  }

  lemma {:induction false} EscapeGrows(s: string)
    ensures |Escape(s)| >= |s|
    decreases |s|
  {
    if s != "" {
      EscapeGrows(s[1..]);
    }
  }

  /** Arguments read as `v` are kept as they were written exactly when `v` is neither. */
  lemma ArgumentsLastIff(name: string, v: Value)
    requires WellFormed(v)
    ensures MakeCall(name, v).arguments == Print(v) <==> Lasting(v)
    ensures v.Null? ==> MakeCall(name, v).arguments == "{}"
    ensures v.String? ==> MakeCall(name, v).arguments == v.text
  {
    match v
    case Null => assert "{}"[0] != "null"[0];
    case String(s) => EscapeGrows(s);
    case _ =>
  }

  ghost predicate Writable(f: Func, parse: string -> Option<Value>) {
    PlainName(f.name) && exists v :: Lasting(v) && ArgsOf(f) == Print(v) && ReadsBack(parse, f.name, v)
  }

  ghost predicate AllWritable(calls: seq<Call>, parse: string -> Option<Value>) {
    forall i | 0 <= i < |calls| && calls[i].function_.Some? :: Writable(calls[i].function_.value, parse)
  }

  /** The calls that are written, as they are to be read: missing arguments are an empty object. */
  function Expected(calls: seq<Call>): seq<Made> {
    if calls == [] then []
    else match calls[0].function_
      case None => Expected(calls[1..])
      case Some(f) =>
        [Made(f.name, match f.arguments case None => "{}" case Some(text) => text)] + Expected(calls[1..])
  }

  // ----- One line -----

  lemma {:induction false} PlainEscape(name: string)
    requires PlainName(name)
    ensures Escape(name) == name
    decreases |name|
  {
    if name != "" {
      assert name[0] in name && forall c | c in name[1..] :: c in name;
      PlainEscape(name[1..]);
      assert EscapeChar(name[0]) == [name[0]];
    }
  }

  lemma KeyIsQuoted(name: string)
    requires PlainName(name)
    ensures Key(name) == Quoted(name)
  {
    PlainEscape(name);
  }

  lemma FieldIsNeutral(key: string, text: string, k: Kind)
    requires PlainName(key) && Neutral(text, k)
    ensures Neutral(Field(key, text), k)
  {
    KeyIsQuoted(key);
    QuotedIsNeutral(key, k);
    PlainIsNeutral(": ", k);
    NeutralAdds(Key(key), ": ", k);
    NeutralAdds(Key(key) + ": ", text, k);
  }

  lemma FieldsAreNeutral(name: string, v: Value, k: Kind)
    requires PlainName(name) && WellFormed(v)
    ensures Neutral(CallFields(name, Print(v)), k)
  {
    var a, b := Field("name", Key(name)), Field("arguments", Print(v));
    KeyIsQuoted(name);
    QuotedIsNeutral(name, k);
    PrintIsNeutral(v, k);
    FieldIsNeutral("name", Key(name), k);
    FieldIsNeutral("arguments", Print(v), k);
    PlainIsNeutral(", ", k);
    NeutralAdds(", ", b, k);
    NeutralAdds(a, ", " + b, k);
  }

  /** The list of one call is found exactly, whatever its arguments hold. */
  lemma ListIsFound(name: string, v: Value, tail: string)
    requires PlainName(name) && WellFormed(v)
    ensures FirstBalanced(ListText(name, Print(v)) + tail, Brackets) == Some(Span(0, |ListText(name, Print(v))|))
  {
    FieldsAreNeutral(name, v, Brackets);
    BracketedIsNeutral(Braces, CallFields(name, Print(v)), Brackets);
    BracketedIsFound("", CallText(name, Print(v)), tail, Brackets);
    EmptyInFront(ListText(name, Print(v)) + tail);
  }

  lemma EmptyInFront(s: string)
    ensures "" + s == s
  {}

  lemma OneCall(name: string, v: Value)
    requires Lasting(v)
    ensures CallsFromItems([CallValue(name, v)]) == [Made(name, Print(v))]
  {
    var c := CallValue(name, v);
    var es := c.entries;
    assert Get(es, "name") == Some(String(name));
    assert es[1..] == [Entry("arguments", v)] && "name" != "arguments" by { assert "name"[0] != "arguments"[0]; }
    assert Get(es, "arguments") == Some(v);
    assert CallFromObject(c) == Some(Made(name, Print(v)));
    assert [c][1..] == [];
  }

  // ----- Line by line -----

  ghost predicate NoMark(s: string) {
    forall i: nat :: !At(s, i, TOOL_CALLS_MARK)
  }

  lemma MarkOpensOnce(o: nat)
    requires 1 <= o < |TOOL_CALLS_MARK|
    ensures TOOL_CALLS_MARK[o] != TOOL_CALLS_MARK[0]
  {}

  /** A marker after text that holds none is the first. */
  lemma MarkIsFirst(pre: string, x: string)
    requires NoMark(pre)
    ensures FindFrom(pre + (TOOL_CALLS_MARK + x), TOOL_CALLS_MARK, 0) == Some(|pre|)
  {
    var s := pre + (TOOL_CALLS_MARK + x);
    FindFromIs(s, TOOL_CALLS_MARK, 0);
    assert s[|pre|..|pre| + |TOOL_CALLS_MARK|] == TOOL_CALLS_MARK;
    assert At(s, |pre|, TOOL_CALLS_MARK);
    forall i: nat | i < |pre|
      ensures !At(s, i, TOOL_CALLS_MARK)
    {
      NoMarkBefore(pre, x, i);
    }
  }

  lemma NoMarkBefore(pre: string, x: string, i: nat)
    requires NoMark(pre) && i < |pre|
    ensures !At(pre + (TOOL_CALLS_MARK + x), i, TOOL_CALLS_MARK)
  {
    var s := pre + (TOOL_CALLS_MARK + x);
    if At(s, i, TOOL_CALLS_MARK) {
      if i + |TOOL_CALLS_MARK| <= |pre| {
        AtInPrefix(pre, TOOL_CALLS_MARK + x, i, TOOL_CALLS_MARK);
      } else {
        assert s[|pre|] == TOOL_CALLS_MARK[0];
        MarkOpensOnce(|pre| - i);
        AtChar(s, i, TOOL_CALLS_MARK, |pre| - i);
      }
    }
  }

  lemma LineParts(pre: string, list: string, others: string)
    ensures
      var rest := pre + (TOOL_CALLS_MARK + (" " + (list + "\n")) + others);
      && rest == pre + (TOOL_CALLS_MARK + (" " + (list + ("\n" + others))))
      && rest[..|pre|] == pre
      && rest[|pre| + |TOOL_CALLS_MARK|..] == " " + (list + ("\n" + others))
  {
    Associates(list, "\n", others);
    Associates(" ", list + "\n", others);
    Associates(TOOL_CALLS_MARK, " " + (list + "\n"), others);
    SplitAfter(pre, TOOL_CALLS_MARK, " " + (list + ("\n" + others)));
  }

  lemma SplitAfter(a: string, b: string, c: string)
    ensures (a + (b + c))[..|a|] == a && (a + (b + c))[|a| + |b|..] == c
  {}

  /** Reading one line: its call, and the newline after it left to be read. */
  lemma LineIsRead(pre: string, f: Func, others: string, parse: string -> Option<Value>)
    requires NoMark(pre) && Writable(f, parse)
    ensures
      var next := Scanned("\n" + others, parse);
      Scanned(pre + (Line(f) + others), parse) == Parsed(pre + next.content, [Made(f.name, ArgsOf(f))] + next.calls)
  {
    var v :| Lasting(v) && ArgsOf(f) == Print(v) && ReadsBack(parse, f.name, v);
    var list, rest := ListText(f.name, Print(v)), pre + (Line(f) + others);
    LineParts(pre, list, others);
    MarkIsFirst(pre, " " + (list + ("\n" + others)));
    ScannedAt(rest, |pre|, parse);
    MarkedIs(rest, |pre|, f.name, v, "\n" + others, parse);
  }

  lemma MarkedIs(rest: string, at: nat, name: string, v: Value, others: string, parse: string -> Option<Value>)
    requires PlainName(name) && Lasting(v) && ReadsBack(parse, name, v) && at + |TOOL_CALLS_MARK| <= |rest|
    requires rest[at + |TOOL_CALLS_MARK|..] == " " + (ListText(name, Print(v)) + others)
    ensures Marked(rest, at, parse) == Found([Made(name, Print(v))], others)
  {
    var list := ListText(name, Print(v));
    TrimOneSpace(list + others);
    ListedIs(name, v, others, parse);
  }

  lemma ListedIs(name: string, v: Value, others: string, parse: string -> Option<Value>)
    requires PlainName(name) && Lasting(v) && ReadsBack(parse, name, v)
    ensures FindCalls(ListText(name, Print(v)) + others, parse) == Some(Found([Made(name, Print(v))], others))
  {
    var list := ListText(name, Print(v));
    var after := list + others;
    assert after[0] == '[';
    assert Named(after, parse) == None;
    ListIsFound(name, v, others);
    assert after[0..|list|] == list && after[|list|..] == others;
    OneCall(name, v);
  }

  lemma TrimOneSpace(x: string)
    requires x != "" && !IsSpace(x[0])
    ensures TrimStart(" " + x) == x
  {
    TrimStartOf(' ', x);
  }

  function Newlines(n: nat): string {
    if n == 0 then "" else "\n" + Newlines(n - 1)
  }

  lemma AllWritableAfter(calls: seq<Call>, parse: string -> Option<Value>)
    requires AllWritable(calls, parse) && calls != []
    ensures AllWritable(calls[1..], parse)
  {
    assert forall i | 0 <= i < |calls[1..]| :: calls[1..][i] == calls[i + 1];
  }

  lemma RenderFirst(calls: seq<Call>, f: Func)
    requires calls != [] && calls[0].function_ == Some(f)
    ensures Render(calls) == Line(f) + Render(calls[1..])
    ensures Expected(calls) == [Made(f.name, ArgsOf(f))] + Expected(calls[1..])
    ensures Newlines(|Expected(calls)|) == "\n" + Newlines(|Expected(calls[1..])|)
  {}

  lemma {:induction false} LinesAreRead(pre: string, calls: seq<Call>, parse: string -> Option<Value>)
    requires NoMark(pre) && AllWritable(calls, parse)
    ensures Scanned(pre + Render(calls), parse) == Parsed(pre + Newlines(|Expected(calls)|), Expected(calls))
    decreases |calls|
  {
    if calls == [] {
      assert pre + "" == pre;
      FindFromIs(pre, TOOL_CALLS_MARK, 0);
    } else {
      AllWritableAfter(calls, parse);
      match calls[0].function_
      case None => LinesAreRead(pre, calls[1..], parse);
      case Some(f) =>
        assert Writable(calls[0].function_.value, parse);
        RenderFirst(calls, f);
        LineIsRead(pre, f, Render(calls[1..]), parse);
        NewlineHasNoMark();
        LinesAreRead("\n", calls[1..], parse);
    }
  }

  lemma NewlineHasNoMark()
    ensures NoMark("\n")
  {}

  // ----- The whole text -----

  lemma {:induction false} TrimEndAdds(s: string, u: string)
    requires AllSpace(u)
    ensures TrimEnd(s + u) == TrimEnd(s)
    decreases |u|
  {
    if u == "" {
      assert s + u == s;
    } else {
      var n := |u| - 1;
      assert s + u == (s + u[..n]) + [u[n]];
      assert (s + u)[..|s + u| - 1] == s + u[..n];
      assert AllSpace(u[..n]) by { assert forall i | 0 <= i < n :: u[..n][i] == u[i]; }
      TrimEndAdds(s, u[..n]);
    }
  }

  lemma TrimAdds(s: string, u: string)
    requires AllSpace(u)
    ensures Trim(s + u) == Trim(s)
  {
    TrimStartAdds(s, u);
    if AllSpace(s) {
      TrimStartIs(s);
      TrimStartIs(u);
    } else {
      TrimEndAdds(TrimStart(s), u);
    }
  }

  lemma {:induction false} NewlinesAreSpace(n: nat)
    ensures AllSpace(Newlines(n)) && |Newlines(n)| == n && forall c | c in Newlines(n) :: c == '\n'
  {
    if n > 0 {
      NewlinesAreSpace(n - 1);
      SpaceAdds("\n", Newlines(n - 1));
    }
  }

  lemma NoCloseInside(pre: string, n: nat, i: nat)
    requires forall i: nat :: !At(pre, i, CLOSE_MARK)
    ensures !At(pre + Newlines(n), i, CLOSE_MARK)
  {
    var s := pre + Newlines(n);
    NewlinesAreSpace(n);
    if At(s, i, CLOSE_MARK) {
      var last := i + |CLOSE_MARK| - 1;
      if last < |pre| {
        AtInPrefix(pre, Newlines(n), i, CLOSE_MARK);
      } else {
        assert CLOSE_MARK[|CLOSE_MARK| - 1] == ']';
        AtChar(s, i, CLOSE_MARK, |CLOSE_MARK| - 1);
      }
    }
  }

  lemma NothingToDelete(s: string)
    requires forall i: nat :: !At(s, i, CLOSE_MARK)
    ensures Del(s, CLOSE_MARK) == s
  {
    assert s + "" == s;
    DelSkips(s, "", CLOSE_MARK);
  }

  /** A turn's calls, written after any prose that holds no marker of its own, are read back: the same
      names and arguments in the same order, and the prose as content. The calls' arguments may hold
      anything, markers and brackets included. */
  lemma RoundTrip(prose: string, calls: seq<Call>, parse: string -> Option<Value>, bare: string -> Parsed)
    requires AllWritable(calls, parse) && Expected(calls) != []
    requires NoMark(prose) && forall i: nat :: !At(prose, i, CLOSE_MARK)
    ensures Read(prose + Render(calls), parse, bare) == Parsed(Trim(prose), Expected(calls))
  {
    var raw, n := prose + Render(calls), |Expected(calls)|;
    LinesAreRead(prose, calls, parse);
    assert FindFrom(raw, TOOL_CALLS_MARK, 0).Some?;
    forall i: nat
      ensures !At(prose + Newlines(n), i, CLOSE_MARK)
    {
      NoCloseInside(prose, n, i);
    }
    NothingToDelete(prose + Newlines(n));
    NewlinesAreSpace(n);
    TrimAdds(prose, Newlines(n));
  }

  /** A marker with no call after it is taken out, and the text around it stays. */
  lemma MarkerAlone(prose: string, tail: string, parse: string -> Option<Value>)
    requires NoMark(prose) && NoMark(tail) && FindCalls(TrimStart(tail), parse) == None
    ensures Scanned(prose + (TOOL_CALLS_MARK + tail), parse) == Parsed(prose + tail, [])
  {
    var rest := prose + (TOOL_CALLS_MARK + tail);
    MarkIsFirst(prose, tail);
    ScannedAt(rest, |prose|, parse);
    SplitAfter(prose, TOOL_CALLS_MARK, tail);
    FindFromIs(tail, TOOL_CALLS_MARK, 0);
    assert Scanned(tail, parse) == Parsed(tail, []);
  }

  // ----- The other spellings -----

  /** A name that can stand without quotes, before a mark of its own. */
  predicate BareName(name: string) {
    name != "" && Trim(name) == name && name[0] != '{' && '[' !in name
  }

  lemma BareHasNo(name: string, m: string)
    requires '[' !in name && m != "" && m[0] == '['
    ensures FindFrom(name, m, 0) == None
  {
    forall i: nat
      ensures !At(name, i, m)
    {
      if i + |m| <= |name| {
        assert name[i] in name && name[i..i + |m|][0] == name[i];
      }
    }
    FindFromIs(name, m, 0);
  }

  /** A mark after a bare name is the first. */
  lemma ArgsMarkIsFirst(name: string, x: string)
    requires '[' !in name
    ensures FindFrom(name + (ARGS_MARK + x), ARGS_MARK, 0) == Some(|name|)
  {
    var s := name + (ARGS_MARK + x);
    FindFromIs(s, ARGS_MARK, 0);
    assert s[|name|..|name| + |ARGS_MARK|] == ARGS_MARK;
    assert At(s, |name|, ARGS_MARK);
    match FindFrom(s, ARGS_MARK, 0)
    case None =>
    case Some(i) =>
      if i < |name| {
        assert s[i] == name[i] && name[i] in name;
        AtChar(s, i, ARGS_MARK, 0);
      }
  }

  lemma NamedParts(name: string, rest: string)
    requires BareName(name)
    ensures
      var after := name + (ARGS_MARK + rest);
      && FindFrom(after, ARGS_MARK, 0) == Some(|name|) && after[0] != '[' && after[0] != '{'
      && NameIn(after[..|name|]) == name && after[|name| + |ARGS_MARK|..] == rest
  {
    var after := name + (ARGS_MARK + rest);
    ArgsMarkIsFirst(name, rest);
    assert after[0] == name[0] && name[0] in name;
    SplitAfter(name, ARGS_MARK, rest);
    BareHasNo(name, CALL_ID_MARK);
  }

  lemma NamedOf(after: string, at: nat, name: string, rest: string, m: nat, v: Value, parse: string -> Option<Value>)
    requires FindFrom(after, ARGS_MARK, 0) == Some(at) && after[0] != '[' && after[0] != '{'
    requires NameIn(after[..at]) == name != "" && after[at + |ARGS_MARK|..] == rest
    requires m <= |rest| && FirstBalanced(rest, Braces) == Some(Span(0, m)) && parse(rest[0..m]) == Some(v) && v.Object?
    ensures Named(after, parse) == Some(Found([Made(name, Print(v))], rest[m..]))
  {}

  lemma NamedIs(name: string, v: Value, tail: string, parse: string -> Option<Value>)
    requires BareName(name) && WellFormed(v) && v.Object? && parse(Print(v)) == Some(v)
    ensures Named(name + (ARGS_MARK + (Print(v) + tail)), parse) == Some(Found([Made(name, Print(v))], tail))
  {
    var rest := Print(v) + tail;
    NamedParts(name, rest);
    ObjectIsFound(v, tail);
    NamedOf(name + (ARGS_MARK + rest), |name|, name, rest, |Print(v)|, v, parse);
  }

  /** The newer spelling: a name, the mark and an object, with anything after it. */
  lemma NamedIsRead(name: string, v: Value, tail: string, parse: string -> Option<Value>)
    requires BareName(name) && WellFormed(v) && v.Object? && parse(Print(v)) == Some(v)
    ensures FindCalls(name + (ARGS_MARK + (Print(v) + tail)), parse) == Some(Found([Made(name, Print(v))], tail))
  {
    NamedIs(name, v, tail, parse);
  }

  lemma NamedPartsWithId(name: string, id: string, rest: string)
    requires BareName(name) && '[' !in id
    ensures
      var before := name + (CALL_ID_MARK + id);
      var after := before + (ARGS_MARK + rest);
      && FindFrom(after, ARGS_MARK, 0) == Some(|before|) && after[0] != '[' && after[0] != '{'
      && NameIn(after[..|before|]) == name && after[|before| + |ARGS_MARK|..] == rest
  {
    var before := name + (CALL_ID_MARK + id);
    var after := before + (ARGS_MARK + rest);
    IdHasNoArgs(name, id, rest);
    assert after[0] == name[0] && name[0] in name;
    SplitAfter(before, ARGS_MARK, rest);
    CallIdIsFirst(name, id);
    SplitAfter(name, CALL_ID_MARK, id);
  }

  lemma IdHasNoArgs(name: string, id: string, rest: string)
    requires '[' !in name && '[' !in id
    ensures FindFrom(name + (CALL_ID_MARK + id) + (ARGS_MARK + rest), ARGS_MARK, 0) == Some(|name| + (|CALL_ID_MARK| + |id|))
  {
    var before := name + (CALL_ID_MARK + id);
    var s := before + (ARGS_MARK + rest);
    FindFromIs(s, ARGS_MARK, 0);
    assert s[|before|..|before| + |ARGS_MARK|] == ARGS_MARK;
    assert At(s, |before|, ARGS_MARK);
    forall i: nat | i < |before|
      ensures !At(s, i, ARGS_MARK)
    {
      if i == |name| {
        assert s[i + 1] == CALL_ID_MARK[1] != ARGS_MARK[1];
        OtherChar(s, i, ARGS_MARK, 1);
      } else {
        NotBracket(name, id, i);
        assert s[i + 0] == before[i];
        OtherChar(s, i, ARGS_MARK, 0);
      }
    }
  }

  lemma NotBracket(name: string, id: string, i: nat)
    requires '[' !in name && '[' !in id && i < |name + (CALL_ID_MARK + id)| && i != |name|
    ensures (name + (CALL_ID_MARK + id))[i] != '['
  {
    var before := name + (CALL_ID_MARK + id);
    if i < |name| {
      assert before[i] == name[i] && name[i] in name;
    } else if i < |name| + |CALL_ID_MARK| {
      assert before[i] == CALL_ID_MARK[i - |name|];
    } else {
      assert before[i] == id[i - |name| - |CALL_ID_MARK|] && id[i - |name| - |CALL_ID_MARK|] in id;
    }
  }

  lemma CallIdIsFirst(name: string, id: string)
    requires '[' !in name
    ensures FindFrom(name + (CALL_ID_MARK + id), CALL_ID_MARK, 0) == Some(|name|)
  {
    var s := name + (CALL_ID_MARK + id);
    FindFromIs(s, CALL_ID_MARK, 0);
    assert s[|name|..|name| + |CALL_ID_MARK|] == CALL_ID_MARK;
    assert At(s, |name|, CALL_ID_MARK);
    forall i: nat | i < |name|
      ensures !At(s, i, CALL_ID_MARK)
    {
      assert s[i + 0] == name[i] && name[i] in name;
      OtherChar(s, i, CALL_ID_MARK, 0);
    }
  }

  /** The newer spelling with a call id between the name and the arguments: the id is left out. */
  lemma NamedWithIdIsRead(name: string, id: string, v: Value, tail: string, parse: string -> Option<Value>)
    requires BareName(name) && '[' !in id && WellFormed(v) && v.Object? && parse(Print(v)) == Some(v)
    ensures FindCalls(name + ("[CALL_ID]" + id) + ("[ARGS]" + (Print(v) + tail)), parse) ==
            Some(Found([Made(name, Print(v))], tail))
  {
    var before, rest := name + (CALL_ID_MARK + id), Print(v) + tail;
    NamedPartsWithId(name, id, rest);
    ObjectIsFound(v, tail);
    NamedOf(before + (ARGS_MARK + rest), |before|, name, rest, |Print(v)|, v, parse);
  }

  /** Arguments that stand in balanced braces and are no JSON are read as none. */
  lemma NamedNotJson(name: string, rest: string, m: nat, parse: string -> Option<Value>)
    requires BareName(name) && m <= |rest| && FirstBalanced(rest, Braces) == Some(Span(0, m)) && parse(rest[0..m]) == None
    ensures FindCalls(name + (ARGS_MARK + rest), parse) == Some(Found([Made(name, "{}")], rest[m..]))
  {
    NamedParts(name, rest);
  }

  // An array of any number of calls.

  /** One call of a list, under either key for its name and for its arguments. */
  datatype Item = Item(byTool: bool, name: string, byParameters: bool, arguments: Value)

  function ItemValue(i: Item): Value {
    Object([Entry(if i.byTool then "tool" else "name", String(i.name)),
            Entry(if i.byParameters then "parameters" else "arguments", i.arguments)])
  }

  function ItemValues(items: seq<Item>): seq<Value> {
    if items == [] then [] else [ItemValue(items[0])] + ItemValues(items[1..])
  }

  function ItemCalls(items: seq<Item>): seq<Made> {
    if items == [] then [] else [Made(items[0].name, Print(items[0].arguments))] + ItemCalls(items[1..])
  }

  lemma GetOfTwo(a: Entry, b: Entry, key: string)
    ensures Get([a, b], key) == if a.key == key then Some(a.value) else if b.key == key then Some(b.value) else None
  {
    assert [a, b][1..] == [b] && [b][1..] == [];
    assert Get([b], key) == if b.key == key then Some(b.value) else None;
  }

  lemma KeysDiffer()
    ensures "name" != "tool" && "arguments" != "parameters"
    ensures "name" != "arguments" && "name" != "parameters" && "tool" != "arguments" && "tool" != "parameters"
  {
    assert "name"[0] == 'n' && "tool"[0] == 't' && "arguments"[0] == 'a' && "parameters"[0] == 'p';
  }

  lemma KeyedIsRead(a: Entry, b: Entry, name: string, v: Value)
    requires a.key in ["name", "tool"] && b.key in ["arguments", "parameters"]
    requires a.value == String(name) && b.value == v && Lasting(v)
    ensures CallFromObject(Object([a, b])) == Some(Made(name, Print(v)))
  {
    KeysDiffer();
    GetOfTwo(a, b, "name");
    GetOfTwo(a, b, "tool");
    GetOfTwo(a, b, "arguments");
    GetOfTwo(a, b, "parameters");
    ArgumentsLastIff(name, v);
    var named := OrElse(Get([a, b], "name"), Get([a, b], "tool"));
    assert named == Some(String(name));
    var args := OrElse(Get([a, b], "arguments"), Get([a, b], "parameters"));
    assert args == Some(v);
  }

  lemma ItemIsRead(i: Item)
    requires Lasting(i.arguments)
    ensures CallFromObject(ItemValue(i)) == Some(Made(i.name, Print(i.arguments)))
  {
    KeyedIsRead(Entry(if i.byTool then "tool" else "name", String(i.name)),
                Entry(if i.byParameters then "parameters" else "arguments", i.arguments), i.name, i.arguments);
  }

  /** Of a call that has both keys for its name and both for its arguments, `name` and `arguments` count. */
  lemma FirstKeysCount(name: string, other: Value, v: Value, w: Value)
    requires Lasting(v)
    ensures CallFromObject(Object([Entry("tool", other), Entry("parameters", w), Entry("name", String(name)), Entry("arguments", v)]))
            == Some(Made(name, Print(v)))
  {
    var a, b, c, d := Entry("tool", other), Entry("parameters", w), Entry("name", String(name)), Entry("arguments", v);
    KeysDiffer();
    assert [a, b, c, d][1..] == [b, c, d] && [b, c, d][1..] == [c, d];
    GetOfTwo(c, d, "name");
    GetOfTwo(c, d, "arguments");
    assert Get([b, c, d], "name") == Get([c, d], "name") && Get([b, c, d], "arguments") == Get([c, d], "arguments");
    ArgumentsLastIff(name, v);
  }

  lemma {:induction false} ItemsAreRead(items: seq<Item>)
    requires forall i | i in items :: Lasting(i.arguments)
    ensures CallsFromItems(ItemValues(items)) == ItemCalls(items)
    decreases |items|
  {
    if items != [] {
      ItemIsRead(items[0]);
      ItemsAreRead(items[1..]);
      var values := ItemValues(items);
      assert values[0] == ItemValue(items[0]) && values[1..] == ItemValues(items[1..]);
    }
  }

  lemma {:induction false} ItemsAreWellFormed(items: seq<Item>)
    requires forall i | i in items :: Lasting(i.arguments)
    ensures forall k | 0 <= k < |ItemValues(items)| :: WellFormed(ItemValues(items)[k])
    decreases |items|
  {
    if items != [] {
      ItemsAreWellFormed(items[1..]);
      ItemIsWellFormed(items[0]);
    }
  }

  lemma ItemIsWellFormed(i: Item)
    requires Lasting(i.arguments)
    ensures WellFormed(ItemValue(i))
  {}

  /** A list of any calls, written as JSON, with anything after it: all of them are read, in order, each with
      its arguments. */
  lemma ItemListIsRead(items: seq<Item>, tail: string, parse: string -> Option<Value>)
    requires forall i | i in items :: Lasting(i.arguments)
    requires parse(Print(Array(ItemValues(items)))) == Some(Array(ItemValues(items)))
    ensures FindCalls(Print(Array(ItemValues(items))) + tail, parse) == Some(Found(ItemCalls(items), tail))
  {
    var v := Array(ItemValues(items));
    ItemsAreRead(items);
    ItemsAreWellFormed(items);
    ListOfItemsIsFound(v, tail);
    var after := Print(v) + tail;
    assert after[0] == '[';
    assert Named(after, parse) == None;
  }

  lemma ListOfItemsIsFound(v: Value, tail: string)
    requires WellFormed(v) && v.Array?
    ensures
      var after := Print(v) + tail;
      && FirstBalanced(after, Brackets) == Some(Span(0, |Print(v)|))
      && after[0..|Print(v)|] == Print(v) && after[|Print(v)|..] == tail
  {
    PrintedIsFound("", v, tail);
    EmptyInFront(Print(v) + tail);
  }

  lemma ObjectIsFound(v: Value, tail: string)
    requires WellFormed(v) && v.Object?
    ensures
      var rest := Print(v) + tail;
      && FirstBalanced(rest, Braces) == Some(Span(0, |Print(v)|))
      && rest[0..|Print(v)|] == Print(v) && rest[|Print(v)|..] == tail
  {
    PrintedIsFound("", v, tail);
    EmptyInFront(Print(v) + tail);
  }

  /** An object alone after the marker is read where no list stands in the text from there on. */
  lemma ObjectIsRead(name: string, v: Value, tail: string, parse: string -> Option<Value>)
    requires PlainName(name) && Lasting(v) && ReadsBack(parse, name, v)
    requires FirstBalanced(CallText(name, Print(v)) + tail, Brackets) == None
    ensures FindCalls(CallText(name, Print(v)) + tail, parse) == Some(Found([Made(name, Print(v))], tail))
  {
    var text := CallText(name, Print(v));
    var after := text + tail;
    assert after[0] == '{';
    assert Named(after, parse) == None;
    FieldsAreNeutral(name, v, Braces);
    BracketedIsFound("", CallFields(name, Print(v)), tail, Braces);
    EmptyInFront(after);
    assert after[0..|text|] == text && after[|text|..] == tail;
    OneCall(name, v);
    assert CallsFromValue(Some(CallValue(name, v))) == CallsFromItems([CallValue(name, v)]);
  }

  /** Where a list does stand there, what is found ends with the list, so the call and what follows it
      are not what is found. */
  lemma ObjectIsMissed(name: string, v: Value, tail: string, parse: string -> Option<Value>)
    requires FirstBalanced(CallText(name, Print(v)) + tail, Brackets).Some?
    ensures FindCalls(CallText(name, Print(v)) + tail, parse) != Some(Found([Made(name, Print(v))], tail))
  {
    var text := CallText(name, Print(v));
    var after := text + tail;
    var span := FirstBalanced(after, Brackets).value;
    SpanEndsClosed(after, Brackets);
    assert after[0] == '{';
    assert Named(after, parse) == None;
    assert text[|text| - 1] == '}' && after[|text| - 1] == '}';
    assert |after[span.end..]| == |after| - span.end;
  }

  /** An object alone after the marker is read as the call it is if and only if no list stands in the
      text from there on, in its arguments or after it. */
  lemma ObjectIsReadIff(name: string, v: Value, tail: string, parse: string -> Option<Value>)
    requires PlainName(name) && Lasting(v) && ReadsBack(parse, name, v)
    ensures FindCalls(CallText(name, Print(v)) + tail, parse) == Some(Found([Made(name, Print(v))], tail)) <==>
            FirstBalanced(CallText(name, Print(v)) + tail, Brackets) == None
  {
    if FirstBalanced(CallText(name, Print(v)) + tail, Brackets) == None {
      ObjectIsRead(name, v, tail, parse);
    } else {
      ObjectIsMissed(name, v, tail, parse);
    }
  }

  const ONE_NUMBER := Array([Number("1")])
  const NUMBER_ARGS := Object([Entry("a", ONE_NUMBER)])

  function BeforeList(): string {
    ['{'] + (Field("name", Key("f")) + (", " + Field("arguments", "{" + (Quoted("a") + ":"))))
  }

  /** One such text: the list of numbers in its arguments is taken for the calls. */
  lemma ObjectIsLost(parse: string -> Option<Value>)
    requires parse("[1]") == Some(ONE_NUMBER)
    ensures FindCalls(CallText("f", Print(NUMBER_ARGS)), parse) == Some(Found([], "}}"))
  {
    ListInObject();
    var after := CallText("f", Print(NUMBER_ARGS));
    assert after[0] == '{';
    assert Named(after, parse) == None;
    PrintedIsFound(BeforeList(), ONE_NUMBER, "}}");
    var p, q := |BeforeList()|, |BeforeList()| + 3;
    assert after[p..q] == "[1]" && after[q..] == "}}";
    assert parse("[1]") == Some(ONE_NUMBER);
    assert ONE_NUMBER.items[1..] == [];
    assert CallsFromItems(ONE_NUMBER.items) == [];
  }

  lemma ListInObject()
    ensures Print(ONE_NUMBER) == "[1]"
    ensures CallText("f", Print(NUMBER_ARGS)) == BeforeList() + (Print(ONE_NUMBER) + "}}")
    ensures '[' !in BeforeList()
  {
    PlainEscape("a");
    assert PrintItems(ONE_NUMBER.items) == "1" + "";
    assert PrintEntries(NUMBER_ARGS.entries) == Quoted("a") + ":" + Print(ONE_NUMBER) + "";
    assert Print(NUMBER_ARGS) == "{" + (Quoted("a") + ":" + "[1]") + "}";
  }
}
