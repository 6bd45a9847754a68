/**
 Mistral's tool calls: how a turn's calls are written back into the prompt, and how calls are read out
 of a model's output. Writing any calls and reading them gives the calls back, whatever the strings in
 their arguments hold.

 The JSON parser is a parameter: `parse` gives the value a text spells, if it spells one.
 */
module Mistral {
  import opened Text
  import opened Json

  const TOOL_CALLS_MARK := "[TOOL_CALLS]"
  const CLOSE_MARK := "[/TOOL_CALLS]"
  const ARGS_MARK := "[ARGS]"
  const CALL_ID_MARK := "[CALL_ID]"

  datatype Func = Func(name: string, arguments: Option<string>)
  datatype Call = Call(function_: Option<Func>)

  /** A call as read: its name and its arguments as JSON text. */
  datatype Made = Made(name: string, arguments: string)
  datatype Parsed = Parsed(content: string, calls: seq<Made>)

  // ----- Writing -----

  function ArgsOf(f: Func): string {
    if f.arguments.Some? then f.arguments.value else "{}"
  }

  function Key(s: string): string { "\"" + s + "\"" }

  function Field(key: string, text: string): string { Key(key) + ": " + text }

  function CallFields(name: string, args: string): string {
    Field("name", Key(name)) + (", " + Field("arguments", args))
  }

  function CallText(name: string, args: string): string {
    ['{'] + CallFields(name, args) + ['}']
  }

  /** A list of one call. */
  function ListText(name: string, args: string): string {
    ['['] + CallText(name, args) + [']']
  }

  function Line(f: Func): string {
    TOOL_CALLS_MARK + (" " + (ListText(f.name, ArgsOf(f)) + "\n"))
  }

  function Render(calls: seq<Call>): string {
    if calls == [] then ""
    else match calls[0].function_
      case None => Render(calls[1..])
      case Some(f) => Line(f) + Render(calls[1..])
  }

  method RenderCalls(calls: seq<Call>) returns (out: string)
    ensures out == Render(calls)
  {
    out := "";
    for i := 0 to |calls|
      invariant out + Render(calls[i..]) == Render(calls)
    {
      ghost var rest := calls[i..];
      assert rest[0] == calls[i] && rest[1..] == calls[i + 1..];
      match calls[i].function_ {
        case None =>
        case Some(f) =>
          Associates(out, Line(f), Render(calls[i + 1..]));
          out := out + Line(f);
      }
    }
    assert calls[|calls|..] == [];
    assert out + "" == out;
  }

  // ----- Reading -----

  function Get(entries: seq<Entry>, key: string): Option<Value> {
    if entries == [] then None
    else if entries[0].key == key then Some(entries[0].value)
    else Get(entries[1..], key)
  }

  function OrElse<T>(a: Option<T>, b: Option<T>): Option<T> { if a.Some? then a else b }

  function MakeCall(name: string, arguments: Value): Made {
    Made(name, match arguments case Null => "{}" case String(s) => s case _ => Print(arguments))
  }

  function CallFromObject(v: Value): Option<Made> {
    if !v.Object? then None else
      var named: Option<Value> := OrElse(Get(v.entries, "name"), Get(v.entries, "tool"));
      match named
      case Some(String(name)) =>
        var args := OrElse(Get(v.entries, "arguments"), Get(v.entries, "parameters"));
        Some(MakeCall(name, if args.Some? then args.value else Null))
      case _ => None
  }

  function CallsFromItems(items: seq<Value>): seq<Made> {
    if items == [] then [] else
      (match CallFromObject(items[0]) case Some(c) => [c] case None => []) + CallsFromItems(items[1..])
  }

  function CallsFromValue(v: Option<Value>): seq<Made> {
    match v
    case Some(Array(items)) => CallsFromItems(items)
    case Some(Object(entries)) => CallsFromItems([v.value])
    case _ => []
  }

  /** A call found after a marker, and how much of the text after it is used up. */
  datatype Found = Found(calls: seq<Made>, rest: string)

  /** The newer spelling: the name, then its arguments after a marker of their own. */
  ghost function Named(after: string, parse: string -> Option<Value>): (r: Option<Found>)
    ensures r.Some? ==> |r.value.rest| <= |after|
  {
    match FindFrom(after, ARGS_MARK, 0)
    case None => None
    case Some(at) =>
      if after[0] == '[' || after[0] == '{' then None else
        var name, tail := NameIn(after[..at]), after[at + |ARGS_MARK|..];
        match FirstBalanced(tail, Braces)
        case None => None
        case Some(span) =>
          var v := parse(tail[span.start..span.end]);
          Some(Found(if name == "" then [] else [MakeCall(name, if v.Some? then v.value else Null)], tail[span.end..]))
  }

  /** What stands before a call id, if there is one. */
  ghost function NameIn(s: string): string {
    match FindFrom(s, CALL_ID_MARK, 0)
    case Some(i) => Trim(s[..i])
    case None => Trim(s)
  }

  /** The older spelling: an array of calls, or else an object. */
  ghost function Listed(after: string, parse: string -> Option<Value>): (r: Option<Found>)
    ensures r.Some? ==> |r.value.rest| <= |after|
  {
    match OrElse(FirstBalanced(after, Brackets), FirstBalanced(after, Braces))
    case None => None
    case Some(span) => Some(Found(CallsFromValue(parse(after[span.start..span.end])), after[span.end..]))
  }

  ghost function FindCalls(after: string, parse: string -> Option<Value>): (r: Option<Found>)
    ensures r.Some? ==> |r.value.rest| <= |after|
  {
    OrElse(Named(after, parse), Listed(after, parse))
  }

  /** What the marker at `at` brings: without a call after it, only the marker is used up. */
  ghost function Marked(rest: string, at: nat, parse: string -> Option<Value>): (r: Found)
    requires at + |TOOL_CALLS_MARK| <= |rest|
    ensures |r.rest| < |rest|
  {
    var tail := rest[at + |TOOL_CALLS_MARK|..];
    TrimStartIs(tail);
    match FindCalls(TrimStart(tail), parse) case Some(f) => f case None => Found([], tail)
  }

  /** Marker by marker. */
  ghost function Scanned(rest: string, parse: string -> Option<Value>): Parsed
    decreases |rest|
  {
    match FindFrom(rest, TOOL_CALLS_MARK, 0)
    case None => Parsed(rest, [])
    case Some(at) =>
      var found := Marked(rest, at, parse);
      var next := Scanned(found.rest, parse);
      Parsed(rest[..at] + next.content, found.calls + next.calls)
  }

  lemma ScannedAt(rest: string, at: nat, parse: string -> Option<Value>)
    requires FindFrom(rest, TOOL_CALLS_MARK, 0) == Some(at)
    ensures
      var found := Marked(rest, at, parse);
      Scanned(rest, parse) == Parsed(rest[..at] + Scanned(found.rest, parse).content, found.calls + Scanned(found.rest, parse).calls)
  {}

  /** Without a marker the text is left to the reader of bare JSON. */
  ghost function Read(raw: string, parse: string -> Option<Value>, bare: string -> Parsed): Parsed {
    if FindFrom(raw, TOOL_CALLS_MARK, 0).None? then bare(raw) else
      var all := Scanned(raw, parse);
      Parsed(Trim(Del(all.content, CLOSE_MARK)), all.calls)
  }

  method FindNamed(after: string, parse: string -> Option<Value>) returns (r: Option<Found>)
    ensures r == Named(after, parse)
  {
    var args := Find(after, ARGS_MARK, 0);
    if args.None? || after[0] == '[' || after[0] == '{' {
      return None;
    }
    var before, tail := after[..args.value], after[args.value + |ARGS_MARK|..];
    var id := Find(before, CALL_ID_MARK, 0);
    var name := Trim(if id.Some? then before[..id.value] else before);
    var span := FirstBalancedSpan(tail, Braces);
    if span.None? {
      return None;
    }
    var v := parse(tail[span.value.start..span.value.end]);
    var calls := if name == "" then [] else [MakeCall(name, if v.Some? then v.value else Null)];
    return Some(Found(calls, tail[span.value.end..]));
  }

  method FindListed(after: string, parse: string -> Option<Value>) returns (r: Option<Found>)
    ensures r == Listed(after, parse)
  {
    var span := FirstBalancedSpan(after, Brackets);
    if span.None? {
      span := FirstBalancedSpan(after, Braces);
    }
    if span.None? {
      return None;
    }
    return Some(Found(CallsFromValue(parse(after[span.value.start..span.value.end])), after[span.value.end..]));
  }

  method TakeMarked(rest: string, at: nat, parse: string -> Option<Value>) returns (r: Found)
    requires at + |TOOL_CALLS_MARK| <= |rest|
    ensures r == Marked(rest, at, parse)
  {
    var tail := rest[at + |TOOL_CALLS_MARK|..];
    var after := TrimStart(tail);
    var found := FindNamed(after, parse);
    if found.None? {
      found := FindListed(after, parse);
    }
    r := if found.Some? then found.value else Found([], tail);
  }

  method ParseMistral(raw: string, parse: string -> Option<Value>, bare: string -> Parsed) returns (r: Parsed)
    ensures r == Read(raw, parse, bare)
  {
    var idx := Find(raw, TOOL_CALLS_MARK, 0);
    if idx.None? {
      return bare(raw);
    }
    var content, calls, rest := "", [], raw;
    ghost var all := Scanned(raw, parse);
    ghost var left := all;
    while idx.Some?
      invariant idx == FindFrom(rest, TOOL_CALLS_MARK, 0)
      invariant left == Scanned(rest, parse)
      invariant all.content == content + left.content && all.calls == calls + left.calls
      decreases |rest|
    {
      var at := idx.value;
      var found := TakeMarked(rest, at, parse);
      ScannedAt(rest, at, parse);
      left := Scanned(found.rest, parse);
      Associates(content, rest[..at], left.content);
      Associates(calls, found.calls, left.calls);
      content := content + rest[..at];
      calls := calls + found.calls;
      rest := found.rest;
      idx := Find(rest, TOOL_CALLS_MARK, 0);
    }
    content := content + rest;
    return Parsed(Trim(Del(content, CLOSE_MARK)), calls);
  }
}
