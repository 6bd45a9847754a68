/**
 DeepSeek's DSML tool calls: the block a turn's calls are written as, and the parser that reads such a
 block. A parameter that is a string is written as it is; any other value is written as JSON.

 The JSON library is a parameter: `parse` gives the value a text spells, if it spells one, `ordered` the
 entries of the object it spells, and `write` the text of an object, whose keys stand in the order the
 library's maps keep.
 */
module Dsml {
  import opened Text
  import opened Json

  const CALLS_OPEN := "<\U{FF5C}DSML\U{FF5C} calls>"
  const CALLS_CLOSE := "</\U{FF5C}DSML\U{FF5C} calls>"
  const INVOKE_OPEN := "<\U{FF5C}DSML\U{FF5C} invoke"
  const INVOKE_CLOSE := "</\U{FF5C}DSML\U{FF5C} invoke>"
  const PARAM_OPEN := "<\U{FF5C}DSML\U{FF5C} parameter"
  const PARAM_CLOSE := "</\U{FF5C}DSML\U{FF5C} parameter>"

  /** A call with its arguments in the order they were written. */
  datatype Call = Call(name: string, arguments: seq<Entry>)

  // ----- Writing -----

  function ValueText(v: Value): string {
    match v case String(s) => s case _ => Print(v)
  }

  function Attribute(key: string, value: string): string { key + "=\"" + value + "\"" }

  function ParamHeader(e: Entry): string {
    " " + Attribute("name", e.key) + " " + Attribute("string", if e.value.String? then "true" else "false")
  }

  function Param(e: Entry): string {
    PARAM_OPEN + (ParamHeader(e) + (">" + (ValueText(e.value) + PARAM_CLOSE)))
  }

  /** One parameter a line. */
  function ParamLines(entries: seq<Entry>): string {
    if entries == [] then "" else Param(entries[0]) + ("\n" + ParamLines(entries[1..]))
  }

  /** A function as a turn's history holds it: its arguments are text, and may be missing. */
  datatype Function = Function(name: string, arguments: Option<string>)

  /** The entries of the object a text spells; none if it spells none. */
  function EntriesIn(text: string, ordered: string -> Option<seq<Entry>>): seq<Entry> {
    if ordered(text).Some? then ordered(text).value else []
  }

  function CallOf(f: Function, ordered: string -> Option<seq<Entry>>): Call {
    Call(f.name, EntriesIn(if f.arguments.Some? then f.arguments.value else "{}", ordered))
  }

  /** The calls of a turn that have a function. */
  function CallsOf(turn: seq<Option<Function>>, ordered: string -> Option<seq<Entry>>): seq<Call> {
    if turn == [] then []
    else (if turn[0].Some? then [CallOf(turn[0].value, ordered)] else []) + CallsOf(turn[1..], ordered)
  }

  method DsmlParams(text: string, ordered: string -> Option<seq<Entry>>) returns (out: string)
    ensures ordered(text).Some? ==> out == ParamLines(ordered(text).value)
    ensures ordered(text).None? ==> out == ""
  {
    if ordered(text).None? {
      return "";
    }
    var entries := ordered(text).value;
    out := "";
    for i := 0 to |entries|
      invariant out + ParamLines(entries[i..]) == ParamLines(entries)
    {
      ghost var rest := entries[i..];
      assert rest[0] == entries[i] && rest[1..] == entries[i + 1..];
      Associates(Param(entries[i]), "\n", ParamLines(entries[i + 1..]));
      Associates(out, Param(entries[i]) + "\n", ParamLines(entries[i + 1..]));
      out := out + (Param(entries[i]) + "\n");
    }
    assert entries[|entries|..] == [];
    assert out + "" == out;
  }

  function TrimNewlines(s: string): string
    decreases |s|
  {
    if s != "" && s[|s| - 1] == '\n' then TrimNewlines(s[..|s| - 1]) else s
  }

  function Invoke(c: Call): string {
    INVOKE_OPEN + (" " + Attribute("name", c.name) + (">" + ("\n" + TrimNewlines(ParamLines(c.arguments)) + "\n" + INVOKE_CLOSE)))
  }

  /** The invokes, one after the other, each with a newline after it. */
  function InvokeLines(calls: seq<Call>): string {
    if calls == [] then "" else Invoke(calls[0]) + ("\n" + InvokeLines(calls[1..]))
  }

  /** A turn's calls as one block. A turn without calls has none to join. */
  function Block(calls: seq<Call>): string {
    CALLS_OPEN + ("\n" + (if calls == [] then "\n" else InvokeLines(calls)) + CALLS_CLOSE)
  }

  // ----- Reading -----

  /** The value of an attribute in a tag's header. */
  ghost function Attr(header: string, key: string): Option<string> {
    match FindFrom(header, key + "=\"", 0)
    case None => None
    case Some(i) =>
      var rest := header[i + |key| + 2..];
      match FindFrom(rest, "\"", 0)
      case None => None
      case Some(j) => Some(rest[..j])
  }

  /** The text up to a tag, and what follows it; all of it and nothing when the tag is missing. */
  ghost function UpTo(s: string, tag: string): (r: (string, string))
    ensures |r.0| <= |s| && |r.1| <= |s|
  {
    match FindFrom(s, tag, 0)
    case None => (s, "")
    case Some(i) => (s[..i], s[i + |tag|..])
  }

  type Args = map<string, Value>

  datatype Made = Made(name: string, arguments: string)
  datatype Parsed = Parsed(content: string, calls: seq<Made>)

  function OrEmpty(s: Option<string>): string { if s.Some? then s.value else "" }

  /** A parameter's value: a string unless its header says otherwise and it reads as JSON. */
  ghost function ValueOf(header: string, text: string, parse: string -> Option<Value>): Value {
    var attr := Attr(header, "string");
    if attr.None? || attr.value == "true" then String(text)
    else
      var v := parse(Trim(text));
      if v.Some? then v.value else String(text)
  }

  ghost function WithParam(args: Args, header: string, text: string, parse: string -> Option<Value>): Args {
    var name := OrEmpty(Attr(header, "name"));
    if name == "" then args else args[name := ValueOf(header, text, parse)]
  }

  /** A parameter as it stands in the text, and what follows it. */
  datatype RawParam = RawParam(header: string, text: string, rest: string)

  ghost function NextParam(s: string): (r: Option<RawParam>)
    ensures r.Some? ==> |r.value.rest| < |s|
  {
    match FindFrom(s, PARAM_OPEN, 0)
    case None => None
    case Some(po) =>
      var after := s[po + |PARAM_OPEN|..];
      match FindFrom(after, ">", 0)
      case None => None
      case Some(gt) =>
        var value := UpTo(after[gt + 1..], PARAM_CLOSE);
        Some(RawParam(after[..gt], value.0, value.1))
  }

  ghost function ParamsIn(s: string, args: Args, parse: string -> Option<Value>): Args
    decreases |s|
  {
    match NextParam(s)
    case None => args
    case Some(p) => ParamsIn(p.rest, WithParam(args, p.header, p.text, parse), parse)
  }

  /** An invoke as it stands in the text: from its name on, up to its close, and what follows that. */
  datatype RawInvoke = RawInvoke(from: string, body: string, rest: string)

  ghost function NextInvoke(s: string): (r: Option<RawInvoke>)
    ensures r.Some? ==> |r.value.rest| < |s|
  {
    match FindFrom(s, INVOKE_OPEN, 0)
    case None => None
    case Some(inv) =>
      var from := s[inv + |INVOKE_OPEN|..];
      var body := UpTo(from, INVOKE_CLOSE);
      Some(RawInvoke(from, body.0, body.1))
  }

  /** The call an invoke says; one without a name is none. */
  ghost function CallIn(i: RawInvoke, parse: string -> Option<Value>, write: Args -> string): seq<Made> {
    var name := OrEmpty(Attr(UpTo(i.from, ">").0, "name"));
    if name == "" then [] else [Made(name, write(ParamsIn(i.body, map[], parse)))]
  }

  ghost function InvokesIn(s: string, parse: string -> Option<Value>, write: Args -> string): seq<Made>
    decreases |s|
  {
    match NextInvoke(s)
    case None => []
    case Some(i) => CallIn(i, parse, write) + InvokesIn(i.rest, parse, write)
  }

  ghost function Read(raw: string, parse: string -> Option<Value>, write: Args -> string): Parsed {
    match FindFrom(raw, CALLS_OPEN, 0)
    case None => Parsed(Trim(raw), [])
    case Some(open) =>
      var (body, after) := UpTo(raw[open + |CALLS_OPEN|..], CALLS_CLOSE);
      Parsed(Trim(raw[..open] + after), InvokesIn(body, parse, write))
  }

  method DsmlAttr(header: string, key: string) returns (r: Option<string>)
    ensures r == Attr(header, key)
  {
    var i := Find(header, key + "=\"", 0);
    if i.None? {
      return None;
    }
    var rest := header[i.value + |key| + 2..];
    var j := Find(rest, "\"", 0);
    if j.None? {
      return None;
    }
    return Some(rest[..j.value]);
  }

  method CutAt(s: string, tag: string) returns (before: string, after: string)
    ensures (before, after) == UpTo(s, tag)
  {
    var i := Find(s, tag, 0);
    if i.None? {
      return s, "";
    }
    return s[..i.value], s[i.value + |tag|..];
  }

  method TakeParam(args: Args, header: string, text: string, parse: string -> Option<Value>) returns (r: Args)
    ensures r == WithParam(args, header, text, parse)
  {
    var name := DsmlAttr(header, "name");
    var isString := DsmlAttr(header, "string");
    if OrEmpty(name) == "" {
      return args;
    }
    var v := String(text);
    if isString.Some? && isString.value != "true" {
      var parsed := parse(Trim(text));
      if parsed.Some? {
        v := parsed.value;
      }
    }
    return args[OrEmpty(name) := v];
  }

  method TakeRaw(s: string) returns (r: Option<RawParam>)
    ensures r == NextParam(s)
  {
    var po := Find(s, PARAM_OPEN, 0);
    if po.None? {
      return None;
    }
    var after := s[po.value + |PARAM_OPEN|..];
    var gt := Find(after, ">", 0);
    if gt.None? {
      return None;
    }
    var text, rest := CutAt(after[gt.value + 1..], PARAM_CLOSE);
    return Some(RawParam(after[..gt.value], text, rest));
  }

  method ParseParams(body: string, parse: string -> Option<Value>) returns (args: Args)
    ensures args == ParamsIn(body, map[], parse)
  {
    args := map[];
    var rest := body;
    while true
      invariant ParamsIn(rest, args, parse) == ParamsIn(body, map[], parse)
      decreases |rest|
    {
      var p := TakeRaw(rest);
      if p.None? {
        return;
      }
      args := TakeParam(args, p.value.header, p.value.text, parse);
      rest := p.value.rest;
    }
  }

  method TakeRawInvoke(s: string) returns (r: Option<RawInvoke>)
    ensures r == NextInvoke(s)
  {
    var inv := Find(s, INVOKE_OPEN, 0);
    if inv.None? {
      return None;
    }
    var from := s[inv.value + |INVOKE_OPEN|..];
    var body, rest := CutAt(from, INVOKE_CLOSE);
    return Some(RawInvoke(from, body, rest));
  }

  method TakeCall(i: RawInvoke, parse: string -> Option<Value>, write: Args -> string) returns (calls: seq<Made>)
    ensures calls == CallIn(i, parse, write)
  {
    var head, _ := CutAt(i.from, ">");
    var name := DsmlAttr(head, "name");
    var args := ParseParams(i.body, parse);
    calls := if OrEmpty(name) == "" then [] else [Made(OrEmpty(name), write(args))];
  }

  method ParseInvokes(body: string, parse: string -> Option<Value>, write: Args -> string) returns (calls: seq<Made>)
    ensures calls == InvokesIn(body, parse, write)
  {
    calls := [];
    var rest := body;
    ghost var left := InvokesIn(body, parse, write);
    while true
      invariant left == InvokesIn(rest, parse, write) && InvokesIn(body, parse, write) == calls + left
      decreases |rest|
    {
      var i := TakeRawInvoke(rest);
      if i.None? {
        return;
      }
      var found := TakeCall(i.value, parse, write);
      left := InvokesIn(i.value.rest, parse, write);
      Associates(calls, found, left);
      calls := calls + found;
      rest := i.value.rest;
    }
  }

  method ParseDsml(raw: string, parse: string -> Option<Value>, write: Args -> string) returns (r: Parsed)
    ensures r == Read(raw, parse, write)
  {
    var open := Find(raw, CALLS_OPEN, 0);
    if open.None? {
      return Parsed(Trim(raw), []);
    }
    var body, after := CutAt(raw[open.value + |CALLS_OPEN|..], CALLS_CLOSE);
    var calls := ParseInvokes(body, parse, write);
    return Parsed(Trim(raw[..open.value] + after), calls);
  }
}
