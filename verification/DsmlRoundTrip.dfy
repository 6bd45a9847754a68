/**
 Writing a turn's calls as a DSML block and reading the block gives the calls back, for any values that
 hold no closing tag of the block's own.
 */
module DsmlRoundTrip {
  import opened Text
  import opened Json
  import opened Dsml

  // ----- Tags in text -----

  /** A tag's first character does not come again in it. */
  predicate OpensOnce(tag: string) {
    tag != "" && forall i | 1 <= i < |tag| :: tag[i] != tag[0]
  }

  lemma TagsOpenOnce()
    ensures OpensOnce(CALLS_OPEN) && OpensOnce(CALLS_CLOSE) && OpensOnce(INVOKE_OPEN)
    ensures OpensOnce(INVOKE_CLOSE) && OpensOnce(PARAM_OPEN) && OpensOnce(PARAM_CLOSE)
    ensures OpensOnce("name=\"") && OpensOnce("string=\"") && OpensOnce("\"") && OpensOnce(">")
  {}

  ghost predicate Without(s: string, tag: string) {
    forall i: nat :: !At(s, i, tag)
  }

  /** The tag does not start in `s`, with `x` after it. */
  ghost predicate Free(s: string, tag: string, x: string) {
    forall i: nat | i < |s| :: !At(s + x, i, tag)
  }

  predicate NoChar(s: string, c: char) {
    forall i | 0 <= i < |s| :: s[i] != c
  }

  lemma NoCharIsFree(s: string, tag: string, x: string)
    requires tag != "" && NoChar(s, tag[0])
    ensures Free(s, tag, x)
  {
    forall i: nat | i < |s|
      ensures !At(s + x, i, tag)
    {
      if i + |tag| <= |s + x| {
        assert (s + x)[i..i + |tag|][0] == (s + x)[i] == s[i];
      }
    }
  }

  /** Text without the tag, before something that starts as a tag does. */
  lemma WithoutIsFree(s: string, tag: string, x: string)
    requires OpensOnce(tag) && Without(s, tag) && x != "" && x[0] == tag[0]
    ensures Free(s, tag, x)
  {
    forall i: nat | i < |s|
      ensures !At(s + x, i, tag)
    {
      if At(s + x, i, tag) {
        if i + |tag| <= |s| {
          AtInPrefix(s, x, i, tag);
        } else {
          assert (s + x)[|s|] == tag[0];
          AtChar(s + x, i, tag, |s| - i);
        }
      }
    }
  }

  lemma FreeAdds(a: string, b: string, tag: string, x: string)
    requires Free(a, tag, b + x) && Free(b, tag, x)
    ensures Free(a + b, tag, x)
  {
    Associates(a, b, x);
    forall i: nat | i < |a + b|
      ensures !At(a + b + x, i, tag)
    {
      if i >= |a| {
        AtShifts(a, b + x, i - |a|, tag);
      }
    }
  }

  /** The first tag after text that is free of it. */
  lemma FirstIs(s: string, tag: string, x: string)
    requires tag != "" && Free(s, tag, tag + x)
    ensures FindFrom(s + (tag + x), tag, 0) == Some(|s|)
    ensures UpTo(s + (tag + x), tag) == (s, x)
  {
    var all := s + (tag + x);
    FindFromIs(all, tag, 0);
    assert all[|s|..|s| + |tag|] == tag;
    assert At(all, |s|, tag);
    assert all[..|s|] == s && all[|s| + |tag|..] == x;
  }

  lemma NoneIs(s: string, tag: string)
    requires tag != "" && NoChar(s, tag[0])
    ensures FindFrom(s, tag, 0) == None
  {
    FindFromIs(s, tag, 0);
    match FindFrom(s, tag, 0)
    case None =>
    case Some(i) => AtChar(s, i, tag, 0);
  }

  /** A tag that another tag differs from does not start in it. */
  lemma TagIsFree(t: string, tag: string, x: string, p: nat)
    requires OpensOnce(t) && tag != "" && t[0] == tag[0] && p < |t| && p < |tag| && t[p] != tag[p]
    ensures Free(t, tag, x)
  {
    forall i: nat | i < |t|
      ensures !At(t + x, i, tag)
    {
      if At(t + x, i, tag) {
        AtChar(t + x, i, tag, if i == 0 then p else 0);
      }
    }
  }

  // ----- What the round trip is about -----

  /** A name that can stand in a tag's header. */
  predicate PlainName(name: string) {
    name != "" && NoChar(name, '"') && NoChar(name, '<') && NoChar(name, '>') && NoChar(name, '=')
  }

  /** A value that holds none of the block's closing tags, and that the JSON parser reads back if it is
      written as JSON. */
  ghost predicate WritableValue(v: Value, parse: string -> Option<Value>) {
    && Without(ValueText(v), CALLS_CLOSE) && Without(ValueText(v), INVOKE_CLOSE) && Without(ValueText(v), PARAM_CLOSE)
    && (!v.String? ==> WellFormed(v) && parse(Print(v)) == Some(v))
  }

  ghost predicate WritableEntry(e: Entry, parse: string -> Option<Value>) {
    PlainName(e.key) && WritableValue(e.value, parse)
  }

  ghost predicate WritableCall(c: Call, parse: string -> Option<Value>) {
    PlainName(c.name) && forall i | 0 <= i < |c.arguments| :: WritableEntry(c.arguments[i], parse)
  }

  function Insert(args: Args, entries: seq<Entry>): Args
    decreases |entries|
  {
    if entries == [] then args else Insert(args[entries[0].key := entries[0].value], entries[1..])
  }

  function Expected(calls: seq<Call>, write: Args -> string): seq<Made> {
    if calls == [] then [] else [Made(calls[0].name, write(Insert(map[], calls[0].arguments)))] + Expected(calls[1..], write)
  }

  // ----- A header -----

  lemma NameIsRead(name: string, more: string)
    requires PlainName(name)
    ensures Attr(" " + Attribute("name", name) + more, "name") == Some(name)
  {
    var pat, rest := "name" + "=\"", name + ("\"" + more);
    var header := " " + Attribute("name", name) + more;
    assert header == " " + (pat + rest);
    TagsOpenOnce();
    assert pat == "name=\"";
    NoCharIsFree(" ", pat, pat + rest);
    FirstIs(" ", pat, rest);
    assert header[1 + |pat|..] == rest;
    NoCharIsFree(name, "\"", "\"" + more);
    FirstIs(name, "\"", more);
    assert rest[..|name|] == name;
  }

  lemma NoStringAttribute(key: string)
    requires PlainName(key)
    ensures Without(" " + Attribute("name", key) + " ", "string=\"")
  {
    var pre, pat := " " + Attribute("name", key) + " ", "string=\"";
    forall i: nat
      ensures !At(pre, i, pat)
    {
      if At(pre, i, pat) {
        assert pre == " name=\"" + key + "\" ";
        assert pat[6] == '=';
        AtChar(pre, i, pat, 6);
      }
    }
  }

  lemma KindIsRead(key: string, kind: string)
    requires PlainName(key) && NoChar(kind, '"')
    ensures Attr(" " + Attribute("name", key) + " " + Attribute("string", kind), "string") == Some(kind)
  {
    var pre, pat, rest := " " + Attribute("name", key) + " ", "string" + "=\"", kind + ("\"" + "");
    var header := pre + Attribute("string", kind);
    assert pat == "string=\"";
    assert header == pre + (pat + rest);
    TagsOpenOnce();
    NoStringAttribute(key);
    WithoutIsFree(pre, pat, pat + rest);
    FirstIs(pre, pat, rest);
    assert header[|pre| + |pat|..] == rest;
    NoCharIsFree(kind, "\"", "\"" + "");
    FirstIs(kind, "\"", "");
    assert rest[..|kind|] == kind;
  }

  // ----- A value -----

  lemma PrintIsTrim(v: Value)
    requires WellFormed(v)
    ensures Trim(Print(v)) == Print(v)
  {
    PrintHasEnds(v);
  }

  lemma PrintHasEnds(v: Value)
    requires WellFormed(v)
    ensures Print(v) != "" && !IsSpace(Print(v)[0]) && !IsSpace(Print(v)[|Print(v)| - 1])
  {
    match v
    case Number(digits) =>
      assert digits[0] in digits && digits[|digits| - 1] in digits;
    case _ =>
  }

  // ----- A parameter -----

  lemma NoCharAdds(a: string, b: string, c: char)
    requires NoChar(a, c) && NoChar(b, c)
    ensures NoChar(a + b, c)
  {}

  function KindText(v: Value): string { if v.String? then "true" else "false" }

  lemma HeaderIsPlain(e: Entry, c: char)
    requires PlainName(e.key) && (c == '<' || c == '>')
    ensures NoChar(ParamHeader(e), c)
  {
    var a, b := "name" + "=\"", "string" + "=\"";
    NoCharAdds(a, e.key, c);
    NoCharAdds(a + e.key, "\"", c);
    NoCharAdds(b, KindText(e.value), c);
    NoCharAdds(b + KindText(e.value), "\"", c);
    NoCharAdds(" ", Attribute("name", e.key), c);
    NoCharAdds(" " + Attribute("name", e.key), " ", c);
    NoCharAdds(" " + Attribute("name", e.key) + " ", Attribute("string", KindText(e.value)), c);
  }

  lemma ParamHeaderIsRead(e: Entry)
    requires PlainName(e.key)
    ensures Attr(ParamHeader(e), "name") == Some(e.key)
    ensures Attr(ParamHeader(e), "string") == Some(KindText(e.value))
  {
    var kind := KindText(e.value);
    Associates(" " + Attribute("name", e.key), " ", Attribute("string", kind));
    NameIsRead(e.key, " " + Attribute("string", kind));
    KindIsRead(e.key, kind);
  }

  lemma ValueIsRead(e: Entry, args: Args, parse: string -> Option<Value>)
    requires WritableEntry(e, parse)
    ensures WithParam(args, ParamHeader(e), ValueText(e.value), parse) == args[e.key := e.value]
  {
    ParamHeaderIsRead(e);
    assert "true" != "false" by { assert "true"[0] != "false"[0]; }
    if !e.value.String? {
      PrintIsTrim(e.value);
    }
  }

  /** Text, a tag, and the rest: where the tag is found and what follows it. */
  lemma FoundAfter(lead: string, tag: string, x: string)
    requires tag != "" && Free(lead, tag, tag + x)
    ensures FindFrom(lead + (tag + x), tag, 0) == Some(|lead|)
    ensures (lead + (tag + x))[..|lead|] == lead && (lead + (tag + x))[|lead| + |tag|..] == x
  {
    FirstIs(lead, tag, x);
  }

  /** A tag after text without its first character is found right there. */
  lemma CharThenTag(lead: string, tag: string, x: string)
    requires tag != "" && NoChar(lead, tag[0])
    ensures FindFrom(lead + (tag + x), tag, 0) == Some(|lead|)
    ensures (lead + (tag + x))[..|lead|] == lead && (lead + (tag + x))[|lead| + |tag|..] == x
  {
    NoCharIsFree(lead, tag, tag + x);
    FoundAfter(lead, tag, x);
  }

  lemma ParamAt(lead: string, header: string, text: string, tail: string)
    requires NoChar(lead, '<') && NoChar(header, '>') && Without(text, PARAM_CLOSE)
    ensures NextParam(lead + (PARAM_OPEN + (header + (">" + (text + (PARAM_CLOSE + tail)))))) == Some(RawParam(header, text, tail))
  {
    var value := text + (PARAM_CLOSE + tail);
    TagsOpenOnce();
    CharThenTag(lead, PARAM_OPEN, header + (">" + value));
    CharThenTag(header, ">", value);
    WithoutIsFree(text, PARAM_CLOSE, PARAM_CLOSE + tail);
    FirstIs(text, PARAM_CLOSE, tail);
  }

  lemma NoParam(s: string)
    requires NoChar(s, '<')
    ensures NextParam(s) == None
  {
    NoneIs(s, PARAM_OPEN);
  }

  /** A value is read whole if and only if it does not hold its own closing tag. */
  lemma ValueIsWholeIff(text: string, tail: string)
    ensures UpTo(text + (PARAM_CLOSE + tail), PARAM_CLOSE).0 == text <==> Without(text, PARAM_CLOSE)
  {
    var s := text + (PARAM_CLOSE + tail);
    if Without(text, PARAM_CLOSE) {
      TagsOpenOnce();
      WithoutIsFree(text, PARAM_CLOSE, PARAM_CLOSE + tail);
      FirstIs(text, PARAM_CLOSE, tail);
    } else {
      var i: nat :| At(text, i, PARAM_CLOSE);
      AtStays(text, PARAM_CLOSE + tail, i, PARAM_CLOSE);
      FindFromIs(s, PARAM_CLOSE, 0);
      assert |PARAM_CLOSE| > 0;
    }
  }

  lemma ParamIsRead(lead: string, e: Entry, tail: string, args: Args, parse: string -> Option<Value>)
    requires NoChar(lead, '<') && WritableEntry(e, parse)
    ensures ParamsIn(lead + (Param(e) + tail), args, parse) == ParamsIn(tail, args[e.key := e.value], parse)
  {
    ParamParts(e, tail);
    HeaderIsPlain(e, '>');
    ParamAt(lead, ParamHeader(e), ValueText(e.value), tail);
    ValueIsRead(e, args, parse);
  }

  lemma ParamParts(e: Entry, tail: string)
    ensures Param(e) + tail == PARAM_OPEN + (ParamHeader(e) + (">" + (ValueText(e.value) + (PARAM_CLOSE + tail))))
  {
    var h, v := ParamHeader(e), ValueText(e.value);
    Associates(v, PARAM_CLOSE, tail);
    Associates(">", v + PARAM_CLOSE, tail);
    Associates(h, ">" + (v + PARAM_CLOSE), tail);
    Associates(PARAM_OPEN, h + (">" + (v + PARAM_CLOSE)), tail);
  }

  // ----- The parameters of a call -----

  /** The parameters with a newline between each and the next. */
  function Joined(entries: seq<Entry>): string {
    if entries == [] then ""
    else if |entries| == 1 then Param(entries[0])
    else Param(entries[0]) + ("\n" + Joined(entries[1..]))
  }

  lemma {:induction false} LinesAreJoined(entries: seq<Entry>)
    requires entries != []
    ensures ParamLines(entries) == Joined(entries) + "\n"
    ensures Joined(entries) != "" && Joined(entries)[|Joined(entries)| - 1] == '>'
    decreases |entries|
  {
    var p := Param(entries[0]);
    ParamParts(entries[0], "");
    assert p + "" == p && PARAM_CLOSE + "" == PARAM_CLOSE;
    assert p[|p| - 1] == '>' by { ParamEnds(entries[0]); }
    if |entries| == 1 {
      assert ParamLines(entries[1..]) == "";
      assert "\n" + "" == "\n";
    } else {
      LinesAreJoined(entries[1..]);
      Associates("\n", Joined(entries[1..]), "\n");
      Associates(p, "\n" + Joined(entries[1..]), "\n");
    }
  }

  lemma ParamEnds(e: Entry)
    ensures Param(e) != "" && Param(e)[|Param(e)| - 1] == '>'
  {
    assert PARAM_CLOSE[|PARAM_CLOSE| - 1] == '>';
    var a := ValueText(e.value) + PARAM_CLOSE;
    assert a[|a| - 1] == '>';
    var b := ParamHeader(e) + (">" + a);
    assert b[|b| - 1] == '>';
  }

  lemma TrimOneNewline(s: string)
    requires s != "" && s[|s| - 1] != '\n'
    ensures TrimNewlines(s + "\n") == s
  {
    var t := s + "\n";
    assert t[|t| - 1] == '\n' && t[..|t| - 1] == s;
  }

  lemma TrimmedLines(entries: seq<Entry>)
    ensures TrimNewlines(ParamLines(entries)) == Joined(entries)
  {
    if entries != [] {
      LinesAreJoined(entries);
      TrimOneNewline(Joined(entries));
    }
  }

  lemma {:induction false} ParamsAreRead(lead: string, entries: seq<Entry>, tail: string, args: Args, parse: string -> Option<Value>)
    requires NoChar(lead, '<') && NoChar(tail, '<')
    requires forall i | 0 <= i < |entries| :: WritableEntry(entries[i], parse)
    ensures ParamsIn(lead + (Joined(entries) + tail), args, parse) == Insert(args, entries)
    decreases |entries|
  {
    if entries == [] {
      assert NoChar(lead + ("" + tail), '<');
      NoParam(lead + ("" + tail));
    } else {
      var e, rest := entries[0], entries[1..];
      assert forall i | 0 <= i < |rest| :: rest[i] == entries[i + 1];
      if rest == [] {
        ParamIsRead(lead, e, tail, args, parse);
        NoParam(tail);
        assert Insert(args[e.key := e.value], []) == args[e.key := e.value];
      } else {
        Associates("\n", Joined(rest), tail);
        Associates(Param(e), "\n" + Joined(rest), tail);
        ParamIsRead(lead, e, "\n" + (Joined(rest) + tail), args, parse);
        ParamsAreRead("\n", rest, tail, args[e.key := e.value], parse);
      }
    }
  }

  // ----- A call -----

  lemma ParamIsFree(e: Entry, tag: string, x: string, parse: string -> Option<Value>)
    requires WritableEntry(e, parse) && (tag == CALLS_CLOSE || tag == INVOKE_CLOSE)
    ensures Free(Param(e), tag, x)
  {
    var h, v := ParamHeader(e), ValueText(e.value);
    TagsOpenOnce();
    ClosersDiffer();
    HeaderIsPlain(e, '<');
    TagIsFree(PARAM_CLOSE, tag, x, 9);
    WithoutIsFree(v, tag, PARAM_CLOSE + x);
    FreeAdds(v, PARAM_CLOSE, tag, x);
    NoCharIsFree(">", tag, v + PARAM_CLOSE + x);
    FreeAdds(">", v + PARAM_CLOSE, tag, x);
    NoCharIsFree(h, tag, ">" + (v + PARAM_CLOSE) + x);
    FreeAdds(h, ">" + (v + PARAM_CLOSE), tag, x);
    TagIsFree(PARAM_OPEN, tag, h + (">" + (v + PARAM_CLOSE)) + x, 1);
    FreeAdds(PARAM_OPEN, h + (">" + (v + PARAM_CLOSE)), tag, x);
  }

  /** Where the tags part. */
  lemma ClosersDiffer()
    ensures PARAM_CLOSE[9] == 'p' && CALLS_CLOSE[9] == 'c' && INVOKE_CLOSE[9] == 'i'
    ensures CALLS_CLOSE[1] == '/' && INVOKE_CLOSE[1] == '/' && PARAM_OPEN[1] != '/' && INVOKE_OPEN[1] != '/'
  {}

  lemma {:induction false} ParamsAreFree(entries: seq<Entry>, tag: string, x: string, parse: string -> Option<Value>)
    requires forall i | 0 <= i < |entries| :: WritableEntry(entries[i], parse)
    requires tag == CALLS_CLOSE || tag == INVOKE_CLOSE
    ensures Free(Joined(entries), tag, x)
    decreases |entries|
  {
    if entries != [] {
      var rest := entries[1..];
      assert forall i | 0 <= i < |rest| :: rest[i] == entries[i + 1];
      if rest == [] {
        ParamIsFree(entries[0], tag, x, parse);
      } else {
        ParamsAreFree(rest, tag, x, parse);
        NoCharIsFree("\n", tag, Joined(rest) + x);
        FreeAdds("\n", Joined(rest), tag, x);
        ParamIsFree(entries[0], tag, "\n" + Joined(rest) + x, parse);
        FreeAdds(Param(entries[0]), "\n" + Joined(rest), tag, x);
      }
    }
  }

  function InvokeHeader(c: Call): string { " " + Attribute("name", c.name) }

  /** What stands between an invoke's opening and its close. */
  function InvokeBody(c: Call): string {
    InvokeHeader(c) + (">" + ("\n" + (Joined(c.arguments) + "\n")))
  }

  lemma InvokeIs(c: Call)
    ensures Invoke(c) == INVOKE_OPEN + (InvokeBody(c) + INVOKE_CLOSE)
  {
    var p := Joined(c.arguments);
    TrimmedLines(c.arguments);
    Associates("\n", p, "\n");
    Associates(">", "\n" + p + "\n", INVOKE_CLOSE);
    Associates(InvokeHeader(c), ">" + ("\n" + p + "\n"), INVOKE_CLOSE);
  }

  lemma InvokeHeaderIsPlain(c: Call, ch: char)
    requires PlainName(c.name) && (ch == '<' || ch == '>')
    ensures NoChar(InvokeHeader(c), ch)
  {
    var a := "name" + "=\"";
    NoCharAdds(a, c.name, ch);
    NoCharAdds(a + c.name, "\"", ch);
    NoCharAdds(" ", Attribute("name", c.name), ch);
  }

  lemma BodyIsFree(c: Call, tag: string, x: string, parse: string -> Option<Value>)
    requires WritableCall(c, parse) && (tag == CALLS_CLOSE || tag == INVOKE_CLOSE)
    ensures Free(InvokeBody(c), tag, x)
  {
    var p, h := Joined(c.arguments), InvokeHeader(c);
    NoCharIsFree("\n", tag, x);
    ParamsAreFree(c.arguments, tag, "\n" + x, parse);
    FreeAdds(p, "\n", tag, x);
    NoCharIsFree("\n", tag, p + "\n" + x);
    FreeAdds("\n", p + "\n", tag, x);
    NoCharIsFree(">", tag, "\n" + (p + "\n") + x);
    FreeAdds(">", "\n" + (p + "\n"), tag, x);
    InvokeHeaderIsPlain(c, '<');
    NoCharIsFree(h, tag, ">" + ("\n" + (p + "\n")) + x);
    FreeAdds(h, ">" + ("\n" + (p + "\n")), tag, x);
  }

  lemma BodyIsRead(c: Call, parse: string -> Option<Value>)
    requires WritableCall(c, parse)
    ensures ParamsIn(InvokeBody(c), map[], parse) == Insert(map[], c.arguments)
  {
    var lead, p := InvokeHeader(c) + ">" + "\n", Joined(c.arguments);
    InvokeHeaderIsPlain(c, '<');
    NoCharAdds(InvokeHeader(c), ">", '<');
    NoCharAdds(InvokeHeader(c) + ">", "\n", '<');
    Associates(InvokeHeader(c) + ">", "\n", p + "\n");
    Associates(InvokeHeader(c), ">", "\n" + (p + "\n"));
    ParamsAreRead(lead, c.arguments, "\n", map[], parse);
  }

  lemma CallIsRead(c: Call, tail: string, rest: string, parse: string -> Option<Value>, write: Args -> string)
    requires WritableCall(c, parse)
    ensures CallIn(RawInvoke(InvokeBody(c) + tail, InvokeBody(c), rest), parse, write) == [Made(c.name, write(Insert(map[], c.arguments)))]
  {
    var h, more := InvokeHeader(c), "\n" + (Joined(c.arguments) + "\n");
    BodyIsRead(c, parse);
    Associates(">", more, tail);
    Associates(h, ">" + more, tail);
    InvokeHeaderIsPlain(c, '>');
    NoCharIsFree(h, ">", ">" + (more + tail));
    FirstIs(h, ">", more + tail);
    NameIsRead(c.name, "");
    assert h + "" == h;
  }

  lemma InvokeAt(lead: string, c: Call, tail: string, parse: string -> Option<Value>)
    requires NoChar(lead, '<') && WritableCall(c, parse)
    ensures NextInvoke(lead + (Invoke(c) + tail)) == Some(RawInvoke(InvokeBody(c) + (INVOKE_CLOSE + tail), InvokeBody(c), tail))
  {
    var from := InvokeBody(c) + (INVOKE_CLOSE + tail);
    InvokeIs(c);
    Associates(InvokeBody(c), INVOKE_CLOSE, tail);
    Associates(INVOKE_OPEN, InvokeBody(c) + INVOKE_CLOSE, tail);
    TagsOpenOnce();
    NoCharIsFree(lead, INVOKE_OPEN, INVOKE_OPEN + from);
    FoundAfter(lead, INVOKE_OPEN, from);
    BodyIsFree(c, INVOKE_CLOSE, INVOKE_CLOSE + tail, parse);
    FirstIs(InvokeBody(c), INVOKE_CLOSE, tail);
  }

  lemma InvokeIsRead(lead: string, c: Call, tail: string, parse: string -> Option<Value>, write: Args -> string)
    requires NoChar(lead, '<') && WritableCall(c, parse)
    ensures InvokesIn(lead + (Invoke(c) + tail), parse, write) == [Made(c.name, write(Insert(map[], c.arguments)))] + InvokesIn(tail, parse, write)
  {
    InvokeAt(lead, c, tail, parse);
    CallIsRead(c, INVOKE_CLOSE + tail, tail, parse, write);
  }

  // ----- The block -----

  lemma {:induction false} InvokesAreRead(lead: string, calls: seq<Call>, parse: string -> Option<Value>, write: Args -> string)
    requires NoChar(lead, '<') && forall i | 0 <= i < |calls| :: WritableCall(calls[i], parse)
    ensures InvokesIn(lead + InvokeLines(calls), parse, write) == Expected(calls, write)
    decreases |calls|
  {
    if calls == [] {
      assert lead + "" == lead;
      NoInvokes(lead, parse, write);
    } else {
      var rest := calls[1..];
      assert forall i | 0 <= i < |rest| :: rest[i] == calls[i + 1];
      InvokeIsRead(lead, calls[0], "\n" + InvokeLines(rest), parse, write);
      InvokesAreRead("\n", rest, parse, write);
    }
  }

  lemma InvokeIsFree(c: Call, x: string, parse: string -> Option<Value>)
    requires WritableCall(c, parse)
    ensures Free(Invoke(c), CALLS_CLOSE, x)
  {
    InvokeIs(c);
    TagsOpenOnce();
    ClosersDiffer();
    TagIsFree(INVOKE_CLOSE, CALLS_CLOSE, x, 9);
    BodyIsFree(c, CALLS_CLOSE, INVOKE_CLOSE + x, parse);
    FreeAdds(InvokeBody(c), INVOKE_CLOSE, CALLS_CLOSE, x);
    TagIsFree(INVOKE_OPEN, CALLS_CLOSE, InvokeBody(c) + INVOKE_CLOSE + x, 1);
    FreeAdds(INVOKE_OPEN, InvokeBody(c) + INVOKE_CLOSE, CALLS_CLOSE, x);
  }

  lemma {:induction false} InvokesAreFree(calls: seq<Call>, x: string, parse: string -> Option<Value>)
    requires forall i | 0 <= i < |calls| :: WritableCall(calls[i], parse)
    ensures Free(InvokeLines(calls), CALLS_CLOSE, x)
    decreases |calls|
  {
    if calls != [] {
      var rest := calls[1..];
      assert forall i | 0 <= i < |rest| :: rest[i] == calls[i + 1];
      InvokesAreFree(rest, x, parse);
      NoCharIsFree("\n", CALLS_CLOSE, InvokeLines(rest) + x);
      FreeAdds("\n", InvokeLines(rest), CALLS_CLOSE, x);
      InvokeIsFree(calls[0], "\n" + InvokeLines(rest) + x, parse);
      FreeAdds(Invoke(calls[0]), "\n" + InvokeLines(rest), CALLS_CLOSE, x);
    }
  }

  function Lines(calls: seq<Call>): string {
    "\n" + if calls == [] then "\n" else InvokeLines(calls)
  }

  lemma NoInvokes(s: string, parse: string -> Option<Value>, write: Args -> string)
    requires NoChar(s, '<')
    ensures InvokesIn(s, parse, write) == []
  {
    NoneIs(s, INVOKE_OPEN);
  }

  lemma LinesAreRead(calls: seq<Call>, s: string, parse: string -> Option<Value>, write: Args -> string)
    requires s == Lines(calls) && forall i | 0 <= i < |calls| :: WritableCall(calls[i], parse)
    ensures InvokesIn(s, parse, write) == Expected(calls, write)
  {
    if calls == [] {
      NoLines(calls, write);
      NoInvokes(s, parse, write);
    } else {
      InvokesAreRead("\n", calls, parse, write);
    }
  }

  lemma NoLines(calls: seq<Call>, write: Args -> string)
    requires calls == []
    ensures NoChar(Lines(calls), '<') && Expected(calls, write) == []
  {}

  lemma LinesAreFree(calls: seq<Call>, x: string, parse: string -> Option<Value>)
    requires forall i | 0 <= i < |calls| :: WritableCall(calls[i], parse)
    ensures Free(Lines(calls), CALLS_CLOSE, x)
  {
    if calls == [] {
      assert Lines(calls) == "\n\n";
      NoCharIsFree("\n\n", CALLS_CLOSE, x);
    } else {
      InvokesAreFree(calls, x, parse);
      NoCharIsFree("\n", CALLS_CLOSE, InvokeLines(calls) + x);
      FreeAdds("\n", InvokeLines(calls), CALLS_CLOSE, x);
    }
  }

  lemma BlockIs(calls: seq<Call>, after: string)
    ensures Block(calls) + after == CALLS_OPEN + (Lines(calls) + (CALLS_CLOSE + after))
  {
    Associates(Lines(calls), CALLS_CLOSE, after);
    Associates(CALLS_OPEN, Lines(calls) + CALLS_CLOSE, after);
  }

  /** A turn's calls written as a block, within prose that opens no block before it, are read back: the
      same names in the same order, each with the arguments it was given, and the prose as content. */
  lemma RoundTrip(before: string, calls: seq<Call>, after: string, parse: string -> Option<Value>, write: Args -> string)
    requires Without(before, CALLS_OPEN) && forall i | 0 <= i < |calls| :: WritableCall(calls[i], parse)
    ensures Read(before + (Block(calls) + after), parse, write) == Parsed(Trim(before + after), Expected(calls, write))
  {
    var rest := Lines(calls) + (CALLS_CLOSE + after);
    BlockIs(calls, after);
    TagsOpenOnce();
    WithoutIsFree(before, CALLS_OPEN, CALLS_OPEN + rest);
    FoundAfter(before, CALLS_OPEN, rest);
    LinesAreRead(calls, Lines(calls), parse, write);
    LinesAreFree(calls, CALLS_CLOSE + after, parse);
    FirstIs(Lines(calls), CALLS_CLOSE, after);
  }

  // ----- Where the end is missing, or the kind -----

  lemma FreeIsNone(s: string, tag: string)
    requires tag != "" && Free(s, tag, "")
    ensures FindFrom(s, tag, 0) == None && UpTo(s, tag) == (s, "")
  {
    FindFromIs(s, tag, 0);
    assert s + "" == s;
  }

  /** An invoke without its close, at the end of the text. */
  lemma UnclosedInvokeIsRead(lead: string, c: Call, parse: string -> Option<Value>, write: Args -> string)
    requires NoChar(lead, '<') && WritableCall(c, parse)
    ensures InvokesIn(lead + (INVOKE_OPEN + InvokeBody(c)), parse, write) == [Made(c.name, write(Insert(map[], c.arguments)))]
  {
    var from := InvokeBody(c);
    TagsOpenOnce();
    NoCharIsFree(lead, INVOKE_OPEN, INVOKE_OPEN + from);
    FoundAfter(lead, INVOKE_OPEN, from);
    BodyIsFree(c, INVOKE_CLOSE, "", parse);
    FreeIsNone(from, INVOKE_CLOSE);
    assert from + "" == from;
    CallIsRead(c, "", "", parse, write);
    NoInvokes("", parse, write);
    var made := [Made(c.name, write(Insert(map[], c.arguments)))];
    assert made + [] == made;
  }

  lemma {:induction false} InvokesThenUnclosed(lead: string, calls: seq<Call>, last: Call, parse: string -> Option<Value>,
                                               write: Args -> string)
    requires NoChar(lead, '<') && WritableCall(last, parse) && forall i | 0 <= i < |calls| :: WritableCall(calls[i], parse)
    ensures InvokesIn(lead + (InvokeLines(calls) + (INVOKE_OPEN + InvokeBody(last))), parse, write) ==
            Expected(calls, write) + [Made(last.name, write(Insert(map[], last.arguments)))]
    decreases |calls|
  {
    var end := INVOKE_OPEN + InvokeBody(last);
    var made := [Made(last.name, write(Insert(map[], last.arguments)))];
    if calls == [] {
      UnclosedInvokeIsRead(lead, last, parse, write);
      assert "" + end == end && [] + made == made;
    } else {
      var rest := calls[1..];
      assert forall i | 0 <= i < |rest| :: rest[i] == calls[i + 1];
      InvokesThenUnclosed("\n", rest, last, parse, write);
      InvokeIsRead(lead, calls[0], "\n" + (InvokeLines(rest) + end), parse, write);
      LinesThen(Invoke(calls[0]), InvokeLines(rest), end);
      Associates([Made(calls[0].name, write(Insert(map[], calls[0].arguments)))], Expected(rest, write), made);
    }
  }

  lemma LinesThen(first: string, lines: string, end: string)
    ensures first + ("\n" + lines) + end == first + ("\n" + (lines + end))
  {}

  lemma OpenedIsFree(last: Call, parse: string -> Option<Value>)
    requires WritableCall(last, parse)
    ensures Free(INVOKE_OPEN + InvokeBody(last), CALLS_CLOSE, "")
  {
    var body := InvokeBody(last);
    TagsOpenOnce();
    ClosersDiffer();
    BodyIsFree(last, CALLS_CLOSE, "", parse);
    TagIsFree(INVOKE_OPEN, CALLS_CLOSE, body + "", 1);
    FreeAdds(INVOKE_OPEN, body, CALLS_CLOSE, "");
  }

  lemma FreeAfterLines(lines: string, end: string)
    requires Free(end, CALLS_CLOSE, "") && Free(lines, CALLS_CLOSE, end)
    ensures Free("\n" + (lines + end), CALLS_CLOSE, "")
  {
    TagsOpenOnce();
    assert end + "" == end;
    FreeAdds(lines, end, CALLS_CLOSE, "");
    NoCharIsFree("\n", CALLS_CLOSE, lines + end + "");
    FreeAdds("\n", lines + end, CALLS_CLOSE, "");
  }

  lemma LinesBefore(calls: seq<Call>, end: string, parse: string -> Option<Value>)
    requires Free(end, CALLS_CLOSE, "") && forall i | 0 <= i < |calls| :: WritableCall(calls[i], parse)
    ensures Free("\n" + (InvokeLines(calls) + end), CALLS_CLOSE, "")
  {
    InvokesAreFree(calls, end, parse);
    FreeAfterLines(InvokeLines(calls), end);
  }

  lemma UnclosedIsFree(calls: seq<Call>, last: Call, parse: string -> Option<Value>)
    requires WritableCall(last, parse) && forall i | 0 <= i < |calls| :: WritableCall(calls[i], parse)
    ensures Free("\n" + (InvokeLines(calls) + (INVOKE_OPEN + InvokeBody(last))), CALLS_CLOSE, "")
  {
    OpenedIsFree(last, parse);
    LinesBefore(calls, INVOKE_OPEN + InvokeBody(last), parse);
  }

  lemma UnclosedBlock(before: string, body: string, parse: string -> Option<Value>, write: Args -> string)
    requires Without(before, CALLS_OPEN) && Free(body, CALLS_CLOSE, "")
    ensures Read(before + (CALLS_OPEN + body), parse, write) == Parsed(Trim(before), InvokesIn(body, parse, write))
  {
    TagsOpenOnce();
    WithoutIsFree(before, CALLS_OPEN, CALLS_OPEN + body);
    FoundAfter(before, CALLS_OPEN, body);
    FreeIsNone(body, CALLS_CLOSE);
    assert before + "" == before;
  }

  /** A block that ends with the text, its last call and the block itself unclosed: every call is read, the
      last one too. */
  lemma UnclosedIsRead(before: string, calls: seq<Call>, last: Call, parse: string -> Option<Value>, write: Args -> string)
    requires Without(before, CALLS_OPEN) && WritableCall(last, parse)
    requires forall i | 0 <= i < |calls| :: WritableCall(calls[i], parse)
    ensures Read(before + (CALLS_OPEN + ("\n" + (InvokeLines(calls) + (INVOKE_OPEN + InvokeBody(last))))), parse, write) ==
            Parsed(Trim(before), Expected(calls, write) + [Made(last.name, write(Insert(map[], last.arguments)))])
  {
    UnclosedIsFree(calls, last, parse);
    InvokesThenUnclosed("\n", calls, last, parse, write);
    UnclosedBlock(before, "\n" + (InvokeLines(calls) + (INVOKE_OPEN + InvokeBody(last))), parse, write);
  }

  /** A value that breaks off with the text is read as far as it goes. */
  lemma UnclosedValueIsRead(lead: string, header: string, text: string)
    requires NoChar(lead, '<') && NoChar(header, '>') && Without(text, PARAM_CLOSE)
    ensures NextParam(lead + (PARAM_OPEN + (header + (">" + text)))) == Some(RawParam(header, text, ""))
  {
    TagsOpenOnce();
    CharThenTag(lead, PARAM_OPEN, header + (">" + text));
    CharThenTag(header, ">", text);
    assert text + "" == text;
    FreeIsNone(text, PARAM_CLOSE);
  }

  /** A parameter that does not say its kind is a string. */
  lemma KindlessIsString(key: string, text: string, args: Args, parse: string -> Option<Value>)
    requires PlainName(key)
    ensures WithParam(args, " " + Attribute("name", key), text, parse) == args[key := String(text)]
  {
    NameIsRead(key, "");
    var header := " " + Attribute("name", key);
    assert header + "" == header;
    NoStringAttribute(key);
    NoKind(header);
  }

  lemma NoKind(header: string)
    requires Without(header + " ", "string=\"")
    ensures Attr(header, "string") == None
  {
    assert "string" + "=\"" == "string=\"";
    FindFromIs(header, "string=\"", 0);
    if FindFrom(header, "string=\"", 0).Some? {
      var i := FindFrom(header, "string=\"", 0).value;
      AtStays(header, " ", i, "string=\"");
    }
  }

  lemma HeaderText(key: string)
    ensures ParamHeader(Entry(key, Null)) == " name=\"" + key + "\" string=\"false\""
  {}

  lemma NotTrue(header: string, key: string, text: string, args: Args, parse: string -> Option<Value>)
    requires Attr(header, "name") == Some(key) && key != "" && Attr(header, "string") == Some("false")
    ensures WithParam(args, header, text, parse) ==
            args[key := if parse(Trim(text)).Some? then parse(Trim(text)).value else String(text)]
  {
    assert "true"[0] != "false"[0];
  }

  /** One that says it is none, but is no JSON, is a string all the same. */
  lemma NoJsonIsString(key: string, text: string, args: Args, parse: string -> Option<Value>)
    requires PlainName(key) && parse(Trim(text)) == None
    ensures WithParam(args, " name=\"" + key + "\" string=\"false\"", text, parse) == args[key := String(text)]
  {
    var e := Entry(key, Null);
    ParamHeaderIsRead(e);
    HeaderText(key);
    NotTrue(ParamHeader(e), key, text, args, parse);
  }

  /** What arguments come back as: those of the object the text spells, none if it spells none. */
  function Spelled(text: string, ordered: string -> Option<seq<Entry>>): Args {
    match ordered(text) case Some(entries) => Insert(map[], entries) case None => map[]
  }

  /** What a turn's calls come back as: each under its function's name. Missing arguments are those of an
      empty object. */
  function CameBack(turn: seq<Option<Function>>, ordered: string -> Option<seq<Entry>>, write: Args -> string): seq<Made> {
    if turn == [] then []
    else
      (match turn[0]
       case None => []
       case Some(Function(name, None)) => [Made(name, write(Spelled("{}", ordered)))]
       case Some(Function(name, Some(text))) => [Made(name, write(Spelled(text, ordered)))])
      + CameBack(turn[1..], ordered, write)
  }

  /** A function that can be written: its name is plain, and so is every argument its text spells. */
  ghost predicate WritableFunction(f: Function, parse: string -> Option<Value>, ordered: string -> Option<seq<Entry>>) {
    && PlainName(f.name)
    && match ordered(if f.arguments.None? then "{}" else f.arguments.value)
       case None => true
       case Some(entries) => forall i | 0 <= i < |entries| :: WritableEntry(entries[i], parse)
  }

  lemma OneIsWritable(f: Function, parse: string -> Option<Value>, ordered: string -> Option<seq<Entry>>)
    requires WritableFunction(f, parse, ordered)
    ensures WritableCall(CallOf(f, ordered), parse)
  {}

  lemma {:induction false} TurnIsWritable(turn: seq<Option<Function>>, parse: string -> Option<Value>,
                                          ordered: string -> Option<seq<Entry>>)
    requires forall i | 0 <= i < |turn| && turn[i].Some? :: WritableFunction(turn[i].value, parse, ordered)
    ensures forall i | 0 <= i < |CallsOf(turn, ordered)| :: WritableCall(CallsOf(turn, ordered)[i], parse)
    decreases |turn|
  {
    if turn != [] {
      var rest := turn[1..];
      assert forall i | 0 <= i < |rest| :: rest[i] == turn[i + 1];
      TurnIsWritable(rest, parse, ordered);
      var first := if turn[0].Some? then [CallOf(turn[0].value, ordered)] else [];
      assert CallsOf(turn, ordered) == first + CallsOf(rest, ordered);
      if turn[0].Some? {
        OneIsWritable(turn[0].value, parse, ordered);
      }
    }
  }

  lemma OneCameBack(f: Function, ordered: string -> Option<seq<Entry>>)
    ensures CallOf(f, ordered).name == f.name
    ensures Insert(map[], CallOf(f, ordered).arguments) ==
            Spelled(if f.arguments.None? then "{}" else f.arguments.value, ordered)
  {}

  lemma {:induction false} TurnIsExpected(turn: seq<Option<Function>>, ordered: string -> Option<seq<Entry>>, write: Args -> string)
    ensures Expected(CallsOf(turn, ordered), write) == CameBack(turn, ordered, write)
    decreases |turn|
  {
    if turn != [] {
      var rest := CallsOf(turn[1..], ordered);
      TurnIsExpected(turn[1..], ordered, write);
      if turn[0].Some? {
        var c := CallOf(turn[0].value, ordered);
        OneCameBack(turn[0].value, ordered);
        assert CallsOf(turn, ordered) == [c] + rest && ([c] + rest)[1..] == rest;
      } else {
        assert CallsOf(turn, ordered) == [] + rest == rest;
        assert [] + CameBack(turn[1..], ordered, write) == CameBack(turn[1..], ordered, write);
      }
    }
  }

  /** The same of a turn as its history holds it, arguments as text. */
  lemma TurnRoundTrip(before: string, turn: seq<Option<Function>>, after: string, parse: string -> Option<Value>,
                      ordered: string -> Option<seq<Entry>>, write: Args -> string)
    requires Without(before, CALLS_OPEN)
    requires forall i | 0 <= i < |turn| && turn[i].Some? :: WritableFunction(turn[i].value, parse, ordered)
    ensures Read(before + (Block(CallsOf(turn, ordered)) + after), parse, write) ==
            Parsed(Trim(before + after), CameBack(turn, ordered, write))
  {
    TurnIsWritable(turn, parse, ordered);
    RoundTrip(before, CallsOf(turn, ordered), after, parse, write);
    TurnIsExpected(turn, ordered, write);
  }

  ghost predicate DistinctKeys(entries: seq<Entry>) {
    forall i, j | 0 <= i < j < |entries| :: entries[i].key != entries[j].key
  }

  /** With distinct keys, every parameter comes back as an argument, and nothing else does. */
  lemma {:induction false} ArgumentsComeBack(args: Args, entries: seq<Entry>)
    requires DistinctKeys(entries)
    ensures forall i | 0 <= i < |entries| :: entries[i].key in Insert(args, entries) && Insert(args, entries)[entries[i].key] == entries[i].value
    ensures forall k | k in Insert(args, entries) :: (exists i | 0 <= i < |entries| :: entries[i].key == k) || (k in args && Insert(args, entries)[k] == args[k])
    ensures forall k | k in args && (forall i | 0 <= i < |entries| :: entries[i].key != k) :: k in Insert(args, entries) && Insert(args, entries)[k] == args[k]
    decreases |entries|
  {
    if entries != [] {
      var rest := entries[1..];
      assert forall i | 0 <= i < |rest| :: rest[i] == entries[i + 1];
      ArgumentsComeBack(args[entries[0].key := entries[0].value], rest);
    }
  }
}
