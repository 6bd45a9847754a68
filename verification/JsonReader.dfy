/**
 A reader of JSON text (RFC 8259), and the law that it reads back whatever value was written, whatever
 its strings hold. It stands in for the JSON library where one is needed, so that what is said of reading
 what was written rests on nothing but the text.
 */
module JsonReader {
  import opened Text
  import opened Json

  /** A value, and the text after it. */
  datatype Rest<T> = Rest(value: T, rest: string)

  predicate IsJsonSpace(c: char) { c == ' ' || c == '\t' || c == '\n' || c == '\r' }

  function Skip(s: string): (r: string)
    ensures |r| <= |s|
    decreases |s|
  {
    if s != "" && IsJsonSpace(s[0]) then Skip(s[1..]) else s
  }

  function HexValue(c: char): Option<nat> {
    if '0' <= c <= '9' then Some(c as nat - '0' as nat)
    else if 'a' <= c <= 'f' then Some(c as nat - 'a' as nat + 10)
    else if 'A' <= c <= 'F' then Some(c as nat - 'A' as nat + 10)
    else None
  }

  /** The character four hexadecimal digits name, of those below the surrogates. */
  function CodeUnit(s: string): Option<char>
    requires |s| >= 4
  {
    match (HexValue(s[0]), HexValue(s[1]), HexValue(s[2]), HexValue(s[3]))
    case (Some(a), Some(b), Some(c), Some(d)) =>
      var n := ((a * 16 + b) * 16 + c) * 16 + d;
      if n < 0xD800 then Some(n as char) else None
    case _ => None
  }

  /** One character of a string after a backslash, and how many characters spell it. */
  function Unescaped(s: string): Option<(char, nat)> {
    if s == "" then None
    else match s[0]
      case '"' => Some(('"', 1))
      case '\\' => Some(('\\', 1))
      case '/' => Some(('/', 1))
      case 'b' => Some((8 as char, 1))
      case 'f' => Some((12 as char, 1))
      case 'n' => Some(('\n', 1))
      case 'r' => Some(('\r', 1))
      case 't' => Some(('\t', 1))
      case 'u' =>
        if |s| < 5 then None
        else (match CodeUnit(s[1..]) case Some(c) => Some((c, 5)) case None => None)
      case _ => None
  }

  /** One character of a string, and how many characters spell it. */
  function OneChar(s: string): (r: Option<(char, nat)>)
    ensures r.Some? ==> 0 < r.value.1 <= |s|
  {
    if s == "" || s[0] == '"' then None
    else if s[0] == '\\' then
      match Unescaped(s[1..])
      case Some((c, n)) => if n < |s| then Some((c, n + 1)) else None
      case None => None
    else if s[0] as int < 32 then None
    else Some((s[0], 1))
  }

  /** The rest of a string literal, up to its closing quote. */
  function ReadString(s: string): (r: Option<Rest<string>>)
    ensures r.Some? ==> |r.value.rest| < |s|
    decreases |s|
  {
    if s == "" then None
    else if s[0] == '"' then Some(Rest("", s[1..]))
    else match OneChar(s)
      case None => None
      case Some((c, n)) =>
        match ReadString(s[n..])
        case None => None
        case Some(r) => Some(Rest([c] + r.value, r.rest))
  }

  /** The characters of a number. */
  function ReadDigits(s: string): (r: Rest<string>)
    ensures |r.rest| <= |s| && (s != "" && IsNumberChar(s[0]) ==> |r.rest| < |s|)
    decreases |s|
  {
    if s == "" || !IsNumberChar(s[0]) then Rest("", s)
    else
      var r := ReadDigits(s[1..]);
      Rest([s[0]] + r.value, r.rest)
  }

  function Keyword(s: string, word: string, v: Value): (r: Option<Rest<Value>>)
    requires word != ""
    ensures r.Some? ==> |r.value.rest| < |s|
  {
    if At(s, 0, word) then Some(Rest(v, s[|word|..])) else None
  }

  function ReadValue(text: string): (r: Option<Rest<Value>>)
    ensures r.Some? ==> |r.value.rest| < |text|
    decreases |text|, 0
  {
    var s := Skip(text);
    if s == "" then None
    else match s[0]
      case 'n' => Keyword(s, "null", Null)
      case 't' => Keyword(s, "true", Bool(true))
      case 'f' => Keyword(s, "false", Bool(false))
      case '"' => (match ReadString(s[1..]) case None => None case Some(r) => Some(Rest(String(r.value), r.rest)))
      case '[' =>
        var inner := Skip(s[1..]);
        if inner != "" && inner[0] == ']' then Some(Rest(Array([]), inner[1..]))
        else (match ReadItems(s[1..]) case None => None case Some(r) => Some(Rest(Array(r.value), r.rest)))
      case '{' =>
        var inner := Skip(s[1..]);
        if inner != "" && inner[0] == '}' then Some(Rest(Object([]), inner[1..]))
        else (match ReadEntries(s[1..]) case None => None case Some(r) => Some(Rest(Object(r.value), r.rest)))
      case c =>
        if IsNumberChar(c) then
          var r := ReadDigits(s);
          Some(Rest(Number(r.value), r.rest))
        else None
  }

  /** The items of an array, and past its end. */
  function ReadItems(text: string): (r: Option<Rest<seq<Value>>>)
    ensures r.Some? ==> |r.value.rest| < |text|
    decreases |text|, 1
  {
    match ReadValue(text)
    case None => None
    case Some(v) =>
      var s := Skip(v.rest);
      if s != "" && s[0] == ']' then Some(Rest([v.value], s[1..]))
      else if s != "" && s[0] == ',' then
        match ReadItems(s[1..]) case None => None case Some(more) => Some(Rest([v.value] + more.value, more.rest))
      else None
  }

  /** One entry of an object, and the text after it. */
  function ReadEntry(text: string): (r: Option<Rest<Entry>>)
    ensures r.Some? ==> |r.value.rest| < |text|
    decreases |text|, 1
  {
    var s := Skip(text);
    if s == "" || s[0] != '"' then None
    else match ReadString(s[1..])
      case None => None
      case Some(key) =>
        var t := Skip(key.rest);
        if t == "" || t[0] != ':' then None
        else match ReadValue(t[1..])
          case None => None
          case Some(v) => Some(Rest(Entry(key.value, v.value), v.rest))
  }

  function ReadEntries(text: string): (r: Option<Rest<seq<Entry>>>)
    ensures r.Some? ==> |r.value.rest| < |text|
    decreases |text|, 2
  {
    match ReadEntry(text)
    case None => None
    case Some(e) =>
      var s := Skip(e.rest);
      if s != "" && s[0] == '}' then Some(Rest([e.value], s[1..]))
      else if s != "" && s[0] == ',' then
        match ReadEntries(s[1..]) case None => None case Some(more) => Some(Rest([e.value] + more.value, more.rest))
      else None
  }

  /** The value a whole text spells. */
  function Parsed(text: string): Option<Value> {
    match ReadValue(text)
    case None => None
    case Some(r) => if Skip(r.rest) == "" then Some(r.value) else None
  }

  function Parser(): string -> Option<Value> { (s: string) => Parsed(s) }

  // ----- Strings -----

  lemma HexIsRead(n: nat)
    requires n < 16
    ensures HexValue(Hex(n)) == Some(n)
  {}

  lemma CodeIsRead(c: char, x: string)
    requires c as int < 32
    ensures
      var s := ['0', '0', Hex(c as int / 16), Hex(c as int % 16)] + x;
      CodeUnit(s) == Some(c)
  {
    HexIsRead(c as int / 16);
    HexIsRead(c as int % 16);
  }

  lemma CharIsRead(c: char, x: string)
    ensures EscapeChar(c) != "" && EscapeChar(c)[0] != '"'
    ensures OneChar(EscapeChar(c) + x) == Some((c, |EscapeChar(c)|))
  {
    var e := EscapeChar(c);
    var s := e + x;
    assert s[0] == e[0];
    if |e| == 6 {
      CodeIsRead(c, x);
      assert s[1..][1..] == ['0', '0', Hex(c as int / 16), Hex(c as int % 16)] + x;
      assert s[1..][0] == 'u';
    } else if |e| == 2 {
      assert s[1..][0] == e[1];
    }
  }

  /** Whatever characters a string holds, its literal is read back. */
  lemma {:induction false} StringIsRead(t: string, tail: string)
    ensures ReadString(Escape(t) + ("\"" + tail)) == Some(Rest(t, tail))
    decreases |t|
  {
    var end := "\"" + tail;
    if t == "" {
      assert Escape(t) + end == end && end[1..] == tail;
    } else {
      var e, more := EscapeChar(t[0]), Escape(t[1..]) + end;
      assert Escape(t) + end == e + more;
      CharIsRead(t[0], more);
      StringIsRead(t[1..], tail);
      assert (e + more)[|e|..] == more && (e + more)[0] == e[0];
      assert [t[0]] + t[1..] == t;
    }
  }

  lemma QuotedIsRead(t: string, tail: string)
    ensures
      var s := Quoted(t) + tail;
      s != "" && s[0] == '"' && ReadString(s[1..]) == Some(Rest(t, tail))
  {
    StringIsRead(t, tail);
    QuotedText(Escape(t), tail);
  }

  lemma QuotedText(e: string, tail: string)
    ensures var s := "\"" + e + "\"" + tail; s[0] == '"' && s[1..] == e + ("\"" + tail)
  {}

  // ----- Values -----

  /** What may stand after a value: the end, or no character of a number. */
  predicate Ends(tail: string) { tail == "" || !IsNumberChar(tail[0]) }

  lemma {:induction false} DigitsAreRead(digits: string, tail: string)
    requires (forall c | c in digits :: IsNumberChar(c)) && Ends(tail)
    ensures ReadDigits(digits + tail) == Rest(digits, tail)
    decreases |digits|
  {
    if digits == "" {
      assert digits + tail == tail;
    } else {
      assert (digits + tail)[1..] == digits[1..] + tail && (digits + tail)[0] == digits[0];
      DigitsAreRead(digits[1..], tail);
      assert [digits[0]] + digits[1..] == digits;
    }
  }

  /** No value starts with white space, or with what ends a list. */
  lemma PrintStarts(v: Value)
    requires WellFormed(v)
    ensures Print(v) != "" && !IsJsonSpace(Print(v)[0]) && Print(v)[0] != ']' && Print(v)[0] != '}'
  {
    match v
    case Number(digits) => assert digits[0] in digits;
    case _ =>
  }

  lemma NumberIsRead(digits: string, tail: string)
    requires digits != "" && (forall c | c in digits :: IsNumberChar(c)) && Ends(tail)
    ensures ReadValue(digits + tail) == Some(Rest(Number(digits), tail))
  {
    var s := digits + tail;
    assert s[0] == digits[0] && digits[0] in digits;
    assert IsNumberChar(s[0]);
    DigitsAreRead(digits, tail);
    assert Skip(s) == s;
  }

  lemma WordIsRead(word: string, v: Value, tail: string)
    requires (word == "null" && v == Null) || (word == "true" && v == Bool(true)) || (word == "false" && v == Bool(false))
    ensures ReadValue(word + tail) == Some(Rest(v, tail))
  {
    var s := word + tail;
    assert s[0] == word[0] && s[0..|word|] == word && s[|word|..] == tail;
    assert Skip(s) == s;
  }

  /** Any value that was written is read back, with anything after it that does not go on a number. */
  lemma {:induction false} ValueIsRead(v: Value, tail: string)
    requires WellFormed(v) && Ends(tail)
    ensures ReadValue(Print(v) + tail) == Some(Rest(v, tail))
    decreases v, 0
  {
    match v
    case Null => WordIsRead("null", Null, tail);
    case Bool(b) => WordIsRead(if b then "true" else "false", v, tail);
    case Number(digits) => NumberIsRead(digits, tail);
    case String(t) =>
      QuotedIsRead(t, tail);
      assert Skip(Print(v) + tail) == Print(v) + tail;
    case Array(items) =>
      if items != [] {
        ItemsAreRead(items, tail);
      }
      ArrayIsRead(items, tail);
    case Object(entries) =>
      if entries != [] {
        EntriesAreRead(entries, tail);
      }
      ObjectIsRead(entries, tail);
  }

  lemma Wrapped(a: string, p: string, b: string, tail: string)
    ensures a + p + b + tail == a + (p + (b + tail))
  {}

  lemma ArrayOf(inner: string, items: seq<Value>, tail: string)
    requires inner != "" && Skip(inner) == inner
    requires (items == [] && inner[0] == ']' && inner[1..] == tail) || (inner[0] != ']' && ReadItems(inner) == Some(Rest(items, tail)))
    ensures ReadValue("[" + inner) == Some(Rest(Array(items), tail))
  {
    var s := "[" + inner;
    assert s[0] == '[' && s[1..] == inner;
    assert Skip(s) == s;
  }

  lemma ObjectOf(inner: string, entries: seq<Entry>, tail: string)
    requires inner != "" && Skip(inner) == inner
    requires (entries == [] && inner[0] == '}' && inner[1..] == tail) ||
             (inner[0] != '}' && ReadEntries(inner) == Some(Rest(entries, tail)))
    ensures ReadValue("{" + inner) == Some(Rest(Object(entries), tail))
  {
    var s := "{" + inner;
    assert s[0] == '{' && s[1..] == inner;
    assert Skip(s) == s;
  }

  lemma ItemsStart(items: seq<Value>, end: string)
    requires items != [] && WellFormed(items[0])
    ensures var inner := PrintItems(items) + end; inner != "" && Skip(inner) == inner && inner[0] != ']'
  {
    PrintStarts(items[0]);
    var inner := PrintItems(items) + end;
    assert inner[0] == Print(items[0])[0];
  }

  lemma EntriesStart(entries: seq<Entry>, end: string)
    requires entries != []
    ensures var inner := PrintEntries(entries) + end; inner != "" && Skip(inner) == inner && inner[0] != '}'
  {
    var q, inner := Quoted(entries[0].key), PrintEntries(entries) + end;
    assert q[0] == '"' && PrintEntries(entries)[0] == q[0];
    assert inner[0] == '"';
  }

  lemma ArrayIsRead(items: seq<Value>, tail: string)
    requires WellFormed(Array(items))
    requires items != [] ==> ReadItems(PrintItems(items) + ("]" + tail)) == Some(Rest(items, tail))
    ensures ReadValue(Print(Array(items)) + tail) == Some(Rest(Array(items), tail))
  {
    var p := PrintItems(items);
    Wrapped("[", p, "]", tail);
    if items == [] {
      var inner := p + ("]" + tail);
      assert inner == "]" + tail && inner[0] == ']' && inner[1..] == tail;
    } else {
      ItemsStart(items, "]" + tail);
    }
    ArrayOf(p + ("]" + tail), items, tail);
  }

  lemma ObjectIsRead(entries: seq<Entry>, tail: string)
    requires entries != [] ==> ReadEntries(PrintEntries(entries) + ("}" + tail)) == Some(Rest(entries, tail))
    ensures ReadValue(Print(Object(entries)) + tail) == Some(Rest(Object(entries), tail))
  {
    var p := PrintEntries(entries);
    Wrapped("{", p, "}", tail);
    if entries == [] {
      var inner := p + ("}" + tail);
      assert inner == "}" + tail && inner[0] == '}' && inner[1..] == tail;
    } else {
      EntriesStart(entries, "}" + tail);
    }
    ObjectOf(p + ("}" + tail), entries, tail);
  }

  /** A value and what separates it from the next, or ends the list. */
  lemma ItemsStep(x: string, v: Value, s: string, more: seq<Value>, tail: string)
    requires s != "" && ReadValue(x + s) == Some(Rest(v, s))
    requires (s[0] == ']' && more == [] && s[1..] == tail) || (s[0] == ',' && ReadItems(s[1..]) == Some(Rest(more, tail)))
    ensures ReadItems(x + s) == Some(Rest([v] + more, tail))
  {
    assert Skip(s) == s;
    assert [v] + [] == [v];
  }

  lemma ItemsText(items: seq<Value>, tail: string, s: string)
    requires items != []
    requires s == if |items| == 1 then "]" + tail else "," + (PrintItems(items[1..]) + ("]" + tail))
    ensures PrintItems(items) + ("]" + tail) == Print(items[0]) + s
  {
    var more := if |items| == 1 then "" else "," + PrintItems(items[1..]);
    assert PrintItems(items) == Print(items[0]) + more;
    MoreText(if |items| == 1 then "" else PrintItems(items[1..]), "]" + tail);
    Associates(Print(items[0]), more, "]" + tail);
  }

  lemma {:induction false} ItemsAreRead(items: seq<Value>, tail: string)
    requires items != [] && forall i | 0 <= i < |items| :: WellFormed(items[i])
    ensures ReadItems(PrintItems(items) + ("]" + tail)) == Some(Rest(items, tail))
    decreases items, 1
  {
    var v, rest := items[0], items[1..];
    assert items == [v] + rest;
    var s := if rest == [] then "]" + tail else "," + (PrintItems(rest) + ("]" + tail));
    if rest != [] {
      ItemsAreRead(rest, tail);
    }
    ValueIsRead(v, s);
    ItemsText(items, tail, s);
    assert s[1..] == if rest == [] then tail else PrintItems(rest) + ("]" + tail);
    ItemsStep(Print(v), v, s, rest, tail);
  }

  /** An entry, with white space or none after its colon and before it. */
  lemma EntryIsRead(lead: string, key: string, space: string, x: string, v: Value, s: string)
    requires (lead == "" || lead == " ") && (space == "" || space == " ")
    requires ReadValue(x + s) == Some(Rest(v, s)) && Skip(x + s) == x + s
    ensures ReadEntry(lead + (Quoted(key) + (":" + (space + (x + s))))) == Some(Rest(Entry(key, v), s))
  {
    var after := ":" + (space + (x + s));
    var quoted := Quoted(key) + after;
    QuotedIsRead(key, after);
    OneSpaceSkipped(lead, quoted);
    assert Skip(after) == after && after[1..] == space + (x + s);
    OneSpaceSkipped(space, x + s);
    SameSkipped(space + (x + s), x + s);
  }

  lemma OneSpaceSkipped(space: string, s: string)
    requires (space == "" || space == " ") && Skip(s) == s
    ensures Skip(space + s) == s
  {
    if space == "" {
      assert space + s == s;
    } else {
      assert (space + s)[1..] == s;
    }
  }

  /** White space before a value makes no difference. */
  lemma SameSkipped(a: string, b: string)
    requires Skip(a) == b && Skip(b) == b
    ensures ReadValue(a) == ReadValue(b)
  {}

  lemma EntriesStep(text: string, e: Entry, s: string, more: seq<Entry>, tail: string)
    requires s != "" && ReadEntry(text) == Some(Rest(e, s))
    requires (s[0] == '}' && more == [] && s[1..] == tail) || (s[0] == ',' && ReadEntries(s[1..]) == Some(Rest(more, tail)))
    ensures ReadEntries(text) == Some(Rest([e] + more, tail))
  {
    assert Skip(s) == s;
    assert [e] + [] == [e];
  }

  lemma PrintSkips(v: Value, s: string)
    requires WellFormed(v)
    ensures Skip(Print(v) + s) == Print(v) + s
  {
    PrintStarts(v);
    assert (Print(v) + s)[0] == Print(v)[0];
  }

  lemma {:induction false} EntriesAreRead(entries: seq<Entry>, tail: string)
    requires entries != [] && forall i | 0 <= i < |entries| :: WellFormed(entries[i].value)
    ensures ReadEntries(PrintEntries(entries) + ("}" + tail)) == Some(Rest(entries, tail))
    decreases entries, 1
  {
    var e, rest := entries[0], entries[1..];
    assert entries == [e] + rest;
    var s := if rest == [] then "}" + tail else "," + (PrintEntries(rest) + ("}" + tail));
    if rest != [] {
      EntriesAreRead(rest, tail);
    }
    ValueIsRead(e.value, s);
    PrintSkips(e.value, s);
    EntryIsRead("", e.key, "", Print(e.value), e.value, s);
    EntriesText(entries, tail, s);
    assert s[1..] == if rest == [] then tail else PrintEntries(rest) + ("}" + tail);
    EntriesStep(PrintEntries(entries) + ("}" + tail), e, s, rest, tail);
  }

  lemma EntryText(all: string, q: string, p: string, more: string, end: string, s: string)
    requires all == q + ":" + p + more && more + end == s
    ensures all + end == "" + (q + (":" + ("" + (p + s))))
  {}

  lemma MoreText(p: string, end: string)
    ensures "" + end == end && ("," + p) + end == "," + (p + end)
  {}

  lemma EntriesFirst(entries: seq<Entry>)
    requires entries != []
    ensures PrintEntries(entries) ==
            Quoted(entries[0].key) + ":" + Print(entries[0].value) + if |entries| == 1 then "" else "," + PrintEntries(entries[1..])
  {}

  lemma EntriesText(entries: seq<Entry>, tail: string, s: string)
    requires entries != []
    requires s == if |entries| == 1 then "}" + tail else "," + (PrintEntries(entries[1..]) + ("}" + tail))
    ensures PrintEntries(entries) + ("}" + tail) ==
            "" + (Quoted(entries[0].key) + (":" + ("" + (Print(entries[0].value) + s))))
  {
    var more := if |entries| == 1 then "" else "," + PrintEntries(entries[1..]);
    EntriesFirst(entries);
    MoreText(if |entries| == 1 then "" else PrintEntries(entries[1..]), "}" + tail);
    EntryText(PrintEntries(entries), Quoted(entries[0].key), Print(entries[0].value), more, "}" + tail, s);
  }

  /** A whole text that was written is read back. */
  lemma PrintIsParsed(v: Value)
    requires WellFormed(v)
    ensures Parsed(Print(v)) == Some(v)
  {
    ValueIsRead(v, "");
    assert Print(v) + "" == Print(v);
  }
}
