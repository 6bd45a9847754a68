/**
 JSON values, their text as `serde_json` writes it, and the scan that finds the first balanced object
 or array in a text. Whatever strings the value holds, with quotes, brackets and markers in them, the
 scan finds exactly the text that was written, with anything after it.
 */
module Json {
  import opened Text

  datatype Entry = Entry(key: string, value: Value)
  datatype Value =
    | Null
    | Bool(b: bool)
    | Number(digits: string)
    | String(text: string)
    | Array(items: seq<Value>)
    | Object(entries: seq<Entry>)

  // ----- The text of a value -----

  function Hex(n: nat): char
    requires n < 16
  {
    "0123456789abcdef"[n]
  }

  /** One character of a string (RFC 8259, section 7). */
  function EscapeChar(c: char): string {
    match c
    case '"' => "\\\""
    case '\\' => "\\\\"
    case '\n' => "\\n"
    case '\r' => "\\r"
    case '\t' => "\\t"
    case _ =>
      var n := c as int;
      if n == 8 then "\\b"
      else if n == 12 then "\\f"
      else if n < 32 then ['\\', 'u', '0', '0', Hex(n / 16), Hex(n % 16)]
      else [c]
  }

  function Escape(s: string): string {
    if s == "" then "" else EscapeChar(s[0]) + Escape(s[1..])
  }

  function Quoted(s: string): string { "\"" + Escape(s) + "\"" }

  function Print(v: Value): string {
    match v
    case Null => "null"
    case Bool(b) => if b then "true" else "false"
    case Number(digits) => digits
    case String(text) => Quoted(text)
    case Array(items) => "[" + PrintItems(items) + "]"
    case Object(entries) => "{" + PrintEntries(entries) + "}"
  }

  function PrintItems(items: seq<Value>): string {
    if items == [] then ""
    else Print(items[0]) + if |items| == 1 then "" else "," + PrintItems(items[1..])
  }

  function PrintEntries(entries: seq<Entry>): string {
    if entries == [] then ""
    else Quoted(entries[0].key) + ":" + Print(entries[0].value) +
         if |entries| == 1 then "" else "," + PrintEntries(entries[1..])
  }

  predicate IsNumberChar(c: char) {
    '0' <= c <= '9' || c == '-' || c == '+' || c == '.' || c == 'e' || c == 'E'
  }

  /** Every number in it is written with the characters of a number. */
  predicate WellFormed(v: Value) {
    match v
    case Number(digits) => digits != "" && forall c | c in digits :: IsNumberChar(c)
    case Array(items) => forall i | 0 <= i < |items| :: WellFormed(items[i])
    case Object(entries) => forall i | 0 <= i < |entries| :: WellFormed(entries[i].value)
    case _ => true
  }

  // ----- The scan -----

  /** The two kinds of brackets. */
  datatype Kind = Braces | Brackets
  {
    const open: char := if Braces? then '{' else '['
    const close: char := if Braces? then '}' else ']'
  }

  datatype Scan = Scan(depth: nat, inStr: bool, escaped: bool)

  /** One character, unless it closes the span. */
  function Step(st: Scan, c: char, k: Kind): Option<Scan> {
    if st.inStr then
      if st.escaped then Some(st.(escaped := false))
      else if c == '\\' then Some(st.(escaped := true))
      else if c == '"' then Some(st.(inStr := false))
      else Some(st)
    else if c == '"' then Some(st.(inStr := true))
    else if c == k.open then Some(st.(depth := st.depth + 1))
    else if c == k.close then if st.depth <= 1 then None else Some(st.(depth := st.depth - 1))
    else Some(st)
  }

  /** Where the span ends that `st` stands in: one past the character that closes it. */
  function Walk(st: Scan, s: string, k: Kind): (r: Option<nat>)
    ensures r.Some? ==> 0 < r.value <= |s|
    decreases |s|
  {
    if s == "" then None
    else match Step(st, s[0], k)
      case None => Some(1)
      case Some(next) =>
        match Walk(next, s[1..], k)
        case None => None
        case Some(n) => Some(n + 1)
  }

  datatype Span = Span(start: nat, end: nat)

  /** The first balanced span of a kind. */
  function FirstBalanced(s: string, k: Kind): (r: Option<Span>)
    ensures r.Some? ==> r.value.start < r.value.end <= |s|
  {
    match FindChar(s, k.open, 0)
    case None => None
    case Some(start) =>
      EndsAt(start, start, Walk(Scan(0, false, false), s[start..], k))
  }

  function FindChar(s: string, c: char, i: nat): (r: Option<nat>)
    requires i <= |s|
    ensures r.Some? ==> i <= r.value < |s| && s[r.value] == c && forall j | i <= j < r.value :: s[j] != c
    ensures r.None? ==> forall j | i <= j < |s| :: s[j] != c
    decreases |s| - i
  {
    if i == |s| then None else if s[i] == c then Some(i) else FindChar(s, c, i + 1)
  }

  /** Take one character; `closed` when it closes the span. */
  method Advance(st: Scan, b: char, k: Kind) returns (next: Scan, closed: bool)
    ensures closed <==> Step(st, b, k).None?
    ensures !closed ==> Step(st, b, k) == Some(next)
  {
    var depth, inStr, escaped := st.depth, st.inStr, st.escaped;
    closed := false;
    if inStr {
      if escaped {
        escaped := false;
      } else if b == '\\' {
        escaped := true;
      } else if b == '"' {
        inStr := false;
      }
    } else if b == '"' {
      inStr := true;
    } else if b == k.open {
      depth := depth + 1;
    } else if b == k.close {
      if depth <= 1 {
        closed := true;
      } else {
        depth := depth - 1;
      }
    }
    next := Scan(depth, inStr, escaped);
  }

  /** One character on: the span ends here, or where it ends from the next one on. */
  lemma SpanStep(st: Scan, s: string, start: nat, i: nat, k: Kind, next: Scan, closed: bool)
    requires i < |s| && (closed <==> Step(st, s[i], k).None?) && (!closed ==> Step(st, s[i], k) == Some(next))
    ensures EndsAt(start, i, Walk(st, s[i..], k)) ==
            if closed then Some(Span(start, i + 1)) else EndsAt(start, i + 1, Walk(next, s[i + 1..], k))
  {
    WalkOne(st, s, i, k);
  }

  method FirstBalancedSpan(s: string, k: Kind) returns (r: Option<Span>)
    ensures r == FirstBalanced(s, k)
  {
    var first := FindChar(s, k.open, 0);
    if first.None? {
      return None;
    }
    var start := first.value;
    var st, i := Scan(0, false, false), start;
    while i < |s|
      invariant start <= i <= |s|
      invariant FirstBalanced(s, k) == EndsAt(start, i, Walk(st, s[i..], k))
    {
      var next, closed := Advance(st, s[i], k);
      SpanStep(st, s, start, i, k, next, closed);
      i := i + 1;
      if closed {
        return Some(Span(start, i));
      }
      st := next;
    }
    return None;
  }

  function EndsAt(start: nat, i: nat, n: Option<nat>): Option<Span> {
    match n case None => None case Some(n) => Some(Span(start, i + n))
  }

  lemma WalkOne(st: Scan, s: string, i: nat, k: Kind)
    requires i < |s|
    ensures Walk(st, s[i..], k) ==
            match Step(st, s[i], k)
            case None => Some(1)
            case Some(next) => match Walk(next, s[i + 1..], k) case None => None case Some(n) => Some(n + 1)
  {
    assert s[i..][0] == s[i] && s[i..][1..] == s[i + 1..];
  }

  // ----- Text that leaves the scan where it was -----

  /** Where the scan stands after `t`, if no character in it closes the span. */
  function Through(st: Scan, t: string, k: Kind): Option<Scan>
    decreases |t|
  {
    if t == "" then Some(st)
    else match Step(st, t[0], k)
      case None => None
      case Some(next) => Through(next, t[1..], k)
  }

  lemma {:induction false} ThroughAdds(st: Scan, t: string, u: string, k: Kind, mid: Scan)
    requires Through(st, t, k) == Some(mid)
    ensures Through(st, t + u, k) == Through(mid, u, k)
    decreases |t|
  {
    if t == "" {
      assert t + u == u;
    } else {
      assert (t + u)[1..] == t[1..] + u;
      ThroughAdds(Step(st, t[0], k).value, t[1..], u, k, mid);
    }
  }

  lemma {:induction false} WalkAdds(st: Scan, t: string, u: string, k: Kind, mid: Scan)
    requires Through(st, t, k) == Some(mid)
    ensures Walk(st, t + u, k) == match Walk(mid, u, k) case None => None case Some(n) => Some(|t| + n)
    decreases |t|
  {
    if t == "" {
      assert t + u == u;
    } else {
      assert (t + u)[1..] == t[1..] + u;
      WalkAdds(Step(st, t[0], k).value, t[1..], u, k, mid);
    }
  }

  /** Inside a span, the text is passed over whole. */
  ghost predicate Neutral(t: string, k: Kind) {
    forall d: nat | d >= 1 :: Through(Scan(d, false, false), t, k) == Some(Scan(d, false, false))
  }

  lemma NeutralAdds(t: string, u: string, k: Kind)
    requires Neutral(t, k) && Neutral(u, k)
    ensures Neutral(t + u, k)
  {
    forall d: nat | d >= 1
      ensures Through(Scan(d, false, false), t + u, k) == Some(Scan(d, false, false))
    {
      ThroughAdds(Scan(d, false, false), t, u, k, Scan(d, false, false));
    }
  }

  predicate IsPlain(c: char) {
    c != '"' && c != '{' && c != '}' && c != '[' && c != ']'
  }

  lemma {:induction false} PlainIsNeutral(t: string, k: Kind)
    requires forall c | c in t :: IsPlain(c)
    ensures Neutral(t, k)
    decreases |t|
  {
    if t != "" {
      assert IsPlain(t[0]);
      PlainIsNeutral(t[1..], k);
    }
  }

  /** Within a string literal. */
  lemma {:induction false} EscapeStays(s: string, d: nat, k: Kind)
    ensures Through(Scan(d, true, false), Escape(s), k) == Some(Scan(d, true, false))
    decreases |s|
  {
    if s != "" {
      EscapeCharStays(s[0], d, k);
      EscapeStays(s[1..], d, k);
      ThroughAdds(Scan(d, true, false), EscapeChar(s[0]), Escape(s[1..]), k, Scan(d, true, false));
    }
  }

  lemma {:induction false} InStringStays(t: string, d: nat, k: Kind)
    requires forall c | c in t :: c != '"' && c != '\\'
    ensures Through(Scan(d, true, false), t, k) == Some(Scan(d, true, false))
    decreases |t|
  {
    if t != "" {
      assert t[0] in t && forall c | c in t[1..] :: c in t;
      InStringStays(t[1..], d, k);
    }
  }

  lemma EscapeCharStays(c: char, d: nat, k: Kind)
    ensures Through(Scan(d, true, false), EscapeChar(c), k) == Some(Scan(d, true, false))
  {
    var t := EscapeChar(c);
    var st := Scan(d, true, false);
    if |t| == 1 {
      assert t[1..] == "";
    } else {
      assert Step(st, t[0], k) == Some(st.(escaped := true));
      assert Step(st.(escaped := true), t[1], k) == Some(st);
      var rest := t[2..];
      assert t[1..][1..] == rest && t[1..][0] == t[1];
      assert forall x | x in rest :: x != '"' && x != '\\';
      InStringStays(rest, d, k);
    }
  }

  lemma QuotedIsNeutral(s: string, k: Kind)
    ensures Neutral(Quoted(s), k)
  {
    forall d: nat | d >= 1
      ensures Through(Scan(d, false, false), Quoted(s), k) == Some(Scan(d, false, false))
    {
      var out, within := Scan(d, false, false), Scan(d, true, false);
      assert "\""[1..] == "";
      assert Through(out, "\"", k) == Some(within);
      assert Through(within, "\"", k) == Some(out);
      EscapeStays(s, d, k);
      ThroughAdds(out, "\"", Escape(s), k, within);
      ThroughAdds(out, "\"" + Escape(s), "\"", k, within);
    }
  }

  /** Brackets around what is passed over whole. */
  lemma BracketedIsNeutral(kind: Kind, t: string, k: Kind)
    requires Neutral(t, k)
    ensures Neutral([kind.open] + t + [kind.close], k)
  {
    forall d: nat | d >= 1
      ensures Through(Scan(d, false, false), [kind.open] + t + [kind.close], k) == Some(Scan(d, false, false))
    {
      var out := Scan(d, false, false);
      var within := if kind == k then Scan(d + 1, false, false) else out;
      assert Through(out, [kind.open], k) == Some(within);
      assert Through(within, [kind.close], k) == Some(out);
      ThroughAdds(out, [kind.open], t, k, within);
      ThroughAdds(out, [kind.open] + t, [kind.close], k, within);
    }
  }

  lemma {:induction false} PrintIsNeutral(v: Value, k: Kind)
    requires WellFormed(v)
    ensures Neutral(Print(v), k)
    decreases v
  {
    match v
    case Null => PlainIsNeutral("null", k);
    case Bool(b) => PlainIsNeutral(Print(v), k);
    case Number(digits) => PlainIsNeutral(digits, k);
    case String(text) => QuotedIsNeutral(text, k);
    case Array(items) =>
      ItemsAreNeutral(items, k);
      BracketedIsNeutral(Brackets, PrintItems(items), k);
    case Object(entries) =>
      EntriesAreNeutral(entries, k);
      BracketedIsNeutral(Braces, PrintEntries(entries), k);
  }

  lemma {:induction false} ItemsAreNeutral(items: seq<Value>, k: Kind)
    requires forall i | 0 <= i < |items| :: WellFormed(items[i])
    ensures Neutral(PrintItems(items), k)
    decreases items
  {
    if items != [] {
      var first := Print(items[0]);
      PrintIsNeutral(items[0], k);
      if |items| == 1 {
        assert PrintItems(items) == first;
      } else {
        ItemsAreNeutral(items[1..], k);
        PlainIsNeutral(",", k);
        NeutralAdds(",", PrintItems(items[1..]), k);
        NeutralAdds(first, "," + PrintItems(items[1..]), k);
      }
    }
  }

  lemma {:induction false} EntriesAreNeutral(entries: seq<Entry>, k: Kind)
    requires forall i | 0 <= i < |entries| :: WellFormed(entries[i].value)
    ensures Neutral(PrintEntries(entries), k)
    decreases entries
  {
    if entries != [] {
      var key, value := Quoted(entries[0].key), Print(entries[0].value);
      QuotedIsNeutral(entries[0].key, k);
      PlainIsNeutral(":", k);
      PrintIsNeutral(entries[0].value, k);
      NeutralAdds(key, ":", k);
      NeutralAdds(key + ":", value, k);
      if |entries| == 1 {
        assert PrintEntries(entries) == key + ":" + value;
      } else {
        EntriesAreNeutral(entries[1..], k);
        PlainIsNeutral(",", k);
        NeutralAdds(",", PrintEntries(entries[1..]), k);
        NeutralAdds(key + ":" + value, "," + PrintEntries(entries[1..]), k);
      }
    }
  }

  // ----- The first balanced span of a text -----

  lemma WalkBracketed(t: string, tail: string, k: Kind)
    requires Neutral(t, k)
    ensures Walk(Scan(0, false, false), [k.open] + t + [k.close] + tail, k) == Some(|t| + 2)
  {
    var st, within := Scan(0, false, false), Scan(1, false, false);
    assert Through(st, [k.open], k) == Some(within) by { assert [k.open][1..] == ""; }
    ThroughAdds(st, [k.open], t, k, within);
    Associates([k.open] + t, [k.close], tail);
    WalkAdds(st, [k.open] + t, [k.close] + tail, k, within);
    assert ([k.close] + tail)[0] == k.close;
  }

  lemma FirstCharAfter(before: string, x: string, c: char)
    requires c !in before && x != "" && x[0] == c
    ensures FindChar(before + x, c, 0) == Some(|before|)
  {
    assert (before + x)[|before|] == c;
    assert forall j | 0 <= j < |before| :: (before + x)[j] == before[j] && before[j] in before;
  }

  /** Whatever comes after it: a bracketed text that the scan passes over is found exactly. */
  lemma BracketedIsFound(before: string, t: string, tail: string, k: Kind)
    requires k.open !in before && Neutral(t, k)
    ensures FirstBalanced(before + ([k.open] + t + [k.close] + tail), k) == Some(Span(|before|, |before| + |t| + 2))
  {
    var x := [k.open] + t + [k.close] + tail;
    FirstCharAfter(before, x, k.open);
    assert (before + x)[|before|..] == x;
    WalkBracketed(t, tail, k);
  }

  /** A span ends with the character that closes it. */
  lemma {:induction false} WalkEndsClosed(st: Scan, s: string, k: Kind)
    requires Walk(st, s, k).Some?
    ensures s[Walk(st, s, k).value - 1] == k.close
    decreases |s|
  {
    match Step(st, s[0], k)
    case None =>
    case Some(next) => WalkEndsClosed(next, s[1..], k);
  }

  lemma SpanEndsClosed(s: string, k: Kind)
    requires FirstBalanced(s, k).Some?
    ensures s[FirstBalanced(s, k).value.end - 1] == k.close
  {
    var start := FindChar(s, k.open, 0).value;
    WalkEndsClosed(Scan(0, false, false), s[start..], k);
  }

  lemma {:induction false} WalkCutShort(st: Scan, s: string, k: Kind, j: nat)
    requires Walk(st, s, k).Some? && j < Walk(st, s, k).value
    ensures Walk(st, s[..j], k) == None
    decreases |s|
  {
    if j > 0 {
      assert s[..j][1..] == s[1..][..j - 1];
      WalkCutShort(Step(st, s[0], k).value, s[1..], k, j - 1);
    }
  }

  function KindOf(v: Value): Option<Kind> {
    match v case Array(_) => Some(Brackets) case Object(_) => Some(Braces) case _ => None
  }

  /** An array or an object, as written, is found exactly, whatever it holds and whatever follows. */
  lemma PrintedIsFound(before: string, v: Value, tail: string)
    requires WellFormed(v) && KindOf(v).Some? && KindOf(v).value.open !in before
    ensures FirstBalanced(before + (Print(v) + tail), KindOf(v).value) == Some(Span(|before|, |before| + |Print(v)|))
  {
    var k := KindOf(v).value;
    match v
    case Array(items) =>
      ItemsAreNeutral(items, k);
      BracketedIsFound(before, PrintItems(items), tail, k);
    case Object(entries) =>
      EntriesAreNeutral(entries, k);
      BracketedIsFound(before, PrintEntries(entries), tail, k);
  }

  /** Cut short anywhere, it is not found: nothing less than the whole text counts. */
  lemma CutShortIsNotFound(v: Value, j: nat)
    requires WellFormed(v) && KindOf(v).Some? && j < |Print(v)|
    ensures FirstBalanced(Print(v)[..j], KindOf(v).value) == None
  {
    var k, s := KindOf(v).value, Print(v);
    PrintedIsFound("", v, "");
    assert "" + (s + "") == s && s[0..] == s;
    if j > 0 {
      assert s[..j] == s[0..j] && s[..j][0] == k.open;
      FirstCharAfter("", s[..j], k.open);
      assert "" + s[..j] == s[..j] && s[..j][0..] == s[..j];
      WalkCutShort(Scan(0, false, false), s, k, j);
    }
  }
}
