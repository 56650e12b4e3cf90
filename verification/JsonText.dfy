/** JSON text as JSON.stringify writes it, with a reader that takes it apart again: the printed
    grammar is uniquely readable. Strings are escaped as in section 7 of RFC 8259. */
module JsonText {
  import opened Prelude

  /** A JavaScript value. A finite number is known by the text Number::toString gives it, which
      identifies 0 and -0 and no other two numbers. */
  datatype Json =
    | Null
    | Bool(value: bool)
    | Num(token: Text)
    | Str(text: Text)
    | Arr(items: seq<Json>)
    | Obj(entries: seq<Entry>)
    | NonFinite
    | Undefined
    | Unsupported

  datatype Entry = Entry(key: Text, value: Json)

  const QUOTE: CodeUnit := 34
  const BACKSLASH: CodeUnit := 92
  const COMMA: CodeUnit := 44
  const COLON: CodeUnit := 58
  const OPEN_ARRAY: CodeUnit := 91
  const CLOSE_ARRAY: CodeUnit := 93
  const OPEN_OBJECT: CodeUnit := 123
  const CLOSE_OBJECT: CodeUnit := 125
  const NULL_TEXT: Text := [110, 117, 108, 108]
  const TRUE_TEXT: Text := [116, 114, 117, 101]
  const FALSE_TEXT: Text := [102, 97, 108, 115, 101]

  // ----- strings

  function Hex(n: int): CodeUnit
    requires 0 <= n < 16
  {
    if n < 10 then 48 + n else 87 + n
  }

  function HexValue(c: CodeUnit): Option<int> {
    if 48 <= c <= 57 then Some(c - 48) else if 97 <= c <= 102 then Some(c - 87) else None
  }

  function UnicodeEscape(c: CodeUnit): Text {
    [BACKSLASH, 117, Hex(c / 16 / 16 / 16), Hex(c / 16 / 16 % 16), Hex(c / 16 % 16), Hex(c % 16)]
  }

  /** The letter of a two-character escape. */
  function ShortEscape(c: CodeUnit): Option<CodeUnit> {
    if c == QUOTE then Some(QUOTE) else if c == BACKSLASH then Some(BACKSLASH)
    else if c == 8 then Some(98) else if c == 12 then Some(102) else if c == 10 then Some(110)
    else if c == 13 then Some(114) else if c == 9 then Some(116) else None
  }

  function ShortUnescape(letter: CodeUnit): Option<CodeUnit> {
    if letter == QUOTE then Some(QUOTE) else if letter == BACKSLASH then Some(BACKSLASH)
    else if letter == 98 then Some(8) else if letter == 102 then Some(12) else if letter == 110 then Some(10)
    else if letter == 114 then Some(13) else if letter == 116 then Some(9) else None
  }

  predicate IsHighSurrogate(c: CodeUnit) { 0xD800 <= c <= 0xDBFF }
  predicate IsLowSurrogate(c: CodeUnit) { 0xDC00 <= c <= 0xDFFF }

  /** The high surrogate at the head of s has its partner next. */
  predicate OpensPair(s: Text, afterHigh: bool) {
    !afterHigh && |s| > 1 && IsHighSurrogate(s[0]) && IsLowSurrogate(s[1])
  }

  function EscapeUnit(c: CodeUnit, paired: bool): Text {
    if ShortEscape(c).Some? then [BACKSLASH, ShortEscape(c).value]
    else if c < 32 || ((IsHighSurrogate(c) || IsLowSurrogate(c)) && !paired) then UnicodeEscape(c)
    else [c]
  }

  /** The body of a string literal: control characters, quotes, backslashes and surrogates without
      their partner are escaped. */
  function Escape(s: Text, afterHigh: bool := false): Text {
    if s == [] then []
    else EscapeUnit(s[0], afterHigh || OpensPair(s, afterHigh)) + Escape(s[1..], OpensPair(s, afterHigh))
  }

  datatype Read<+T> = Read(value: T, rest: Text)

  function ReadEscape(t: Text): (r: Option<Read<CodeUnit>>)
    ensures r.Some? ==> |r.value.rest| < |t|
  {
    if t == [] then None
    else if ShortUnescape(t[0]).Some? then Some(Read(ShortUnescape(t[0]).value, t[1..]))
    else if t[0] == 117 && |t| >= 5 then
      var a, b, c, d := HexValue(t[1]), HexValue(t[2]), HexValue(t[3]), HexValue(t[4]);
      if a.None? || b.None? || c.None? || d.None? then None
      else Some(Read(a.value * 4096 + b.value * 256 + c.value * 16 + d.value, t[5..]))
    else None
  }

  /** Reads a string body up to and including its closing quote. */
  function ReadString(t: Text): (r: Option<Read<Text>>)
    ensures r.Some? ==> |r.value.rest| < |t|
    decreases |t|
  {
    if t == [] then None
    else if t[0] == QUOTE then Some(Read([], t[1..]))
    else if t[0] == BACKSLASH then
      match ReadEscape(t[1..])
      case None => None
      case Some(unit) => Cons(unit.value, ReadString(unit.rest))
    else Cons(t[0], ReadString(t[1..]))
  }

  function Cons(c: CodeUnit, r: Option<Read<Text>>): Option<Read<Text>> {
    if r.None? then None else Some(Read([c] + r.value.value, r.value.rest))
  }

  lemma HexDigitsReads(a: int, b: int, c: int, d: int, r: Text)
    requires 0 <= a < 16 && 0 <= b < 16 && 0 <= c < 16 && 0 <= d < 16
    ensures ReadEscape([117, Hex(a), Hex(b), Hex(c), Hex(d)] + r)
         == Some(Read(a * 4096 + b * 256 + c * 16 + d, r))
  {
    var t := [117, Hex(a), Hex(b), Hex(c), Hex(d)] + r;
    assert t[5..] == r;
  }

  lemma UnicodeReads(c: CodeUnit, tail: Text)
    ensures ReadString(UnicodeEscape(c) + tail) == Cons(c, ReadString(tail))
  {
    var t := UnicodeEscape(c) + tail;
    HexDigitsReads(c / 16 / 16 / 16, c / 16 / 16 % 16, c / 16 % 16, c % 16, tail);
    assert t[1..] == [117, Hex(c / 16 / 16 / 16), Hex(c / 16 / 16 % 16), Hex(c / 16 % 16), Hex(c % 16)] + tail;
  }

  lemma ShortReads(c: CodeUnit, letter: CodeUnit, tail: Text)
    requires ShortUnescape(letter) == Some(c)
    ensures ReadString([BACKSLASH, letter] + tail) == Cons(c, ReadString(tail))
  {
    var t := [BACKSLASH, letter] + tail;
    assert t[1..][1..] == tail && t[1..][0] == letter;
  }

  lemma PlainReads(c: CodeUnit, tail: Text)
    requires c != QUOTE && c != BACKSLASH
    ensures ReadString([c] + tail) == Cons(c, ReadString(tail))
  {
    assert ([c] + tail)[1..] == tail;
  }

  lemma EscapedUnitReads(c: CodeUnit, paired: bool, tail: Text)
    ensures ReadString(EscapeUnit(c, paired) + tail) == Cons(c, ReadString(tail))
  {
    if ShortEscape(c).Some? {
      ShortReads(c, ShortEscape(c).value, tail);
    } else if EscapeUnit(c, paired) == UnicodeEscape(c) {
      UnicodeReads(c, tail);
    } else {
      PlainReads(c, tail);
    }
  }

  /** Escaping loses nothing and the closing quote is never mistaken. */
  lemma {:induction false} StringReads(s: Text, afterHigh: bool, r: Text)
    ensures ReadString(Escape(s, afterHigh) + [QUOTE] + r) == Some(Read(s, r))
  {
    if s == [] {
      assert Escape(s, afterHigh) + [QUOTE] + r == [QUOTE] + r && ([QUOTE] + r)[1..] == r;
    } else {
      var opens := OpensPair(s, afterHigh);
      var head, others := EscapeUnit(s[0], afterHigh || opens), Escape(s[1..], opens);
      StringReads(s[1..], opens, r);
      EscapedUnitReads(s[0], afterHigh || opens, others + [QUOTE] + r);
      ThenShape(head, others, QUOTE, r);
      assert s == [s[0]] + s[1..];
    }
  }

  lemma ThenShape(head: Text, others: Text, close: CodeUnit, r: Text)
    ensures (head + others) + [close] + r == head + (others + [close] + r)
  {
  }

  function Quoted(s: Text): Text {
    [QUOTE] + Escape(s) + [QUOTE]
  }

  // ----- numbers

  predicate IsNumberUnit(c: CodeUnit) {
    48 <= c <= 57 || c == 43 || c == 45 || c == 46 || c == 101
  }

  predicate IsNumberText(t: Text) {
    t != [] && (48 <= t[0] <= 57 || t[0] == 45) && forall i :: 0 <= i < |t| ==> IsNumberUnit(t[i])
  }

  function NumberLength(t: Text): (n: nat)
    ensures n <= |t|
    ensures forall i :: 0 <= i < n ==> IsNumberUnit(t[i])
    ensures n < |t| ==> !IsNumberUnit(t[n])
  {
    if t == [] || !IsNumberUnit(t[0]) then 0 else 1 + NumberLength(t[1..])
  }

  // ----- printing a value as it stands

  /** Defined members and elements only, numbers finite: what JSON text can hold. */
  predicate IsClean(v: Json) {
    match v
    case Num(token) => IsNumberText(token)
    case Arr(items) => forall i :: 0 <= i < |items| ==> IsClean(items[i])
    case Obj(entries) => forall i :: 0 <= i < |entries| ==> IsClean(entries[i].value)
    case NonFinite => false
    case Undefined => false
    case Unsupported => false
    case _ => true
  }

  function Join(texts: seq<Text>): Text {
    if texts == [] then []
    else if |texts| == 1 then texts[0]
    else texts[0] + [COMMA] + Join(texts[1..])
  }

  function Print(v: Json): Text
    decreases v, 1
  {
    match v
    case Null => NULL_TEXT
    case Bool(b) => if b then TRUE_TEXT else FALSE_TEXT
    case Num(token) => token
    case Str(s) => Quoted(s)
    case Arr(items) => [OPEN_ARRAY] + Join(PrintAll(items)) + [CLOSE_ARRAY]
    case Obj(entries) => [OPEN_OBJECT] + Join(PrintEntries(entries)) + [CLOSE_OBJECT]
    case _ => []
  }

  function PrintAll(items: seq<Json>): (texts: seq<Text>)
    ensures |texts| == |items|
    decreases items, 0
  {
    if items == [] then [] else [Print(items[0])] + PrintAll(items[1..])
  }

  function PrintEntries(entries: seq<Entry>): (texts: seq<Text>)
    ensures |texts| == |entries|
    decreases entries, 0
  {
    if entries == [] then []
    else [Quoted(entries[0].key) + [COLON] + Print(entries[0].value)] + PrintEntries(entries[1..])
  }

  // ----- reading it back

  predicate HasPrefix(t: Text, prefix: Text) {
    |prefix| <= |t| && t[..|prefix|] == prefix
  }

  function ReadValue(t: Text): (r: Option<Read<Json>>)
    ensures r.Some? ==> |r.value.rest| < |t|
    decreases |t|, 1
  {
    if t == [] then None
    else if t[0] == QUOTE then
      match ReadString(t[1..])
      case None => None
      case Some(s) => Some(Read(Str(s.value), s.rest))
    else if t[0] == OPEN_ARRAY then
      if |t| > 1 && t[1] == CLOSE_ARRAY then Some(Read(Arr([]), t[2..]))
      else
        match ReadItems(t[1..])
        case None => None
        case Some(items) => Some(Read(Arr(items.value), items.rest))
    else if t[0] == OPEN_OBJECT then
      if |t| > 1 && t[1] == CLOSE_OBJECT then Some(Read(Obj([]), t[2..]))
      else
        match ReadEntries(t[1..])
        case None => None
        case Some(entries) => Some(Read(Obj(entries.value), entries.rest))
    else if HasPrefix(t, NULL_TEXT) then Some(Read(Null, t[4..]))
    else if HasPrefix(t, TRUE_TEXT) then Some(Read(Bool(true), t[4..]))
    else if HasPrefix(t, FALSE_TEXT) then Some(Read(Bool(false), t[5..]))
    else
      var n := NumberLength(t);
      if n == 0 then None else Some(Read(Num(t[..n]), t[n..]))
  }

  function ReadItems(t: Text): (r: Option<Read<seq<Json>>>)
    ensures r.Some? ==> |r.value.rest| < |t|
    decreases |t|, 2
  {
    match ReadValue(t)
    case None => None
    case Some(head) =>
      if head.rest == [] then None
      else if head.rest[0] == CLOSE_ARRAY then Some(Read([head.value], head.rest[1..]))
      else if head.rest[0] != COMMA then None
      else
        match ReadItems(head.rest[1..])
        case None => None
        case Some(tail) => Some(Read([head.value] + tail.value, tail.rest))
  }

  function ReadEntry(t: Text): (r: Option<Read<Entry>>)
    ensures r.Some? ==> |r.value.rest| < |t|
    decreases |t|, 2
  {
    if t == [] || t[0] != QUOTE then None
    else
      match ReadString(t[1..])
      case None => None
      case Some(key) =>
        if key.rest == [] || key.rest[0] != COLON then None
        else
          match ReadValue(key.rest[1..])
          case None => None
          case Some(value) => Some(Read(Entry(key.value, value.value), value.rest))
  }

  function ReadEntries(t: Text): (r: Option<Read<seq<Entry>>>)
    ensures r.Some? ==> |r.value.rest| < |t|
    decreases |t|, 3
  {
    match ReadEntry(t)
    case None => None
    case Some(head) =>
      if head.rest == [] then None
      else if head.rest[0] == CLOSE_OBJECT then Some(Read([head.value], head.rest[1..]))
      else if head.rest[0] != COMMA then None
      else
        match ReadEntries(head.rest[1..])
        case None => None
        case Some(tail) => Some(Read([head.value] + tail.value, tail.rest))
  }

  // ----- the round trip

  /** What may follow a value. */
  predicate EndsValue(r: Text) {
    r == [] || r[0] == COMMA || r[0] == CLOSE_ARRAY || r[0] == CLOSE_OBJECT
  }

  lemma NumberReads(token: Text, r: Text)
    requires IsNumberText(token) && EndsValue(r)
    ensures ReadValue(token + r) == Some(Read(Num(token), r))
  {
    var t := token + r;
    assert forall i :: 0 <= i < |token| ==> t[i] == token[i];
    assert r != [] ==> t[|token|] == r[0];
    assert NumberLength(t) == |token|;
    assert t[0] == token[0] && t[..|token|] == token && t[|token|..] == r;
    assert t[0] != NULL_TEXT[0] && t[0] != TRUE_TEXT[0] && t[0] != FALSE_TEXT[0];
    PrefixStarts(t, NULL_TEXT);
    PrefixStarts(t, TRUE_TEXT);
    PrefixStarts(t, FALSE_TEXT);
  }

  lemma PrefixStarts(t: Text, prefix: Text)
    requires prefix != [] && t != [] && t[0] != prefix[0]
    ensures !HasPrefix(t, prefix)
  {
    if |prefix| <= |t| {
      assert t[..|prefix|][0] == t[0];
    }
  }

  lemma WordReads(v: Json, r: Text)
    requires v.Null? || v.Bool?
    ensures ReadValue(Print(v) + r) == Some(Read(v, r))
  {
    var t := Print(v) + r;
    assert t[..|Print(v)|] == Print(v) && t[|Print(v)|..] == r && t[0] == Print(v)[0];
    if v.Bool? {
      PrefixStarts(t, NULL_TEXT);
    }
    if v == Bool(false) {
      PrefixStarts(t, TRUE_TEXT);
    }
  }

  /** A printed value never starts like the end of a list. */
  lemma FirstUnit(v: Json)
    requires IsClean(v)
    ensures Print(v) != [] && Print(v)[0] != CLOSE_ARRAY
  {
  }

  // one reading step each

  lemma StringValueReads(s: Text, r: Text)
    ensures ReadValue(Quoted(s) + r) == Some(Read(Str(s), r))
  {
    StringReads(s, false, r);
    var t := Quoted(s) + r;
    assert t[0] == QUOTE && t[1..] == Escape(s) + [QUOTE] + r;
  }

  lemma ArrayStep(u: Text, items: seq<Json>, r: Text)
    requires u != [] && u[0] != CLOSE_ARRAY && ReadItems(u) == Some(Read(items, r))
    ensures ReadValue([OPEN_ARRAY] + u) == Some(Read(Arr(items), r))
  {
    var t := [OPEN_ARRAY] + u;
    assert t[1..] == u && t[1] == u[0];
  }

  lemma ObjectStep(u: Text, entries: seq<Entry>, r: Text)
    requires u != [] && u[0] != CLOSE_OBJECT && ReadEntries(u) == Some(Read(entries, r))
    ensures ReadValue([OPEN_OBJECT] + u) == Some(Read(Obj(entries), r))
  {
    var t := [OPEN_OBJECT] + u;
    assert t[1..] == u && t[1] == u[0];
  }

  lemma LastItemStep(t: Text, v: Json, r: Text)
    requires ReadValue(t) == Some(Read(v, [CLOSE_ARRAY] + r))
    ensures ReadItems(t) == Some(Read([v], r))
  {
    assert ([CLOSE_ARRAY] + r)[1..] == r;
  }

  lemma NextItemStep(t: Text, v: Json, tail: Text, items: seq<Json>, r: Text)
    requires ReadValue(t) == Some(Read(v, [COMMA] + tail)) && ReadItems(tail) == Some(Read(items, r))
    ensures ReadItems(t) == Some(Read([v] + items, r))
  {
    assert ([COMMA] + tail)[1..] == tail;
  }

  lemma EntryStep(u: Text, key: Text, w: Text, v: Json, r: Text)
    requires ReadString(u) == Some(Read(key, [COLON] + w)) && ReadValue(w) == Some(Read(v, r))
    ensures ReadEntry([QUOTE] + u) == Some(Read(Entry(key, v), r))
  {
    assert ([QUOTE] + u)[1..] == u && ([COLON] + w)[1..] == w;
  }

  lemma LastEntryStep(t: Text, entry: Entry, r: Text)
    requires ReadEntry(t) == Some(Read(entry, [CLOSE_OBJECT] + r))
    ensures ReadEntries(t) == Some(Read([entry], r))
  {
    assert ([CLOSE_OBJECT] + r)[1..] == r;
  }

  lemma NextEntryStep(t: Text, entry: Entry, tail: Text, entries: seq<Entry>, r: Text)
    requires ReadEntry(t) == Some(Read(entry, [COMMA] + tail)) && ReadEntries(tail) == Some(Read(entries, r))
    ensures ReadEntries(t) == Some(Read([entry] + entries, r))
  {
    assert ([COMMA] + tail)[1..] == tail;
  }

  lemma JoinStarts(texts: seq<Text>)
    requires texts != [] && texts[0] != []
    ensures Join(texts) != [] && Join(texts)[0] == texts[0][0]
  {
  }

  lemma EmptyListReads(r: Text)
    ensures ReadValue(Print(Arr([])) + r) == Some(Read(Arr([]), r))
    ensures ReadValue(Print(Obj([])) + r) == Some(Read(Obj([]), r))
  {
    assert Print(Arr([])) == [OPEN_ARRAY, CLOSE_ARRAY] && Print(Obj([])) == [OPEN_OBJECT, CLOSE_OBJECT];
    assert ([OPEN_ARRAY, CLOSE_ARRAY] + r)[2..] == r && ([OPEN_OBJECT, CLOSE_OBJECT] + r)[2..] == r;
  }

  predicate AllClean(items: seq<Json>) {
    forall i :: 0 <= i < |items| ==> IsClean(items[i])
  }

  predicate AllEntriesClean(entries: seq<Entry>) {
    forall i :: 0 <= i < |entries| ==> IsClean(entries[i].value)
  }

  /** Reading what was printed gives back the value and leaves what follows. */
  lemma {:induction false} ValueReads(v: Json, r: Text)
    requires IsClean(v) && EndsValue(r)
    ensures ReadValue(Print(v) + r) == Some(Read(v, r))
    decreases v, 1
  {
    match v {
      case Num(token) => NumberReads(token, r);
      case Str(s) => StringValueReads(s, r);
      case Arr(items) => ArrayReads(items, r);
      case Obj(entries) => ObjectReads(entries, r);
      case _ => WordReads(v, r);
    }
  }

  /** A printed list, up to the comma after its head. */
  lemma NextShape(head: Text, others: Text, close: CodeUnit, r: Text)
    ensures (head + [COMMA] + others) + [close] + r == head + ([COMMA] + (others + [close] + r))
  {
  }

  lemma LastShape(head: Text, close: CodeUnit, r: Text)
    ensures head + [close] + r == head + ([close] + r)
  {
  }

  lemma ListShape(open: CodeUnit, body: Text, close: CodeUnit, r: Text)
    ensures [open] + body + [close] + r == [open] + (body + [close] + r)
  {
  }

  lemma {:induction false} ArrayReads(items: seq<Json>, r: Text)
    requires AllClean(items)
    ensures ReadValue(Print(Arr(items)) + r) == Some(Read(Arr(items), r))
    decreases items, 1
  {
    if items == [] {
      EmptyListReads(r);
    } else {
      var body := Join(PrintAll(items));
      ItemsRead(items, r);
      FirstUnit(items[0]);
      JoinStarts(PrintAll(items));
      ArrayStep(body + [CLOSE_ARRAY] + r, items, r);
      ListShape(OPEN_ARRAY, body, CLOSE_ARRAY, r);
    }
  }

  lemma {:induction false} ObjectReads(entries: seq<Entry>, r: Text)
    requires AllEntriesClean(entries)
    ensures ReadValue(Print(Obj(entries)) + r) == Some(Read(Obj(entries), r))
    decreases entries, 1
  {
    if entries == [] {
      EmptyListReads(r);
    } else {
      var body := Join(PrintEntries(entries));
      EntriesRead(entries, r);
      JoinStarts(PrintEntries(entries));
      ObjectStep(body + [CLOSE_OBJECT] + r, entries, r);
      ListShape(OPEN_OBJECT, body, CLOSE_OBJECT, r);
    }
  }

  lemma {:induction false} ItemsRead(items: seq<Json>, r: Text)
    requires items != [] && AllClean(items)
    ensures ReadItems(Join(PrintAll(items)) + [CLOSE_ARRAY] + r) == Some(Read(items, r))
    decreases items, 0
  {
    var t := Join(PrintAll(items)) + [CLOSE_ARRAY] + r;
    if |items| == 1 {
      ValueReads(items[0], [CLOSE_ARRAY] + r);
      LastShape(Print(items[0]), CLOSE_ARRAY, r);
      LastItemStep(t, items[0], r);
      assert items == [items[0]];
    } else {
      var others := Join(PrintAll(items[1..]));
      var tail := others + [CLOSE_ARRAY] + r;
      ItemsRead(items[1..], r);
      ValueReads(items[0], [COMMA] + tail);
      assert PrintAll(items)[1..] == PrintAll(items[1..]);
      NextShape(Print(items[0]), others, CLOSE_ARRAY, r);
      NextItemStep(t, items[0], tail, items[1..], r);
      assert items == [items[0]] + items[1..];
    }
  }

  function PrintEntry(entry: Entry): Text {
    Quoted(entry.key) + [COLON] + Print(entry.value)
  }

  lemma {:induction false} EntryReads(entry: Entry, r: Text)
    requires IsClean(entry.value) && EndsValue(r)
    ensures ReadEntry(PrintEntry(entry) + r) == Some(Read(entry, r))
    decreases entry, 2
  {
    var w := Print(entry.value) + r;
    StringReads(entry.key, false, [COLON] + w);
    ValueReads(entry.value, r);
    EntryStep(Escape(entry.key) + [QUOTE] + ([COLON] + w), entry.key, w, entry.value, r);
    EntryShape(entry.key, Print(entry.value), r);
  }

  lemma EntryShape(key: Text, value: Text, r: Text)
    ensures Quoted(key) + [COLON] + value + r == [QUOTE] + (Escape(key) + [QUOTE] + ([COLON] + (value + r)))
  {
  }

  lemma {:induction false} EntriesRead(entries: seq<Entry>, r: Text)
    requires entries != [] && AllEntriesClean(entries)
    ensures ReadEntries(Join(PrintEntries(entries)) + [CLOSE_OBJECT] + r) == Some(Read(entries, r))
    decreases entries, 0
  {
    var t := Join(PrintEntries(entries)) + [CLOSE_OBJECT] + r;
    if |entries| == 1 {
      EntryReads(entries[0], [CLOSE_OBJECT] + r);
      LastShape(PrintEntry(entries[0]), CLOSE_OBJECT, r);
      LastEntryStep(t, entries[0], r);
      assert entries == [entries[0]];
    } else {
      var others := Join(PrintEntries(entries[1..]));
      var tail := others + [CLOSE_OBJECT] + r;
      EntriesRead(entries[1..], r);
      EntryReads(entries[0], [COMMA] + tail);
      assert PrintEntries(entries)[1..] == PrintEntries(entries[1..]);
      NextShape(PrintEntry(entries[0]), others, CLOSE_OBJECT, r);
      NextEntryStep(t, entries[0], tail, entries[1..], r);
      assert entries == [entries[0]] + entries[1..];
    }
  }

  /** No two clean values print alike. */
  lemma PrintIsInjective(v: Json, w: Json)
    requires IsClean(v) && IsClean(w) && Print(v) == Print(w)
    ensures v == w
  {
    ValueReads(v, []);
    ValueReads(w, []);
    assert Print(v) + [] == Print(w) + [];
  }
}
