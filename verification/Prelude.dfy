/** Values shared by every component: results, options, and text as the UTF-16 code units
    that the source's string comparison works on. */
module Prelude {

  datatype Option<+T> = None | Some(value: T)

  datatype Result<+T, +E> = Ok(value: T) | Err(error: E)

  /** A JavaScript number in exact arithmetic; infinities and NaN are not told apart. */
  datatype Numeric = NotReal | Real(value: real)

  /** Number.MAX_SAFE_INTEGER */
  const MAX_SAFE_INTEGER: int := 0x1F_FFFF_FFFF_FFFF

  predicate IsSafeInteger(n: int) {
    -MAX_SAFE_INTEGER <= n <= MAX_SAFE_INTEGER
  }

  function IntMin(x: int, y: int): int {
    if x <= y then x else y
  }

  function IntMax(x: int, y: int): int {
    if x <= y then y else x
  }

  type CodeUnit = n: int | 0 <= n < 0x1_0000

  type Text = seq<CodeUnit>

  /** Strings compare by code unit, a proper prefix first. */
  predicate TextLeq(a: Text, b: Text) {
    if a == [] then true
    else if b == [] then false
    else if a[0] != b[0] then a[0] < b[0]
    else TextLeq(a[1..], b[1..])
  }

  lemma {:induction false} TextLeqTotal(a: Text, b: Text)
    ensures TextLeq(a, b) || TextLeq(b, a)
    ensures TextLeq(a, b) && TextLeq(b, a) ==> a == b
  {
    if a != [] && b != [] && a[0] == b[0] {
      TextLeqTotal(a[1..], b[1..]);
      assert a == [a[0]] + a[1..] && b == [b[0]] + b[1..];
    }
  }

  lemma {:induction false} TextLeqTransitive(a: Text, b: Text, c: Text)
    requires TextLeq(a, b) && TextLeq(b, c)
    ensures TextLeq(a, c)
  {
    if a != [] && b != [] && c != [] && a[0] == b[0] == c[0] {
      TextLeqTransitive(a[1..], b[1..], c[1..]);
    }
  }

  // ----- the two venues

  datatype Venue = Polymarket | Kalshi

  datatype Side = BUY | SELL

  datatype Asset = BTC | ETH | SOL | XRP | DOGE | BNB | HYPE

  function VenueName(venue: Venue): Text {
    // "polymarket" and "kalshi"
    if venue.Polymarket? then [112, 111, 108, 121, 109, 97, 114, 107, 101, 116] else [107, 97, 108, 115, 104, 105]
  }

  // ----- comparators that try one field after the other

  datatype KeyPart = Name(text: Text) | Rank(rank: int) | Amount(amount: real)

  predicate PartLeq(a: KeyPart, b: KeyPart) {
    match (a, b)
    case (Name(s), Name(t)) => TextLeq(s, t)
    case (Rank(m), Rank(n)) => m <= n
    case (Amount(x), Amount(y)) => x <= y
    case (Rank(_), _) => true
    case (Amount(_), Name(_)) => true
    case _ => false
  }

  /** The order of an `x || y || z` chain of comparisons. */
  predicate KeyLeq(a: seq<KeyPart>, b: seq<KeyPart>) {
    if a == [] then true
    else if b == [] then false
    else if a[0] != b[0] then PartLeq(a[0], b[0])
    else KeyLeq(a[1..], b[1..])
  }

  lemma PartLeqOrders(a: KeyPart, b: KeyPart, c: KeyPart)
    ensures PartLeq(a, b) || PartLeq(b, a)
    ensures PartLeq(a, b) && PartLeq(b, a) ==> a == b
    ensures PartLeq(a, b) && PartLeq(b, c) ==> PartLeq(a, c)
  {
    if a.Name? && b.Name? {
      TextLeqTotal(a.text, b.text);
      if c.Name? && TextLeq(a.text, b.text) && TextLeq(b.text, c.text) {
        TextLeqTransitive(a.text, b.text, c.text);
      }
    }
  }

  lemma {:induction false} KeyLeqTotal(a: seq<KeyPart>, b: seq<KeyPart>)
    ensures KeyLeq(a, b) || KeyLeq(b, a)
    ensures KeyLeq(a, b) && KeyLeq(b, a) ==> a == b
  {
    if a != [] && b != [] {
      PartLeqOrders(a[0], b[0], b[0]);
      if a[0] == b[0] {
        KeyLeqTotal(a[1..], b[1..]);
        assert a == [a[0]] + a[1..] && b == [b[0]] + b[1..];
      }
    }
  }

  lemma {:induction false} KeyLeqTransitive(a: seq<KeyPart>, b: seq<KeyPart>, c: seq<KeyPart>)
    requires KeyLeq(a, b) && KeyLeq(b, c)
    ensures KeyLeq(a, c)
  {
    if a != [] && b != [] && c != [] {
      PartLeqOrders(a[0], b[0], c[0]);
      PartLeqOrders(b[0], c[0], a[0]);
      PartLeqOrders(a[0], c[0], b[0]);
      if a[0] == b[0] == c[0] {
        KeyLeqTransitive(a[1..], b[1..], c[1..]);
      }
    }
  }

  /** The white space that String.prototype.trim removes. */
  predicate IsWhitespace(c: CodeUnit) {
    9 <= c <= 13 || c == 32 || c == 0xA0 || c == 0x1680 || 0x2000 <= c <= 0x200A
    || c == 0x2028 || c == 0x2029 || c == 0x202F || c == 0x205F || c == 0x3000 || c == 0xFEFF
  }

  /** A non-empty string that trimming leaves alone. */
  predicate IsCanonicalText(t: Text) {
    t != [] && !IsWhitespace(t[0]) && !IsWhitespace(t[|t| - 1])
  }
}
