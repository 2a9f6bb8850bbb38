/** The JSON that the builders of apps/sendspin/sendspin_protocol.c print, and what its readers make of
    it: printing and reading are inverse. */
module JsonPrint {
  import opened Common
  import opened JsonText

  datatype Json = Null | Bool(b: bool) | Num(n: int) | Str(s: string) | Arr(items: seq<Json>) | Obj(fields: seq<Entry>)
  datatype Entry = Entry(key: string, value: Json)

  const HEX: string := "0123456789abcdef"

  // Section 7 of RFC 8259: quotes, backslashes and control characters are escaped.
  function EscapeChar(c: char): (r: string)
    ensures r != []
  {
    var x := c as int;
    if c == '\"' then "\\\""
    else if c == '\\' then "\\\\"
    else if x == 8 then "\\b"
    else if x == 12 then "\\f"
    else if x == 10 then "\\n"
    else if x == 13 then "\\r"
    else if x == 9 then "\\t"
    else if x < 0x20 then ['\\', 'u', '0', '0', HEX[x / 16], HEX[x % 16]]
    else [c]
  }

  function Escape(s: string): string
    decreases |s|
  {
    if s == [] then [] else EscapeChar(s[0]) + Escape(s[1..])
  }

  function Quote(s: string): string {
    ['\"'] + Escape(s) + ['\"']
  }

  function DigitChar(d: nat): (r: char)
    requires d < 10
    ensures Digit(r) && DigitValue(r) == d
  {
    '0' + d as char
  }

  function Decimal(n: nat): (r: string)
    ensures r != [] && forall i :: 0 <= i < |r| ==> Digit(r[i])
    decreases n
  {
    if n < 10 then [DigitChar(n)] else Decimal(n / 10) + [DigitChar(n % 10)]
  }

  function Integer(n: int): (r: string)
    ensures r != [] && (r[0] == '-' || Digit(r[0]))
  {
    if n < 0 then ['-'] + Decimal(-n) else Decimal(n)
  }

  function Print(j: Json): (r: string)
    ensures r != [] && !Space(r[0])
    decreases j, 1
  {
    match j
    case Null => "null"
    case Bool(b) => if b then "true" else "false"
    case Num(n) => Integer(n)
    case Str(s) => Quote(s)
    case Arr(items) => ['['] + PrintItems(items) + [']']
    case Obj(fields) => ['{'] + PrintFields(fields) + ['}']
  }

  function PrintItems(items: seq<Json>): string
    decreases items, 0
  {
    if items == [] then []
    else Print(items[0]) + if |items| == 1 then [] else [','] + PrintItems(items[1..])
  }

  function PrintEntry(e: Entry): string
    decreases e, 2
  {
    Quote(e.key) + [':'] + Print(e.value)
  }

  function PrintFields(fields: seq<Entry>): string
    decreases fields, 0
  {
    if fields == [] then []
    else PrintEntry(fields[0]) + if |fields| == 1 then [] else [','] + PrintFields(fields[1..])
  }

  function HexValue(c: char): Option<nat> {
    if Digit(c) then Some(DigitValue(c))
    else if 'a' <= c <= 'f' then Some(c as nat - 'a' as nat + 10)
    else if 'A' <= c <= 'F' then Some(c as nat - 'A' as nat + 10)
    else None
  }

  function SimpleEscape(c: char): Option<char> {
    if c == '\"' || c == '\\' || c == '/' then Some(c)
    else if c == 'b' then Some(8 as char)
    else if c == 'f' then Some(12 as char)
    else if c == 'n' then Some('\n')
    else if c == 'r' then Some('\r')
    else if c == 't' then Some('\t')
    else None
  }

  // The first character that an escaped text stands for, and the length of its escape. Bare quotes and
  // control characters are errors.
  function UnescapeChar(s: string): (r: Option<(char, nat)>)
    requires s != []
    ensures r.Some? ==> 0 < r.value.1 <= |s|
  {
    if s[0] != '\\' then if s[0] == '\"' || s[0] as int < 0x20 then None else Some((s[0], 1))
    else if |s| < 2 then None
    else if s[1] != 'u' then
      var c := SimpleEscape(s[1]);
      if c == None then None else Some((c.value, 2))
    else if |s| < 6 then None
    else
      var a, b, c, d := HexValue(s[2]), HexValue(s[3]), HexValue(s[4]), HexValue(s[5]);
      if a == None || b == None || c == None || d == None then None
      else
        var x := ((a.value * 16 + b.value) * 16 + c.value) * 16 + d.value;
        if x < 0xD800 then Some((x as char, 6)) else None
  }

  function Unescape(s: string): Option<string>
    decreases |s|
  {
    if s == [] then Some([])
    else
      var c := UnescapeChar(s);
      if c == None then None
      else
        var rest := Unescape(s[c.value.1..]);
        if rest == None then None else Some([c.value.0] + rest.value)
  }

  lemma UnescapeOne(c: char, rest: string)
    ensures UnescapeChar(EscapeChar(c) + rest) == Some((c, |EscapeChar(c)|))
  {
    if c as int < 0x20 {
      HexOfDigit(c as int / 16);
      HexOfDigit(c as int % 16);
    }
  }

  lemma HexOfDigit(x: nat)
    requires x < 16
    ensures HexValue(HEX[x]) == Some(x)
  {
  }

  // Every byte string survives escaping and unescaping.
  lemma {:induction false} EscapeRoundTrip(s: string)
    ensures Unescape(Escape(s)) == Some(s)
    decreases |s|
  {
    hide EscapeChar, UnescapeChar;
    if s != [] {
      UnescapeOne(s[0], Escape(s[1..]));
      EscapeRoundTrip(s[1..]);
      assert Escape(s)[|EscapeChar(s[0])|..] == Escape(s[1..]);
      assert [s[0]] + s[1..] == s;
    }
  }

  // The text has s at position p.
  ghost predicate Holds(t: string, p: nat, s: string) {
    p + |s| <= |t| && t[p..p + |s|] == s
  }

  lemma HoldsSplit(t: string, p: nat, a: string, b: string)
    requires Holds(t, p, a + b)
    ensures Holds(t, p, a) && Holds(t, p + |a|, b)
  {
    assert t[p..p + |a + b|][..|a|] == a && t[p..p + |a + b|][|a|..] == b;
  }

  lemma HoldsAt(t: string, p: nat, s: string, i: nat)
    requires Holds(t, p, s) && i < |s|
    ensures p + i < |t| && t[p + i] == s[i]
  {
    assert t[p..p + |s|][i] == s[i];
  }

  lemma EscapedCharPassed(t: string, p: nat, c: char)
    requires Holds(t, p, EscapeChar(c)) && p + |EscapeChar(c)| < |t|
    ensures StringEnd(t, p) == StringEnd(t, p + |EscapeChar(c)|)
  {
    var e := EscapeChar(c);
    HoldsAt(t, p, e, 0);
    if |e| == 2 {
      HoldsAt(t, p, e, 1);
    } else if |e| == 6 {
      HoldsAt(t, p, e, 1);
      HoldsAt(t, p, e, 2);
      HoldsAt(t, p, e, 3);
      HoldsAt(t, p, e, 4);
      HoldsAt(t, p, e, 5);
      HexIsPlain(c as int / 16);
      HexIsPlain(c as int % 16);
      PassPlain(t, p + 2, 4);
    }
  }

  lemma HexIsPlain(x: nat)
    requires x < 16
    ensures HEX[x] != '\"' && HEX[x] != '\\'
  {
  }

  lemma {:induction false} PassPlain(t: string, p: nat, n: nat)
    requires p + n <= |t| && forall i :: p <= i < p + n ==> t[i] != '\"' && t[i] != '\\'
    ensures StringEnd(t, p) == StringEnd(t, p + n)
    decreases n
  {
    if n > 0 {
      PassPlain(t, p + 1, n - 1);
    }
  }

  // A printed string ends at its own closing quote.
  lemma {:induction false} QuoteEnds(t: string, p: nat, s: string)
    requires Holds(t, p, Escape(s) + ['\"'])
    ensures StringEnd(t, p) == Some(p + |Escape(s)|)
    decreases |s|
  {
    hide EscapeChar;
    if s == [] {
      HoldsAt(t, p, Escape(s) + ['\"'], 0);
    } else {
      var e := EscapeChar(s[0]);
      assert Escape(s) + ['\"'] == e + (Escape(s[1..]) + ['\"']);
      HoldsSplit(t, p, e, Escape(s[1..]) + ['\"']);
      EscapedCharPassed(t, p, s[0]);
      QuoteEnds(t, p + |e|, s[1..]);
    }
  }

  lemma QuoteScans(t: string, p: nat, s: string)
    requires Holds(t, p, Quote(s))
    ensures p < |t| && t[p] == '\"' && ScanString(t, p) == Some(p + |Quote(s)|) && Quoted(t, p) == Escape(s)
  {
    hide StringEnd, Escape;
    HoldsAt(t, p, Quote(s), 0);
    assert Quote(s) == ['\"'] + (Escape(s) + ['\"']);
    HoldsSplit(t, p, ['\"'], Escape(s) + ['\"']);
    QuoteEnds(t, p + 1, s);
    HoldsSplit(t, p + 1, Escape(s), ['\"']);
  }

  // What follows does not continue a number.
  ghost predicate Delimited(t: string, q: nat) {
    q < |t| ==> !Digit(t[q]) && t[q] != '.' && t[q] != 'e' && t[q] != 'E'
  }

  lemma {:induction false} DigitsEnd(t: string, p: nat, q: nat)
    requires p <= q <= |t| && (forall i :: p <= i < q ==> Digit(t[i])) && (q < |t| ==> !Digit(t[q]))
    ensures SkipDigits(t, p) == q
    decreases q - p
  {
    if p < q {
      DigitsEnd(t, p + 1, q);
    }
  }

  lemma {:induction false} DecimalReads(t: string, p: nat, n: nat)
    requires Holds(t, p, Decimal(n))
    ensures var q := p + |Decimal(n)|;
      (forall i :: p <= i < q ==> Digit(t[i])) && DecimalValue(t, p, q) == n
    decreases n
  {
    var d := Decimal(n);
    forall i | p <= i < p + |d| ensures Digit(t[i]) {
      HoldsAt(t, p, d, i - p);
    }
    if n < 10 {
      HoldsAt(t, p, d, 0);
      assert DecimalValue(t, p, p) == 0;
    } else {
      HoldsSplit(t, p, Decimal(n / 10), [DigitChar(n % 10)]);
      DecimalReads(t, p, n / 10);
      HoldsAt(t, p, d, |d| - 1);
    }
  }

  // An integer is read back exactly, or clamped to the nearest int64.
  lemma IntegerReads(t: string, p: nat, n: int)
    requires Holds(t, p, Integer(n)) && Delimited(t, p + |Integer(n)|)
    ensures ParseNumber(t, p) == Some((Clamp64(n), p + |Integer(n)|)) && SkipNumber(t, p) == Some(p + |Integer(n)|)
  {
    hide Decimal, DecimalValue, SkipDigits;
    var s, q := if n < 0 then p + 1 else p, p + |Integer(n)|;
    HoldsAt(t, p, Integer(n), 0);
    if n < 0 {
      HoldsSplit(t, p, ['-'], Decimal(-n));
    }
    DecimalReads(t, s, if n < 0 then -n else n);
    DigitsEnd(t, s, q);
    DigitsEnd(t, s + 1, q);
  }

  lemma LiteralReads(t: string, p: nat, literal: string)
    requires Holds(t, p, literal) && literal != [] && !Space(literal[0])
    ensures SkipWs(t, p) == p && t[p] == literal[0] && MatchLiteral(t, p, literal) == Some(p + |literal|)
  {
    HoldsAt(t, p, literal, 0);
  }

  // What the reader should report about a printed value.
  function ReadBack(j: Json): Value {
    match j
    case Null => Value(NullKind, false, 0, "", Print(j))
    case Bool(b) => Value(BoolKind, b, 0, "", Print(j))
    case Num(n) => Value(NumberKind, false, Clamp64(n), "", Print(j))
    case Str(s) => Value(StringKind, false, 0, Escape(s), Print(j))
    case Arr(items) => Value(ArrayKind, false, 0, "", Print(j))
    case Obj(fields) => Value(ObjectKind, false, 0, "", Print(j))
  }

  lemma FirstChar(j: Json)
    ensures KindAt(Print(j)[0]) == ReadBack(j).kind && (Print(j)[0] == 't') == (j == Bool(true))
  {
    hide Decimal, Escape;
  }

  // The value a path leads to: at each object the first member with that key, in its escaped form.
  function Member(fields: seq<Entry>, segment: string): Option<Json>
    decreases |fields|
  {
    if fields == [] then None
    else if Escape(fields[0].key) == segment then Some(fields[0].value)
    else Member(fields[1..], segment)
  }

  function Lookup(j: Json, segments: seq<string>): Result<Json>
    requires segments != []
    decreases |segments|
  {
    if !j.Obj? then Failure(INVALID)
    else
      var m := Member(j.fields, segments[0]);
      if m == None then Failure(UNSUPPORTED)
      else if |segments| == 1 then Success(m.value)
      else Lookup(m.value, segments[1..])
  }

  lemma NoFields()
    ensures PrintFields([]) == ""
  {
  }
}
