/** JSON as it may be laid out: values with white space wherever section 2 of RFC 8259 allows it, and what the
    readers of apps/sendspin/sendspin_protocol.c make of such a text. */
module JsonLayout {
  import opened Common
  import opened JsonText
  import opened JsonPrint
  import opened JsonScan

  // Numbers that are no integers, and containers, with the white space around their parts.
  datatype Doc =
    | Leaf(j: Json)
    | Real(negative: bool, whole: string, fraction: Option<string>, exponent: Option<Exponent>)
    | List(open: string, items: seq<Item>)
    | Record(open: string, pairs: seq<Pair>)
  datatype Exponent = Exponent(letter: char, sign: string, digits: string)
  datatype Item = Item(before: string, value: Doc, after: string)
  datatype Pair = Pair(before: string, key: string, colon: string, gap: string, value: Doc, after: string)

  predicate Blank(s: string) {
    forall i :: 0 <= i < |s| ==> s[i] == ' ' || s[i] == '\t' || s[i] == '\n' || s[i] == '\r'
  }

  predicate Digits(s: string) {
    s != [] && forall i :: 0 <= i < |s| ==> '0' <= s[i] <= '9'
  }

  predicate Proper(d: Doc)
    decreases d
  {
    match d
    case Leaf(j) => !j.Arr? && !j.Obj?
    case Real(_, whole, fraction, exponent) =>
      && Digits(whole) && (fraction.Some? || exponent.Some?) && (fraction.Some? ==> Digits(fraction.value))
      && (exponent.Some? ==> ProperExponent(exponent.value))
    case List(open, items) => Blank(open) && forall i :: 0 <= i < |items| ==> Blank(items[i].before) && Proper(items[i].value) && Blank(items[i].after)
    case Record(open, pairs) => Blank(open) && forall i :: 0 <= i < |pairs| ==> ProperBlanks(pairs[i]) && Proper(pairs[i].value)
  }

  predicate ProperExponent(e: Exponent) {
    (e.letter == 'e' || e.letter == 'E') && (e.sign == "" || e.sign == "+" || e.sign == "-") && Digits(e.digits)
  }

  predicate ProperBlanks(pair: Pair) {
    Blank(pair.before) && Blank(pair.colon) && Blank(pair.gap) && Blank(pair.after)
  }

  function Text(d: Doc): string
    decreases d, 1
  {
    match d
    case Leaf(j) => Print(j)
    case Real(negative, whole, fraction, exponent) => RealText(negative, whole, fraction, exponent)
    case List(open, items) => "[" + (if items == [] then open else ItemsText(items)) + "]"
    case Record(open, pairs) => "{" + (if pairs == [] then open else PairsText(pairs)) + "}"
  }

  function RealText(negative: bool, whole: string, fraction: Option<string>, exponent: Option<Exponent>): string {
    (if negative then "-" else "") + whole + FractionText(fraction) + ExponentText(exponent)
  }

  function FractionText(fraction: Option<string>): string {
    if fraction.Some? then "." + fraction.value else ""
  }

  function ExponentText(exponent: Option<Exponent>): string {
    if exponent.Some? then [exponent.value.letter] + exponent.value.sign + exponent.value.digits else ""
  }

  function ItemsText(items: seq<Item>): string
    requires items != []
    decreases items, 0
  {
    items[0].before + Text(items[0].value) + items[0].after + if |items| == 1 then "" else "," + ItemsText(items[1..])
  }

  function PairText(pair: Pair): string
    decreases pair, 2
  {
    Quote(pair.key) + pair.colon + ":" + pair.gap + Text(pair.value)
  }

  function PairsText(pairs: seq<Pair>): string
    requires pairs != []
    decreases pairs, 0
  {
    pairs[0].before + PairText(pairs[0]) + pairs[0].after + if |pairs| == 1 then "" else "," + PairsText(pairs[1..])
  }

  /** What skip_value asks beyond JSON: that no white space stands between a comma and the key behind it, in any
      object at any depth. */
  predicate Tight(d: Doc)
    decreases d, 1
  {
    match d
    case List(_, items) => TightItems(items)
    case Record(_, pairs) => TightPairs(pairs, false)
    case _ => true
  }

  predicate TightItems(items: seq<Item>)
    decreases items, 0
  {
    items != [] ==> Tight(items[0].value) && TightItems(items[1..])
  }

  predicate TightPairs(pairs: seq<Pair>, behindComma: bool)
    decreases pairs, 0
  {
    pairs != [] ==> (behindComma ==> pairs[0].before == "") && Tight(pairs[0].value) && TightPairs(pairs[1..], true)
  }

  // Exactly the four characters are passed over as white space.
  lemma {:induction false} OnlyBlanksAreSkipped(t: string, p: nat, q: nat)
    requires p <= q <= |t|
    ensures SkipWs(t, p) == q <==> Blank(t[p..q]) && (q < |t| ==> t[q] != ' ' && t[q] != '\t' && t[q] != '\n' && t[q] != '\r')
    decreases q - p
  {
    if p < q {
      OnlyBlanksAreSkipped(t, p + 1, q);
      assert t[p..q] == [t[p]] + t[p + 1..q];
    }
  }

  lemma BlanksSkipped(t: string, p: nat, s: string)
    requires Holds(t, p, s) && Blank(s) && (p + |s| < |t| ==> !Space(t[p + |s|]))
    ensures SkipWs(t, p) == p + |s|
  {
    hide SkipWs;
    OnlyBlanksAreSkipped(t, p, p + |s|);
  }

  lemma HoldsFits(t: string, p: nat, s: string)
    requires Holds(t, p, s)
    ensures p + |s| <= |t|
  {
  }

  // Four parts of a text, the last of them not empty.
  lemma HoldsParts(t: string, p: nat, a: string, b: string, c: string, d: string)
    requires Holds(t, p, a + b + c + d) && d != ""
    ensures Holds(t, p, a) && Holds(t, p + |a|, b) && Holds(t, p + |a| + |b|, c) && Holds(t, p + |a| + |b| + |c|, d)
    ensures p + |a| + |b| + |c| < |t| && t[p + |a| + |b| + |c|] == d[0]
  {
    hide Holds;
    HoldsSplit(t, p, a + b + c, d);
    HoldsSplit(t, p, a + b, c);
    HoldsSplit(t, p, a, b);
    HoldsAt(t, p + |a| + |b| + |c|, d, 0);
  }

  // A text in brackets.
  lemma HoldsBracketed(t: string, p: nat, open: char, s: string, close: char)
    requires Holds(t, p, [open] + s + [close])
    ensures p + 1 + |s| < |t| && t[p] == open && Holds(t, p + 1, s) && Holds(t, p + 1, s + [close]) && t[p + 1 + |s|] == close
  {
    hide Holds;
    HoldsAt(t, p, [open] + s + [close], 0);
    HoldsAt(t, p, [open] + s + [close], 1 + |s|);
    assert [open] + s + [close] == [open] + (s + [close]);
    HoldsSplit(t, p, [open], s + [close]);
    HoldsSplit(t, p + 1, s, [close]);
  }

  // Readers start behind white space.
  lemma SkipValueHere(t: string, p: nat, w: nat)
    requires p <= |t| && SkipWs(t, p) == w
    ensures w <= |t| && SkipValue(t, p) == SkipValue(t, w) && ParseValue(t, p) == ParseValue(t, w)
  {
    hide SkipObject, SkipArray, ScanString, MatchLiteral, SkipNumber, ParseNumber;
    SkipWsStays(t, p);
  }

  // What starts a value: no white space, and none of the closing brackets.
  lemma FirstOfText(d: Doc)
    requires Proper(d)
    ensures Text(d) != [] && !Space(Text(d)[0]) && Text(d)[0] != ']' && Text(d)[0] != '}'
    ensures (Text(d)[0] == '[') == d.List? && (Text(d)[0] == '{') == d.Record? && (Text(d)[0] == '\"') == (d.Leaf? && d.j.Str?)
  {
    hide Decimal, Escape, ItemsText, PairsText;
  }

  lemma DigitsPassed(t: string, p: nat, s: string)
    requires Holds(t, p, s) && Digits(s) && (p + |s| < |t| ==> !Digit(t[p + |s|]))
    ensures SkipDigits(t, p) == p + |s|
  {
    forall i | p <= i < p + |s| ensures Digit(t[i]) {
      HoldsAt(t, p, s, i - p);
    }
    DigitsEnd(t, p, p + |s|);
  }

  lemma SignAndDigits(t: string, p: nat, sign: string, digits: string)
    requires Holds(t, p, sign + digits) && (sign == "" || sign == "+" || sign == "-") && Digits(digits)
    requires p + |sign| + |digits| < |t| ==> !Digit(t[p + |sign| + |digits|])
    ensures p <= |t| && SkipDigits(t, if p < |t| && (t[p] == '+' || t[p] == '-') then p + 1 else p) == p + |sign| + |digits|
  {
    hide SkipDigits, Holds;
    HoldsFits(t, p, sign + digits);
    HoldsSplit(t, p, sign, digits);
    if sign != "" {
      HoldsAt(t, p, sign, 0);
    } else {
      HoldsAt(t, p, digits, 0);
    }
    DigitsPassed(t, p + |sign|, digits);
  }

  lemma ExponentPassed(t: string, p: nat, exponent: Option<Exponent>)
    requires Holds(t, p, ExponentText(exponent)) && Delimited(t, p + |ExponentText(exponent)|) && (exponent.Some? ==> ProperExponent(exponent.value))
    ensures SkipExponent(t, p) == p + |ExponentText(exponent)|
    ensures exponent.Some? ==> p < |t| && (t[p] == 'e' || t[p] == 'E')
  {
    hide SkipDigits, Holds;
    HoldsFits(t, p, ExponentText(exponent));
    if exponent.Some? {
      var e := exponent.value;
      assert ExponentText(exponent) == [e.letter] + (e.sign + e.digits);
      HoldsSplit(t, p, [e.letter], e.sign + e.digits);
      HoldsAt(t, p, [e.letter], 0);
      SignAndDigits(t, p + 1, e.sign, e.digits);
    }
  }

  lemma FractionPassed(t: string, p: nat, fraction: Option<string>, exponent: Option<Exponent>)
    requires Holds(t, p, FractionText(fraction) + ExponentText(exponent))
    requires Delimited(t, p + |FractionText(fraction)| + |ExponentText(exponent)|)
    requires (fraction.Some? ==> Digits(fraction.value)) && (exponent.Some? ==> ProperExponent(exponent.value))
    ensures SkipFraction(t, p) == p + |FractionText(fraction)| && Holds(t, SkipFraction(t, p), ExponentText(exponent))
    ensures fraction.Some? ==> p < |t| && t[p] == '.'
  {
    hide SkipDigits, ExponentText;
    var f, e := FractionText(fraction), ExponentText(exponent);
    HoldsSplit(t, p, f, e);
    ExponentPassed(t, p + |f|, exponent);
    ExponentIsNone(exponent);
    if fraction.Some? {
      HoldsAt(t, p, f, 0);
      HoldsSplit(t, p, ".", fraction.value);
      DigitsPassed(t, p + 1, fraction.value);
    }
  }

  lemma ExponentIsNone(exponent: Option<Exponent>)
    ensures exponent == None ==> ExponentText(exponent) == ""
  {
  }

  // A number with a fraction or an exponent is passed over, and refused where a value is read.
  lemma {:induction false} RealReads(t: string, p: nat, d: Doc)
    requires d.Real? && Proper(d) && Holds(t, p, Text(d)) && Delimited(t, p + |Text(d)|)
    ensures SkipNumber(t, p) == Some(p + |Text(d)|) && ParseNumber(t, p) == None && p < |t| && KindAt(t[p]) == NumberKind && !Space(t[p])
  {
    hide SkipDigits, SkipFraction, SkipExponent, FractionText, ExponentText, DecimalValue, Holds, Digits, ProperExponent, Delimited, Text;
    var f, e := FractionText(d.fraction), ExponentText(d.exponent);
    var s := if d.negative then p + 1 else p;
    var q := s + |d.whole|;
    RealParts(t, p, d);
    FractionPassed(t, q, d.fraction, d.exponent);
    ExponentPassed(t, q + |f|, d.exponent);
    FractionIsNone(d.fraction);
    ExponentIsNone(d.exponent);
    WholePassed(t, s, d.whole, q);
  }

  lemma {:induction false} RealParts(t: string, p: nat, d: Doc)
    requires d.Real? && Holds(t, p, Text(d))
    ensures var s := if d.negative then p + 1 else p; var q := s + |d.whole|;
      && Holds(t, s, d.whole) && Holds(t, q, FractionText(d.fraction) + ExponentText(d.exponent))
      && p + |Text(d)| == q + |FractionText(d.fraction)| + |ExponentText(d.exponent)|
      && (d.negative ==> p < |t| && t[p] == '-')
  {
    hide FractionText, ExponentText, Holds;
    var minus, f, e := if d.negative then "-" else "", FractionText(d.fraction), ExponentText(d.exponent);
    assert Text(d) == minus + (d.whole + (f + e));
    HoldsSplit(t, p, minus, d.whole + (f + e));
    HoldsSplit(t, p + |minus|, d.whole, f + e);
    if d.negative {
      HoldsAt(t, p, minus, 0);
    }
  }

  lemma WholePassed(t: string, s: nat, whole: string, q: nat)
    requires Holds(t, s, whole) && Digits(whole) && q == s + |whole| < |t| && !Digit(t[q])
    ensures s < |t| && Digit(t[s]) && SkipDigits(t, s) == q && SkipDigits(t, s + 1) == q
  {
    hide SkipDigits, Holds;
    HoldsAt(t, s, whole, 0);
    DigitsPassed(t, s, whole);
    NextDigits(t, s);
  }

  lemma FractionIsNone(fraction: Option<string>)
    ensures fraction == None ==> FractionText(fraction) == ""
  {
  }

  lemma NextDigits(t: string, p: nat)
    requires p < |t| && Digit(t[p])
    ensures SkipDigits(t, p) == SkipDigits(t, p + 1)
  {
  }

  lemma LeafSkips(t: string, p: nat, j: Json)
    requires !j.Arr? && !j.Obj? && Holds(t, p, Print(j)) && Delimited(t, p + |Print(j)|)
    ensures p < |t| && SkipWs(t, p) == p && SkipValue(t, p) == Some(p + |Print(j)|)
  {
    hide Quote, Integer, Escape, ScanString, SkipNumber;
    HoldsAt(t, p, Print(j), 0);
    match j
    case Null => LiteralReads(t, p, "null");
    case Bool(b) => LiteralReads(t, p, if b then "true" else "false");
    case Num(n) => IntegerReads(t, p, n);
    case Str(s) => QuoteScans(t, p, s);
  }

  /** skip_value passes a laid-out value to its end if and only if it is tight; otherwise it refuses it, though
      it is JSON. */
  lemma {:induction false} TextSkips(t: string, p: nat, d: Doc)
    requires Proper(d) && Holds(t, p, Text(d)) && Delimited(t, p + |Text(d)|)
    ensures p < |t| && SkipWs(t, p) == p && SkipValue(t, p) == if Tight(d) then Some(p + |Text(d)|) else None
    decreases d, 1
  {
    hide Text, SkipNumber, SkipObject, SkipArray, ItemsText, PairsText, TightItems, TightPairs, ProperBlanks, Blank;
    FirstOfText(d);
    HoldsAt(t, p, Text(d), 0);
    match d
    case Leaf(j) => LeafText(d); LeafSkips(t, p, j);
    case Real(_, _, _, _) => RealReads(t, p, d);
    case List(open, items) => ListSkips(t, p, d);
    case Record(open, pairs) => RecordSkips(t, p, d);
  }

  lemma LeafText(d: Doc)
    requires d.Leaf?
    ensures Text(d) == Print(d.j)
  {
  }

  lemma NothingIsTight()
    ensures TightItems([]) && TightPairs([], false)
  {
  }

  lemma {:induction false} ListSkips(t: string, p: nat, d: Doc)
    requires d.List? && Proper(d) && Holds(t, p, Text(d))
    ensures p < |t| && t[p] == '[' && SkipArray(t, p) == if Tight(d) then Some(p + |Text(d)|) else None
    decreases d, 0
  {
    hide SkipElements, SkipValue, SkipWs, Blank, ItemsText, Holds, TightItems;
    var s := if d.items == [] then d.open else ItemsText(d.items);
    HoldsBracketed(t, p, '[', s, ']');
    NothingIsTight();
    if d.items == [] {
      BlanksSkipped(t, p + 1, s);
    } else {
      ItemsSkip(t, p + 1, d.items);
      ItemsSplit(t, p + 1, d.items);
    }
  }

  // Parts of the first item: white space, the value, white space, and then a comma or the closing bracket.
  lemma {:induction false} ItemsSplit(t: string, p: nat, items: seq<Item>)
    requires items != [] && Holds(t, p, ItemsText(items) + "]")
    requires Blank(items[0].before) && Proper(items[0].value) && Blank(items[0].after)
    ensures var v := p + |items[0].before|; var q := v + |Text(items[0].value)|; var w := q + |items[0].after|;
      && Holds(t, v, Text(items[0].value)) && Delimited(t, q) && w < |t| && SkipWs(t, p) == v && SkipWs(t, q) == w
      && t[v] != ']' && (t[w] == ',' <==> |items| > 1) && (t[w] == ']' <==> |items| == 1)
      && (|items| > 1 ==> Holds(t, w + 1, ItemsText(items[1..]) + "]") && p + |ItemsText(items)| == w + 1 + |ItemsText(items[1..])|)
      && (|items| == 1 ==> p + |ItemsText(items)| == w)
  {
    hide Text, SkipWs, Proper, Blank, ItemsText, Holds, Delimited;
    var b, s, a := items[0].before, Text(items[0].value), items[0].after;
    var v := p + |b|;
    var q := v + |s|;
    var w := q + |a|;
    FirstOfText(items[0].value);
    var rest := if |items| == 1 then "]" else "," + (ItemsText(items[1..]) + "]");
    ItemsTextParts(items);
    assert ItemsText(items) + "]" == b + s + a + rest;
    HoldsParts(t, p, b, s, a, rest);
    HoldsAt(t, v, s, 0);
    BlanksSkipped(t, p, b);
    BlanksSkipped(t, q, a);
    BlankThen(t, q, a, w);
    if |items| > 1 {
      HoldsSplit(t, w, ",", ItemsText(items[1..]) + "]");
    }
  }

  lemma ItemsTextParts(items: seq<Item>)
    requires items != []
    ensures ItemsText(items) == items[0].before + Text(items[0].value) + items[0].after + if |items| == 1 then "" else "," + ItemsText(items[1..])
  {
  }

  lemma BlankThen(t: string, q: nat, a: string, w: nat)
    requires Holds(t, q, a) && Blank(a) && w == q + |a| < |t| && (t[w] == ',' || t[w] == ']' || t[w] == '}')
    ensures Delimited(t, q)
  {
    if a != [] {
      HoldsAt(t, q, a, 0);
    }
  }

  lemma TightItemsParts(items: seq<Item>)
    ensures TightItems(items) <==> items == [] || (Tight(items[0].value) && TightItems(items[1..]))
    ensures |items| == 1 ==> TightItems(items[1..])
  {
  }

  // One element, taken apart.
  lemma ElementsStep(t: string, p: nat)
    requires p <= |t|
    ensures var v := SkipValue(t, p);
      if v == None then SkipElements(t, p) == None
      else
        var w := SkipWs(t, v.value);
        SkipElements(t, p) == if w == |t| then None else if t[w] == ',' then SkipElements(t, w + 1) else if t[w] == ']' then Some(w + 1) else None
  {
    hide SkipValue, SkipWs;
  }

  // One item, given what skip_value makes of its value.
  lemma {:induction false} ItemStep(t: string, p: nat, items: seq<Item>)
    requires items != [] && Holds(t, p, ItemsText(items) + "]")
    requires Blank(items[0].before) && Proper(items[0].value) && Blank(items[0].after)
    requires var v := p + |items[0].before|;
      v <= |t| && SkipValue(t, v) == if Tight(items[0].value) then Some(v + |Text(items[0].value)|) else None
    ensures var v := p + |items[0].before|; var w := v + |Text(items[0].value)| + |items[0].after|;
      && w < |t| && (|items| > 1 ==> Holds(t, w + 1, ItemsText(items[1..]) + "]") && p + |ItemsText(items)| == w + 1 + |ItemsText(items[1..])|)
      && (|items| == 1 ==> p + |ItemsText(items)| == w) && SkipElements(t, p) == SkipElements(t, v)
      && SkipElements(t, v) == if !Tight(items[0].value) then None else if |items| > 1 then SkipElements(t, w + 1) else Some(w + 1)
  {
    hide SkipElements, SkipValue, Text, ItemsText, SkipWs, Blank, Proper, Tight, Holds, Delimited;
    ItemsSplit(t, p, items);
    SkipValueHere(t, p, p + |items[0].before|);
    ElementsStep(t, p);
    ElementsStep(t, p + |items[0].before|);
  }

  lemma {:induction false} ItemsSkip(t: string, p: nat, items: seq<Item>)
    requires items != [] && Holds(t, p, ItemsText(items) + "]")
    requires forall i :: 0 <= i < |items| ==> Blank(items[i].before) && Proper(items[i].value) && Blank(items[i].after)
    ensures SkipElements(t, p + |items[0].before|) == if TightItems(items) then Some(p + |ItemsText(items)| + 1) else None
    ensures SkipElements(t, p) == SkipElements(t, p + |items[0].before|)
    decreases items, 0
  {
    hide SkipElements, SkipValue, Text, ItemsText, SkipWs, Blank, Proper, Tight, Holds, TightItems, Delimited;
    ItemsSplit(t, p, items);
    TextSkips(t, p + |items[0].before|, items[0].value);
    ItemStep(t, p, items);
    TightItemsParts(items);
    if |items| > 1 {
      ItemsSkip(t, p + |items[0].before| + |Text(items[0].value)| + |items[0].after| + 1, items[1..]);
    }
  }

  lemma {:induction false} RecordSkips(t: string, p: nat, d: Doc)
    requires d.Record? && Proper(d) && Holds(t, p, Text(d))
    ensures p < |t| && t[p] == '{' && SkipObject(t, p) == if Tight(d) then Some(p + |Text(d)|) else None
    decreases d, 0
  {
    hide SkipMembers, SkipValue, SkipWs, Blank, PairsText, ProperBlanks, PairText, Holds, TightPairs;
    var s := if d.pairs == [] then d.open else PairsText(d.pairs);
    HoldsBracketed(t, p, '{', s, '}');
    NothingIsTight();
    if d.pairs == [] {
      BlanksSkipped(t, p + 1, s);
    } else {
      PairsSkip(t, p + 1, d.pairs);
      PairsSplit(t, p + 1, d.pairs);
    }
  }

  // Parts of the first member: white space, key and value, white space, and then a comma or the closing brace.
  lemma {:induction false} PairsSplit(t: string, p: nat, pairs: seq<Pair>)
    requires pairs != [] && Holds(t, p, PairsText(pairs) + "}")
    requires ProperBlanks(pairs[0]) && Proper(pairs[0].value)
    ensures var v := p + |pairs[0].before|; var q := v + |PairText(pairs[0])|; var w := q + |pairs[0].after|;
      && Holds(t, v, PairText(pairs[0])) && Delimited(t, q) && v < w < |t| && SkipWs(t, p) == v && SkipWs(t, q) == w
      && t[v] == '\"' && (t[w] == ',' <==> |pairs| > 1) && (t[w] == '}' <==> |pairs| == 1)
      && (|pairs| > 1 ==> Holds(t, w + 1, PairsText(pairs[1..]) + "}") && p + |PairsText(pairs)| == w + 1 + |PairsText(pairs[1..])|)
      && (|pairs| == 1 ==> p + |PairsText(pairs)| == w)
  {
    hide PairText, SkipWs, Proper, Blank, PairsText, Holds, Delimited;
    var b, s, a := pairs[0].before, PairText(pairs[0]), pairs[0].after;
    var v := p + |b|;
    var q := v + |s|;
    var w := q + |a|;
    PairTextFirst(pairs[0]);
    var rest := if |pairs| == 1 then "}" else "," + (PairsText(pairs[1..]) + "}");
    PairsTextParts(pairs);
    assert PairsText(pairs) + "}" == b + s + a + rest;
    HoldsParts(t, p, b, s, a, rest);
    HoldsAt(t, v, s, 0);
    BlanksSkipped(t, p, b);
    BlanksSkipped(t, q, a);
    BlankThen(t, q, a, w);
    if |pairs| > 1 {
      HoldsSplit(t, w, ",", PairsText(pairs[1..]) + "}");
    }
  }

  lemma PairTextFirst(pair: Pair)
    ensures PairText(pair) != [] && PairText(pair)[0] == '\"'
  {
    hide Escape, Text;
  }

  lemma PairsTextParts(pairs: seq<Pair>)
    requires pairs != []
    ensures PairsText(pairs) == pairs[0].before + PairText(pairs[0]) + pairs[0].after + if |pairs| == 1 then "" else "," + PairsText(pairs[1..])
  {
    hide PairText;
  }

  // The key of a member, its colon and its value.
  lemma {:induction false} PairReads(t: string, p: nat, pair: Pair)
    requires Holds(t, p, PairText(pair)) && ProperBlanks(pair) && Proper(pair.value)
    ensures SkipKey(t, p).Some? && Quoted(t, p) == Escape(pair.key)
    ensures var v := p + |PairText(pair)| - |Text(pair.value)|;
      p <= v && Holds(t, v, Text(pair.value)) && SkipWs(t, SkipKey(t, p).value) == v
  {
    hide Quote, Escape, ScanString, Quoted, Text, SkipWs, Blank, Proper, Holds;
    var q, s := Quote(pair.key), Text(pair.value);
    assert PairText(pair) == q + pair.colon + ":" + (pair.gap + s);
    FirstOfText(pair.value);
    HoldsParts(t, p, q, pair.colon, ":", pair.gap + s);
    HoldsAt(t, p + |q| + |pair.colon|, ":", 0);
    HoldsSplit(t, p + |q| + |pair.colon| + 1, pair.gap, s);
    QuoteScans(t, p, pair.key);
    HoldsAt(t, p + |q| + |pair.colon| + 1 + |pair.gap|, s, 0);
    BlanksSkipped(t, p + |q|, pair.colon);
    BlanksSkipped(t, p + |q| + |pair.colon| + 1, pair.gap);
  }

  lemma NoKey(t: string, p: nat)
    requires p < |t| && t[p] != '\"'
    ensures SkipMembers(t, p) == None
  {
  }

  // One member, given what skip_value makes of its value.
  lemma {:induction false} PairStep(t: string, p: nat, pairs: seq<Pair>)
    requires pairs != [] && Holds(t, p, PairsText(pairs) + "}") && ProperBlanks(pairs[0]) && Proper(pairs[0].value)
    requires var q := p + |pairs[0].before| + |PairText(pairs[0])|; var at := q - |Text(pairs[0].value)|;
      0 <= at <= |t| && SkipWs(t, at) == at && SkipValue(t, at) == if Tight(pairs[0].value) then Some(q) else None
    ensures var v := p + |pairs[0].before|; var w := v + |PairText(pairs[0])| + |pairs[0].after|;
      && v < w < |t| && (|pairs| > 1 ==> Holds(t, w + 1, PairsText(pairs[1..]) + "}") && p + |PairsText(pairs)| == w + 1 + |PairsText(pairs[1..])|)
      && (|pairs| == 1 ==> p + |PairsText(pairs)| == w)
      && SkipMembers(t, v) == if !Tight(pairs[0].value) then None else if |pairs| > 1 then SkipMembers(t, w + 1) else Some(w + 1)
  {
    hide SkipMembers, SkipValue, Text, PairText, PairsText, SkipWs, SkipKey, ProperBlanks, Proper, Tight, Holds, Quoted, Delimited;
    PairsSplit(t, p, pairs);
    var v := p + |pairs[0].before|;
    var q := v + |PairText(pairs[0])|;
    PairReads(t, v, pairs[0]);
    SkipValueHere(t, SkipKey(t, v).value, q - |Text(pairs[0].value)|);
    if !Tight(pairs[0].value) {
      BadMember(t, v);
    } else {
      MembersStep(t, v, SkipKey(t, v).value, q, q + |pairs[0].after|);
    }
  }

  // Where the value of the first member stands.
  lemma {:induction false} ValueStands(t: string, p: nat, pairs: seq<Pair>)
    requires pairs != [] && Holds(t, p, PairsText(pairs) + "}") && ProperBlanks(pairs[0]) && Proper(pairs[0].value)
    ensures var q := p + |pairs[0].before| + |PairText(pairs[0])|; var at := q - |Text(pairs[0].value)|;
      0 <= at <= q <= |t| && Holds(t, at, Text(pairs[0].value)) && Delimited(t, q)
  {
    hide Text, PairText, PairsText, SkipWs, SkipKey, ProperBlanks, Proper, Holds, Quoted, Delimited, Escape;
    PairsSplit(t, p, pairs);
    PairReads(t, p + |pairs[0].before|, pairs[0]);
  }

  lemma {:induction false} PairsSkip(t: string, p: nat, pairs: seq<Pair>)
    requires pairs != [] && Holds(t, p, PairsText(pairs) + "}")
    requires forall i :: 0 <= i < |pairs| ==> ProperBlanks(pairs[i]) && Proper(pairs[i].value)
    ensures SkipMembers(t, p + |pairs[0].before|) == if TightPairs(pairs, false) then Some(p + |PairsText(pairs)| + 1) else None
    decreases pairs, 0
  {
    hide SkipMembers, SkipValue, Text, PairText, PairsText, SkipWs, ProperBlanks, Proper, Tight, Holds, TightPairs, Delimited;
    ValueStands(t, p, pairs);
    var q := p + |pairs[0].before| + |PairText(pairs[0])|;
    TextSkips(t, q - |Text(pairs[0].value)|, pairs[0].value);
    PairStep(t, p, pairs);
    TightParts(pairs, false);
    TightParts(pairs[1..], true);
    if |pairs| > 1 {
      PairsSkip(t, q + |pairs[0].after| + 1, pairs[1..]);
      TightParts(pairs[1..], false);
      BlankKey(t, q + |pairs[0].after| + 1, pairs[1..]);
    }
  }

  lemma TightParts(pairs: seq<Pair>, behindComma: bool)
    ensures TightPairs(pairs, behindComma)
       <==> pairs == [] || ((behindComma ==> pairs[0].before == "") && Tight(pairs[0].value) && TightPairs(pairs[1..], true))
  {
  }

  lemma BadMember(t: string, p: nat)
    requires p <= |t| && SkipKey(t, p).Some? && SkipValue(t, SkipKey(t, p).value) == None
    ensures SkipMembers(t, p) == None
  {
    hide SkipKey, SkipValue;
  }

  // White space before a key stops the loop that skips members.
  lemma BlankKey(t: string, p: nat, pairs: seq<Pair>)
    requires pairs != [] && Holds(t, p, PairsText(pairs) + "}") && ProperBlanks(pairs[0])
    ensures pairs[0].before != "" ==> SkipMembers(t, p) == None
  {
    hide PairText, SkipMembers;
    if pairs[0].before != "" {
      HoldsAt(t, p, PairsText(pairs) + "}", 0);
      assert (PairsText(pairs) + "}")[0] == pairs[0].before[0];
      NoKey(t, p);
    }
  }

  // What the reader should report about a laid-out value.
  function ValueOf(d: Doc): Value {
    match d
    case Leaf(j) => ReadBack(j)
    case Real(_, _, _, _) => Value(NumberKind, false, 0, "", Text(d))
    case List(_, _) => Value(ArrayKind, false, 0, "", Text(d))
    case Record(_, _) => Value(ObjectKind, false, 0, "", Text(d))
  }

  /** parse_value reports a laid-out value exactly when it is tight and no fraction or exponent. */
  lemma TextReads(t: string, p: nat, d: Doc)
    requires Proper(d) && Holds(t, p, Text(d)) && Delimited(t, p + |Text(d)|)
    ensures ParseValue(t, p) == if Tight(d) && !d.Real? then Some((ValueOf(d), p + |Text(d)|)) else None
  {
    hide SkipValue, SkipWs, ParseNumber, Text, Tight, Holds, Escape, ScanString, Print;
    TextSkips(t, p, d);
    FirstOfText(d);
    HoldsAt(t, p, Text(d), 0);
    TextSlice(t, p, Text(d));
    match d
    case Real(_, _, _, _) => RealReads(t, p, d);
    case Leaf(j) => LeafReads(t, p, d);
    case _ =>
  }

  lemma TextSlice(t: string, p: nat, s: string)
    requires Holds(t, p, s)
    ensures p + |s| <= |t| && t[p..p + |s|] == s
  {
  }

  lemma {:induction false} LeafReads(t: string, p: nat, d: Doc)
    requires d.Leaf? && Proper(d) && Holds(t, p, Text(d)) && Delimited(t, p + |Text(d)|)
    ensures ParseValue(t, p) == Some((ReadBack(d.j), p + |Text(d)|)) && Tight(d)
  {
    hide SkipValue, Escape, ScanString, Integer, SkipWs, ParseNumber;
    var j := d.j;
    LeafSkips(t, p, j);
    FirstChar(j);
    HoldsAt(t, p, Print(j), 0);
    if j.Num? {
      IntegerReads(t, p, j.n);
    } else if j.Str? {
      QuoteScans(t, p, j.s);
    }
  }

  // A laid-out value somewhere behind p, after white space alone.
  ghost predicate DocAt(t: string, p: nat, d: Doc) {
    && p <= |t| && Proper(d) && Holds(t, SkipWs(t, p), Text(d)) && Delimited(t, SkipWs(t, p) + |Text(d)|)
  }

  // A string item with this escaped text.
  predicate IsNeedle(d: Doc, needle: string) {
    d.Leaf? && d.j.Str? && Escape(d.j.s) == needle
  }

  predicate Seen(items: seq<Item>, needle: string)
    decreases |items|
  {
    items != [] && (IsNeedle(items[0].value, needle) || (Tight(items[0].value) && Seen(items[1..], needle)))
  }

  lemma {:induction false} SeenIs(items: seq<Item>, needle: string)
    ensures Seen(items, needle)
       <==> exists k :: 0 <= k < |items| && IsNeedle(items[k].value, needle) && forall i :: 0 <= i < k ==> Tight(items[i].value)
    decreases |items|
  {
    hide IsNeedle, Tight;
    if items != [] {
      SeenIs(items[1..], needle);
      if Seen(items[1..], needle) && Tight(items[0].value) {
        var k :| 0 <= k < |items[1..]| && IsNeedle(items[1..][k].value, needle) && forall i :: 0 <= i < k ==> Tight(items[1..][i].value);
        assert IsNeedle(items[k + 1].value, needle);
        forall i | 0 <= i < k + 1 ensures Tight(items[i].value) {
          assert i > 0 ==> items[1..][i - 1] == items[i];
        }
      }
      if k :| 0 <= k < |items| && IsNeedle(items[k].value, needle) && forall i :: 0 <= i < k ==> Tight(items[i].value) {
        if k > 0 {
          assert IsNeedle(items[1..][k - 1].value, needle);
          assert Tight(items[0].value);
        }
      }
    }
  }

  // One item: passed when tight, and seen to be the needle when it is a string with that text.
  lemma ItemMatches(t: string, p: nat, d: Doc, needle: string)
    requires Proper(d) && Holds(t, p, Text(d)) && Delimited(t, p + |Text(d)|)
    ensures p < |t| && SkipWs(t, p) == p
    ensures (if t[p] == '\"' then ScanString(t, p) else SkipValue(t, p)) == if Tight(d) then Some(p + |Text(d)|) else None
    ensures (t[p] == '\"' && ScanString(t, p).Some? && Quoted(t, p) == needle) <==> IsNeedle(d, needle)
  {
    hide SkipValue, Escape, ScanString, SkipWs, Quoted, Holds, Text, Quote;
    TextSkips(t, p, d);
    FirstOfText(d);
    HoldsAt(t, p, Text(d), 0);
    if d.Leaf? && d.j.Str? {
      StringText(d);
      QuoteScans(t, p, d.j.s);
    }
  }

  lemma StringText(d: Doc)
    requires d.Leaf? && d.j.Str?
    ensures Text(d) == Quote(d.j.s) && Tight(d)
  {
  }

  lemma {:induction false} ElementsMatch(t: string, p: nat, items: seq<Item>, needle: string, was: bool)
    requires items != [] && Holds(t, p, ItemsText(items) + "]")
    requires forall i :: 0 <= i < |items| ==> Blank(items[i].before) && Proper(items[i].value) && Blank(items[i].after)
    ensures FindElement(t, p, needle, was).member <==> was || Seen(items, needle)
    decreases |items|
  {
    hide SkipValue, Text, ItemsText, SkipWs, FindElement, ScanString, Quoted, IsNeedle, Holds, Blank, Proper, Tight;
    ItemsSplit(t, p, items);
    ItemMatches(t, p + |items[0].before|, items[0].value, needle);
    ElementStep(t, p, needle, was);
    if |items| > 1 {
      var w := p + |items[0].before| + |Text(items[0].value)| + |items[0].after|;
      ElementsMatch(t, w + 1, items[1..], needle, was || IsNeedle(items[0].value, needle));
    }
  }

  lemma ListText(d: Doc)
    requires d.List?
    ensures Text(d) == ['['] + (if d.items == [] then d.open else ItemsText(d.items)) + [']']
  {
  }

  lemma FindElementHere(t: string, p: nat, needle: string, was: bool)
    requires p <= |t|
    ensures FindElement(t, p, needle, was) == FindElement(t, SkipWs(t, p), needle, was)
  {
    hide FindElement, SkipValue, ScanString, Quoted, SkipWs;
    SkipWsStays(t, p);
    ElementStep(t, p, needle, was);
    ElementStep(t, SkipWs(t, p), needle, was);
  }

  /** Looking for a string in a laid-out value: it is found exactly when the value is an array with that string as
      an item behind tight items alone; a flag that was up stays up over an array. */
  lemma MembershipFinds(t: string, p: nat, d: Doc, needle: string, was: bool)
    requires DocAt(t, p, d)
    ensures !d.List? ==> !ParseMembership(t, p, needle, was).member
    ensures d.List? && was ==> ParseMembership(t, p, needle, was).member
    ensures d.List? && !was ==> (ParseMembership(t, p, needle, was).member <==>
      exists k :: 0 <= k < |d.items| && IsNeedle(d.items[k].value, needle) && forall i :: 0 <= i < k ==> Tight(d.items[i].value))
  {
    hide SkipValue, FindElement, SkipWs, Text, ItemsText, Holds, Tight, IsNeedle, Blank;
    var s := SkipWs(t, p);
    FirstOfText(d);
    HoldsAt(t, s, Text(d), 0);
    if d.List? {
      SeenIs(d.items, needle);
      var inside := if d.items == [] then d.open else ItemsText(d.items);
      ListText(d);
      HoldsBracketed(t, s, '[', inside, ']');
      if d.items == [] {
        BlanksSkipped(t, s + 1, inside);
      } else {
        ItemsSplit(t, s + 1, d.items);
        ElementsMatch(t, s + 1, d.items, needle, was);
        FindElementHere(t, s + 1, needle, was);
      }
    }
  }

  // The first member with this key, and whether every value before it is tight.
  function MemberIn(pairs: seq<Pair>, segment: string): Option<Doc>
    decreases |pairs|
  {
    if pairs == [] then None else if Escape(pairs[0].key) == segment then Some(pairs[0].value) else MemberIn(pairs[1..], segment)
  }

  predicate PassedOver(pairs: seq<Pair>, segment: string)
    decreases |pairs|
  {
    pairs != [] && Escape(pairs[0].key) != segment ==> Tight(pairs[0].value) && PassedOver(pairs[1..], segment)
  }

  function LookupIn(d: Doc, segments: seq<string>): Result<Doc>
    requires segments != []
    decreases |segments|
  {
    if !d.Record? then Failure(INVALID)
    else
      var m := MemberIn(d.pairs, segments[0]);
      if m == None then Failure(UNSUPPORTED)
      else if |segments| == 1 then Success(m.value)
      else LookupIn(m.value, segments[1..])
  }

  /** What a lookup passes over on its way, and the value it ends at, are tight. White space anywhere in the objects
      it descends through is no obstacle. */
  predicate Reaches(d: Doc, segments: seq<string>)
    requires segments != []
    decreases |segments|
  {
    d.Record? ==>
      && PassedOver(d.pairs, segments[0])
      && (MemberIn(d.pairs, segments[0]).Some? ==>
        var v := MemberIn(d.pairs, segments[0]).value;
        if |segments| == 1 then Tight(v) else Reaches(v, segments[1..]))
  }

  // The position behind a colon where a value was found, or that there is none.
  ghost predicate FoundThere(t: string, r: Result<nat>, d: Option<Doc>) {
    match d
    case None => r == Failure(UNSUPPORTED)
    case Some(v) => r.Success? && DocAt(t, r.value, v)
  }

  lemma NamedParts(pairs: seq<Pair>, segment: string)
    requires pairs != []
    ensures Escape(pairs[0].key) == segment ==> PassedOver(pairs, segment) && MemberIn(pairs, segment) == Some(pairs[0].value)
    ensures Escape(pairs[0].key) != segment ==> MemberIn(pairs, segment) == MemberIn(pairs[1..], segment)
    ensures Escape(pairs[0].key) != segment ==> (PassedOver(pairs, segment) <==> Tight(pairs[0].value) && PassedOver(pairs[1..], segment))
    ensures |pairs| == 1 ==> PassedOver(pairs[1..], segment) && MemberIn(pairs[1..], segment) == None
  {
    hide Escape, Tight;
  }

  lemma {:induction false} MemberFound(t: string, p: nat, pairs: seq<Pair>, segment: string)
    requires pairs != [] && Holds(t, p, PairsText(pairs) + "}")
    requires forall i :: 0 <= i < |pairs| ==> ProperBlanks(pairs[i]) && Proper(pairs[i].value)
    ensures if PassedOver(pairs, segment) then FoundThere(t, FindMember(t, p, segment), MemberIn(pairs, segment))
      else FindMember(t, p, segment) == Failure(INVALID)
    decreases |pairs|
  {
    hide FindMember, SkipValue, Text, PairText, PairsText, SkipWs, SkipKey, ProperBlanks, Proper, Tight, Holds, Quoted, Escape, PassedOver, MemberIn;
    PairsSplit(t, p, pairs);
    NamedParts(pairs, segment);
    var v := p + |pairs[0].before|;
    var q := v + |PairText(pairs[0])|;
    var w := q + |pairs[0].after|;
    PairReads(t, v, pairs[0]);
    var at := q - |Text(pairs[0].value)|;
    TextSkips(t, at, pairs[0].value);
    SkipValueHere(t, SkipKey(t, v).value, at);
    MemberStep(t, p, segment);
    if |pairs| > 1 && Tight(pairs[0].value) {
      MemberFound(t, w + 1, pairs[1..], segment);
    }
  }

  lemma RecordText(d: Doc)
    requires d.Record?
    ensures Text(d) == ['{'] + (if d.pairs == [] then d.open else PairsText(d.pairs)) + ['}']
  {
  }

  lemma DescendFinds(t: string, p: nat, d: Doc, segment: string)
    requires DocAt(t, p, d)
    ensures if !d.Record? || !PassedOver(d.pairs, segment) then Descend(t, p, segment) == Failure(INVALID)
      else FoundThere(t, Descend(t, p, segment), MemberIn(d.pairs, segment))
  {
    hide FindMember, SkipValue, SkipWs, Text, PairsText, Holds, Tight, Blank, Escape, ProperBlanks, FoundThere;
    var s := SkipWs(t, p);
    FirstOfText(d);
    HoldsAt(t, s, Text(d), 0);
    if d.Record? {
      var inside := if d.pairs == [] then d.open else PairsText(d.pairs);
      RecordText(d);
      HoldsBracketed(t, s, '{', inside, '}');
      if d.pairs == [] {
        BlanksSkipped(t, s + 1, inside);
        NoMember(t, s + 1, segment);
        NothingNamed(t, FindMember(t, s + 1, segment), segment);
      } else {
        MemberFound(t, s + 1, d.pairs, segment);
      }
    }
  }

  lemma NothingNamed(t: string, r: Result<nat>, segment: string)
    requires r == Failure(UNSUPPORTED)
    ensures FoundThere(t, r, MemberIn([], segment))
  {
  }

  /** A dotted lookup in a text is a lookup in the value laid out in it if and only if what it passes over and ends
      at is tight; a number that is no integer is not read. */
  lemma {:induction false} GetIsLookupIn(t: string, p: nat, d: Doc, segments: seq<string>)
    requires segments != [] && DocAt(t, p, d)
    ensures !Reaches(d, segments) ==> GetFrom(t, p, segments) == Failure(INVALID)
    ensures Reaches(d, segments) ==> (match LookupIn(d, segments)
      case Success(v) => GetFrom(t, p, segments) == if v.Real? then Failure(INVALID) else Success(ValueOf(v))
      case Failure(code) => GetFrom(t, p, segments) == Failure(code))
    decreases |segments|
  {
    hide Descend, ParseValue, ValueOf, MemberIn, Text, SkipWs, Holds, PassedOver, Tight, Proper;
    DescendFinds(t, p, d, segments[0]);
    if Descend(t, p, segments[0]).Success? {
      var v, q := MemberIn(d.pairs, segments[0]).value, Descend(t, p, segments[0]).value;
      if |segments| > 1 {
        GetIsLookupIn(t, q, v, segments[1..]);
      } else {
        TextReads(t, SkipWs(t, q), v);
        SkipValueHere(t, q, SkipWs(t, q));
      }
    }
  }

  /** Whatever white space stands around a value and in it, a lookup with eaf_sendspin_json_get finds what is there
      if and only if what it passes over and ends at is tight. */
  lemma LaidOutIsRead(lead: string, d: Doc, trail: string, path: string)
    requires Blank(lead) && Proper(d) && Blank(trail) && path != ""
    ensures var segments, got := Segments(path, 0), JsonGet(lead + Text(d) + trail, path);
      if !Reaches(d, segments) then got == Failure(INVALID)
      else match LookupIn(d, segments)
        case Success(v) => got == (if v.Real? then Failure(INVALID) else Success(ValueOf(v)))
        case Failure(code) => got == Failure(code)
  {
    hide GetFrom, Text, LookupIn, ValueOf, Segments, SkipWs, Holds, Reaches;
    var t := lead + Text(d) + trail;
    FirstOfText(d);
    HoldsHere(lead, Text(d), trail);
    BlanksSkipped(t, 0, lead);
    assert Delimited(t, |lead| + |Text(d)|) by { assert trail != "" ==> t[|lead| + |Text(d)|] == trail[0]; }
    GetIsLookupIn(t, 0, d, Segments(path, 0));
  }

  lemma HoldsHere(a: string, b: string, c: string)
    ensures Holds(a + b + c, 0, a) && Holds(a + b + c, |a|, b)
  {
  }

  // {"a":{"b":1,"c":2},"d":3} with white space behind the inner comma.
  function Nested(blank: string): Doc {
    var inner := Record("", [Pair("", "b", "", "", Leaf(Num(1)), ""), Pair(blank, "c", "", "", Leaf(Num(2)), "")]);
    Record("", [Pair("", "a", "", "", inner, ""), Pair("", "d", "", "", Leaf(Num(3)), "")])
  }

  lemma OneLetter(c: char)
    requires 'a' <= c <= 'z'
    ensures Quote([c]) == ['\"', c, '\"'] && Escape([c]) == [c]
  {
    assert [c][1..] == [];
    assert Escape([]) == [];
  }

  lemma PairOf(pair: Pair, c: char, s: string)
    requires 'a' <= c <= 'z' && pair.key == [c] && pair.colon == "" && pair.gap == "" && Text(pair.value) == s
    ensures PairText(pair) == ['\"', c, '\"', ':'] + s
  {
    hide Quote, Escape, Text;
    OneLetter(c);
  }

  lemma TwoPairs(blank: string, a: Pair, b: Pair, s: string, u: string)
    requires a.before == "" && a.after == "" && b.before == blank && b.after == "" && PairText(a) == s && PairText(b) == u
    ensures Text(Record("", [a, b])) == "{" + s + "," + blank + u + "}"
  {
    hide PairText;
    var pairs := [a, b];
    assert pairs[1..] == [b];
    assert PairsText([b]) == blank + u;
    assert PairsText(pairs) == s + ("," + (blank + u));
  }

  lemma {:induction false} NestedText(blank: string)
    ensures Text(Nested(blank)) == "{\"a\":{\"b\":1," + blank + "\"c\":2},\"d\":3}"
  {
    hide Text, PairText;
    var one, two, three := Leaf(Num(1)), Leaf(Num(2)), Leaf(Num(3));
    OneDigit();
    var b, c := Pair("", "b", "", "", one, ""), Pair(blank, "c", "", "", two, "");
    PairOf(b, 'b', "1");
    PairOf(c, 'c', "2");
    TwoPairs(blank, b, c, "\"b\":1", "\"c\":2");
    var s := "{" + "\"b\":1" + "," + blank + "\"c\":2" + "}";
    var a, d := Pair("", "a", "", "", Record("", [b, c]), ""), Pair("", "d", "", "", three, "");
    PairOf(a, 'a', s);
    PairOf(d, 'd', "3");
    TwoPairs("", a, d, "\"a\":" + s, "\"d\":3");
    assert Nested(blank) == Record("", [a, d]);
  }

  lemma OneDigit()
    ensures Text(Leaf(Num(1))) == "1" && Text(Leaf(Num(2))) == "2" && Text(Leaf(Num(3))) == "3"
  {
  }

  /** White space behind a comma in a nested object, which section 2 of RFC 8259 allows, hides the members behind
      that object; without it they are found. */
  lemma BlankAfterCommaHides(blank: string)
    requires Blank(blank)
    ensures JsonGet("{\"a\":{\"b\":1," + blank + "\"c\":2},\"d\":3}", "d")
      == if blank == "" then Success(ReadBack(Num(3))) else Failure(INVALID)
  {
    hide Text, JsonGet, Escape, ReadBack;
    NestedText(blank);
    OneSegment();
    OneLetter('a');
    OneLetter('d');
    var d := Nested(blank);
    assert d.pairs[1..][0] == d.pairs[1];
    NestedTight(blank);
    LaidOutIsRead("", d, "", "d");
    assert "" + Text(d) + "" == Text(d);
  }

  lemma OneSegment()
    ensures Segments("d", 0) == ["d"]
  {
  }

  lemma NestedTight(blank: string)
    ensures Tight(Nested(blank).pairs[0].value) <==> blank == ""
    ensures Blank(blank) ==> Proper(Nested(blank))
  {
    var inner := Nested(blank).pairs[0].value;
    var pairs := inner.pairs;
    TightParts(pairs, false);
    TightParts(pairs[1..], true);
    TightParts(pairs[1..][1..], true);
    assert Blank(blank) ==> Proper(inner);
  }

  // One member of a scan.
  lemma ScanStep(t: string, p: nat, fields: seq<Field>, s: nat, k: nat)
    requires p <= |t| && SkipWs(t, p) == s < |t| && t[s] != '}' && SkipKey(t, s) == Some(k)
    ensures var v := TakeField(t, k, fields, Quoted(t, s));
      if v == None then ScanMembers(t, p, fields) == None
      else
        var w := SkipWs(t, v.value.1);
        ScanMembers(t, p, fields) ==
          if w < |t| && t[w] == ',' then ScanMembers(t, w + 1, v.value.0)
          else if w < |t| && t[w] == '}' then Some((v.value.0, w + 1))
          else None
  {
    hide SkipKey, TakeField, SkipWs, Quoted;
  }

  // The value of a member, whichever field it is for.
  lemma TakeFieldEnds(t: string, p: nat, fields: seq<Field>, key: string, d: Doc)
    requires DocAt(t, p, d)
    ensures TakeField(t, p, fields, key).Some? ==> Tight(d) && TakeField(t, p, fields, key).value.1 == SkipWs(t, p) + |Text(d)|
    ensures Tight(d) && !d.Real? ==> TakeField(t, p, fields, key).Some?
  {
    hide SkipValue, ParseValue, ParseMembership, SkipWs, FirstUnfound, Text, Tight, Holds, Delimited;
    TextSkips(t, SkipWs(t, p), d);
    TextReads(t, SkipWs(t, p), d);
    SkipValueHere(t, p, SkipWs(t, p));
    var i := FirstUnfound(fields, key, 0);
    if i.Some? && fields[i.value].needle.Some? {
      MembershipSkips(t, p, fields[i.value].needle.value, fields[i.value].member);
    }
  }

  lemma {:induction false} MembersScan(t: string, p: nat, pairs: seq<Pair>, fields: seq<Field>)
    requires pairs != [] && Holds(t, p, PairsText(pairs) + "}")
    requires forall i :: 0 <= i < |pairs| ==> ProperBlanks(pairs[i]) && Proper(pairs[i].value)
    ensures ScanMembers(t, p, fields).Some? ==> ScanMembers(t, p, fields).value.1 == p + |PairsText(pairs)| + 1
    ensures ScanMembers(t, p, fields).Some? ==> forall i :: 0 <= i < |pairs| ==> Tight(pairs[i].value)
    ensures (forall i :: 0 <= i < |pairs| ==> Tight(pairs[i].value) && !pairs[i].value.Real?) ==> ScanMembers(t, p, fields).Some?
    decreases |pairs|
  {
    hide ScanMembers, TakeField, Text, PairText, PairsText, SkipWs, SkipKey, ProperBlanks, Proper, Tight, Holds, Quoted, Escape;
    PairsSplit(t, p, pairs);
    var v := p + |pairs[0].before|;
    var q := v + |PairText(pairs[0])|;
    PairReads(t, v, pairs[0]);
    var k := SkipKey(t, v).value;
    ValueThere(t, k, pairs[0].value, q);
    TakeFieldEnds(t, k, fields, Quoted(t, v), pairs[0].value);
    ScanStep(t, p, fields, v, k);
    var taken := TakeField(t, k, fields, Quoted(t, v));
    if |pairs| > 1 && taken.Some? {
      MembersScan(t, q + |pairs[0].after| + 1, pairs[1..], taken.value.0);
    }
  }

  lemma ValueThere(t: string, k: nat, d: Doc, q: nat)
    requires k <= |t| && Proper(d) && Delimited(t, q) && |Text(d)| <= q && SkipWs(t, k) == q - |Text(d)| && Holds(t, q - |Text(d)|, Text(d))
    ensures DocAt(t, k, d)
  {
  }

  /** The scan over a laid-out object fails unless every value in it is tight; when they are, and none is a fraction
      or has an exponent, it reaches the closing brace. */
  lemma ScanReaches(t: string, p: nat, d: Doc, fields: seq<Field>)
    requires DocAt(t, p, d)
    ensures var scan := ScanFields(t, p, fields);
      && (scan.Some? ==> d.Record? && scan.value.1 == SkipWs(t, p) + |Text(d)| && forall i :: 0 <= i < |d.pairs| ==> Tight(d.pairs[i].value))
      && (d.Record? && (forall i :: 0 <= i < |d.pairs| ==> Tight(d.pairs[i].value) && !d.pairs[i].value.Real?) ==> scan.Some?)
  {
    hide ScanMembers, SkipWs, Text, PairsText, Holds, Tight, Blank, ProperBlanks, Cleared;
    var s := SkipWs(t, p);
    FirstOfText(d);
    HoldsAt(t, s, Text(d), 0);
    if d.Record? {
      var inside := if d.pairs == [] then d.open else PairsText(d.pairs);
      RecordText(d);
      HoldsBracketed(t, s, '{', inside, '}');
      if d.pairs == [] {
        BlanksSkipped(t, s + 1, inside);
        ScanNothing(t, s + 1, Cleared(fields));
      } else {
        MembersScan(t, s + 1, d.pairs, Cleared(fields));
      }
    }
  }

  lemma ScanNothing(t: string, p: nat, fields: seq<Field>)
    requires p <= |t| && SkipWs(t, p) < |t| && t[SkipWs(t, p)] == '}'
    ensures ScanMembers(t, p, fields) == Some((fields, SkipWs(t, p) + 1))
  {
  }

  // A value laid out without white space.
  function Compact(j: Json): Doc
    decreases j, 1
  {
    match j
    case Arr(items) => List("", CompactItems(items))
    case Obj(fields) => Record("", CompactPairs(fields))
    case _ => Leaf(j)
  }

  function CompactItems(items: seq<Json>): (r: seq<Item>)
    ensures |r| == |items|
    decreases items, 0
  {
    if items == [] then [] else [Item("", Compact(items[0]), "")] + CompactItems(items[1..])
  }

  function CompactPairs(fields: seq<Entry>): (r: seq<Pair>)
    ensures |r| == |fields|
    decreases fields, 0
  {
    if fields == [] then [] else [Pair("", fields[0].key, "", "", Compact(fields[0].value), "")] + CompactPairs(fields[1..])
  }

  lemma {:induction false} CompactIsPrint(j: Json)
    ensures Text(Compact(j)) == Print(j) && Proper(Compact(j)) && Tight(Compact(j))
    decreases j, 1
  {
    hide Text, Print, Proper, Tight, ItemsText, PairsText, PrintItems, PrintFields, TightItems, TightPairs, Blank, ProperBlanks;
    match j
    case Arr(items) => CompactItemsPrint(items); CompactArray(items);
    case Obj(fields) => CompactPairsPrint(fields); CompactObject(fields);
    case _ => CompactLeaf(j);
  }

  lemma {:induction false} CompactLeaf(j: Json)
    requires !j.Arr? && !j.Obj?
    ensures Text(Leaf(j)) == Print(j) && Proper(Leaf(j)) && Tight(Leaf(j))
  {
  }

  lemma {:induction false} CompactArray(items: seq<Json>)
    requires TightItems(CompactItems(items)) && (items != [] ==> ItemsText(CompactItems(items)) == PrintItems(items))
    requires forall i :: 0 <= i < |items| ==> var x := CompactItems(items)[i]; Blank(x.before) && Proper(x.value) && Blank(x.after)
    ensures var d := List("", CompactItems(items)); Text(d) == Print(Arr(items)) && Proper(d) && Tight(d)
  {
    hide ItemsText, TightItems, CompactItems;
    if items == [] {
      assert PrintItems(items) == "";
    } else {
      hide PrintItems;
    }
  }

  lemma {:induction false} CompactObject(fields: seq<Entry>)
    requires TightPairs(CompactPairs(fields), false) && (fields != [] ==> PairsText(CompactPairs(fields)) == PrintFields(fields))
    requires forall i :: 0 <= i < |fields| ==> var x := CompactPairs(fields)[i]; ProperBlanks(x) && Proper(x.value)
    ensures var d := Record("", CompactPairs(fields)); Text(d) == Print(Obj(fields)) && Proper(d) && Tight(d)
  {
    hide PairsText, TightPairs, CompactPairs;
    if fields == [] {
      assert PrintFields(fields) == "";
    } else {
      hide PrintFields;
    }
  }

  lemma {:induction false} FirstCompact(items: seq<Json>, laid: seq<Item>)
    requires items != [] && |laid| == |items| && laid[0].before == "" && laid[0].after == "" && Text(laid[0].value) == Print(items[0])
    requires |items| > 1 ==> ItemsText(laid[1..]) == PrintItems(items[1..])
    ensures ItemsText(laid) == PrintItems(items)
  {
    hide Print, Text;
    assert "" + Text(laid[0].value) + "" == Print(items[0]);
  }

  lemma {:induction false} CompactItemsPrint(items: seq<Json>)
    ensures TightItems(CompactItems(items))
    ensures forall i :: 0 <= i < |items| ==> var x := CompactItems(items)[i]; Blank(x.before) && Proper(x.value) && Blank(x.after)
    ensures items != [] ==> ItemsText(CompactItems(items)) == PrintItems(items)
    decreases items, 0
  {
    hide Proper, Text, Print, Tight, ItemsText, PrintItems, Compact;
    if items != [] {
      CompactIsPrint(items[0]);
      CompactItemsPrint(items[1..]);
      assert CompactItems(items)[1..] == CompactItems(items[1..]);
      FirstCompact(items, CompactItems(items));
    }
  }

  lemma {:induction false} FirstPair(fields: seq<Entry>, laid: seq<Pair>)
    requires fields != [] && |laid| == |fields| && laid[0].key == fields[0].key
    requires laid[0].before == "" && laid[0].colon == "" && laid[0].gap == "" && laid[0].after == ""
    requires Text(laid[0].value) == Print(fields[0].value)
    requires |fields| > 1 ==> PairsText(laid[1..]) == PrintFields(fields[1..])
    ensures PairsText(laid) == PrintFields(fields)
  {
    hide Print, Text, Quote;
    var q, s := Quote(fields[0].key), Print(fields[0].value);
    assert q + "" + ":" + "" + s == q + [':'] + s;
    assert "" + PairText(laid[0]) + "" == PrintEntry(fields[0]);
  }

  lemma {:induction false} CompactPairsPrint(fields: seq<Entry>)
    ensures TightPairs(CompactPairs(fields), false) && TightPairs(CompactPairs(fields), true)
    ensures forall i :: 0 <= i < |fields| ==> var x := CompactPairs(fields)[i]; ProperBlanks(x) && Proper(x.value)
    ensures fields != [] ==> PairsText(CompactPairs(fields)) == PrintFields(fields)
    decreases fields, 0
  {
    hide Proper, Text, Print, Tight, Quote, PairsText, PrintFields, Compact, PairText;
    if fields != [] {
      CompactIsPrint(fields[0].value);
      CompactPairsPrint(fields[1..]);
      assert CompactPairs(fields)[1..] == CompactPairs(fields[1..]);
      FirstPair(fields, CompactPairs(fields));
    }
  }

  lemma CompactReads(j: Json)
    ensures ValueOf(Compact(j)) == ReadBack(j) && !Compact(j).Real?
  {
    hide Print, Text;
    CompactIsPrint(j);
  }

  // A printed value is consumed to its end, whatever surrounds it.
  lemma PrintSkips(t: string, p: nat, j: Json)
    requires Holds(t, p, Print(j)) && Delimited(t, p + |Print(j)|)
    ensures SkipWs(t, p) == p && SkipValue(t, p) == Some(p + |Print(j)|)
  {
    hide Print, Text, SkipValue, SkipWs, Holds, Delimited;
    CompactIsPrint(j);
    TextSkips(t, p, Compact(j));
  }

  // Reading a printed value reports it, whatever surrounds it.
  lemma PrintReads(t: string, p: nat, j: Json)
    requires Holds(t, p, Print(j)) && Delimited(t, p + |Print(j)|)
    ensures ParseValue(t, p) == Some((ReadBack(j), p + |Print(j)|))
  {
    hide Print, Text, ParseValue, ValueOf, ReadBack, Holds, Delimited;
    CompactIsPrint(j);
    CompactReads(j);
    TextReads(t, p, Compact(j));
  }

  lemma CompactAt(t: string, p: nat, j: Json)
    requires Holds(t, p, Print(j)) && Delimited(t, p + |Print(j)|)
    ensures DocAt(t, p, Compact(j))
  {
    hide Print, Text, SkipWs, Holds, Delimited;
    CompactIsPrint(j);
    PrintSkips(t, p, j);
    HoldsFits(t, p, Print(j));
  }

  lemma {:induction false} CompactItem(items: seq<Json>, k: nat, needle: string)
    requires k < |items|
    ensures IsNeedle(CompactItems(items)[k].value, needle) <==> items[k].Str? && Escape(items[k].s) == needle
    ensures Tight(CompactItems(items)[k].value)
    decreases |items|
  {
    hide Escape;
    if k == 0 {
      CompactIsPrint(items[0]);
    } else {
      CompactItem(items[1..], k - 1, needle);
    }
  }

  /** Looking for a string in a printed value: it is found exactly when the value is an array and one of its items
      is that string; a flag that was up stays up over an array. */
  lemma MembershipReads(t: string, p: nat, j: Json, needle: string, was: bool)
    requires Holds(t, p, Print(j)) && Delimited(t, p + |Print(j)|)
    ensures ParseMembership(t, p, needle, was).member <==>
      j.Arr? && (was || exists k :: 0 <= k < |j.items| && j.items[k].Str? && Escape(j.items[k].s) == needle)
  {
    hide Print, Holds, Delimited, ParseMembership, IsNeedle, Tight, Escape, DocAt;
    CompactAt(t, p, j);
    MembershipFinds(t, p, Compact(j), needle, was);
    if j.Arr? {
      forall k | 0 <= k < |j.items|
        ensures IsNeedle(CompactItems(j.items)[k].value, needle) <==> j.items[k].Str? && Escape(j.items[k].s) == needle
        ensures Tight(CompactItems(j.items)[k].value)
      {
        CompactItem(j.items, k, needle);
      }
    }
  }

  lemma ContainsReads(j: Json, needle: string)
    ensures ArrayContains(ReadBack(j), needle) <==>
      j.Arr? && exists k :: 0 <= k < |j.items| && j.items[k].Str? && Escape(j.items[k].s) == needle
  {
    hide Print, ParseMembership, Escape;
    MembershipReads(Print(j), 0, j, needle, false);
  }

  lemma {:induction false} CompactMember(fields: seq<Entry>, segment: string)
    ensures PassedOver(CompactPairs(fields), segment)
    ensures MemberIn(CompactPairs(fields), segment) == match Member(fields, segment) case Some(v) => Some(Compact(v)) case None => None
    decreases |fields|
  {
    hide Tight, Compact, Escape;
    if fields != [] {
      CompactIsPrint(fields[0].value);
      CompactMember(fields[1..], segment);
      assert CompactPairs(fields)[1..] == CompactPairs(fields[1..]);
    }
  }

  lemma {:induction false} CompactLookup(j: Json, segments: seq<string>)
    requires segments != []
    ensures Reaches(Compact(j), segments)
    ensures LookupIn(Compact(j), segments) == match Lookup(j, segments) case Success(v) => Success(Compact(v)) case Failure(code) => Failure(code)
    decreases |segments|
  {
    hide Tight, Member, MemberIn, PassedOver;
    if j.Obj? {
      CompactMember(j.fields, segments[0]);
      var m := Member(j.fields, segments[0]);
      if m.Some? {
        CompactIsPrint(m.value);
        if |segments| > 1 {
          CompactLookup(m.value, segments[1..]);
        }
      }
    }
  }

  // A dotted lookup in printed JSON is a lookup in the value that was printed.
  lemma GetIsLookup(t: string, p: nat, j: Json, segments: seq<string>)
    requires segments != [] && Holds(t, p, Print(j)) && Delimited(t, p + |Print(j)|)
    ensures GetFrom(t, p, segments) == match Lookup(j, segments) case Success(v) => Success(ReadBack(v)) case Failure(code) => Failure(code)
  {
    hide GetFrom, Print, Holds, Delimited, DocAt, ValueOf, ReadBack, Compact, Reaches, LookupIn, Lookup;
    CompactAt(t, p, j);
    CompactLookup(j, segments);
    GetIsLookupIn(t, p, Compact(j), segments);
    var r := Lookup(j, segments);
    if r.Success? {
      CompactReads(r.value);
    }
  }

  /** Printing and then reading gives the value back: the text is one value, consumed to its end, and every
      path finds in it what it finds in the value itself. */
  lemma PrintThenGet(j: Json, path: string)
    requires path != ""
    ensures SkipValue(Print(j), 0) == Some(|Print(j)|)
    ensures JsonGet(Print(j), path)
         == match Lookup(j, Segments(path, 0)) case Success(v) => Success(ReadBack(v)) case Failure(code) => Failure(code)
  {
    hide SkipValue, GetFrom, Print, Lookup, ReadBack, Segments;
    PrintSkips(Print(j), 0, j);
    GetIsLookup(Print(j), 0, j, Segments(path, 0));
  }
}
