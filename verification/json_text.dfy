/** apps/sendspin/sendspin_protocol.c: what its JSON reader accepts, as functions of the text and a
    position. A byte of text is modelled as a char: the reader only compares bytes. */
module JsonText {
  import opened Common

  predicate Space(c: char) {
    c == ' ' || c == '\t' || c == '\n' || c == '\r'
  }

  predicate Digit(c: char) {
    '0' <= c <= '9'
  }

  function SkipWs(t: string, p: nat): (r: nat)
    requires p <= |t|
    ensures p <= r <= |t|
    decreases |t| - p
  {
    if p < |t| && Space(t[p]) then SkipWs(t, p + 1) else p
  }

  function SkipDigits(t: string, p: nat): (r: nat)
    requires p <= |t|
    ensures p <= r <= |t|
    decreases |t| - p
  {
    if p < |t| && Digit(t[p]) then SkipDigits(t, p + 1) else p
  }

  // The closing quote of a string whose contents start at p.
  function StringEnd(t: string, p: nat): (r: Option<nat>)
    requires p <= |t|
    ensures r.Some? ==> p <= r.value < |t|
    decreases |t| - p
  {
    if p == |t| then None
    else if t[p] == '\\' then if |t| - p < 2 then None else StringEnd(t, p + 2)
    else if t[p] == '\"' then Some(p)
    else StringEnd(t, p + 1)
  }

  // Every reader returns the position behind what it consumed, and always consumes something.
  function ScanString(t: string, p: nat): (r: Option<nat>)
    requires p <= |t|
    ensures r.Some? ==> p + 1 < r.value <= |t|
  {
    if p == |t| || t[p] != '\"' then None
    else
      var e := StringEnd(t, p + 1);
      if e == None then None else Some(e.value + 1)
  }

  // The bytes between the quotes.
  function Quoted(t: string, p: nat): string
    requires p <= |t| && ScanString(t, p).Some?
  {
    t[p + 1..ScanString(t, p).value - 1]
  }

  function MatchLiteral(t: string, p: nat, literal: string): (r: Option<nat>)
    requires p <= |t|
    ensures r.Some? ==> r.value == p + |literal| <= |t|
  {
    if p + |literal| <= |t| && t[p..p + |literal|] == literal then Some(p + |literal|) else None
  }

  function SkipSign(t: string, p: nat): (r: nat)
    requires p <= |t|
    ensures p <= r <= |t|
  {
    if p < |t| && t[p] == '-' then p + 1 else p
  }

  function SkipFraction(t: string, p: nat): (r: nat)
    requires p <= |t|
    ensures p <= r <= |t|
  {
    if p < |t| && t[p] == '.' then SkipDigits(t, p + 1) else p
  }

  function SkipExponent(t: string, p: nat): (r: nat)
    requires p <= |t|
    ensures p <= r <= |t|
  {
    if p < |t| && (t[p] == 'e' || t[p] == 'E') then
      SkipDigits(t, if p + 1 < |t| && (t[p + 1] == '+' || t[p + 1] == '-') then p + 2 else p + 1)
    else p
  }

  function SkipNumber(t: string, p: nat): (r: Option<nat>)
    requires p <= |t|
    ensures r.Some? ==> p < r.value <= |t|
  {
    var s := SkipSign(t, p);
    if s == |t| || !Digit(t[s]) then None else Some(SkipExponent(t, SkipFraction(t, SkipDigits(t, s + 1))))
  }

  function SkipValue(t: string, p: nat): (r: Option<nat>)
    requires p <= |t|
    ensures r.Some? ==> p < r.value <= |t|
    decreases |t| - p, 2
  {
    var w := SkipWs(t, p);
    if w == |t| then None
    else if t[w] == '{' then SkipObject(t, w)
    else if t[w] == '[' then SkipArray(t, w)
    else if t[w] == '\"' then ScanString(t, w)
    else if t[w] == 't' then MatchLiteral(t, w, "true")
    else if t[w] == 'f' then MatchLiteral(t, w, "false")
    else if t[w] == 'n' then MatchLiteral(t, w, "null")
    else SkipNumber(t, w)
  }

  function SkipObject(t: string, p: nat): (r: Option<nat>)
    requires p < |t|
    ensures r.Some? ==> p < r.value <= |t|
    decreases |t| - p, 1
  {
    var w := SkipWs(t, p + 1);
    if w < |t| && t[w] == '}' then Some(w + 1) else SkipMembers(t, w)
  }

  // A key and the colon behind it.
  function SkipKey(t: string, p: nat): (r: Option<nat>)
    requires p <= |t|
    ensures r.Some? ==> p < r.value <= |t| && ScanString(t, p).Some?
  {
    var k := ScanString(t, p);
    if k == None then None
    else
      var w := SkipWs(t, k.value);
      if w == |t| || t[w] != ':' then None else Some(w + 1)
  }

  // Members of an object, from a key on; no white space is skipped behind a comma.
  function SkipMembers(t: string, p: nat): (r: Option<nat>)
    requires p <= |t|
    ensures r.Some? ==> p < r.value <= |t|
    decreases |t| - p, 0
  {
    var k := SkipKey(t, p);
    if k == None then None
    else
      var v := SkipValue(t, k.value);
      if v == None then None
      else
        var w := SkipWs(t, v.value);
        if w == |t| then None
        else if t[w] == ',' then SkipMembers(t, w + 1)
        else if t[w] == '}' then Some(w + 1)
        else None
  }

  // One member, taken apart.
  lemma MembersStep(t: string, p: nat, k: nat, v: nat, w: nat)
    requires p <= |t| && SkipKey(t, p) == Some(k) && SkipValue(t, k) == Some(v) && SkipWs(t, v) == w < |t|
    ensures SkipMembers(t, p) == if t[w] == ',' then SkipMembers(t, w + 1) else if t[w] == '}' then Some(w + 1) else None
  {
    hide SkipKey, SkipValue, SkipWs;
  }

  lemma MembersParts(t: string, p: nat)
    requires p <= |t| && SkipMembers(t, p).Some?
    ensures SkipKey(t, p).Some? && SkipValue(t, SkipKey(t, p).value).Some?
    ensures var v := SkipValue(t, SkipKey(t, p).value).value; var w := SkipWs(t, v);
      p < v <= w < |t| && (t[w] == ',' || t[w] == '}') && w < SkipMembers(t, p).value
  {
    hide SkipKey, SkipValue, SkipWs;
  }

  function SkipArray(t: string, p: nat): (r: Option<nat>)
    requires p < |t|
    ensures r.Some? ==> p < r.value <= |t|
    decreases |t| - p, 1
  {
    var w := SkipWs(t, p + 1);
    if w < |t| && t[w] == ']' then Some(w + 1) else SkipElements(t, w)
  }

  function SkipElements(t: string, p: nat): (r: Option<nat>)
    requires p <= |t|
    ensures r.Some? ==> p < r.value <= |t|
    decreases |t| - p, 3
  {
    var v := SkipValue(t, p);
    if v == None then None
    else
      var w := SkipWs(t, v.value);
      if w == |t| then None
      else if t[w] == ',' then SkipElements(t, w + 1)
      else if t[w] == ']' then Some(w + 1)
      else None
  }

  function DigitValue(c: char): nat
    requires Digit(c)
  {
    c as nat - '0' as nat
  }

  // The value of the decimal digits t[p..q].
  function DecimalValue(t: string, p: nat, q: nat): nat
    requires p <= q <= |t| && forall i :: p <= i < q ==> Digit(t[i])
    decreases q - p
  {
    if p == q then 0 else DecimalValue(t, p, q - 1) * 10 + DigitValue(t[q - 1])
  }

  lemma {:induction false} SkippedAreDigits(t: string, p: nat)
    requires p <= |t|
    ensures var q := SkipDigits(t, p); (forall i :: p <= i < q ==> Digit(t[i])) && (q < |t| ==> !Digit(t[q]))
    decreases |t| - p
  {
    if p < |t| && Digit(t[p]) {
      SkippedAreDigits(t, p + 1);
    }
  }

  function Clamp64(n: int): (r: i64)
    ensures -0x8000_0000_0000_0000 <= n <= 0x7FFF_FFFF_FFFF_FFFF ==> r == n
    ensures n < -0x8000_0000_0000_0000 ==> r == -0x8000_0000_0000_0000
    ensures n > 0x7FFF_FFFF_FFFF_FFFF ==> r == 0x7FFF_FFFF_FFFF_FFFF
  {
    if n < INT64_MIN then INT64_MIN else if n > INT64_MAX then INT64_MAX else n
  }

  // Integers only: the nearest int64 to what the digits say.
  function ParseNumber(t: string, p: nat): (r: Option<(int, nat)>)
    requires p <= |t|
    ensures r.Some? ==> p < r.value.1 <= |t|
  {
    var s := SkipSign(t, p);
    if s == |t| || !Digit(t[s]) then None
    else
      var q := SkipDigits(t, s);
      if q < |t| && (t[q] == '.' || t[q] == 'e' || t[q] == 'E') then None
      else
        SkippedAreDigits(t, s);
        Some((Clamp64(if s > p then 0 - DecimalValue(t, s, q) else DecimalValue(t, s, q)), q))
  }

  datatype Kind = NullKind | BoolKind | NumberKind | StringKind | ArrayKind | ObjectKind

  datatype Value = Value(kind: Kind, boolean: bool, number: int, text: string, raw: string)

  const NOTHING: Value := Value(NullKind, false, 0, "", "")

  function KindAt(c: char): Kind {
    if c == '{' then ObjectKind else if c == '[' then ArrayKind else if c == '\"' then StringKind
    else if c == 't' || c == 'f' then BoolKind else if c == 'n' then NullKind else NumberKind
  }

  // parse_value: skip_value that also reports what it saw, and takes integers only.
  function ParseValue(t: string, p: nat): (r: Option<(Value, nat)>)
    requires p <= |t|
    ensures r.Some? ==> p < r.value.1 <= |t|
  {
    var w := SkipWs(t, p);
    if w == |t| then None
    else if KindAt(t[w]) == NumberKind then
      var n := ParseNumber(t, w);
      if n == None then None else Some((Value(NumberKind, false, n.value.0, "", t[w..n.value.1]), n.value.1))
    else
      var e := SkipValue(t, w);
      if e == None then None
      else
        var kind := KindAt(t[w]);
        SkipWsStays(t, p);
        Some((Value(kind, t[w] == 't', 0, if kind == StringKind then t[w + 1..e.value - 1] else "", t[w..e.value]), e.value))
  }

  lemma {:induction false} SkipWsStays(t: string, p: nat)
    requires p <= |t|
    ensures var w := SkipWs(t, p); SkipWs(t, w) == w && (w < |t| ==> !Space(t[w]))
    decreases |t| - p
  {
    if p < |t| && Space(t[p]) {
      SkipWsStays(t, p + 1);
    }
  }

  // What a search has seen, and where it ended if the text did not break off.
  datatype Search = Search(member: bool, next: Option<nat>)

  // Elements of an array, looking for one that is the given string.
  function FindElement(t: string, p: nat, needle: string, member: bool): (r: Search)
    requires p <= |t|
    ensures r.next.Some? ==> p < r.next.value <= |t|
    decreases |t| - p
  {
    var e := SkipWs(t, p);
    var v := if e < |t| && t[e] == '\"' then ScanString(t, e) else SkipValue(t, e);
    if v == None then Search(member, None)
    else
      var member := member || (t[e] == '\"' && Quoted(t, e) == needle);
      var w := SkipWs(t, v.value);
      if w == |t| then Search(member, None)
      else if t[w] == ',' then FindElement(t, w + 1, needle, member)
      else if t[w] == ']' then Search(member, Some(w + 1))
      else Search(member, None)
  }

  lemma ElementStep(t: string, p: nat, needle: string, member: bool)
    requires p <= |t|
    ensures var e := SkipWs(t, p);
      var v := if e < |t| && t[e] == '\"' then ScanString(t, e) else SkipValue(t, e);
      && (v == None ==> FindElement(t, p, needle, member) == Search(member, None))
      && (v.Some? ==>
        var m := member || (t[e] == '\"' && Quoted(t, e) == needle);
        var w := SkipWs(t, v.value);
        FindElement(t, p, needle, member) ==
          if w < |t| && t[w] == ',' then FindElement(t, w + 1, needle, m)
          else if w < |t| && t[w] == ']' then Search(m, Some(w + 1))
          else Search(m, None))
  {
    hide SkipValue, ScanString, Quoted, SkipWs;
  }

  // parse_array_membership, with the flag as it was: an element may raise it, and a value that is no array lowers it.
  function ParseMembership(t: string, p: nat, needle: string, was: bool): (r: Search)
    requires p <= |t|
    ensures r.next.Some? ==> p < r.next.value <= |t|
  {
    var s := SkipWs(t, p);
    if s == |t| || t[s] != '[' then Search(false, SkipValue(t, s))
    else
      var w := SkipWs(t, s + 1);
      if w < |t| && t[w] == ']' then Search(was, Some(w + 1)) else FindElement(t, w, needle, was)
  }

  // A field the caller asks scan_fields for: its value, or whether it is an array with this element.
  datatype Field = Field(key: string, needle: Option<string>, value: Value, member: bool, found: bool)

  function FirstUnfound(fields: seq<Field>, key: string, i: nat): (r: Option<nat>)
    requires i <= |fields|
    ensures r.Some? ==> i <= r.value < |fields| && !fields[r.value].found && fields[r.value].key == key
    ensures r.Some? ==> forall k :: i <= k < r.value ==> fields[k].found || fields[k].key != key
    ensures r == None ==> forall k :: i <= k < |fields| ==> fields[k].found || fields[k].key != key
    decreases |fields| - i
  {
    if i == |fields| then None
    else if !fields[i].found && fields[i].key == key then Some(i)
    else FirstUnfound(fields, key, i + 1)
  }

  // The value behind a key's colon, for whichever field it belongs to.
  function TakeField(t: string, p: nat, fields: seq<Field>, key: string): (r: Option<(seq<Field>, nat)>)
    requires p <= |t|
    ensures r.Some? ==> p < r.value.1 <= |t| && |r.value.0| == |fields|
  {
    var i := FirstUnfound(fields, key, 0);
    if i == None then
      var v := SkipValue(t, p);
      if v == None then None else Some((fields, v.value))
    else
      var f := fields[i.value];
      if f.needle.Some? then
        var m := ParseMembership(t, p, f.needle.value, f.member);
        if m.next == None then None else Some((fields[i.value := f.(found := true, member := m.member)], m.next.value))
      else
        var v := ParseValue(t, p);
        if v == None then None else Some((fields[i.value := f.(found := true, value := v.value.0)], v.value.1))
  }

  function ScanMembers(t: string, p: nat, fields: seq<Field>): (r: Option<(seq<Field>, nat)>)
    requires p <= |t|
    ensures r.Some? ==> p < r.value.1 <= |t| && |r.value.0| == |fields|
    decreases |t| - p
  {
    var s := SkipWs(t, p);
    if s == |t| then None
    else if t[s] == '}' then Some((fields, s + 1))
    else
      var k := SkipKey(t, s);
      if k == None then None
      else
        var v := TakeField(t, k.value, fields, Quoted(t, s));
        if v == None then None
        else
          var w := SkipWs(t, v.value.1);
          if w == |t| then None
          else if t[w] == ',' then ScanMembers(t, w + 1, v.value.0)
          else if t[w] == '}' then Some((v.value.0, w + 1))
          else None
  }

  function Cleared(fields: seq<Field>): (r: seq<Field>)
    ensures |r| == |fields|
  {
    seq(|fields|, i requires 0 <= i < |fields| => if fields[i].needle == None then fields[i].(value := NOTHING) else fields[i])
  }

  function ScanFields(t: string, p: nat, fields: seq<Field>): Option<(seq<Field>, nat)>
    requires p <= |t|
  {
    var s := SkipWs(t, p);
    if s == |t| || t[s] != '{' then None else ScanMembers(t, s + 1, Cleared(fields))
  }

  // The members of an object up to the one with this key: the position behind its colon.
  function FindMember(t: string, p: nat, segment: string): (r: Result<nat>)
    requires p <= |t|
    ensures if r.Success? then p < r.value <= |t| else r.code == INVALID || r.code == UNSUPPORTED
    decreases |t| - p
  {
    var s := SkipWs(t, p);
    if s == |t| then Failure(INVALID)
    else if t[s] == '}' then Failure(UNSUPPORTED)
    else
      var k := SkipKey(t, s);
      if k == None then Failure(INVALID)
      else if Quoted(t, s) == segment then Success(k.value)
      else
        var v := SkipValue(t, k.value);
        if v == None then Failure(INVALID)
        else
          var w := SkipWs(t, v.value);
          if w == |t| then Failure(INVALID)
          else if t[w] == ',' then FindMember(t, w + 1, segment)
          else if t[w] == '}' then Failure(UNSUPPORTED)
          else Failure(INVALID)
  }

  // The member at p, taken apart.
  lemma FindStep(t: string, p: nat, segment: string, k: nat, v: nat, w: nat)
    requires p < |t| && SkipWs(t, p) == p && t[p] == '\"' && SkipKey(t, p) == Some(k)
    requires SkipValue(t, k) == Some(v) && SkipWs(t, v) == w < |t| && (t[w] == ',' || t[w] == '}')
    ensures FindMember(t, p, segment)
         == if Quoted(t, p) == segment then Success(k) else if t[w] == ',' then FindMember(t, w + 1, segment) else Failure(UNSUPPORTED)
  {
    hide SkipKey, SkipValue, SkipWs, Quoted;
  }

  // One member of the search.
  lemma MemberStep(t: string, p: nat, segment: string)
    requires p <= |t| && SkipWs(t, p) < |t| && t[SkipWs(t, p)] != '}' && SkipKey(t, SkipWs(t, p)).Some?
    ensures var s := SkipWs(t, p);
      var k := SkipKey(t, s).value;
      var v := SkipValue(t, k);
      && (Quoted(t, s) == segment ==> FindMember(t, p, segment) == Success(k))
      && (Quoted(t, s) != segment && v == None ==> FindMember(t, p, segment) == Failure(INVALID))
      && (Quoted(t, s) != segment && v.Some? ==>
        var w := SkipWs(t, v.value);
        FindMember(t, p, segment) ==
          if w < |t| && t[w] == ',' then FindMember(t, w + 1, segment)
          else Failure(if w < |t| && t[w] == '}' then UNSUPPORTED else INVALID))
  {
    hide SkipKey, SkipValue, SkipWs, Quoted;
  }

  lemma NoMember(t: string, p: nat, segment: string)
    requires p <= |t|
    ensures var s := SkipWs(t, p);
      && (s == |t| ==> FindMember(t, p, segment) == Failure(INVALID))
      && (s < |t| && t[s] == '}' ==> FindMember(t, p, segment) == Failure(UNSUPPORTED))
      && (s < |t| && t[s] != '}' && SkipKey(t, s) == None ==> FindMember(t, p, segment) == Failure(INVALID))
  {
    hide SkipKey, SkipValue, SkipWs, Quoted;
  }

  function Descend(t: string, p: nat, segment: string): (r: Result<nat>)
    requires p <= |t|
    ensures if r.Success? then p < r.value <= |t| else r.code == INVALID || r.code == UNSUPPORTED
  {
    var s := SkipWs(t, p);
    if s == |t| || t[s] != '{' then Failure(INVALID) else FindMember(t, s + 1, segment)
  }

  // One segment after another; the last one's value is read.
  function GetFrom(t: string, p: nat, segments: seq<string>): Result<Value>
    requires p <= |t| && segments != []
    decreases |segments|
  {
    var d := Descend(t, p, segments[0]);
    if d.Failure? then Failure(d.code)
    else if |segments| > 1 then GetFrom(t, d.value, segments[1..])
    else
      var v := ParseValue(t, d.value);
      if v == None then Failure(INVALID) else Success(v.value.0)
  }

  // strchr(path + p, '.'), or the end of the path.
  function Dot(path: string, p: nat): (r: nat)
    requires p <= |path|
    ensures p <= r <= |path| && (r < |path| ==> path[r] == '.') && forall i :: p <= i < r ==> path[i] != '.'
    decreases |path| - p
  {
    if p < |path| && path[p] != '.' then Dot(path, p + 1) else p
  }

  function Segments(path: string, p: nat): (r: seq<string>)
    requires p <= |path|
    ensures r != []
    decreases |path| - p
  {
    var d := Dot(path, p);
    if d == |path| then [path[p..]] else [path[p..d]] + Segments(path, d + 1)
  }

  // eaf_sendspin_json_get.
  function JsonGet(t: string, path: string): Result<Value> {
    if path == "" then Failure(INVALID) else GetFrom(t, 0, Segments(path, 0))
  }

  // eaf_sendspin_json_array_contains.
  predicate ArrayContains(v: Value, needle: string) {
    v.kind == ArrayKind && ParseMembership(v.raw, 0, needle, false).member
  }
}
