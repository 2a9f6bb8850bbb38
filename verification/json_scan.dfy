/** The two readers of apps/sendspin/sendspin_protocol.c agree: one pass over an object for several
    fields finds what a separate lookup of each field finds. */
module JsonScan {
  import opened Common
  import opened JsonText

  lemma {:induction false} DigitsFromNext(t: string, p: nat)
    requires p < |t| && Digit(t[p])
    ensures SkipDigits(t, p) == SkipDigits(t, p + 1)
  {
  }

  lemma NumberSkips(t: string, p: nat)
    requires p <= |t| && ParseNumber(t, p).Some?
    ensures SkipNumber(t, p) == Some(ParseNumber(t, p).value.1)
  {
    hide DecimalValue;
    DigitsFromNext(t, SkipSign(t, p));
  }

  // What parse_value takes, skip_value skips.
  lemma ParseSkips(t: string, p: nat)
    requires p <= |t| && ParseValue(t, p).Some?
    ensures SkipValue(t, p) == Some(ParseValue(t, p).value.1)
  {
    hide SkipObject, SkipArray, ScanString, MatchLiteral, SkipNumber, ParseNumber;
    SkipWsStays(t, p);
    var w := SkipWs(t, p);
    if KindAt(t[w]) == NumberKind {
      NumberSkips(t, w);
    }
  }

  lemma {:induction false} ElementsSkip(t: string, p: nat, needle: string, member: bool)
    requires p <= |t|
    ensures FindElement(t, p, needle, member).next == SkipElements(t, p)
    decreases |t| - p
  {
    hide SkipObject, SkipArray, ScanString, MatchLiteral, SkipNumber, Quoted;
    SkipWsStays(t, p);
    var e := SkipWs(t, p);
    assert SkipValue(t, e) == SkipValue(t, p);
    var v := SkipValue(t, p);
    if v.Some? {
      var w := SkipWs(t, v.value);
      if w < |t| && t[w] == ',' {
        ElementsSkip(t, w + 1, needle, member || (t[e] == '\"' && Quoted(t, e) == needle));
      }
    }
  }

  // The membership test skips exactly one value.
  lemma MembershipSkips(t: string, p: nat, needle: string, was: bool)
    requires p <= |t|
    ensures ParseMembership(t, p, needle, was).next == SkipValue(t, p)
  {
    hide SkipObject, ScanString, MatchLiteral, SkipNumber, FindElement, SkipElements;
    SkipWsStays(t, p);
    var s := SkipWs(t, p);
    if s < |t| && t[s] == '[' {
      ElementsSkip(t, SkipWs(t, s + 1), needle, was);
    }
  }

  // A window of the text: positions a..b become 0..b - a.
  ghost predicate Window(u: string, t: string, a: nat, b: nat) {
    a <= b <= |t| && u == t[a..b]
  }

  lemma SliceInWindow(u: string, t: string, a: nat, b: nat, p: nat, q: nat)
    requires Window(u, t, a, b) && p <= q <= |u|
    ensures u[p..q] == t[a + p..a + q]
  {
    assert forall i :: 0 <= i < q - p ==> u[p..q][i] == t[a + p..a + q][i];
  }

  lemma {:induction false} WsInWindow(u: string, t: string, a: nat, b: nat, p: nat)
    requires Window(u, t, a, b) && p <= |u|
    ensures a + p <= |t| && a + SkipWs(u, p) == Min(SkipWs(t, a + p), b)
    decreases |u| - p
  {
    if p < |u| && Space(u[p]) {
      WsInWindow(u, t, a, b, p + 1);
    }
  }

  lemma {:induction false} DigitsInWindow(u: string, t: string, a: nat, b: nat, p: nat)
    requires Window(u, t, a, b) && p <= |u|
    ensures a + p <= |t| && a + SkipDigits(u, p) == Min(SkipDigits(t, a + p), b)
    decreases |u| - p
  {
    if p < |u| && Digit(u[p]) {
      DigitsInWindow(u, t, a, b, p + 1);
    }
  }

  lemma {:induction false} StringInWindow(u: string, t: string, a: nat, b: nat, p: nat)
    requires Window(u, t, a, b) && p <= |u| && StringEnd(t, a + p).Some? && StringEnd(t, a + p).value < b
    ensures StringEnd(u, p) == Some(StringEnd(t, a + p).value - a)
    decreases |u| - p
  {
    if p < |u| {
      if u[p] == '\\' && |t| - (a + p) >= 2 {
        StringInWindow(u, t, a, b, p + 2);
      } else if u[p] != '\"' {
        StringInWindow(u, t, a, b, p + 1);
      }
    }
  }

  // A reader that stays inside the window reads the same there.
  ghost predicate Inside(full: Option<nat>, cut: Option<nat>, a: nat, b: nat) {
    full.Some? && full.value <= b ==> cut.Some? && full.value == a + cut.value
  }

  lemma ScanInWindow(u: string, t: string, a: nat, b: nat, p: nat)
    requires Window(u, t, a, b) && p <= |u|
    ensures Inside(ScanString(t, a + p), ScanString(u, p), a, b)
    ensures ScanString(t, a + p).Some? && ScanString(t, a + p).value <= b ==> Quoted(t, a + p) == Quoted(u, p)
  {
    hide StringEnd;
    if ScanString(t, a + p).Some? && ScanString(t, a + p).value <= b {
      StringInWindow(u, t, a, b, p + 1);
      var e := ScanString(t, a + p).value - 1;
      SliceInWindow(u, t, a, b, p + 1, e - a);
    }
  }

  lemma NumberInWindow(u: string, t: string, a: nat, b: nat, p: nat)
    requires Window(u, t, a, b) && p <= |u|
    ensures Inside(SkipNumber(t, a + p), SkipNumber(u, p), a, b)
  {
    hide SkipDigits;
    if SkipNumber(t, a + p).Some? && SkipNumber(t, a + p).value <= b {
      var s := SkipSign(t, a + p);
      DigitsInWindow(u, t, a, b, s + 1 - a);
      var d := SkipDigits(t, s + 1);
      FractionInWindow(u, t, a, b, d - a);
      ExponentInWindow(u, t, a, b, SkipFraction(t, d) - a);
    }
  }

  lemma FractionInWindow(u: string, t: string, a: nat, b: nat, p: nat)
    requires Window(u, t, a, b) && p <= |u| && SkipFraction(t, a + p) <= b
    ensures a + SkipFraction(u, p) == SkipFraction(t, a + p)
  {
    hide SkipDigits;
    if a + p < b && t[a + p] == '.' {
      DigitsInWindow(u, t, a, b, p + 1);
    }
  }

  lemma ExponentInWindow(u: string, t: string, a: nat, b: nat, p: nat)
    requires Window(u, t, a, b) && p <= |u| && SkipExponent(t, a + p) <= b
    ensures a + SkipExponent(u, p) == SkipExponent(t, a + p)
  {
    hide SkipDigits;
    if a + p < b && (t[a + p] == 'e' || t[a + p] == 'E') {
      if a + p + 1 < |t| && (t[a + p + 1] == '+' || t[a + p + 1] == '-') {
        DigitsInWindow(u, t, a, b, p + 2);
      } else {
        DigitsInWindow(u, t, a, b, p + 1);
      }
    }
  }

  lemma LiteralInWindow(u: string, t: string, a: nat, b: nat, p: nat, literal: string)
    requires Window(u, t, a, b) && p <= |u|
    ensures Inside(MatchLiteral(t, a + p, literal), MatchLiteral(u, p, literal), a, b)
  {
    if MatchLiteral(t, a + p, literal).Some? && a + p + |literal| <= b {
      assert u[p..p + |literal|] == t[a + p..a + p + |literal|];
    }
  }

  lemma {:induction false} ValueInWindow(u: string, t: string, a: nat, b: nat, p: nat)
    requires Window(u, t, a, b) && p <= |u|
    ensures Inside(SkipValue(t, a + p), SkipValue(u, p), a, b)
    decreases |u| - p, 2
  {
    hide SkipObject, SkipArray, ScanString, MatchLiteral, SkipNumber, SkipWs;
    WsInWindow(u, t, a, b, p);
    var w := SkipWs(u, p);
    if w < |u| {
      ScanInWindow(u, t, a, b, w);
      NumberInWindow(u, t, a, b, w);
      LiteralInWindow(u, t, a, b, w, "true");
      LiteralInWindow(u, t, a, b, w, "false");
      LiteralInWindow(u, t, a, b, w, "null");
      if u[w] == '{' {
        ObjectInWindow(u, t, a, b, w);
      } else if u[w] == '[' {
        ArrayInWindow(u, t, a, b, w);
      }
    }
  }

  lemma {:induction false} ObjectInWindow(u: string, t: string, a: nat, b: nat, p: nat)
    requires Window(u, t, a, b) && p < |u|
    ensures Inside(SkipObject(t, a + p), SkipObject(u, p), a, b)
    decreases |u| - p, 1
  {
    hide SkipMembers, SkipWs;
    WsInWindow(u, t, a, b, p + 1);
    MembersInWindow(u, t, a, b, SkipWs(u, p + 1));
  }

  lemma KeyInWindow(u: string, t: string, a: nat, b: nat, p: nat)
    requires Window(u, t, a, b) && p <= |u|
    ensures Inside(SkipKey(t, a + p), SkipKey(u, p), a, b)
  {
    hide ScanString, SkipWs;
    ScanInWindow(u, t, a, b, p);
    if SkipKey(t, a + p).Some? && SkipKey(t, a + p).value <= b {
      WsInWindow(u, t, a, b, ScanString(t, a + p).value - a);
    }
  }

  lemma {:induction false} MembersInWindow(u: string, t: string, a: nat, b: nat, p: nat)
    requires Window(u, t, a, b) && p <= |u|
    ensures Inside(SkipMembers(t, a + p), SkipMembers(u, p), a, b)
    decreases |u| - p, 0
  {
    hide SkipMembers, SkipKey, SkipValue, SkipWs;
    if SkipMembers(t, a + p).Some? && SkipMembers(t, a + p).value <= b {
      MembersParts(t, a + p);
      KeyInWindow(u, t, a, b, p);
      var k := SkipKey(t, a + p).value - a;
      ValueInWindow(u, t, a, b, k);
      var v := SkipValue(t, a + k).value - a;
      WsInWindow(u, t, a, b, v);
      var w := SkipWs(t, a + v) - a;
      MembersStep(t, a + p, a + k, a + v, a + w);
      MembersStep(u, p, k, v, w);
      if t[a + w] == ',' {
        MembersInWindow(u, t, a, b, w + 1);
      }
    }
  }

  lemma {:induction false} ArrayInWindow(u: string, t: string, a: nat, b: nat, p: nat)
    requires Window(u, t, a, b) && p < |u|
    ensures Inside(SkipArray(t, a + p), SkipArray(u, p), a, b)
    decreases |u| - p, 1
  {
    hide SkipElements, SkipWs;
    WsInWindow(u, t, a, b, p + 1);
    ElementsInWindow(u, t, a, b, SkipWs(u, p + 1));
  }

  lemma {:induction false} ElementsInWindow(u: string, t: string, a: nat, b: nat, p: nat)
    requires Window(u, t, a, b) && p <= |u|
    ensures Inside(SkipElements(t, a + p), SkipElements(u, p), a, b)
    decreases |u| - p, 3
  {
    hide SkipValue, SkipWs;
    if SkipElements(t, a + p).Some? && SkipElements(t, a + p).value <= b {
      ValueInWindow(u, t, a, b, p);
      var v := SkipValue(t, a + p).value - a;
      WsInWindow(u, t, a, b, v);
      var w := SkipWs(t, a + v) - a;
      if t[a + w] == ',' {
        ElementsInWindow(u, t, a, b, w + 1);
      }
    }
  }

  function ElementEnd(t: string, e: nat): Option<nat>
    requires e <= |t|
  {
    if e < |t| && t[e] == '\"' then ScanString(t, e) else SkipValue(t, e)
  }

  lemma ElementInWindow(u: string, t: string, a: nat, b: nat, p: nat)
    requires Window(u, t, a, b) && p < |u|
    ensures Inside(ElementEnd(t, a + p), ElementEnd(u, p), a, b) && t[a + p] == u[p]
    ensures t[a + p] == '\"' && ElementEnd(t, a + p).Some? && ElementEnd(t, a + p).value <= b ==> Quoted(t, a + p) == Quoted(u, p)
  {
    hide SkipValue, ScanString, Quoted;
    ScanInWindow(u, t, a, b, p);
    ValueInWindow(u, t, a, b, p);
  }

  lemma FindStep(t: string, p: nat, needle: string, member: bool)
    requires p <= |t| && FindElement(t, p, needle, member).next.Some?
    ensures var e := SkipWs(t, p); var v := ElementEnd(t, e);
      && e < |t| && v.Some? && e < v.value <= |t| && (t[e] == '\"' ==> ScanString(t, e).Some?)
      && (var w := SkipWs(t, v.value); var m := member || (t[e] == '\"' && Quoted(t, e) == needle);
        && w < |t| && (t[w] == ',' || t[w] == ']') && w < FindElement(t, p, needle, member).next.value
        && FindElement(t, p, needle, member) == if t[w] == ',' then FindElement(t, w + 1, needle, m) else Search(m, Some(w + 1)))
  {
    hide SkipValue, ScanString, Quoted, SkipWs;
  }

  lemma FindStepIn(u: string, p: nat, needle: string, member: bool, e: nat, v: nat, w: nat)
    requires p <= |u| && e == SkipWs(u, p) < |u| && ElementEnd(u, e) == Some(v) && v <= |u|
    requires w == SkipWs(u, v) < |u| && (u[w] == ',' || u[w] == ']')
    ensures (u[e] == '\"' ==> ScanString(u, e).Some?) && w >= p
    ensures var m := member || (u[e] == '\"' && Quoted(u, e) == needle);
      FindElement(u, p, needle, member).member == if u[w] == ',' then FindElement(u, w + 1, needle, m).member else m
  {
    hide SkipValue, ScanString, Quoted, SkipWs;
  }

  lemma {:induction false} FindInWindow(u: string, t: string, a: nat, b: nat, p: nat, needle: string, member: bool)
    requires Window(u, t, a, b) && p <= |u|
    requires FindElement(t, a + p, needle, member).next.Some? && FindElement(t, a + p, needle, member).next.value <= b
    ensures FindElement(u, p, needle, member).member == FindElement(t, a + p, needle, member).member
    decreases |u| - p
  {
    hide SkipValue, SkipWs, ScanString, Quoted, FindElement, ElementEnd;
    FindStep(t, a + p, needle, member);
    WsInWindow(u, t, a, b, p);
    var e := SkipWs(t, a + p) - a;
    ElementInWindow(u, t, a, b, e);
    var v := ElementEnd(t, a + e).value - a;
    WsInWindow(u, t, a, b, v);
    var w := SkipWs(t, a + v) - a;
    FindStepIn(u, p, needle, member, e, v, w);
    if t[a + w] == ',' {
      FindInWindow(u, t, a, b, w + 1, needle, member || (t[a + e] == '\"' && Quoted(t, a + e) == needle));
    }
  }

  // Looking into an array value that was cut out of the text, or looking for the element on the way.
  lemma MembershipOfArray(t: string, s: nat, e: nat, needle: string)
    requires s < |t| && t[s] == '[' && !Space(t[s]) && SkipValue(t, s) == Some(e)
    ensures ParseMembership(t[s..e], 0, needle, false).member == ParseMembership(t, s, needle, false).member
  {
    hide SkipValue, FindElement, SkipWs;
    MembershipSkips(t, s, needle, false);
    SkipWsHere(t, s);
    var u := t[s..e];
    WsInWindow(u, t, s, e, 0);
    WsInWindow(u, t, s, e, 1);
    var w := SkipWs(t, s + 1);
    SkipArrayWs(t, s);
    if t[w] != ']' {
      FindInWindow(u, t, s, e, w - s, needle, false);
    }
  }

  lemma SkipWsHere(t: string, p: nat)
    requires p < |t| && !Space(t[p])
    ensures SkipWs(t, p) == p
  {
  }

  // A raised flag stays up while elements are looked at.
  lemma {:induction false} FoundStays(t: string, p: nat, needle: string)
    requires p <= |t|
    ensures FindElement(t, p, needle, true).member
    decreases |t| - p
  {
    hide SkipValue, ScanString, Quoted, SkipWs;
    var e := SkipWs(t, p);
    var v := if e < |t| && t[e] == '\"' then ScanString(t, e) else SkipValue(t, e);
    if v.Some? {
      var w := SkipWs(t, v.value);
      if w < |t| && t[w] == ',' {
        FoundStays(t, w + 1, needle);
      }
    }
  }

  lemma MembershipFromWas(t: string, p: nat, needle: string, was: bool)
    requires p <= |t|
    ensures var s := SkipWs(t, p);
      ParseMembership(t, p, needle, was).member == (s < |t| && t[s] == '[' && (was || ParseMembership(t, p, needle, false).member))
  {
    hide SkipValue, FindElement, SkipWs;
    var s := SkipWs(t, p);
    if s < |t| && t[s] == '[' {
      FoundStays(t, SkipWs(t, s + 1), needle);
    }
  }

  lemma MembershipOfValue(t: string, p: nat, needle: string, was: bool)
    requires p <= |t| && SkipValue(t, p).Some?
    ensures ParseMembership(t, p, needle, was).member ==
      (ParseValue(t, p).Some? && if was then ParseValue(t, p).value.0.kind == ArrayKind else ArrayContains(ParseValue(t, p).value.0, needle))
  {
    hide SkipValue, FindElement, SkipWs, ParseNumber, ParseMembership;
    MembershipFromWas(t, p, needle, was);
    SkipWsStays(t, p);
    SkipNotEmpty(t, p);
    SkipFrom(t, p);
    var s := SkipWs(t, p);
    MembershipFrom(t, p, needle);
    if t[s] == '[' {
      MembershipOfArray(t, s, SkipValue(t, p).value, needle);
    }
  }

  lemma MembershipFrom(t: string, p: nat, needle: string)
    requires p <= |t|
    ensures var s := SkipWs(t, p);
      if s < |t| && t[s] == '[' then ParseMembership(t, p, needle, false) == ParseMembership(t, s, needle, false)
      else !ParseMembership(t, p, needle, false).member
  {
    hide SkipValue, FindElement;
    SkipWsStays(t, p);
  }

  lemma SkipNotEmpty(t: string, p: nat)
    requires p <= |t| && SkipValue(t, p).Some?
    ensures SkipWs(t, p) < |t|
  {
  }

  lemma SkipFrom(t: string, p: nat)
    requires p <= |t|
    ensures SkipValue(t, SkipWs(t, p)) == SkipValue(t, p)
  {
    SkipWsStays(t, p);
  }

  lemma SkipArrayWs(t: string, s: nat)
    requires s < |t| && t[s] == '[' && SkipValue(t, s).Some?
    ensures SkipWs(t, s + 1) < SkipValue(t, s).value
  {
  }

  // The field as scan_fields fills it from a value at p.
  function Taken(t: string, p: nat, f: Field): (r: Option<Field>)
    requires p <= |t|
    ensures r.Some? ==> r.value.found && r.value.key == f.key
  {
    if f.needle.Some? then
      var m := ParseMembership(t, p, f.needle.value, f.member);
      if m.next == None then None else Some(f.(found := true, member := m.member))
    else
      var v := ParseValue(t, p);
      if v == None then None else Some(f.(found := true, value := v.value.0))
  }

  ghost predicate DistinctKeys(fields: seq<Field>) {
    forall i, j :: 0 <= i < j < |fields| ==> fields[i].key != fields[j].key
  }

  lemma TakeFieldEffect(t: string, p: nat, fields: seq<Field>, key: string, i: nat)
    requires p <= |t| && DistinctKeys(fields) && i < |fields| && TakeField(t, p, fields, key).Some?
    ensures var (fs, next) := TakeField(t, p, fields, key).value;
      && DistinctKeys(fs) && SkipValue(t, p) == Some(next) && fs[i].key == fields[i].key
      && (if fields[i].key == key && !fields[i].found then Some(fs[i]) == Taken(t, p, fields[i]) else fs[i] == fields[i])
  {
    hide SkipValue, ParseValue, ParseMembership;
    var j := FirstUnfound(fields, key, 0);
    if j.Some? && fields[j.value].needle.Some? {
      MembershipSkips(t, p, fields[j.value].needle.value, fields[j.value].member);
    } else if j.Some? {
      ParseSkips(t, p);
    }
  }

  lemma {:induction false} MembersAgree(t: string, p: nat, fields: seq<Field>, i: nat)
    requires p <= |t| && DistinctKeys(fields) && i < |fields| && ScanMembers(t, p, fields).Some?
    ensures var r, f := ScanMembers(t, p, fields).value.0[i], fields[i];
      && (f.found ==> r == f)
      && (!f.found ==> match FindMember(t, p, f.key)
                       case Success(q) => SkipValue(t, q).Some? && Some(r) == Taken(t, q, f)
                       case Failure(code) => r == f && code == UNSUPPORTED)
    decreases |t| - p
  {
    hide SkipKey, SkipValue, SkipWs, TakeField, Taken, DistinctKeys;
    var s := SkipWs(t, p);
    if t[s] != '}' {
      var k, key := SkipKey(t, s).value, Quoted(t, s);
      TakeFieldEffect(t, k, fields, key, i);
      var (fs, next) := TakeField(t, k, fields, key).value;
      var w := SkipWs(t, next);
      if t[w] == ',' {
        MembersAgree(t, w + 1, fs, i);
      }
    }
  }

  // A lookup by a path without dots.
  lemma GetOne(t: string, key: string)
    requires key != "" && '.' !in key
    ensures JsonGet(t, key) == GetFrom(t, 0, [key])
  {
    assert Dot(key, 0) == |key|;
    assert key[0..] == key;
  }

  predicate Fresh(f: Field) {
    !f.found && f.key != "" && '.' !in f.key
  }

  /** One pass finds a value exactly when a separate lookup does, and the same value; and it raises the member
      flag exactly when looking into the array that the lookup returns finds the element. A flag that was up
      already stays up when the key is missing and over any array, and goes down over any other value. */
  lemma ScanAgreesWithGet(t: string, fields: seq<Field>, i: nat)
    requires i < |fields| && DistinctKeys(fields) && Fresh(fields[i]) && ScanFields(t, 0, fields).Some?
    ensures var r, g, was := ScanFields(t, 0, fields).value.0[i], JsonGet(t, fields[i].key), fields[i].member;
      && (fields[i].needle == None ==> r.found == g.Success? && r.value == if g.Success? then g.value else NOTHING)
      && (fields[i].needle.Some? && !was ==> r.member == (g.Success? && ArrayContains(g.value, fields[i].needle.value)))
      && (fields[i].needle.Some? && was ==> r.member == (g == Failure(UNSUPPORTED) || (g.Success? && g.value.kind == ArrayKind)))
  {
    hide SkipValue, SkipWs, ParseValue, ParseMembership, ScanMembers, FindMember, JsonGet, ArrayContains;
    var f := Cleared(fields)[i];
    var s := SkipWs(t, 0);
    GetOne(t, f.key);
    MembersAgree(t, s + 1, Cleared(fields), i);
    var m := FindMember(t, s + 1, f.key);
    if m.Success? && f.needle.Some? {
      MembershipOfValue(t, m.value, f.needle.value, f.member);
    }
  }
}
