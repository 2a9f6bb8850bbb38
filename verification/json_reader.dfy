/** The reader of apps/sendspin/sendspin_protocol.c itself: a cursor moved through the text by loops and
    by calls, against the functions of JsonText. */
module JsonReader {
  import opened Common
  import opened JsonText

  /** cursor_t. `End` is the end of the text. */
  class Cursor {
    const text: string
    var p: nat

    constructor (text: string, p: nat)
      requires p <= |text|
      ensures this.text == text && this.p == p
    {
      this.text, this.p := text, p;
    }

    method SkipSpace()
      requires p <= |text|
      modifies this
      ensures p == SkipWs(text, old(p))
    {
      ghost var goal := SkipWs(text, p);
      while p < |text| && Space(text[p])
        invariant p <= |text| && goal == SkipWs(text, p)
      {
        p := p + 1;
      }
    }

    method SkipDecimals()
      requires p <= |text|
      modifies this
      ensures p == SkipDigits(text, old(p))
    {
      ghost var goal := SkipDigits(text, p);
      while p < |text| && Digit(text[p])
        invariant p <= |text| && goal == SkipDigits(text, p)
      {
        p := p + 1;
      }
    }

    method ReadString() returns (rc: int, s: string)
      requires p <= |text|
      modifies this
      ensures p <= |text|
      ensures rc == if ScanString(text, old(p)).Some? then OK else INVALID
      ensures rc == OK ==> p == ScanString(text, old(p)).value && s == Quoted(text, old(p))
    {
      s := "";
      if p >= |text| || text[p] != '\"' {
        return INVALID, s;
      }
      p := p + 1;
      var start := p;
      while p < |text|
        invariant start <= p <= |text| && StringEnd(text, start) == StringEnd(text, p)
      {
        if text[p] == '\\' {
          if |text| - p < 2 {
            return INVALID, s;
          }
          p := p + 2;
        } else if text[p] == '\"' {
          s := text[start..p];
          p := p + 1;
          return OK, s;
        } else {
          p := p + 1;
        }
      }
      rc := INVALID;
    }

    method ReadLiteral(literal: string) returns (rc: int)
      requires p <= |text|
      modifies this
      ensures p <= |text| && rc == (if MatchLiteral(text, old(p), literal).Some? then OK else INVALID)
      ensures rc == OK ==> p == MatchLiteral(text, old(p), literal).value
    {
      if |text| - p < |literal| || text[p..p + |literal|] != literal {
        return INVALID;
      }
      p := p + |literal|;
      rc := OK;
    }

    method PassNumber() returns (rc: int)
      requires p <= |text|
      modifies this
      ensures p <= |text| && rc == (if SkipNumber(text, old(p)).Some? then OK else INVALID)
      ensures rc == OK ==> p == SkipNumber(text, old(p)).value
    {
      if p < |text| && text[p] == '-' {
        p := p + 1;
      }
      if p >= |text| || !Digit(text[p]) {
        return INVALID;
      }
      SkipDecimals();
      if p < |text| && text[p] == '.' {
        p := p + 1;
        SkipDecimals();
      }
      if p < |text| && (text[p] == 'e' || text[p] == 'E') {
        p := p + 1;
        if p < |text| && (text[p] == '+' || text[p] == '-') {
          p := p + 1;
        }
        SkipDecimals();
      }
      rc := OK;
    }

    // The key and colon in front of a value.
    method PassKey() returns (rc: int, key: string)
      requires p <= |text|
      modifies this
      ensures p <= |text| && rc == (if SkipKey(text, old(p)).Some? then OK else INVALID)
      ensures rc == OK ==> p == SkipKey(text, old(p)).value && key == Quoted(text, old(p))
    {
      rc, key := ReadString();
      if rc != OK {
        return;
      }
      SkipSpace();
      if p >= |text| || text[p] != ':' {
        return INVALID, key;
      }
      p := p + 1;
    }

    method PassObject() returns (rc: int)
      requires p < |text|
      modifies this
      ensures p <= |text| && rc == (if SkipObject(text, old(p)).Some? then OK else INVALID)
      ensures rc == OK ==> p == SkipObject(text, old(p)).value
      decreases |text| - p, 1
    {
      hide SkipKey, SkipValue, SkipWs;
      ghost var goal := SkipObject(text, p);
      p := p + 1;
      SkipSpace();
      if p < |text| && text[p] == '}' {
        p := p + 1;
        return OK;
      }
      while true
        invariant old(p) < p <= |text| && goal == SkipMembers(text, p)
        decreases |text| - p
      {
        var key;
        rc, key := PassKey();
        if rc != OK {
          return;
        }
        rc := PassValue();
        if rc != OK {
          return;
        }
        SkipSpace();
        if p >= |text| {
          return INVALID;
        }
        if text[p] == ',' {
          p := p + 1;
        } else if text[p] == '}' {
          p := p + 1;
          return OK;
        } else {
          return INVALID;
        }
      }
    }

    method PassArray() returns (rc: int)
      requires p < |text|
      modifies this
      ensures p <= |text| && rc == (if SkipArray(text, old(p)).Some? then OK else INVALID)
      ensures rc == OK ==> p == SkipArray(text, old(p)).value
      decreases |text| - p, 1
    {
      hide SkipValue, SkipWs;
      ghost var goal := SkipArray(text, p);
      p := p + 1;
      SkipSpace();
      if p < |text| && text[p] == ']' {
        p := p + 1;
        return OK;
      }
      while true
        invariant old(p) < p <= |text| && goal == SkipElements(text, p)
        decreases |text| - p
      {
        rc := PassValue();
        if rc != OK {
          return;
        }
        SkipSpace();
        if p >= |text| {
          return INVALID;
        }
        if text[p] == ',' {
          p := p + 1;
        } else if text[p] == ']' {
          p := p + 1;
          return OK;
        } else {
          return INVALID;
        }
      }
    }

    method PassValue() returns (rc: int)
      requires p <= |text|
      modifies this
      ensures p <= |text| && rc == (if SkipValue(text, old(p)).Some? then OK else INVALID)
      ensures rc == OK ==> p == SkipValue(text, old(p)).value
      decreases |text| - p, 2
    {
      hide SkipObject, SkipArray, ScanString, SkipNumber, MatchLiteral;
      SkipSpace();
      if p >= |text| {
        return INVALID;
      }
      var c := text[p];
      if c == '{' {
        rc := PassObject();
      } else if c == '[' {
        rc := PassArray();
      } else if c == '\"' {
        var s;
        rc, s := ReadString();
      } else if c == 't' {
        rc := ReadLiteral("true");
      } else if c == 'f' {
        rc := ReadLiteral("false");
      } else if c == 'n' {
        rc := ReadLiteral("null");
      } else {
        rc := PassNumber();
      }
    }

    // The digit loop: the magnitude until it no longer fits 64 bits.
    method ReadDigits(start: nat) returns (next: nat, magnitude: nat, overflow: bool)
      requires start <= |text|
      ensures (SkippedAreDigits(text, start); next == SkipDigits(text, start) &&
        overflow == (DecimalValue(text, start, next) >= TWO64) && (!overflow ==> magnitude == DecimalValue(text, start, next)))
    {
      next, magnitude, overflow := start, 0, false;
      while next < |text| && Digit(text[next])
        invariant start <= next <= |text| && SkipDigits(text, start) == SkipDigits(text, next)
        invariant forall i :: start <= i < next ==> Digit(text[i])
        invariant overflow == (DecimalValue(text, start, next) >= TWO64)
        invariant !overflow ==> magnitude == DecimalValue(text, start, next)
      {
        var digit := DigitValue(text[next]);
        if !overflow {
          if magnitude > (TWO64 - 1 - digit) / 10 {
            overflow := true;
          } else {
            magnitude := magnitude * 10 + digit;
          }
        }
        next := next + 1;
      }
    }

    method ReadNumber() returns (rc: int, out: int)
      requires p <= |text|
      modifies this
      ensures p <= |text| && rc == (if ParseNumber(text, old(p)).Some? then OK else INVALID)
      ensures rc == OK ==> (out, p) == ParseNumber(text, old(p)).value
    {
      out := 0;
      var q := p;
      var negative := false;
      if q < |text| && text[q] == '-' {
        negative := true;
        q := q + 1;
      }
      if q >= |text| || !Digit(text[q]) {
        return INVALID, out;
      }
      var magnitude, overflow;
      q, magnitude, overflow := ReadDigits(q);
      if q < |text| && (text[q] == '.' || text[q] == 'e' || text[q] == 'E') {
        return INVALID, out;
      }
      p := q;
      if negative {
        out := if overflow || magnitude > INT64_MAX + 1 then INT64_MIN else -magnitude;
      } else if overflow || magnitude > INT64_MAX {
        out := INT64_MAX;
      } else {
        out := magnitude;
      }
      rc := OK;
    }

    method ReadValue() returns (rc: int, out: Value)
      requires p <= |text|
      modifies this
      ensures p <= |text| && rc == (if ParseValue(text, old(p)).Some? then OK else INVALID)
      ensures rc == OK ==> (out, p) == ParseValue(text, old(p)).value
    {
      hide SkipObject, SkipArray, ScanString, MatchLiteral, ParseNumber, SkipWs;
      out := NOTHING;
      SkipWsStays(text, p);
      SkipSpace();
      if p >= |text| {
        return INVALID, out;
      }
      var start, c := p, text[p];
      if c == '{' {
        out := out.(kind := ObjectKind);
        rc := PassObject();
      } else if c == '[' {
        out := out.(kind := ArrayKind);
        rc := PassArray();
      } else if c == '\"' {
        var s;
        rc, s := ReadString();
        out := out.(kind := StringKind, text := s);
      } else if c == 't' {
        out := out.(kind := BoolKind, boolean := true);
        rc := ReadLiteral("true");
      } else if c == 'f' {
        out := out.(kind := BoolKind, boolean := false);
        rc := ReadLiteral("false");
      } else if c == 'n' {
        rc := ReadLiteral("null");
      } else {
        var n;
        rc, n := ReadNumber();
        out := out.(kind := NumberKind, number := n);
      }
      if rc != OK {
        return INVALID, out;
      }
      out := out.(raw := text[start..p]);
    }

    method ReadMembership(needle: string, was: bool) returns (rc: int, member: bool)
      requires p <= |text|
      modifies this
      ensures var m := ParseMembership(text, old(p), needle, was);
        && member == m.member && rc == (if m.next.Some? then OK else INVALID) && p <= |text| && (rc == OK ==> p == m.next.value)
    {
      hide SkipValue, ScanString, SkipWs, FindElement;
      member := was;
      SkipSpace();
      if p >= |text| || text[p] != '[' {
        member := false;
        rc := PassValue();
        return;
      }
      p := p + 1;
      SkipSpace();
      if p < |text| && text[p] == ']' {
        p := p + 1;
        return OK, member;
      }
      rc, member := ReadElements(needle, was);
    }

    method ReadElements(needle: string, was: bool) returns (rc: int, member: bool)
      requires p <= |text|
      modifies this
      ensures var m := FindElement(text, old(p), needle, was);
        && member == m.member && rc == (if m.next.Some? then OK else INVALID) && p <= |text| && (rc == OK ==> p == m.next.value)
    {
      hide SkipValue, ScanString, SkipWs, FindElement, Quoted;
      member := was;
      ghost var goal := FindElement(text, p, needle, was);
      while true
        invariant old(p) <= p <= |text| && goal == FindElement(text, p, needle, member)
        decreases |text| - p
      {
        ElementStep(text, p, needle, member);
        SkipSpace();
        if p < |text| && text[p] == '\"' {
          var element;
          rc, element := ReadString();
          if rc != OK {
            return;
          }
          if !member && element == needle {
            member := true;
          }
        } else {
          rc := PassValue();
          if rc != OK {
            return;
          }
        }
        SkipSpace();
        if p >= |text| {
          return INVALID, member;
        }
        if text[p] == ',' {
          p := p + 1;
        } else if text[p] == ']' {
          p := p + 1;
          return OK, member;
        } else {
          return INVALID, member;
        }
      }
    }

    // The field a key belongs to, and its value.
    method ReadField(fields: array<Field>, key: string) returns (rc: int)
      requires p <= |text|
      modifies this, fields
      ensures p <= |text| && rc == (if TakeField(text, old(p), old(fields[..]), key).Some? then OK else INVALID)
      ensures rc == OK ==> (fields[..], p) == TakeField(text, old(p), old(fields[..]), key).value
    {
      hide SkipValue, ParseValue, ParseMembership;
      ghost var was := fields[..];
      var i := 0;
      while i < fields.Length && (fields[i].found || fields[i].key != key)
        invariant i <= fields.Length && fields[..] == was && FirstUnfound(was, key, i) == FirstUnfound(was, key, 0)
      {
        i := i + 1;
      }
      if i == fields.Length {
        rc := PassValue();
      } else if fields[i].needle.Some? {
        var member;
        rc, member := ReadMembership(fields[i].needle.value, fields[i].member);
        fields[i] := fields[i].(found := true, member := member);
      } else {
        var value;
        rc, value := ReadValue();
        fields[i] := fields[i].(found := true, value := value);
      }
    }

    method ReadMembers(fields: array<Field>) returns (rc: int)
      requires p <= |text|
      modifies this, fields
      ensures p <= |text| && rc == (if ScanMembers(text, old(p), old(fields[..])).Some? then OK else INVALID)
      ensures rc == OK ==> (fields[..], p) == ScanMembers(text, old(p), old(fields[..])).value
    {
      hide SkipKey, TakeField, SkipWs;
      ghost var goal := ScanMembers(text, p, fields[..]);
      while true
        invariant old(p) <= p <= |text| && goal == ScanMembers(text, p, fields[..])
        decreases |text| - p
      {
        SkipSpace();
        if p >= |text| {
          return INVALID;
        }
        if text[p] == '}' {
          p := p + 1;
          return OK;
        }
        var key;
        rc, key := PassKey();
        if rc != OK {
          return;
        }
        rc := ReadField(fields, key);
        if rc != OK {
          return;
        }
        SkipSpace();
        if p >= |text| {
          return INVALID;
        }
        if text[p] == ',' {
          p := p + 1;
        } else if text[p] == '}' {
          p := p + 1;
          return OK;
        } else {
          return INVALID;
        }
      }
    }

    // scan_fields.
    method ReadFields(fields: array<Field>) returns (rc: int)
      requires p <= |text|
      modifies this, fields
      ensures p <= |text| && rc == (if ScanFields(text, old(p), old(fields[..])).Some? then OK else INVALID)
      ensures rc == OK ==> (fields[..], p) == ScanFields(text, old(p), old(fields[..])).value
    {
      hide ScanMembers, SkipWs;
      ghost var was := fields[..];
      var i := 0;
      while i < fields.Length
        invariant i <= fields.Length && p == old(p)
        invariant forall k :: 0 <= k < fields.Length ==> fields[k] == if k < i then Cleared(was)[k] else was[k]
      {
        if fields[i].needle == None {
          fields[i] := fields[i].(value := NOTHING);
        }
        i := i + 1;
      }
      assert fields[..] == Cleared(was);
      SkipSpace();
      if p >= |text| || text[p] != '{' {
        return INVALID;
      }
      p := p + 1;
      rc := ReadMembers(fields);
    }

    // descend: UNSUPPORTED is an object without this member.
    method GoInto(segment: string) returns (rc: int)
      requires p <= |text|
      modifies this
      ensures p <= |text| && rc == (var d := Descend(text, old(p), segment); if d.Success? then OK else d.code)
      ensures Descend(text, old(p), segment).Success? ==> p == Descend(text, old(p), segment).value
    {
      hide SkipKey, SkipValue, SkipWs, FindMember, Quoted;
      ghost var goal := Descend(text, p, segment);
      SkipSpace();
      if p >= |text| || text[p] != '{' {
        return INVALID;
      }
      p := p + 1;
      while true
        invariant old(p) < p <= |text| && goal == FindMember(text, p, segment)
        decreases |text| - p
      {
        NoMember(text, p, segment);
        ghost var from := p;
        SkipSpace();
        if p >= |text| {
          return INVALID;
        }
        if text[p] == '}' {
          return UNSUPPORTED;
        }
        var key;
        rc, key := PassKey();
        if rc != OK {
          return;
        }
        MemberStep(text, from, segment);
        if key == segment {
          return OK;
        }
        rc := PassValue();
        if rc != OK {
          return;
        }
        SkipSpace();
        if p >= |text| {
          return INVALID;
        }
        if text[p] == ',' {
          p := p + 1;
        } else {
          return if text[p] == '}' then UNSUPPORTED else INVALID;
        }
      }
    }
  }

  lemma SegmentsFirst(path: string, p: nat)
    requires p <= |path|
    ensures var d, s := Dot(path, p), Segments(path, p);
      s[0] == path[p..d] && (if d == |path| then |s| == 1 else |s| > 1 && s[1..] == Segments(path, d + 1))
  {
  }

  // eaf_sendspin_json_get.
  method Get(text: string, path: string) returns (rc: int, out: Value)
    ensures rc == if JsonGet(text, path).Success? then OK else JsonGet(text, path).code
    ensures JsonGet(text, path).Success? ==> out == JsonGet(text, path).value
  {
    hide Descend, ParseValue, Segments, Dot;
    out := NOTHING;
    if path == "" {
      return INVALID, out;
    }
    var c := new Cursor(text, 0);
    var segment := 0;
    while true
      invariant c.text == text && c.p <= |text| && segment <= |path|
      invariant JsonGet(text, path) == GetFrom(text, c.p, Segments(path, segment))
      decreases |path| - segment
    {
      SegmentsFirst(path, segment);
      var dot := NextDot(path, segment);
      rc := c.GoInto(path[segment..dot]);
      if rc != OK {
        return;
      }
      if dot == |path| {
        rc, out := c.ReadValue();
        return;
      }
      segment := dot + 1;
    }
  }

  method NextDot(path: string, start: nat) returns (dot: nat)
    requires start <= |path|
    ensures dot == Dot(path, start)
  {
    dot := start;
    while dot < |path| && path[dot] != '.'
      invariant start <= dot <= |path| && Dot(path, dot) == Dot(path, start)
    {
      dot := dot + 1;
    }
  }

  // eaf_sendspin_json_array_contains.
  method Contains(v: Value, needle: string) returns (r: bool)
    ensures r == ArrayContains(v, needle)
  {
    if v.kind != ArrayKind {
      return false;
    }
    var c := new Cursor(v.raw, 0);
    var rc;
    rc, r := c.ReadMembership(needle, false);
  }
}
