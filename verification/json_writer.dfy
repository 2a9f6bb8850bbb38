/** The bounded writer of apps/sendspin/sendspin_protocol.c, and JSON appended to a text from left to right. */
module JsonWriter {
  import opened Common
  import opened JsonText
  import opened JsonPrint

  function Pow10(k: nat): nat
    decreases k
  {
    if k == 0 then 1 else 10 * Pow10(k - 1)
  }

  lemma TwentyDigits()
    ensures TWO64 < Pow10(20)
  {
    assert Pow10(5) == 100000 by { assert Pow10(2) == 100; }
    assert Pow10(10) == 10000000000 by { assert Pow10(7) == 10000000; }
    assert Pow10(15) == 1000000000000000 by { assert Pow10(12) == 1000000000000; }
    assert Pow10(20) == 100000000000000000000 by { assert Pow10(17) == 100000000000000000; }
  }

  // The digits of a value, least significant one first.
  method CollectDigits(value: u64) returns (digits: array<char>, n: nat)
    ensures fresh(digits) && digits.Length == 20 && n == |Decimal(value)| <= 20
    ensures forall i :: 0 <= i < n ==> Decimal(value)[i] == digits[n - 1 - i]
  {
    hide Pow10, Decimal;
    digits := new char[20];
    var v: nat := value;
    n := 0;
    ghost var tail: string := [];
    TwentyDigits();
    while true
      invariant n < 20 && v < Pow10(20 - n) && |tail| == n && (n > 0 ==> v > 0)
      invariant forall i :: 0 <= i < n ==> tail[i] == digits[n - 1 - i]
      invariant Decimal(value) == Decimal(v) + tail
      decreases v
    {
      TenTimes(20 - n);
      var d := DigitChar(v % 10);
      DecimalSplit(v, tail);
      digits[n] := d;
      tail := [d] + tail;
      v := v / 10;
      n := n + 1;
      if v == 0 {
        assert Decimal(value) == tail;
        break;
      }
    }
  }

  lemma DecimalSplit(v: nat, tail: string)
    ensures Decimal(v) + tail == (if v < 10 then [] else Decimal(v / 10)) + ([DigitChar(v % 10)] + tail)
    ensures v < 10 ==> Decimal(v) + tail == [DigitChar(v % 10)] + tail
  {
    assert Decimal(v) == (if v < 10 then [] else Decimal(v / 10)) + [DigitChar(v % 10)];
  }

  // eaf_bytes_write_u64_dec.
  method WriteDecimal(dst: array<char>, at: nat, value: u64) returns (n: nat)
    requires at <= dst.Length
    modifies dst
    ensures n == if |Decimal(value)| <= dst.Length - at then |Decimal(value)| else 0
    ensures forall k :: 0 <= k < dst.Length ==> dst[k] == if at <= k < at + n then Decimal(value)[k - at] else old(dst[k])
  {
    hide Decimal;
    var digits;
    digits, n := CollectDigits(value);
    if n > dst.Length - at {
      return 0;
    }
    var i := 0;
    while i < n
      invariant i <= n && forall j :: 0 <= j < n ==> Decimal(value)[j] == digits[n - 1 - j]
      invariant forall k :: 0 <= k < dst.Length ==> dst[k] == if at <= k < at + i then Decimal(value)[k - at] else old(dst[k])
    {
      dst[at + i] := digits[n - 1 - i];
      i := i + 1;
    }
  }

  lemma TenTimes(k: nat)
    requires k > 0
    ensures Pow10(k) == 10 * Pow10(k - 1) && (Pow10(k) > 1 && k == 1 ==> Pow10(k) == 10) && Pow10(0) == 1
  {
  }

  lemma {:induction false} EscapeAppend(s: string, c: char)
    ensures Escape(s + [c]) == Escape(s) + EscapeChar(c)
    decreases |s|
  {
    hide EscapeChar;
    if s == [] {
      assert Escape([c][1..]) == [];
    } else {
      assert (s + [c])[1..] == s[1..] + [c];
      EscapeAppend(s[1..], c);
    }
  }

  /** writer_t. `goal` is everything that was asked for; it is in the buffer exactly when it fits. */
  class Writer {
    const buf: array<char>
    var used: nat
    var ok: bool
    ghost var goal: string

    ghost predicate Valid()
      reads this, buf
    {
      ok == (|goal| <= buf.Length) && used <= buf.Length && (ok ==> used == |goal| && buf[..used] == goal)
    }

    constructor (buf: array<char>)
      ensures Valid() && this.buf == buf && goal == ""
    {
      this.buf, used, ok, goal := buf, 0, true, "";
    }

    method Raw(data: string)
      requires Valid()
      modifies this, buf
      ensures Valid() && goal == old(goal) + data
    {
      goal := goal + data;
      if !ok || used + |data| > buf.Length {
        ok := false;
        return;
      }
      forall i | 0 <= i < |data| {
        buf[used + i] := data[i];
      }
      used := used + |data|;
      assert buf[..used] == goal;
    }

    method Unsigned(value: u64)
      requires Valid()
      modifies this, buf
      ensures Valid() && goal == old(goal) + Decimal(value)
    {
      goal := goal + Decimal(value);
      if !ok {
        return;
      }
      var n := WriteDecimal(buf, used, value);
      if n == 0 {
        ok := false;
        return;
      }
      used := used + n;
      assert buf[..used] == goal;
    }

    method Signed(value: i64)
      requires Valid()
      modifies this, buf
      ensures Valid() && goal == old(goal) + Integer(value)
    {
      hide Decimal;
      if value < 0 {
        var magnitude: int := value;
        magnitude := -(magnitude + 1) + 1;
        Raw("-");
        Unsigned(magnitude);
        assert old(goal) + "-" + Decimal(magnitude) == old(goal) + Integer(value);
      } else {
        Unsigned(value);
      }
    }

    method Escaped(c: char)
      requires Valid()
      modifies this, buf
      ensures Valid() && goal == old(goal) + EscapeChar(c)
    {
      var x := c as int;
      if c == '\"' {
        Raw("\\\"");
      } else if c == '\\' {
        Raw("\\\\");
      } else if x == 8 {
        Raw("\\b");
      } else if x == 12 {
        Raw("\\f");
      } else if c == '\n' {
        Raw("\\n");
      } else if c == '\r' {
        Raw("\\r");
      } else if c == '\t' {
        Raw("\\t");
      } else if x < 0x20 {
        Raw(['\\', 'u', '0', '0', HEX[x / 16], HEX[x % 16]]);
      } else {
        Raw([c]);
      }
    }

    // wr_json_string.
    method String(data: string)
      requires Valid()
      modifies this, buf
      ensures Valid() && goal == old(goal) + Quote(data)
    {
      hide EscapeChar, Escape;
      Raw("\"");
      var i := 0;
      assert Escape(data[..0]) == "" by { NoEscape(); }
      while i < |data|
        invariant i <= |data| && Valid() && goal == old(goal) + "\"" + Escape(data[..i])
      {
        Escaped(data[i]);
        EscapeAppend(data[..i], data[i]);
        assert data[..i + 1] == data[..i] + [data[i]];
        i := i + 1;
      }
      assert data[..i] == data;
      Raw("\"");
    }
  }

  lemma NoEscape()
    ensures Escape("") == ""
  {
  }
}
