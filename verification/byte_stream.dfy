/** Feeding bytes one at a time: what it means for a streaming parser to ignore chunk boundaries. */
module ByteStream {
  import opened Common

  type byte = bv8

  // Bytes as numbers.
  function Octets(b: seq<byte>): (r: seq<u8>)
    ensures |r| == |b| && forall i :: 0 <= i < |b| ==> r[i] == b[i] as int
  {
    seq(|b|, i requires 0 <= i < |b| => b[i] as int)
  }

  // Most significant byte first.
  function BigEndian(b: seq<u8>): (r: nat)
    decreases |b|
  {
    if b == [] then 0 else BigEndian(b[..|b| - 1]) * 256 + b[|b| - 1]
  }

  function Concat<T>(parts: seq<seq<T>>): seq<T>
    decreases |parts|
  {
    if parts == [] then [] else parts[0] + Concat(parts[1..])
  }

  lemma {:induction false} ConcatAdd<T>(a: seq<seq<T>>, b: seq<seq<T>>)
    ensures Concat(a + b) == Concat(a) + Concat(b)
    decreases |a|
  {
    if a == [] {
      assert a + b == b;
    } else {
      ConcatAdd(a[1..], b);
      assert (a + b)[1..] == a[1..] + b;
    }
  }

  lemma BigEndianMore(b: seq<byte>, x: byte)
    ensures BigEndian(Octets(b + [x])) == BigEndian(Octets(b)) * 256 + x as int
  {
    assert Octets(b + [x])[..|b|] == Octets(b);
  }

  // A number below 256 survives being a byte.
  lemma ByteRoundTrip(x: nat)
    requires x < 256
    ensures (x as byte) as nat == x
  {
    if x < 16 {
    } else if x < 32 {
    } else if x < 64 {
    } else if x < 128 {
    } else {
    }
  }
}
