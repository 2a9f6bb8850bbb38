/** core/eaf_dec_input.c: the bounded byte ring in front of a decoder. */
module DecoderInput {
  import opened Common
  import opened RingArithmetic
  import opened Rings

  /** eaf_dec_input_t. `read` counts the bytes taken since the last reset and `queue` holds those waiting. */
  class Input {
    const ring: array<u8>
    var tail: nat
    var count: nat
    var eof: bool
    ghost var read: nat
    ghost var queue: seq<u8>

    ghost predicate Valid()
      reads this, ring
    {
      && 0 < ring.Length && count == |queue| <= ring.Length && tail == Wrap(read, ring.Length)
      && Holds(ring[..], read, queue)
    }

    constructor (capacity: nat)
      requires capacity > 0
      ensures Valid() && fresh(ring) && ring.Length == capacity && queue == [] && !eof
    {
      ring := new u8[capacity](_ => 0);
      tail, count, eof, read, queue := 0, 0, false, 0, [];
    }

    method Reset()
      requires Valid()
      modifies `tail, `count, `eof, `read, `queue
      ensures Valid() && queue == [] && !eof
    {
      tail, count, eof, read, queue := 0, 0, false, 0, [];
    }

    method Finish()
      requires Valid()
      modifies `eof
      ensures Valid() && eof
    {
      eof := true;
    }

    // eaf_dec_input_push: as much as there is room for.
    method Push(data: seq<u8>) returns (take: nat)
      requires Valid()
      modifies `count, `queue, ring
      ensures Valid() && take == (if old(eof) then 0 else Min(|data|, ring.Length - old(count))) && queue == old(queue) + data[..take]
    {
      hide Wrap;
      if eof || data == [] {
        assert queue + data[..0] == queue;
        return 0;
      }
      take := Min(|data|, ring.Length - count);
      var write := (tail + count) % ring.Length;
      WrapIsMod(tail + count, ring.Length);
      WrapShift(read, count, ring.Length);
      WrapOnce(tail + count, ring.Length);
      var first := Min(ring.Length - write, take);
      CopyWrapped(ring, write, data[..take], first, read + count);
      RingHoldsMore(old(ring[..]), ring[..], read, queue, data[..take]);
      count := count + take;
      queue := queue + data[..take];
    }

    lemma WrapOnce(p: nat, m: nat)
      requires m > 0 && p <= m + m && (p == m + m ==> false)
      ensures Wrap(p, m) == if p < m then p else p - m
    {
    }

    // One contiguous piece.
    method Take(dst: array<u8>, at: nat, chunk: nat)
      requires Valid() && chunk <= count && tail + chunk <= ring.Length && at + chunk <= dst.Length && dst != ring
      modifies `tail, `count, `read, `queue, dst
      ensures Valid() && queue == old(queue)[chunk..]
      ensures forall k :: 0 <= k < dst.Length ==> dst[k] == if at <= k < at + chunk then old(queue)[k - at] else old(dst[k])
    {
      hide Wrap;
      CopyInto(dst, at, ring[tail..tail + chunk]);
      forall j | 0 <= j < chunk ensures ring[tail + j] == queue[j] {
        WrapShift(read, j, ring.Length);
        assert Slot(ring[..], read + j) == queue[j];
      }
      WrapIsMod(tail + chunk, ring.Length);
      WrapShift(read, chunk, ring.Length);
      WrapOnce(tail + chunk, ring.Length);
      HeldTail(ring[..], read, queue, chunk);
      tail := (tail + chunk) % ring.Length;
      count := count - chunk;
      read := read + chunk;
      queue := queue[chunk..];
    }

    // eaf_dec_input_read without a wait hook: what there is, oldest first.
    method Read(dst: array<u8>, length: nat) returns (got: nat)
      requires Valid() && length <= dst.Length && dst != ring
      modifies `tail, `count, `read, `queue, dst
      ensures Valid() && got == Min(length, old(count)) && queue == old(queue)[got..]
      ensures forall k :: 0 <= k < dst.Length ==> dst[k] == if k < got then old(queue)[k] else old(dst[k])
    {
      hide Wrap;
      got := 0;
      while got < length && count > 0
        invariant Valid() && got <= length && got <= |old(queue)| && queue == old(queue)[got..]
        invariant forall k :: 0 <= k < dst.Length ==> dst[k] == if k < got then old(queue)[k] else old(dst[k])
        decreases length - got
      {
        var chunk := Min(Min(ring.Length - tail, count), length - got);
        TailInside();
        Take(dst, got, chunk);
        got := got + chunk;
      }
    }

    lemma Counted()
      requires Valid()
      ensures count == |queue|
    {
    }

    lemma TailInside()
      requires Valid()
      ensures tail < ring.Length
    {
    }
  }
}
