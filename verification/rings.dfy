/** A ring buffer as a window on an endless stream: position p of the stream lives in slot p modulo the size. */
module Rings {
  import opened Common
  import opened RingArithmetic

  // Sample p of the endless stream lives in slot p modulo the ring size.
  ghost function Slot<T>(slots: seq<T>, p: nat): T
    requires |slots| > 0
  {
    slots[Wrap(p, |slots|)]
  }

  // `after` is `before` with stream positions s.. overwritten by src and the rest of the last lap kept.
  ghost predicate Stored<T>(before: seq<T>, after: seq<T>, s: nat, src: seq<T>)
    requires 0 < |before| == |after|
  {
    && (forall j :: 0 <= j < |src| ==> Slot(after, s + j) == src[j])
    && (forall p: nat :: s + |src| <= p + |before| && p < s ==> Slot(after, p) == Slot(before, p))
  }

  // A copy cut at the end of the ring writes positions s, s+1, ... modulo the ring size.
  lemma SplitCopyIsRingCopy<T>(before: seq<T>, after: seq<T>, src: seq<T>, s: nat, at: nat, cut: nat)
    requires 0 < |before| == |after| && at == Wrap(s, |before|) && cut <= |src| <= |before|
    requires at + cut <= |before| && (cut < |src| ==> at + cut == |before|) && |src| - cut <= at
    requires forall q :: at <= q < at + cut ==> after[q] == src[q - at]
    requires forall q :: 0 <= q < |src| - cut ==> after[q] == src[cut + q]
    requires forall q :: 0 <= q < |before| && !(at <= q < at + cut) && !(q < |src| - cut) ==> after[q] == before[q]
    ensures Stored(before, after, s, src)
  {
    var m, k := |before|, |src|;
    forall j | 0 <= j < k ensures Slot(after, s + j) == src[j] {
      WrapShift(s, j, m);
    }
    forall p: nat | s + k <= p + m && p < s ensures Slot(after, p) == Slot(before, p) {
      WrapShift(s, p + m - s, m);
      assert Wrap(p + m, m) == Wrap(p, m);
      var q := Wrap(p, m);
      assert !(at <= q < at + cut) && !(q < k - cut);
    }
  }

  method CopyInto<T>(dst: array<T>, at: nat, src: seq<T>)
    requires at + |src| <= dst.Length
    modifies dst
    ensures forall p :: 0 <= p < dst.Length ==> dst[p] == if at <= p < at + |src| then src[p - at] else old(dst[p])
  {
    forall i | 0 <= i < |src| {
      dst[at + i] := src[i];
    }
  }

  // memcpy in two parts, the second from the start of the ring.
  method CopyWrapped<T>(storage: array<T>, at: nat, src: seq<T>, cut: nat, ghost s: nat)
    requires 0 < storage.Length && at == Wrap(s, storage.Length) && cut <= |src| <= storage.Length
    requires at + cut <= storage.Length && (cut < |src| ==> at + cut == storage.Length) && |src| - cut <= at
    modifies storage
    ensures Stored(old(storage[..]), storage[..], s, src)
  {
    ghost var before := storage[..];
    CopyInto(storage, at, src[..cut]);
    if cut < |src| {
      CopyInto(storage, 0, src[cut..]);
    }
    SplitCopyIsRingCopy(before, storage[..], src, s, at, cut);
  }

  // The ring holds `queue` from stream position `from` on.
  ghost predicate Holds<T>(slots: seq<T>, from: nat, queue: seq<T>)
    requires |slots| > 0
  {
    forall j :: 0 <= j < |queue| ==> Slot(slots, from + j) == queue[j]
  }

  lemma HeldTail<T>(slots: seq<T>, from: nat, queue: seq<T>, k: nat)
    requires |slots| > 0 && Holds(slots, from, queue) && k <= |queue|
    ensures Holds(slots, from + k, queue[k..])
  {
    forall j | 0 <= j < |queue| - k ensures Slot(slots, from + k + j) == queue[k..][j] {
      assert Slot(slots, from + (k + j)) == queue[k + j];
    }
  }

  lemma RingHoldsMore<T>(before: seq<T>, after: seq<T>, from: nat, queue: seq<T>, src: seq<T>)
    requires 0 < |before| == |after| && |queue| + |src| <= |after|
    requires Holds(before, from, queue) && Stored(before, after, from + |queue|, src)
    ensures Holds(after, from, queue + src)
  {
    forall j | 0 <= j < |queue| + |src| ensures Slot(after, from + j) == (queue + src)[j] {
      if j < |queue| {
        assert Slot(after, from + j) == Slot(before, from + j);
      } else {
        assert Slot(after, from + |queue| + (j - |queue|)) == src[j - |queue|];
      }
    }
  }
}
