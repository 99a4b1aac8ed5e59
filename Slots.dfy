/** The write buffer as the batch sender sees it: `count` consecutive slots
    of `size` bytes (`write_buffer[..len].chunks_mut(packet_size)`), each
    filled in place by the caller's callback. */
module Slots {
  import opened Common

  /** The caller's `func(MutableEthernetPacket)` callback: given the slot's
      index in the batch and the bytes it holds, the bytes it leaves there. */
  type Populate = (nat, seq<byte>) -> seq<byte>

  /** The view handed to the callback has a fixed length: the callback can
      rewrite the slot's bytes but not resize it, nor reach outside it. */
  ghost predicate LengthPreserving(f: Populate)
  {
    forall k, s :: |f(k, s)| == |s|
  }

  /** Slots with a smaller index lie entirely before those with a larger one. */
  lemma {:induction false} SlotsOrdered(a: nat, b: nat, size: nat)
    requires a < b
    ensures a * size + size <= b * size
    decreases b - a
  {
    assert (b - 1) * size + size == b * size;
    if a < b - 1 { SlotsOrdered(a, b - 1, size); }
  }

  /** The first `m` slots lie within the first `count` when `m <= count`. */
  lemma RangeWithin(m: nat, count: nat, size: nat)
    requires m <= count
    ensures m * size <= count * size
  {
    if m < count { SlotsOrdered(m, count, size); }
  }

  /** Slot `k`: bytes `k * size .. k * size + size`. */
  function Slot(buf: seq<byte>, k: nat, size: nat): (s: seq<byte>)
    requires k * size + size <= |buf|
    ensures |s| == size
  {
    buf[k * size..k * size + size]
  }

  /** The callback run on slot `k` in place: slot `k` now holds what the
      callback made of it, and every byte outside the slot is as before. */
  function FillSlot(buf: seq<byte>, k: nat, size: nat, f: Populate): (r: seq<byte>)
    requires LengthPreserving(f) && k * size + size <= |buf|
    ensures |r| == |buf|
    ensures Slot(r, k, size) == f(k, Slot(buf, k, size))
    ensures forall i :: 0 <= i < |buf| && !(k * size <= i < k * size + size) ==> r[i] == buf[i]
  {
    Place(buf, k * size, f(k, Slot(buf, k, size)))
  }

  /** Filling one slot leaves every other slot as it was. */
  lemma FillSlotKeepsOtherSlots(buf: seq<byte>, k: nat, j: nat, size: nat, f: Populate)
    requires LengthPreserving(f) && k * size + size <= |buf| && j * size + size <= |buf|
    requires j != k
    ensures Slot(FillSlot(buf, k, size, f), j, size) == Slot(buf, j, size)
  {
    if j < k { SlotsOrdered(j, k, size); } else { SlotsOrdered(k, j, size); }
    var r := FillSlot(buf, k, size, f);
    assert forall i :: j * size <= i < j * size + size ==> r[i] == buf[i];
  }

  /** The callback run on slots `k .. m - 1` in turn, each on the buffer the
      previous one left. */
  function FillRange(buf: seq<byte>, k: nat, m: nat, size: nat, f: Populate): (r: seq<byte>)
    requires LengthPreserving(f) && k <= m && m * size <= |buf|
    ensures |r| == |buf|
    decreases m - k
  {
    if k == m then buf
    else
      SlotsOrdered(k, m, size);
      FillRange(FillSlot(buf, k, size, f), k + 1, m, size, f)
  }

  /** Filling a range starts with its first slot. */
  lemma FillRangeFirst(buf: seq<byte>, k: nat, m: nat, size: nat, f: Populate)
    requires LengthPreserving(f) && k < m && m * size <= |buf|
    ensures k * size + size <= |buf|
    ensures FillRange(buf, k, m, size, f) == FillRange(FillSlot(buf, k, size, f), k + 1, m, size, f)
  {
    SlotsOrdered(k, m, size);
  }

  /** After filling slots `k .. m - 1` in order, each of them holds what the
      callback made of its ORIGINAL bytes (no slot sees another's writes), and
      every byte outside those slots is unchanged. */
  lemma {:induction false} FillRangeEffect(buf: seq<byte>, k: nat, m: nat, size: nat, f: Populate)
    requires LengthPreserving(f) && k <= m && m * size <= |buf|
    ensures var r := FillRange(buf, k, m, size, f);
      (forall j :: k <= j < m ==> j * size + size <= |buf| && Slot(r, j, size) == f(j, Slot(buf, j, size))) &&
      (forall i :: 0 <= i < |buf| && !(k * size <= i < m * size) ==> r[i] == buf[i])
    decreases m - k
  {
    if k < m {
      SlotsOrdered(k, m, size);
      var filled := FillSlot(buf, k, size, f);
      FillRangeEffect(filled, k + 1, m, size, f);
      var r := FillRange(filled, k + 1, m, size, f);
      assert r == FillRange(buf, k, m, size, f);
      forall j | k <= j < m
        ensures j * size + size <= |buf| && Slot(r, j, size) == f(j, Slot(buf, j, size))
      {
        if j + 1 < m { SlotsOrdered(j, m, size); }
        if j == k {
          assert forall i :: k * size <= i < k * size + size ==> r[i] == filled[i];
          assert Slot(r, k, size) == Slot(filled, k, size);
        } else {
          FillSlotKeepsOtherSlots(buf, k, j, size, f);
        }
      }
    }
  }
}
