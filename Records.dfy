/** The BPF capture-record stream that one read delivers, shared by both
    backends (the WinPcap driver frames its captures with the same
    `bpf_hdr` and `BPF_WORDALIGN`). */
module BpfRecords {
  import opened Common

  /** `struct bpf_hdr` with a 32-bit timestamp pair (the macOS and WinPcap
      layout): `bh_tstamp` 8 bytes, `bh_caplen` u32 at 8, `bh_datalen` u32 at
      12, `bh_hdrlen` u16 at 16; 18 bytes in all. Little-endian. */
  const HeaderSize: nat := 18
  const CaplenAt: nat := 8
  const HdrlenAt: nat := 16

  /** `BPF_ALIGNMENT`, `sizeof(int32_t)` in the macOS and WinPcap `bpf.h`. */
  const Alignment: nat := 4

  function U16At(b: seq<byte>, i: nat): nat
    requires i + 2 <= |b|
  {
    b[i] as int + 0x100 * (b[i + 1] as int)
  }

  function U32At(b: seq<byte>, i: nat): nat
    requires i + 4 <= |b|
  {
    U16At(b, i) + 0x1_0000 * U16At(b, i + 2)
  }

  /** `(*packet).bh_caplen` of the record header at `pos`. */
  function CapLen(b: seq<byte>, pos: nat): nat
    requires pos + HeaderSize <= |b|
  {
    U32At(b, pos + CaplenAt)
  }

  /** `(*packet).bh_hdrlen` of the record header at `pos`. */
  function HdrLen(b: seq<byte>, pos: nat): nat
    requires pos + HeaderSize <= |b|
  {
    U16At(b, pos + HdrlenAt)
  }

  /** `BPF_WORDALIGN(x)`: `x` rounded up to the next multiple of `BPF_ALIGNMENT`. */
  function WordAlign(x: nat): (r: nat)
    ensures r % Alignment == 0
    ensures x <= r < x + Alignment
  {
    (x + Alignment - 1) / Alignment * Alignment
  }

  /** The rounding is to the LEAST multiple of the alignment at or above `x`. */
  lemma WordAlignIsLeast(x: nat, m: nat)
    requires m % Alignment == 0 && x <= m
    ensures WordAlign(x) <= m
  {
  }

  /** How far the scan cursor moves past the record at `pos`. */
  function Advance(b: seq<byte>, pos: nat): nat
    requires pos + HeaderSize <= |b|
  {
    WordAlign(HdrLen(b, pos) + CapLen(b, pos))
  }

  /** What the kernel (or driver) guarantees of the `|b|` bytes one read
      returns, scanned from `pos`: every record header starting before the end
      lies inside the bytes, so does its captured payload, the record is not
      empty (an empty one would stop the cursor for good), and a loopback
      record carries at least the `hs`-byte address-family word. */
  predicate WellFormed(b: seq<byte>, pos: nat, hs: nat)
    decreases |b| - pos
  {
    pos >= |b| ||
    (pos + HeaderSize <= |b| &&
     0 < HdrLen(b, pos) + CapLen(b, pos) &&
     pos + HdrLen(b, pos) + CapLen(b, pos) <= |b| &&
     hs <= CapLen(b, pos) &&
     WellFormed(b, pos + Advance(b, pos), hs))
  }

  /** The `(start, length)` pairs the scan queues for the records from `pos`
      on: payload start `pos + hdrlen + hs` and length `caplen - hs`, in the
      order the records lie in the buffer. There is at least one whenever a
      byte is left to scan, and never more than the bytes left (each record
      moves the cursor forward). */
  function Scan(b: seq<byte>, pos: nat, hs: nat): (r: seq<(nat, nat)>)
    requires WellFormed(b, pos, hs)
    ensures pos < |b| ==> 0 < |r| <= |b| - pos
    ensures pos >= |b| ==> r == []
    decreases |b| - pos
  {
    if pos >= |b| then []
    else
      var hdrlen, caplen := HdrLen(b, pos), CapLen(b, pos);
      [(pos + hdrlen + hs, caplen - hs)] + Scan(b, pos + Advance(b, pos), hs)
  }

  /** One step of the scan: the record at `pos` followed by the rest. */
  lemma ScanStep(b: seq<byte>, pos: nat, hs: nat)
    requires WellFormed(b, pos, hs) && pos < |b|
    ensures pos + HeaderSize <= |b| && hs <= CapLen(b, pos)
    ensures WellFormed(b, pos + Advance(b, pos), hs)
    ensures Scan(b, pos, hs) ==
      [(pos + HdrLen(b, pos) + hs, CapLen(b, pos) - hs)] + Scan(b, pos + Advance(b, pos), hs)
  {
  }

  /** Every queued pair stays inside the bytes read, and the pairs are
      disjoint and ascending: later records come later in the buffer. */
  lemma {:induction false} ScanBounds(b: seq<byte>, pos: nat, hs: nat)
    requires WellFormed(b, pos, hs)
    ensures var r := Scan(b, pos, hs);
      (forall i :: 0 <= i < |r| ==> pos + hs <= r[i].0 && r[i].0 + r[i].1 <= |b|) &&
      (forall i, j :: 0 <= i < j < |r| ==> r[i].0 + r[i].1 <= r[j].0)
    decreases |b| - pos
  {
    if pos < |b| {
      ScanStep(b, pos, hs);
      var next := pos + Advance(b, pos);
      ScanBounds(b, next, hs);
      var r, rest := Scan(b, pos, hs), Scan(b, next, hs);
      assert r[0].0 + r[0].1 == pos + HdrLen(b, pos) + CapLen(b, pos) <= next;
      forall i | 0 < i < |r| ensures r[i] == rest[i - 1] && next + hs <= r[i].0 { }
      forall i, j | 0 <= i < j < |r| ensures r[i].0 + r[i].1 <= r[j].0 {
        if i > 0 { assert r[i] == rest[i - 1] && r[j] == rest[j - 1]; }
      }
    }
  }

  /** The cursor walk over one read's bytes (`while ptr < end` in both
      backends), pushing one `(start, length)` pair per record. */
  method ScanRecords(b: seq<byte>, hs: nat) returns (records: seq<(nat, nat)>)
    requires WellFormed(b, 0, hs)
    ensures records == Scan(b, 0, hs)
  {
    records := [];
    var pos := 0;
    while pos < |b|
      invariant Scanning(b, pos, hs, records)
      decreases |b| - pos
    {
      ScanStepAppend(b, pos, hs, records);
      var hdrlen := HdrLen(b, pos);
      var caplen := CapLen(b, pos);
      records := records + [(pos + hdrlen + hs, caplen - hs)];
      pos := pos + Advance(b, pos);
    }
  }

  /** Part way through the scan, at `pos`, with `records` queued: the queue
      followed by the scan of the rest is the scan of the whole. */
  ghost predicate Scanning(b: seq<byte>, pos: nat, hs: nat, records: seq<(nat, nat)>)
  {
    WellFormed(b, 0, hs) && WellFormed(b, pos, hs) && records + Scan(b, pos, hs) == Scan(b, 0, hs)
  }

  /** One turn of the scan loop keeps the queue plus what is left to scan
      equal to the whole scan. */
  lemma ScanStepAppend(b: seq<byte>, pos: nat, hs: nat, records: seq<(nat, nat)>)
    requires Scanning(b, pos, hs, records) && pos < |b|
    ensures pos + HeaderSize <= |b| && hs <= CapLen(b, pos)
    ensures Scanning(b, pos + Advance(b, pos), hs, records + [(pos + HdrLen(b, pos) + hs, CapLen(b, pos) - hs)])
  {
    ScanStep(b, pos, hs);
    var entry := (pos + HdrLen(b, pos) + hs, CapLen(b, pos) - hs);
    assert records + Scan(b, pos, hs) == (records + [entry]) + Scan(b, pos + Advance(b, pos), hs);
  }

  /** The payload bytes each queued pair designates, read from the bytes `b`
      themselves. */
  function Payloads(b: seq<byte>, records: seq<(nat, nat)>): (p: seq<seq<byte>>)
    requires forall i :: 0 <= i < |records| ==> records[i].0 + records[i].1 <= |b|
    ensures |p| == |records|
    ensures forall i :: 0 <= i < |records| ==> p[i] == b[records[i].0..records[i].0 + records[i].1]
  {
    seq(|records|, i requires 0 <= i < |records| => b[records[i].0..records[i].0 + records[i].1])
  }

  /** Every queued pair lies inside the bytes read. */
  lemma ScanInside(b: seq<byte>, hs: nat, r: seq<(nat, nat)>)
    requires WellFormed(b, 0, hs) && r == Scan(b, 0, hs)
    ensures forall i :: 0 <= i < |r| ==> r[i].0 + r[i].1 <= |b|
  {
    ScanBounds(b, 0, hs);
  }

  /** The captured payload of every record of a well-formed read, in the
      order the records lie in the bytes. */
  function RecordPayloads(b: seq<byte>, hs: nat): (p: seq<seq<byte>>)
    requires WellFormed(b, 0, hs)
    ensures |p| == |Scan(b, 0, hs)|
    ensures 0 < |b| ==> 0 < |p|
  {
    var records := Scan(b, 0, hs);
    ScanInside(b, hs, records);
    Payloads(b, records)
  }

  /** Once the bytes `b` of a read sit at `off` in a buffer, every queued
      pair's payload sits `off` bytes further on: `buf[start + off ..
      start + off + len]` is that record's captured payload. */
  lemma {:induction false} PlacedPayloads(buf: seq<byte>, off: nat, b: seq<byte>, hs: nat)
    requires off + |b| <= |buf| && WellFormed(b, 0, hs)
    ensures var full, r := Place(buf, off, b), Scan(b, 0, hs);
      forall i :: 0 <= i < |r| ==>
        r[i].0 + r[i].1 <= |b| &&
        r[i].0 + r[i].1 + off <= |full| &&
        full[r[i].0 + off..r[i].0 + off + r[i].1] == b[r[i].0..r[i].0 + r[i].1]
  {
    var full, r := Place(buf, off, b), Scan(b, 0, hs);
    ScanInside(b, hs, r);
    forall i | 0 <= i < |r|
      ensures r[i].0 + r[i].1 <= |b| && r[i].0 + r[i].1 + off <= |full|
      ensures full[r[i].0 + off..r[i].0 + off + r[i].1] == b[r[i].0..r[i].0 + r[i].1]
    {
      PlacedSlice(buf, off, b, r[i].0, r[i].1);
    }
  }

  /** Any slice of the bytes placed at `off` reappears `off` bytes further on. */
  lemma PlacedSlice(buf: seq<byte>, off: nat, b: seq<byte>, s: nat, l: nat)
    requires off + |b| <= |buf| && s + l <= |b|
    ensures var full := Place(buf, off, b);
      s + off + l <= |full| && full[s + off..s + off + l] == b[s..s + l]
  {
    var full := Place(buf, off, b);
    assert full[off..off + |b|] == b;
    assert full[s + off..s + off + l] == full[off..off + |b|][s..s + l];
  }

  /** Zero-filling the `off` bytes in front of one frame's payload (the
      loopback placeholder header) leaves the payload of every frame queued
      after it in place. */
  lemma {:induction false} ZeroFillKeepsLaterPayload(buf: seq<byte>, off: nat, e: (nat, nat), q: (nat, nat))
    requires e.0 + off <= |buf| && q.0 + off + q.1 <= |buf|
    requires e.0 <= q.0
    ensures var z := Place(buf, e.0, Zeros(off));
      z[q.0 + off..q.0 + off + q.1] == buf[q.0 + off..q.0 + off + q.1]
  {
    var z := Place(buf, e.0, Zeros(off));
    assert forall i :: q.0 + off <= i < q.0 + off + q.1 ==> z[i] == buf[i];
  }

  /** The frame handed out for a queued pair `(start, len)` whose payload
      sits at `start + off`: after the zero-fill, `buf[start .. start + len +
      off]` is `off` zero bytes followed by exactly that payload. */
  lemma {:induction false} DeliveredFrame(buf: seq<byte>, off: nat, e: (nat, nat))
    requires e.0 + off + e.1 <= |buf|
    ensures var z := Place(buf, e.0, Zeros(off));
      z[e.0..e.0 + e.1 + off] == Zeros(off) + buf[e.0 + off..e.0 + off + e.1]
  {
    var z := Place(buf, e.0, Zeros(off));
    assert z[e.0..e.0 + off] == Zeros(off);
    assert z[e.0..e.0 + e.1 + off] == z[e.0..e.0 + off] + z[e.0 + off..e.0 + off + e.1];
    assert forall i :: e.0 + off <= i < e.0 + off + e.1 ==> z[i] == buf[i];
  }

  /** A queue of `(start, length)` pairs is consistent with the bytes of a
      read buffer when each pair's payload still sits `off` bytes past its
      start, and the pairs ascend without overlapping. */
  ghost predicate QueueValid(buf: seq<byte>, off: nat, packets: seq<(nat, nat)>, pending: seq<seq<byte>>)
  {
    && |pending| == |packets|
    && (forall i :: 0 <= i < |packets| ==>
          packets[i].0 + off + packets[i].1 <= |buf| &&
          buf[packets[i].0 + off..packets[i].0 + off + packets[i].1] == pending[i])
    && (forall i, j :: 0 <= i < j < |packets| ==> packets[i].0 + packets[i].1 <= packets[j].0)
  }

  /** Right after a read lands `off` bytes into the buffer and is scanned,
      the queue holds every record's payload. */
  lemma ScannedQueueValid(buf: seq<byte>, off: nat, b: seq<byte>, hs: nat)
    requires off + |b| <= |buf| && WellFormed(b, 0, hs)
    ensures QueueValid(Place(buf, off, b), off, Scan(b, 0, hs), RecordPayloads(b, hs))
  {
    ScanBounds(b, 0, hs);
    PlacedPayloads(buf, off, b, hs);
  }

  /** Taking the first pair off a consistent queue and zeroing the `off`
      bytes in front of its payload yields exactly `off` zeros followed by
      that payload, and leaves the rest of the queue consistent. */
  lemma PoppedQueueValid(buf: seq<byte>, off: nat, packets: seq<(nat, nat)>, pending: seq<seq<byte>>)
    requires QueueValid(buf, off, packets, pending) && packets != []
    ensures var e := packets[0];
      var z := Place(buf, e.0, Zeros(off));
      e.0 + e.1 + off <= |buf| &&
      z[e.0..e.0 + e.1 + off] == Zeros(off) + pending[0] &&
      QueueValid(z, off, packets[1..], pending[1..])
  {
    var e := packets[0];
    var z := Place(buf, e.0, Zeros(off));
    DeliveredFrame(buf, off, e);
    var rest, later := packets[1..], pending[1..];
    forall i | 0 <= i < |rest|
      ensures rest[i].0 + off + rest[i].1 <= |z| && z[rest[i].0 + off..rest[i].0 + off + rest[i].1] == later[i]
    {
      assert rest[i] == packets[i + 1] && later[i] == pending[i + 1];
      ZeroFillKeepsLaterPayload(buf, off, e, rest[i]);
    }
    forall i, j | 0 <= i < j < |rest| ensures rest[i].0 + rest[i].1 <= rest[j].0 {
      assert rest[i] == packets[i + 1] && rest[j] == packets[j + 1];
    }
  }
}
