/** Types and small helpers shared by the two capture backends. */
module Common {

  /** A `u8`. */
  type byte = x: int | 0 <= x < 0x100

  /** `Option<T>` as in Rust. */
  datatype Option<T> = None | Some(value: T)

  /** `io::Result<T>`, with the error type left to each backend. */
  datatype Result<T, E> = Ok(value: T) | Err(error: E)

  /** `std::time::Duration`: whole seconds and the sub-second part in
      nanoseconds (below 1_000_000_000 for a real Duration). */
  datatype Duration = Duration(secs: nat, subsecNanos: nat)

  /** `EthernetPacket::minimum_packet_size()`: the 14-byte IEEE 802.3 MAC
      header (destination, source, EtherType). */
  const EthernetHeaderLen: nat := 14

  const U32Modulus: nat := 0x1_0000_0000
  const I32Bound: nat := 0x8000_0000

  /** A Rust `as u32` (`as libc::c_uint`) cast of an unsigned value: the low 32 bits. */
  function AsU32(x: nat): (r: nat)
    ensures r < U32Modulus
    ensures x < U32Modulus ==> r == x
    ensures (x - r) % U32Modulus == 0
  {
    x % U32Modulus
  }

  /** A Rust `as i32` (`as libc::c_int`) cast of an unsigned value: the low
      32 bits read as a two's-complement number. */
  function AsI32(x: nat): (r: int)
    ensures -(I32Bound as int) <= r < I32Bound
    ensures x < I32Bound ==> r == x
    ensures (x - r) % U32Modulus == 0
  {
    var low := AsU32(x);
    if low < I32Bound then low
    else
      ShiftCongruent(x - low);
      low - U32Modulus
  }

  /** Adding one modulus keeps a multiple of it a multiple. */
  lemma ShiftCongruent(d: int)
    requires d % U32Modulus == 0
    ensures (d + U32Modulus) % U32Modulus == 0
  {
  }

  /** `n` zero bytes, as `repeat(0u8).take(n)` or `Vec::resize(n, 0u8)` make them. */
  function Zeros(n: nat): (z: seq<byte>)
    ensures |z| == n
    ensures forall i :: 0 <= i < n ==> z[i] == 0
  {
    seq(n, _ => 0)
  }

  /** `buf` with the bytes from index `at` on overwritten by `data`: what a
      read into `buf[at..]` or a zero-fill of a range leaves behind. */
  function Place(buf: seq<byte>, at: nat, data: seq<byte>): (r: seq<byte>)
    requires at + |data| <= |buf|
    ensures |r| == |buf|
    ensures r[at..at + |data|] == data
    ensures forall i :: 0 <= i < |buf| && !(at <= i < at + |data|) ==> r[i] == buf[i]
  {
    buf[..at] + data + buf[at + |data|..]
  }

  /** `data` copied into `buf` from index `at` on: a callback's output
      written into its slot, or the driver's copy of the bytes it read. */
  method CopyInto(buf: array<byte>, at: nat, data: seq<byte>)
    requires at + |data| <= buf.Length
    modifies buf
    ensures buf[..] == Place(old(buf[..]), at, data)
  {
    forall i | 0 <= i < |data| {
      buf[at + i] := data[i];
    }
    assert buf[..] == Place(old(buf[..]), at, data);
  }

  /** The settings of the backend-independent `datalink::Config` that the
      two backends take over (its other fields are not part of this model). */
  datatype DatalinkConfig = DatalinkConfig(
    writeBufferSize: nat,
    readBufferSize: nat,
    readTimeout: Option<Duration>,
    writeTimeout: Option<Duration>,
    bpfFdAttempts: nat)
}
