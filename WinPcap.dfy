/** The WinPcap backend (Windows): channel set-up over the driver's
    `Packet*` API, the batch sender and the capture-record iterator. Every
    driver call is an abstract outcome supplied by the caller of the model,
    and every call the backend makes is recorded, in order, in a trace. */
module WinPcap {
  import opened Common
  import opened BpfRecords
  import opened Slots

  // ---------------------------------------------------------------- Config

  /** `winpcap::Config`. */
  datatype Config = Config(
    writeBufferSize: nat,
    readBufferSize: nat,
    readTimeout: Option<Duration>)

  /** `Config::default()`. */
  function DefaultConfig(): (c: Config)
    ensures c.writeBufferSize == 4096 && c.readBufferSize == 4096
    ensures c.readTimeout == None
  {
    Config(4096, 4096, None)
  }

  /** `impl From<&datalink::Config> for Config`: the buffer sizes and the
      read timeout carried over unchanged; the write timeout and the number
      of BPF descriptors to try have no WinPcap counterpart. */
  function FromDatalink(d: DatalinkConfig): (c: Config)
    ensures c.writeBufferSize == d.writeBufferSize && c.readBufferSize == d.readBufferSize
    ensures c.readTimeout == d.readTimeout
  {
    Config(d.writeBufferSize, d.readBufferSize, d.readTimeout)
  }

  // ---------------------------------------------------------- read timeout

  /** The value `channel` hands to `PacketSetReadTimeout`: 0 without a
      timeout, otherwise the whole seconds times 1_000_000 plus the whole
      milliseconds of the sub-second part, cast `as i32`. A `u64` overflow
      of the sum, had it wrapped, would not change the low 32 bits, so the
      cast alone decides the value. */
  function DriverReadTimeout(t: Option<Duration>): (r: int)
    ensures t.None? ==> r == 0
    ensures -(I32Bound as int) <= r < I32Bound
    ensures t.Some? ==>
      var x := t.value.secs * 1_000_000 + t.value.subsecNanos / 1_000_000;
      (x - r) % U32Modulus == 0 && (x < I32Bound ==> r == x)
  {
    match t
    case None => 0
    case Some(d) => AsI32(d.secs * 1_000_000 + d.subsecNanos / 1_000_000)
  }

  /** A timeout shorter than a second is passed as its whole milliseconds. */
  lemma SubSecondTimeout(nanos: nat)
    requires nanos < 1_000_000_000
    ensures DriverReadTimeout(Some(Duration(0, nanos))) == nanos / 1_000_000
    ensures 0 <= DriverReadTimeout(Some(Duration(0, nanos))) < 1000
  {
  }

  /** Whole seconds are scaled by 1_000_000, not 1000: one second reaches the
      driver as a thousand times the value of 999 milliseconds. */
  lemma OneSecondTimeout()
    ensures DriverReadTimeout(Some(Duration(1, 0))) == 1_000_000
    ensures DriverReadTimeout(Some(Duration(0, 999_000_000))) == 999
  {
  }

  /** From 2148 seconds on the scaled value no longer fits an `i32`, and the
      cast turns it negative. */
  lemma LongTimeoutWraps()
    ensures DriverReadTimeout(Some(Duration(2147, 0))) == 2_147_000_000
    ensures DriverReadTimeout(Some(Duration(2148, 0))) == 2_148_000_000 - U32Modulus < 0
  {
  }

  // ---------------------------------------------------------- driver calls

  /** `NDIS_PACKET_TYPE_PROMISCUOUS`, the hardware filter `channel` sets. */
  const NdisPacketTypePromiscuous: nat := 0x20

  /** Which of the channel's two `PACKET` structures a call is about. */
  datatype PacketRole = ReadPacket | WritePacket

  /** One call into the driver's `Packet*` API. */
  datatype AdapterCall =
    | OpenAdapter(name: seq<byte>)              // PacketOpenAdapter
    | SetHwFilter(filter: nat)                  // PacketSetHwFilter
    | SetBuff(size: int)                        // PacketSetBuff
    | SetReadTimeout(timeout: int)              // PacketSetReadTimeout
    | SetMinToCopy(minBytes: nat)                 // PacketSetMinToCopy
    | AllocatePacket(role: PacketRole)          // PacketAllocatePacket
    | InitPacket(role: PacketRole, length: nat) // PacketInitPacket
    | FreePacket(role: PacketRole)              // PacketFreePacket
    | CloseAdapter                              // PacketCloseAdapter
    | SendPacket(sent: seq<byte>)              // PacketSendPacket
    | ReceivePacket(capacity: nat)              // PacketReceivePacket

  /** `io::Error::last_os_error()`: the error code that a driver call left. */
  datatype OsError = ErrnoAfter(call: AdapterCall)

  /** What the driver answers during set-up: whether the adapter opens,
      the `BOOLEAN` each settings call returns (0 for failure), and whether
      each packet allocation returns a structure. */
  datatype SetupEnv = SetupEnv(
    adapterOpens: bool,
    callResult: AdapterCall -> int,
    allocates: PacketRole -> bool)

  // ---------------------------------------------------------------- set-up

  /** Every call a set-up that never fails makes, in order: open the
      adapter, promiscuous mode, the kernel buffer size, the read timeout,
      immediate delivery, then the read packet and the write packet, each
      allocated and initialised with its buffer's size. */
  function SetupPlan(name: seq<byte>, cfg: Config): (p: seq<AdapterCall>)
    ensures |p| == 9 && p[0] == OpenAdapter(name)
  {
    [OpenAdapter(name),
     SetHwFilter(NdisPacketTypePromiscuous),
     SetBuff(AsI32(cfg.readBufferSize)),
     SetReadTimeout(DriverReadTimeout(cfg.readTimeout)),
     SetMinToCopy(1),
     AllocatePacket(ReadPacket),
     InitPacket(ReadPacket, AsU32(cfg.readBufferSize)),
     AllocatePacket(WritePacket),
     InitPacket(WritePacket, AsU32(cfg.writeBufferSize))]
  }

  /** Whether a set-up call fails: the open and the allocations return a
      null pointer, the settings calls return 0; initialising a packet
      cannot fail. */
  predicate StepFails(call: AdapterCall, env: SetupEnv)
  {
    match call
    case OpenAdapter(_) => !env.adapterOpens
    case AllocatePacket(role) => !env.allocates(role)
    case InitPacket(_, _) => false
    case _ => env.callResult(call) == 0
  }

  /** The position of the first failing call of `plan` from `from` on;
      `|plan|` when none fails. */
  function FirstFailingStep(plan: seq<AdapterCall>, env: SetupEnv, from: nat): (k: nat)
    requires from <= |plan|
    ensures from <= k <= |plan|
    ensures forall j :: from <= j < k ==> !StepFails(plan[j], env)
    ensures k < |plan| ==> StepFails(plan[k], env)
    decreases |plan| - from
  {
    if from == |plan| || StepFails(plan[from], env) then from
    else FirstFailingStep(plan, env, from + 1)
  }

  /** The first failing step is determined by which steps fail. */
  lemma FirstFailingStepIs(plan: seq<AdapterCall>, env: SetupEnv, k: nat)
    requires k <= |plan|
    requires forall j :: 0 <= j < k ==> !StepFails(plan[j], env)
    requires k < |plan| ==> StepFails(plan[k], env)
    ensures FirstFailingStep(plan, env, 0) == k
  {
    assert !(FirstFailingStep(plan, env, 0) > k);
  }

  /** The clean-up after a failed step: a failed read-packet allocation
      closes the adapter; a failed write-packet allocation frees the read
      packet, then closes the adapter; every earlier failure returns at once. */
  function Cleanup(call: AdapterCall): seq<AdapterCall>
  {
    match call
    case AllocatePacket(ReadPacket) => [CloseAdapter]
    case AllocatePacket(WritePacket) => [FreePacket(ReadPacket), CloseAdapter]
    case _ => []
  }

  /** What `channel` does up to building the sender and the receiver: the
      plan up to its first failing step, that step's clean-up, and the error
      read after the last call made; the whole plan when nothing fails. */
  function SetupResult(name: seq<byte>, cfg: Config, env: SetupEnv): (Result<(), OsError>, seq<AdapterCall>)
  {
    var plan := SetupPlan(name, cfg);
    var k := FirstFailingStep(plan, env, 0);
    if k < |plan| then
      var calls := plan[..k + 1] + Cleanup(plan[k]);
      (Err(ErrnoAfter(calls[|calls| - 1])), calls)
    else (Ok(()), plan)
  }

  /** No step of the plan is a clean-up call. */
  lemma PlanHasNoCleanup(name: seq<byte>, cfg: Config)
    ensures forall j :: 0 <= j < 9 ==>
      SetupPlan(name, cfg)[j] != CloseAdapter && !SetupPlan(name, cfg)[j].FreePacket?
  {
  }

  /** The shape of a set-up by the step that fails first: initialising a
      packet never fails; a failed open or setting ends the calls there; a
      failed allocation adds its clean-up; with no failure the calls are the
      whole plan. The error, if any, is the one the last call left. */
  lemma {:induction false} SetupShape(name: seq<byte>, cfg: Config, env: SetupEnv)
    ensures var (r, calls) := SetupResult(name, cfg, env);
      var plan := SetupPlan(name, cfg);
      var k := FirstFailingStep(plan, env, 0);
      && k != 6 && k != 8
      && (k < 5 ==> calls == plan[..k + 1])
      && (k == 5 ==> calls == plan[..6] + [CloseAdapter])
      && (k == 7 ==> calls == plan[..8] + [FreePacket(ReadPacket), CloseAdapter])
      && (k == 9 <==> r.Ok?)
      && (k == 9 ==> calls == plan)
      && (k < 9 ==> r == Err(ErrnoAfter(calls[|calls| - 1])))
  {
    var plan := SetupPlan(name, cfg);
    var k := FirstFailingStep(plan, env, 0);
    if k < 5 {
      assert Cleanup(plan[k]) == [] by {
        if k == 0 {} else if k == 1 {} else if k == 2 {} else if k == 3 {} else {}
      }
    }
  }

  /** `channel` succeeds exactly when no step fails, and then makes every
      call of the plan; the open is always the first call; a failure reports
      the error left by the last call made. */
  lemma SetupSucceedsIff(name: seq<byte>, cfg: Config, env: SetupEnv)
    ensures var (r, calls) := SetupResult(name, cfg, env);
      var plan := SetupPlan(name, cfg);
      && 0 < |calls| && calls[0] == OpenAdapter(name)
      && (r.Ok? <==> forall j :: 0 <= j < |plan| ==> !StepFails(plan[j], env))
      && (r.Ok? ==> calls == plan && CloseAdapter !in calls)
      && (r.Err? ==> r.error == ErrnoAfter(calls[|calls| - 1]))
  {
    SetupShape(name, cfg, env);
    PlanHasNoCleanup(name, cfg);
  }

  /** The adapter is closed exactly when the open and the four settings
      succeed and a packet allocation fails; it is then closed once, as the
      last call. */
  lemma SetupClosesIff(name: seq<byte>, cfg: Config, env: SetupEnv)
    ensures var (r, calls) := SetupResult(name, cfg, env);
      var plan := SetupPlan(name, cfg);
      && (CloseAdapter in calls <==>
            (forall j :: 0 <= j < 5 ==> !StepFails(plan[j], env)) &&
            (!env.allocates(ReadPacket) || !env.allocates(WritePacket)))
      && (CloseAdapter in calls ==>
            r.Err? && calls[|calls| - 1] == CloseAdapter && multiset(calls)[CloseAdapter] == 1)
  {
    SetupShape(name, cfg, env);
    PlanHasNoCleanup(name, cfg);
    var (r, calls) := SetupResult(name, cfg, env);
    var plan := SetupPlan(name, cfg);
    var k := FirstFailingStep(plan, env, 0);
    if k == 5 {
      assert CloseAdapter !in plan[..6];
      assert multiset(calls) == multiset(plan[..6]) + multiset{CloseAdapter};
    } else if k == 7 {
      assert CloseAdapter !in plan[..8];
      assert calls == plan[..8] + [FreePacket(ReadPacket)] + [CloseAdapter];
      assert multiset(calls) == multiset(plan[..8]) + multiset{FreePacket(ReadPacket)} + multiset{CloseAdapter};
    } else if k < 5 {
      assert CloseAdapter !in plan[..k + 1];
      assert StepFails(plan[k], env);
    } else {
      assert !StepFails(plan[5], env) && !StepFails(plan[7], env);
    }
  }

  /** The read packet is freed exactly when it was allocated and the
      write-packet allocation failed, and then just before the close. */
  lemma SetupFreesIff(name: seq<byte>, cfg: Config, env: SetupEnv)
    ensures var (r, calls) := SetupResult(name, cfg, env);
      var plan := SetupPlan(name, cfg);
      && (FreePacket(ReadPacket) in calls <==>
            (forall j :: 0 <= j < 5 ==> !StepFails(plan[j], env)) &&
            env.allocates(ReadPacket) && !env.allocates(WritePacket))
      && (FreePacket(ReadPacket) in calls ==> 2 <= |calls| && calls[|calls| - 2] == FreePacket(ReadPacket))
  {
    SetupShape(name, cfg, env);
    PlanHasNoCleanup(name, cfg);
    var (r, calls) := SetupResult(name, cfg, env);
    var plan := SetupPlan(name, cfg);
    var k := FirstFailingStep(plan, env, 0);
    if k == 5 {
      assert FreePacket(ReadPacket) !in plan[..6];
    } else if k == 7 {
      assert !StepFails(plan[5], env) && StepFails(plan[7], env);
      assert calls[|calls| - 2] == FreePacket(ReadPacket);
    } else if k < 5 {
      assert FreePacket(ReadPacket) !in plan[..k + 1];
      assert StepFails(plan[k], env);
    } else {
      assert !StepFails(plan[7], env);
    }
  }

  /** A setting that fails after a successful open returns without closing
      the adapter: the open handle is left behind. */
  lemma SetupLeaksAdapter(name: seq<byte>, cfg: Config, env: SetupEnv)
    requires env.adapterOpens
    requires exists j :: 1 <= j < 5 && StepFails(SetupPlan(name, cfg)[j], env)
    ensures var (r, calls) := SetupResult(name, cfg, env);
      r.Err? && 1 < |calls| <= 5 && calls[0] == OpenAdapter(name) && CloseAdapter !in calls
  {
    SetupShape(name, cfg, env);
    PlanHasNoCleanup(name, cfg);
  }

  /** `channel` up to building the sender and the receiver: each step's
      call, checked the way the source checks it, with the clean-up only
      the two allocation failures make. A name with a zero byte in it makes
      `CString::new(..).unwrap()` panic, so it is excluded. */
  method Setup(name: seq<byte>, cfg: Config, env: SetupEnv) returns (r: Result<(), OsError>, calls: seq<AdapterCall>)
    requires forall i :: 0 <= i < |name| ==> name[i] != 0
    ensures (r, calls) == SetupResult(name, cfg, env)
  {
    var ready;
    ready, r, calls := OpenAndConfigure(name, cfg, env);
    if ready {
      r, calls := AllocatePackets(name, cfg, env, calls);
    }
  }

  /** The open and the four settings calls (plan steps 0 to 4), each
      returning its error at once when it fails. `configured` says whether
      all five succeeded; if not, the set-up is over. */
  method OpenAndConfigure(name: seq<byte>, cfg: Config, env: SetupEnv)
    returns (configured: bool, r: Result<(), OsError>, calls: seq<AdapterCall>)
    requires forall i :: 0 <= i < |name| ==> name[i] != 0
    ensures configured <==> forall j :: 0 <= j < 5 ==> !StepFails(SetupPlan(name, cfg)[j], env)
    ensures configured ==> calls == SetupPlan(name, cfg)[..5]
    ensures !configured ==> (r, calls) == SetupResult(name, cfg, env)
  {
    configured := false;
    calls := [OpenAdapter(name)];
    if !env.adapterOpens {
      Stopped(name, cfg, env, 0, calls);
      return false, Err(ErrnoAfter(OpenAdapter(name))), calls;
    }
    var ret := SetHwFilter(NdisPacketTypePromiscuous);
    calls := calls + [ret];
    if env.callResult(ret) == 0 {
      Stopped(name, cfg, env, 1, calls);
      return false, Err(ErrnoAfter(ret)), calls;
    }
    ret := SetBuff(AsI32(cfg.readBufferSize));
    calls := calls + [ret];
    if env.callResult(ret) == 0 {
      Stopped(name, cfg, env, 2, calls);
      return false, Err(ErrnoAfter(ret)), calls;
    }
    var readTo := DriverReadTimeout(cfg.readTimeout);
    ret := SetReadTimeout(readTo);
    calls := calls + [ret];
    if env.callResult(ret) == 0 {
      Stopped(name, cfg, env, 3, calls);
      return false, Err(ErrnoAfter(ret)), calls;
    }
    ret := SetMinToCopy(1);
    calls := calls + [ret];
    if env.callResult(ret) == 0 {
      Stopped(name, cfg, env, 4, calls);
      return false, Err(ErrnoAfter(ret)), calls;
    }
    configured, r := true, Ok(());
  }

  /** The two packet allocations and initialisations (plan steps 5 to 8)
      after a successful open and configuration; a failed allocation
      releases what was acquired before returning its error. */
  method AllocatePackets(name: seq<byte>, cfg: Config, env: SetupEnv, configured: seq<AdapterCall>)
    returns (r: Result<(), OsError>, calls: seq<AdapterCall>)
    requires configured == SetupPlan(name, cfg)[..5]
    requires forall j :: 0 <= j < 5 ==> !StepFails(SetupPlan(name, cfg)[j], env)
    ensures (r, calls) == SetupResult(name, cfg, env)
  {
    ghost var plan := SetupPlan(name, cfg);
    calls := configured + [AllocatePacket(ReadPacket)];
    if !env.allocates(ReadPacket) {
      Stopped(name, cfg, env, 5, calls);
      calls := calls + [CloseAdapter];
      return Err(ErrnoAfter(CloseAdapter)), calls;
    }
    calls := calls + [InitPacket(ReadPacket, AsU32(cfg.readBufferSize))];
    calls := calls + [AllocatePacket(WritePacket)];
    if !env.allocates(WritePacket) {
      Stopped(name, cfg, env, 7, calls);
      calls := calls + [FreePacket(ReadPacket), CloseAdapter];
      return Err(ErrnoAfter(CloseAdapter)), calls;
    }
    calls := calls + [InitPacket(WritePacket, AsU32(cfg.writeBufferSize))];
    assert calls == plan;
    FirstFailingStepIs(plan, env, 9);
    r := Ok(());
  }

  /** The set-up stopped at step `k`, the first to fail, having made the
      plan's first `k + 1` calls: a failed open or setting returns its own
      error at once, a failed allocation cleans up first. */
  lemma Stopped(name: seq<byte>, cfg: Config, env: SetupEnv, k: nat, calls: seq<AdapterCall>)
    requires k < 9 && calls == SetupPlan(name, cfg)[..k + 1]
    requires forall j :: 0 <= j < k ==> !StepFails(SetupPlan(name, cfg)[j], env)
    requires StepFails(SetupPlan(name, cfg)[k], env)
    ensures k < 5 ==> SetupResult(name, cfg, env) == (Err(ErrnoAfter(calls[k])), calls)
    ensures k == 5 ==> SetupResult(name, cfg, env) == (Err(ErrnoAfter(CloseAdapter)), calls + [CloseAdapter])
    ensures k == 7 ==>
      SetupResult(name, cfg, env) == (Err(ErrnoAfter(CloseAdapter)), calls + [FreePacket(ReadPacket), CloseAdapter])
  {
    FirstFailingStepIs(SetupPlan(name, cfg), env, k);
    SetupShape(name, cfg, env);
  }

  // ------------------------------------------------------ channel objects

  /** The opened adapter shared by the sender and the receiver (the
      `Arc<WinPcapAdapter>`), with the trace of every call made on it. */
  class Adapter {
    var log: seq<AdapterCall>

    constructor (log: seq<AdapterCall>)
      ensures this.log == log
    {
      this.log := log;
    }
  }

  /** A driver `PACKET`: its `Buffer` (the channel's buffer that
      `PacketInitPacket` attached), its `Length` field and, for the read
      packet, `ulBytesReceived`. */
  class Packet {
    const buffer: array<byte>
    var length: nat
    var bytesReceived: nat

    /** `Length` never exceeds the buffer the packet describes. */
    ghost predicate Valid()
      reads this
    {
      length <= buffer.Length && length < U32Modulus
    }

    /** A zero-filled buffer of `size` bytes and a packet initialised with
      `size as UINT`. */
    constructor (size: nat)
      ensures fresh(buffer) && buffer[..] == Zeros(size)
      ensures length == AsU32(size) && bytesReceived == 0 && Valid()
    {
      buffer := new byte[size](_ => 0);
      length := AsU32(size);
      bytesReceived := 0;
    }
  }

  /** `channel`: the set-up, then, when it succeeds, one adapter shared by a
      sender and a receiver, whose trace holds every call the set-up made.
      The write packet describes `write_buffer_size` zero bytes and the read
      packet `read_buffer_size` zero bytes, each with that size as `Length`. */
  method Channel(name: seq<byte>, cfg: Config, env: SetupEnv)
    returns (r: Result<(Sender, Receiver), OsError>, calls: seq<AdapterCall>)
    requires forall i :: 0 <= i < |name| ==> name[i] != 0
    ensures var (res, trace) := SetupResult(name, cfg, env);
      && calls == trace
      && r.Err? == res.Err?
      && (r.Err? ==> r.error == res.error)
      && (r.Ok? ==>
            var (tx, rx) := r.value;
            && fresh(tx) && fresh(rx) && fresh(tx.adapter) && tx.adapter == rx.adapter
            && tx.adapter.log == calls
            && fresh(tx.packet) && fresh(rx.packet) && tx.packet != rx.packet
            && fresh(tx.packet.buffer) && fresh(rx.packet.buffer) && tx.packet.buffer != rx.packet.buffer
            && tx.packet.buffer[..] == Zeros(cfg.writeBufferSize) && tx.packet.length == AsU32(cfg.writeBufferSize)
            && rx.packet.buffer[..] == Zeros(cfg.readBufferSize) && rx.packet.length == AsU32(cfg.readBufferSize)
            && tx.packet.Valid() && rx.packet.Valid())
  {
    var res;
    res, calls := Setup(name, cfg, env);
    if res.Err? {
      return Err(res.error), calls;
    }
    var readPacket := new Packet(cfg.readBufferSize);
    var writePacket := new Packet(cfg.writeBufferSize);
    var adapter := new Adapter(calls);
    var tx := new Sender(adapter, writePacket);
    var rx := new Receiver(adapter, readPacket);
    r := Ok((tx, rx));
  }

  // ---------------------------------------------------------------- sender

  /** The result of sending the packets of a batch from some index on, the
      write buffer afterwards, and the calls made. */
  datatype SendOutcome = SendOutcome(result: Result<(), OsError>, buffer: seq<byte>, calls: seq<AdapterCall>)

  /** `build_and_send`'s loop from packet `k` on, with `sendResult(k)` the
      `BOOLEAN` the driver returns for packet `k`: fill slot `k` with the
      callback, then send the packet, whose `Length` is `size` and whose
      `Buffer` is the start of the write buffer, so the bytes sent are those
      of slot 0; a send that returns 0 stops the batch with its error. */
  function SendFrom(buf: seq<byte>, k: nat, count: nat, size: nat, f: Populate, sendResult: nat -> int): (o: SendOutcome)
    requires LengthPreserving(f) && k <= count && count * size <= |buf|
    ensures |o.buffer| == |buf|
    decreases count - k
  {
    if k == count then SendOutcome(Ok(()), buf, [])
    else
      SlotsOrdered(k, count, size);
      SlotsOrdered(0, count, size);
      var filled := FillSlot(buf, k, size, f);
      var send := SendPacket(filled[..size]);
      if sendResult(k) == 0 then SendOutcome(Err(ErrnoAfter(send)), filled, [send])
      else
        var rest := SendFrom(filled, k + 1, count, size, f, sendResult);
        SendOutcome(rest.result, rest.buffer, [send] + rest.calls)
  }

  /** The index of the first packet from `k` on whose send fails; `count`
      when none does. */
  function FirstFailedSend(sendResult: nat -> int, k: nat, count: nat): (n: nat)
    requires k <= count
    ensures k <= n <= count
    ensures forall j :: k <= j < n ==> sendResult(j) != 0
    ensures n < count ==> sendResult(n) == 0
    decreases count - k
  {
    if k == count || sendResult(k) == 0 then k
    else FirstFailedSend(sendResult, k + 1, count)
  }

  /** The result of sending a batch from packet `k` on: success exactly
      when no send fails; otherwise the error left by the last call made,
      the failing send. One send is made per packet up to and including the
      first failing one. */
  lemma {:induction false} SendFromResult(buf: seq<byte>, k: nat, count: nat, size: nat, f: Populate,
                                          sendResult: nat -> int)
    requires LengthPreserving(f) && k <= count && count * size <= |buf|
    ensures var o := SendFrom(buf, k, count, size, f, sendResult);
      var n := FirstFailedSend(sendResult, k, count);
      && (o.result.Ok? <==> n == count)
      && |o.calls| == (if n < count then n + 1 - k else count - k)
      && (n < count ==> o.result == Err(ErrnoAfter(o.calls[|o.calls| - 1])))
    decreases count - k
  {
    if k < count && sendResult(k) != 0 {
      SlotsOrdered(k, count, size);
      SendFromResult(FillSlot(buf, k, size, f), k + 1, count, size, f, sendResult);
    }
  }

  /** The write buffer after sending a batch from packet `k` on: the
      callback has run on the slots up to and including the first failing
      packet (all of them when none fails), and on no later slot. */
  lemma {:induction false} SendFromBuffer(buf: seq<byte>, k: nat, count: nat, size: nat, f: Populate,
                                          sendResult: nat -> int)
    requires LengthPreserving(f) && k <= count && count * size <= |buf|
    ensures var n := FirstFailedSend(sendResult, k, count);
      var filledUpTo := if n < count then n + 1 else count;
      (filledUpTo * size <= |buf|) &&
      SendFrom(buf, k, count, size, f, sendResult).buffer == FillRange(buf, k, filledUpTo, size, f)
    decreases count - k
  {
    if k < count {
      SlotsOrdered(k, count, size);
      var filled := FillSlot(buf, k, size, f);
      var n := FirstFailedSend(sendResult, k, count);
      var filledUpTo := if n < count then n + 1 else count;
      RangeWithin(filledUpTo, count, size);
      if sendResult(k) == 0 {
        FillRangeFirst(buf, k, k + 1, size, f);
      } else {
        SendFromBuffer(filled, k + 1, count, size, f, sendResult);
        assert n == FirstFailedSend(sendResult, k + 1, count);
        FillRangeFirst(buf, k, filledUpTo, size, f);
      }
    }
  }

  /** Once slot 0 holds `first` and the batch is past packet 0, every send
      that follows transmits `first` again: filling later slots never
      touches slot 0. */
  lemma {:induction false} LaterSendsRepeat(buf: seq<byte>, k: nat, count: nat, size: nat, f: Populate,
                                            sendResult: nat -> int, first: seq<byte>)
    requires LengthPreserving(f) && 0 < k <= count && count * size <= |buf|
    requires size <= |buf| && buf[..size] == first
    ensures forall c :: c in SendFrom(buf, k, count, size, f, sendResult).calls ==> c == SendPacket(first)
    decreases count - k
  {
    if k < count {
      SlotsOrdered(k, count, size);
      SlotsOrdered(0, k, size);
      var filled := FillSlot(buf, k, size, f);
      assert filled[..size] == first by {
        assert forall i :: 0 <= i < size ==> filled[i] == buf[i];
      }
      if sendResult(k) != 0 {
        LaterSendsRepeat(filled, k + 1, count, size, f, sendResult, first);
      }
    }
  }

  /** Every send of a batch transmits what the callback made of the FIRST
      slot: the `PACKET` always describes the start of the write buffer, so
      the later slots the callback fills are never sent. */
  lemma SendsFirstSlot(buf: seq<byte>, count: nat, size: nat, f: Populate, sendResult: nat -> int)
    requires LengthPreserving(f) && 0 < count && count * size <= |buf|
    ensures size <= |buf|
    ensures forall c :: c in SendFrom(buf, 0, count, size, f, sendResult).calls ==>
      c == SendPacket(f(0, Slot(buf, 0, size)))
  {
    SlotsOrdered(0, count, size);
    var filled := FillSlot(buf, 0, size, f);
    assert filled[..size] == Slot(filled, 0, size) == f(0, Slot(buf, 0, size));
    if sendResult(0) != 0 {
      LaterSendsRepeat(filled, 1, count, size, f, sendResult, f(0, Slot(buf, 0, size)));
    }
  }

  /** The result of `build_and_send` (nothing when the batch does not fit),
      the write buffer afterwards, and the calls made. */
  datatype BatchOutcome = BatchOutcome(result: Option<Result<(), OsError>>, buffer: seq<byte>, calls: seq<AdapterCall>)

  /** `build_and_send` against a write packet whose `Length` is `length`: a
      batch of `count` packets of `size` bytes that does not fit strictly
      inside `Length` is refused with nothing done; otherwise the packets are
      built in the slots of the buffer's first `count * size` bytes and sent
      in turn. */
  function Batch(length: nat, buf: seq<byte>, count: nat, size: nat, f: Populate, sendResult: nat -> int): (o: BatchOutcome)
    requires LengthPreserving(f) && length <= |buf|
    ensures o.result.None? <==> count * size >= length
    ensures o.result.None? ==> o.buffer == buf && o.calls == []
    ensures |o.buffer| == |buf|
  {
    if count * size >= length then BatchOutcome(None, buf, [])
    else
      var s := SendFrom(buf, 0, count, size, f, sendResult);
      BatchOutcome(Some(s.result), s.buffer, s.calls)
  }

  /** Part way through a batch that started on the buffer `start`: packets
      before `k` have been sent, making the calls `done` and leaving the
      buffer `buf`, so the batch's outcome is those calls followed by the
      outcome of sending the rest from `buf`. */
  ghost predicate Sending(start: seq<byte>, buf: seq<byte>, done: seq<AdapterCall>, k: nat, count: nat, size: nat,
                          f: Populate, sendResult: nat -> int)
  {
    && LengthPreserving(f) && k <= count && count * size <= |buf| && |start| == |buf|
    && var whole, rest := SendFrom(start, 0, count, size, f, sendResult), SendFrom(buf, k, count, size, f, sendResult);
       whole == SendOutcome(rest.result, rest.buffer, done + rest.calls)
  }

  /** Packet `k` of the batch sent, and sent successfully: the batch goes on
      from the filled buffer with its send among the calls made. */
  lemma SendContinued(start: seq<byte>, buf: seq<byte>, done: seq<AdapterCall>, k: nat, count: nat, size: nat,
                      f: Populate, sendResult: nat -> int)
    requires Sending(start, buf, done, k, count, size, f, sendResult) && k < count && sendResult(k) != 0
    ensures k * size + size <= |buf| && size <= |buf|
    ensures var filled := FillSlot(buf, k, size, f);
      Sending(start, filled, done + [SendPacket(filled[..size])], k + 1, count, size, f, sendResult)
  {
    SlotsOrdered(k, count, size);
    SlotsOrdered(0, count, size);
    var filled := FillSlot(buf, k, size, f);
    var rest := SendFrom(filled, k + 1, count, size, f, sendResult);
    assert done + ([SendPacket(filled[..size])] + rest.calls) == (done + [SendPacket(filled[..size])]) + rest.calls;
  }

  /** Packet `k` of the batch sent, and the send failed: the batch ends
      there, with that send's error and the slot filled. */
  lemma SendStopped(start: seq<byte>, buf: seq<byte>, done: seq<AdapterCall>, prior: seq<AdapterCall>, k: nat,
                    count: nat, size: nat, f: Populate, sendResult: nat -> int)
    requires Sending(start, buf, done, k, count, size, f, sendResult) && k < count && sendResult(k) == 0
    ensures k * size + size <= |buf| && size <= |buf|
    ensures var filled := FillSlot(buf, k, size, f);
      var send := SendPacket(filled[..size]);
      var o := SendFrom(start, 0, count, size, f, sendResult);
      o.result == Err(ErrnoAfter(send)) && o.buffer == filled && prior + o.calls == (prior + done) + [send]
  {
    SlotsOrdered(k, count, size);
    SlotsOrdered(0, count, size);
  }

  /** The write half of a channel (`DataLinkSenderImpl`). */
  class Sender {
    const adapter: Adapter
    const packet: Packet

    constructor (adapter: Adapter, packet: Packet)
      ensures this.adapter == adapter && this.packet == packet
    {
      this.adapter := adapter;
      this.packet := packet;
    }

    /** `build_and_send`. Around each send `Length` is set to the packet
        size and then put back, so it is unchanged afterwards, whatever the
        outcome. The source panics, rather than failing, when a batch that
        fits has a zero packet size, or has a packet too short for an
        Ethernet header, so those are excluded. */
    method BuildAndSend(count: nat, size: nat, f: Populate, sendResult: nat -> int)
      returns (r: Option<Result<(), OsError>>)
      requires LengthPreserving(f) && packet.Valid()
      requires count * size < packet.length ==> 0 < size && (count == 0 || EthernetHeaderLen <= size)
      modifies packet, packet.buffer, adapter
      ensures packet.length == old(packet.length) && packet.bytesReceived == old(packet.bytesReceived)
      ensures var o := Batch(old(packet.length), old(packet.buffer[..]), count, size, f, sendResult);
        r == o.result && packet.buffer[..] == o.buffer && adapter.log == old(adapter.log) + o.calls
    {
      var len := count * size;
      if len >= packet.length {
        return None;
      }
      var sent := SendBatch(count, size, f, sendResult);
      r := Some(sent);
    }

    /** The loop over the batch's chunks: each packet in turn, stopping at
        the first whose send fails. */
    method SendBatch(count: nat, size: nat, f: Populate, sendResult: nat -> int) returns (r: Result<(), OsError>)
      requires LengthPreserving(f) && packet.Valid() && count * size < packet.length
      modifies packet, packet.buffer, adapter
      ensures packet.length == old(packet.length) && packet.bytesReceived == old(packet.bytesReceived)
      ensures var o := SendFrom(old(packet.buffer[..]), 0, count, size, f, sendResult);
        r == o.result && packet.buffer[..] == o.buffer && adapter.log == old(adapter.log) + o.calls
    {
      ghost var start := packet.buffer[..];
      ghost var done: seq<AdapterCall> := [];
      var k := 0;
      while k < count
        invariant packet.length == old(packet.length) && packet.bytesReceived == old(packet.bytesReceived)
        invariant adapter.log == old(adapter.log) + done
        invariant Sending(start, packet.buffer[..], done, k, count, size, f, sendResult)
        decreases count - k
      {
        ghost var before := packet.buffer[..];
        SlotsOrdered(k, count, size);
        SlotsOrdered(0, count, size);
        var ok := SendChunk(k, size, f, sendResult);
        if !ok {
          SendStopped(start, before, done, old(adapter.log), k, count, size, f, sendResult);
          return Err(ErrnoAfter(adapter.log[|adapter.log| - 1]));
        }
        SendContinued(start, before, done, k, count, size, f, sendResult);
        done := done + [SendPacket(packet.buffer[..size])];
        k := k + 1;
      }
      r := Ok(());
    }

    /** One chunk of the batch: the callback run on slot `k`, then `Length`
        saved, set to the packet size for the send and restored. `ok` says
        whether the send got through. */
    method SendChunk(k: nat, size: nat, f: Populate, sendResult: nat -> int) returns (ok: bool)
      requires LengthPreserving(f) && packet.Valid() && k * size + size <= packet.buffer.Length
      requires size < packet.length
      modifies packet, packet.buffer, adapter
      ensures packet.length == old(packet.length) && packet.bytesReceived == old(packet.bytesReceived)
      ensures packet.buffer[..] == FillSlot(old(packet.buffer[..]), k, size, f)
      ensures ok == (sendResult(k) != 0)
      ensures adapter.log == old(adapter.log) + [SendPacket(packet.buffer[..size])]
    {
      ghost var before := packet.buffer[..];
      var at := k * size;
      var chunk := f(k, packet.buffer[at..at + size]);
      CopyInto(packet.buffer, at, chunk);
      assert packet.buffer[..] == FillSlot(before, k, size, f);
      var oldLen := packet.length;
      packet.length := AsU32(size);
      adapter.log := adapter.log + [SendPacket(packet.buffer[..packet.length])];
      ok := sendResult(k) != 0;
      packet.length := oldLen;
    }

    /** `send_to`: `build_and_send` of one packet of the packet's length,
        whose callback copies the packet into its slot. The packet is an
        Ethernet frame, so it is at least one header long. */
    method SendTo(frame: seq<byte>, sendResult: int) returns (r: Option<Result<(), OsError>>)
      requires EthernetHeaderLen <= |frame| && packet.Valid()
      modifies packet, packet.buffer, adapter
      ensures packet.length == old(packet.length)
      ensures var o := Batch(old(packet.length), old(packet.buffer[..]), 1, |frame|, CopyFrame(frame), _ => sendResult);
        r == o.result && packet.buffer[..] == o.buffer && adapter.log == old(adapter.log) + o.calls
    {
      CopyFrameKeepsLength(frame);
      r := BuildAndSend(1, |frame|, CopyFrame(frame), _ => sendResult);
    }
  }

  /** The `send_to` callback, `eh.clone_from(packet)`: the slot, which has
      the packet's length, receives the packet's bytes. */
  function CopyFrame(frame: seq<byte>): Populate
  {
    (_, s) => if |s| == |frame| then frame else s
  }

  lemma CopyFrameKeepsLength(frame: seq<byte>)
    ensures LengthPreserving(CopyFrame(frame))
  {
  }

  /** `send_to` as a one-packet batch: nothing is sent when the packet does
      not fit strictly inside `Length`; otherwise one send of exactly the
      packet, which then sits at the start of the write buffer, and the
      send's error when it fails. */
  lemma SendToOutcome(length: nat, buf: seq<byte>, frame: seq<byte>, sendResult: int)
    requires length <= |buf|
    ensures LengthPreserving(CopyFrame(frame))
    ensures var o := Batch(length, buf, 1, |frame|, CopyFrame(frame), _ => sendResult);
      && (|frame| >= length ==> o.result == None && o.buffer == buf && o.calls == [])
      && (|frame| < length ==>
            && o.calls == [SendPacket(frame)]
            && o.buffer == Place(buf, 0, frame)
            && o.result == Some(if sendResult == 0 then Err(ErrnoAfter(SendPacket(frame))) else Ok(())))
  {
    CopyFrameKeepsLength(frame);
    if |frame| < length {
      var f := CopyFrame(frame);
      var filled := FillSlot(buf, 0, |frame|, f);
      assert Slot(buf, 0, |frame|) == buf[..|frame|];
      assert filled[..|frame|] == Slot(filled, 0, |frame|) == frame;
      assert filled == Place(buf, 0, frame);
    }
  }

  // -------------------------------------------------------------- receiver

  /** The read half of a channel (`DataLinkReceiverImpl`). */
  class Receiver {
    const adapter: Adapter
    const packet: Packet

    constructor (adapter: Adapter, packet: Packet)
      ensures this.adapter == adapter && this.packet == packet
    {
      this.adapter := adapter;
      this.packet := packet;
    }

    /** `iter`: an iterator over this receiver with nothing queued. */
    method Iter() returns (it: FrameIterator)
      requires packet.Valid()
      ensures fresh(it) && it.pc == this && it.packets == [] && it.Valid()
    {
      it := new FrameIterator(this);
    }
  }

  /** `DataLinkChannelIteratorImpl`: the `(start, length)` pairs of the
      records still queued from the last receive, and (for the proofs) the
      captured payload each of them designates. */
  class FrameIterator {
    const pc: Receiver
    var packets: seq<(nat, nat)>
    ghost var pending: seq<seq<byte>>

    /** The queue is consistent with the read packet's buffer. */
    ghost predicate Valid()
      reads this, pc.packet, pc.packet.buffer
    {
      pc.packet.Valid() && QueueValid(pc.packet.buffer[..], 0, packets, pending)
    }

    constructor (pc: Receiver)
      requires pc.packet.Valid()
      ensures this.pc == pc && packets == [] && pending == [] && Valid()
    {
      this.pc := pc;
      this.packets := [];
      this.pending := [];
    }

    /** `next`. With records still queued, no call is made and the first is
        taken off the queue. Otherwise one `PacketReceivePacket`: a result
        of 0 is returned as the error it left; anything else has the driver
        put `bytes` at the start of the buffer and set `ulBytesReceived`,
        and those bytes are scanned into the queue and the first record
        taken. The frame is the record's captured payload, read in place;
        the buffer changes only by the receive. The driver is trusted to
        deliver at most `Length` bytes, as a well-formed record stream.
        `pop_front().unwrap()` panics on a receive with no record and
        `EthernetPacket::new(..).unwrap()` on a frame shorter than an
        Ethernet header, so both are excluded. */
    method Next(receiveResult: int, bytes: seq<byte>) returns (r: Result<seq<byte>, OsError>)
      requires Valid()
      requires packets != [] ==> EthernetHeaderLen <= packets[0].1
      requires packets == [] && receiveResult != 0 ==>
        0 < |bytes| <= pc.packet.length && WellFormed(bytes, 0, 0) && EthernetHeaderLen <= Scan(bytes, 0, 0)[0].1
      modifies this, pc.packet, pc.packet.buffer, pc.adapter
      ensures Valid() && pc.packet.length == old(pc.packet.length)
      ensures var receive := ReceivePacket(pc.packet.length);
        && (old(packets) != [] ==>
              pc.adapter.log == old(pc.adapter.log) &&
              r == Ok(old(pending)[0]) &&
              packets == old(packets)[1..] && pending == old(pending)[1..] &&
              pc.packet.buffer[..] == old(pc.packet.buffer[..]) &&
              pc.packet.bytesReceived == old(pc.packet.bytesReceived))
        && (old(packets) == [] ==> pc.adapter.log == old(pc.adapter.log) + [receive])
        && (old(packets) == [] && receiveResult == 0 ==>
              r == Err(ErrnoAfter(receive)) && packets == [] &&
              pc.packet.buffer[..] == old(pc.packet.buffer[..]) &&
              pc.packet.bytesReceived == old(pc.packet.bytesReceived))
        && (old(packets) == [] && receiveResult != 0 ==>
              var records, payloads := Scan(bytes, 0, 0), RecordPayloads(bytes, 0);
              r == Ok(payloads[0]) &&
              packets == records[1..] && pending == payloads[1..] &&
              pc.packet.buffer[..] == Place(old(pc.packet.buffer[..]), 0, bytes) &&
              pc.packet.bytesReceived == |bytes|)
    {
      if packets == [] {
        r := Fetch(receiveResult, bytes);
      } else {
        var frame := Pop();
        r := Ok(frame);
      }
    }

    /** `next` on an empty queue: one receive, then the first record of
        what it delivered. */
    method Fetch(receiveResult: int, bytes: seq<byte>) returns (r: Result<seq<byte>, OsError>)
      requires Valid() && packets == []
      requires receiveResult != 0 ==>
        0 < |bytes| <= pc.packet.length && WellFormed(bytes, 0, 0) && EthernetHeaderLen <= Scan(bytes, 0, 0)[0].1
      modifies this, pc.packet, pc.packet.buffer, pc.adapter
      ensures Valid() && pc.packet.length == old(pc.packet.length)
      ensures var receive := ReceivePacket(pc.packet.length);
        && pc.adapter.log == old(pc.adapter.log) + [receive]
        && (receiveResult == 0 ==>
              r == Err(ErrnoAfter(receive)) && packets == [] && pc.packet.buffer[..] == old(pc.packet.buffer[..]) &&
              pc.packet.bytesReceived == old(pc.packet.bytesReceived))
        && (receiveResult != 0 ==>
              var records, payloads := Scan(bytes, 0, 0), RecordPayloads(bytes, 0);
              r == Ok(payloads[0]) &&
              packets == records[1..] && pending == payloads[1..] &&
              pc.packet.buffer[..] == Place(old(pc.packet.buffer[..]), 0, bytes) &&
              pc.packet.bytesReceived == |bytes|)
    {
      var receive := ReceivePacket(pc.packet.length);
      pc.adapter.log := pc.adapter.log + [receive];
      if receiveResult == 0 {
        return Err(ErrnoAfter(receive));
      }
      ghost var log := pc.adapter.log;
      Refill(bytes);
      var frame := Pop();
      assert pc.adapter.log == log;
      return Ok(frame);
    }

    /** The driver's copy of the bytes received into the buffer, and the
        scan of the first `ulBytesReceived` bytes into the queue. */
    method Refill(bytes: seq<byte>)
      requires Valid() && 0 < |bytes| <= pc.packet.length
      requires WellFormed(bytes, 0, 0)
      modifies this, pc.packet, pc.packet.buffer
      ensures Valid() && pc.packet.length == old(pc.packet.length)
      ensures packets == Scan(bytes, 0, 0) && pending == RecordPayloads(bytes, 0) && packets != []
      ensures pc.packet.buffer[..] == Place(old(pc.packet.buffer[..]), 0, bytes)
      ensures pc.packet.bytesReceived == |bytes|
    {
      ghost var empty := pc.packet.buffer[..];
      CopyInto(pc.packet.buffer, 0, bytes);
      pc.packet.bytesReceived := |bytes|;
      var got := pc.packet.buffer[..pc.packet.bytesReceived];
      packets := ScanRecords(got, 0);
      pending := RecordPayloads(bytes, 0);
      ScannedQueueValid(empty, 0, bytes, 0);
    }

    /** The first queued record taken off the queue; the frame is the
        buffer's bytes from its start for its length. */
    method Pop() returns (frame: seq<byte>)
      requires Valid() && packets != []
      requires EthernetHeaderLen <= packets[0].1
      modifies this
      ensures Valid()
      ensures frame == old(pending)[0] && packets == old(packets)[1..] && pending == old(pending)[1..]
    {
      ghost var buf := pc.packet.buffer[..];
      PoppedQueueValid(buf, 0, packets, pending);
      assert Place(buf, packets[0].0, Zeros(0)) == buf;
      var entry := packets[0];
      var start, len := entry.0, entry.1;
      packets := packets[1..];
      pending := pending[1..];
      frame := pc.packet.buffer[start..start + len];
    }
  }
}
