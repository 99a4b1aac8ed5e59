/** The `/dev/bpf` backend (macOS and FreeBSD): channel set-up, the batch
    sender and the capture-record iterator. Every OS call is an abstract
    outcome supplied by the caller of the model, and every call the backend
    makes is recorded, in order, in a trace. */
module Bpf {
  import opened Common
  import opened BpfRecords
  import opened Slots

  // ---------------------------------------------------------------- Config

  /** `bpf::Config`. */
  datatype Config = Config(
    writeBufferSize: nat,
    readBufferSize: nat,
    readTimeout: Option<Duration>,
    writeTimeout: Option<Duration>,
    bpfFdAttempts: nat)

  /** `Config::default()`. */
  function DefaultConfig(): (c: Config)
    ensures c.writeBufferSize == 4096 && c.readBufferSize == 4096
    ensures c.bpfFdAttempts == 1000
    ensures c.readTimeout == None && c.writeTimeout == None
  {
    Config(4096, 4096, None, None, 1000)
  }

  /** `impl From<&datalink::Config> for Config`: every setting carried over unchanged. */
  function FromDatalink(d: DatalinkConfig): (c: Config)
    ensures c.writeBufferSize == d.writeBufferSize && c.readBufferSize == d.readBufferSize
    ensures c.readTimeout == d.readTimeout && c.writeTimeout == d.writeTimeout
    ensures c.bpfFdAttempts == d.bpfFdAttempts
  {
    Config(d.writeBufferSize, d.readBufferSize, d.readTimeout, d.writeTimeout, d.bpfFdAttempts)
  }

  // ------------------------------------------------------------- OS calls

  /** The target the backend is compiled for (`#[cfg(target_os = ...)]`). */
  datatype Platform = MacOS | FreeBSD

  /** `/dev/bpf` (FreeBSD's cloning device) or `/dev/bpf{unit}` (macOS). */
  datatype DevicePath = CloneDevice | NumberedDevice(unit: nat)

  /** The `ioctl` requests the backend issues, with their arguments. */
  datatype Request =
    | SetBufferLength(len: nat)          // BIOCSBLEN
    | SetInterface(ifrName: seq<byte>)   // BIOCSETIF, the ifreq's name field
    | SetImmediate(flag: nat)            // BIOCIMMEDIATE
    | GetLinkType                        // BIOCGDLT
    | SetFeedback(flag: nat)             // BIOCFEEDBACK (FreeBSD only)
    | SetHeaderComplete(flag: nat)       // BIOCSHDRCMPLT
    | SetReadTimeout(timeout: Duration)  // BIOCSRTIMEOUT

  /** One call into the OS on the BPF descriptor. */
  datatype Syscall =
    | Open(path: DevicePath)
    | Ioctl(fd: int, request: Request)
    | Close(fd: int)
    | Select(fd: int, timeout: Option<Duration>)
    | Write(fd: int, bytes: seq<byte>)
    | Read(fd: int, capacity: nat)

  /** `io::Error::last_os_error()`: the error code that a call left behind,
      or, when no call has been made yet, whatever code was there before. */
  datatype OsError = ErrnoAfter(call: Syscall) | PriorErrno

  /** `last_os_error()` read after the calls `calls`. */
  function LastOsError(calls: seq<Syscall>): (e: OsError)
  {
    if calls == [] then PriorErrno else ErrnoAfter(calls[|calls| - 1])
  }

  /** `DLT_NULL`, the link type of the loopback pseudo-device (`net/dlt.h`). */
  const DltNull: nat := 0

  /** `IFNAMSIZ`, the size of `ifreq.ifr_name` (`net/if.h`). */
  const IfNameSize: nat := 16

  /** What the OS answers during set-up: the descriptor each `open` returns
      (-1 for failure), the value each `ioctl` returns, and the link type
      that `BIOCGDLT` reports. */
  datatype SetupEnv = SetupEnv(
    openResult: DevicePath -> int,
    ioctlResult: Request -> int,
    linkType: nat)

  // ---------------------------------------------------------------- get_fd

  /** The first numbered node from `from` on, below `attempts`, whose open
      does not return -1; `attempts` if there is none. */
  function FirstOpenable(openResult: DevicePath -> int, from: nat, attempts: nat): (k: nat)
    requires from <= attempts
    ensures from <= k <= attempts
    ensures forall j :: from <= j < k ==> openResult(NumberedDevice(j)) == -1
    ensures k < attempts ==> openResult(NumberedDevice(k)) != -1
    decreases attempts - from
  {
    if from == attempts || openResult(NumberedDevice(from)) != -1 then from
    else FirstOpenable(openResult, from + 1, attempts)
  }

  /** Opens of `/dev/bpf0` .. `/dev/bpf{n-1}`, in that order. */
  function Probes(n: nat): (calls: seq<Syscall>)
    ensures |calls| == n
    ensures forall j :: 0 <= j < n ==> calls[j] == Open(NumberedDevice(j))
  {
    seq(n, j requires 0 <= j < n => Open(NumberedDevice(j)))
  }

  /** What `get_fd` does: the opens it issues and the descriptor it returns.
      On macOS it probes the numbered nodes in increasing order and stops at
      the first that opens; on FreeBSD it opens the cloning device once. */
  function GetFdSpec(platform: Platform, attempts: nat, openResult: DevicePath -> int): (r: (int, seq<Syscall>))
  {
    match platform
    case FreeBSD => (openResult(CloneDevice), [Open(CloneDevice)])
    case MacOS =>
      var k := FirstOpenable(openResult, 0, attempts);
      if k < attempts then (openResult(NumberedDevice(k)), Probes(k + 1)) else (-1, Probes(attempts))
  }

  /** `get_fd`. On macOS: at most `attempts` opens, of `/dev/bpf0`,
      `/dev/bpf1`, ... in order; the first descriptor other than -1 is
      returned, every node tried before it failed, and -1 means all
      `attempts` tries failed (none is made when `attempts` is 0). */
  method GetFd(platform: Platform, attempts: nat, openResult: DevicePath -> int) returns (fd: int, calls: seq<Syscall>)
    ensures (fd, calls) == GetFdSpec(platform, attempts, openResult)
    ensures platform.MacOS? ==> |calls| <= attempts && (attempts == 0 ==> calls == [] && fd == -1)
    ensures platform.MacOS? && fd != -1 ==>
      calls != [] && fd == openResult(calls[|calls| - 1].path) &&
      forall j :: 0 <= j < |calls| - 1 ==> openResult(calls[j].path) == -1
    ensures platform.MacOS? && fd == -1 ==>
      |calls| == attempts && forall j :: 0 <= j < attempts ==> openResult(NumberedDevice(j)) == -1
  {
    if platform.FreeBSD? {
      fd := openResult(CloneDevice);
      calls := [Open(CloneDevice)];
      return;
    }
    calls := [];
    var i := 0;
    while i < attempts
      invariant i <= attempts && calls == Probes(i)
      invariant forall j :: 0 <= j < i ==> openResult(NumberedDevice(j)) == -1
    {
      calls := calls + [Open(NumberedDevice(i))];
      assert calls == Probes(i + 1);
      var got := openResult(NumberedDevice(i));
      if got != -1 {
        assert FirstOpenable(openResult, 0, attempts) == i;
        return got, calls;
      }
      i := i + 1;
    }
    assert FirstOpenable(openResult, 0, attempts) == attempts;
    fd := -1;
  }

  // --------------------------------------------------------- ifreq & plan

  /** The `ifr_name` field of a zeroed `ifreq` after the interface name has
      been copied into it byte by byte. */
  function IfreqName(name: seq<byte>): (r: seq<byte>)
    requires |name| <= IfNameSize
    ensures |r| == IfNameSize && r[..|name|] == name
    ensures forall i :: |name| <= i < IfNameSize ==> r[i] == 0
  {
    name + Zeros(IfNameSize - |name|)
  }

  /** The copying loop `for (i, c) in name.bytes().enumerate()` over a
      `mem::zeroed()` `ifreq`. */
  method FillIfreqName(name: seq<byte>) returns (ifrName: seq<byte>)
    requires |name| <= IfNameSize
    ensures ifrName == IfreqName(name)
  {
    var field := new byte[IfNameSize](_ => 0);
    for i := 0 to |name|
      invariant forall j :: 0 <= j < i ==> field[j] == name[j]
      invariant forall j :: i <= j < IfNameSize ==> field[j] == 0
    {
      field[i] := name[i];
    }
    ifrName := field[..];
    assert forall j :: 0 <= j < IfNameSize ==> ifrName[j] == IfreqName(name)[j];
  }

  /** The requests issued on a freshly opened descriptor before the link
      type is known: the buffer length first (the OS refuses it once the
      descriptor is bound), then the bind, immediate mode and the link-type
      query. */
  function AttachPlan(buflen: nat, ifrName: seq<byte>): (p: seq<Request>)
    ensures |p| == 4 && p[0].SetBufferLength? && p[1].SetInterface?
  {
    [SetBufferLength(buflen), SetInterface(ifrName), SetImmediate(1), GetLinkType]
  }

  /** The requests that depend on the link type and the configuration:
      feedback mode for the loopback device on FreeBSD (nothing on macOS),
      header-complete mode for every other device, then the read timeout when
      one is configured. */
  function ModePlan(platform: Platform, linkType: nat, readTimeout: Option<Duration>): seq<Request>
  {
    (if linkType == DltNull then (if platform.FreeBSD? then [SetFeedback(1)] else [])
     else [SetHeaderComplete(1)])
    + (if readTimeout.Some? then [SetReadTimeout(readTimeout.value)] else [])
  }

  /** Every request a set-up that never fails issues on the opened
      descriptor, in order. */
  function SetupPlan(platform: Platform, cfg: Config, ifrName: seq<byte>, linkType: nat): seq<Request>
  {
    AttachPlan(AsU32(cfg.readBufferSize), ifrName) + ModePlan(platform, linkType, cfg.readTimeout)
  }

  /** What the plan does and does not contain: the buffer length is set
      before the bind; header-complete mode is requested exactly for a
      non-loopback device and feedback mode exactly for loopback on FreeBSD;
      a read timeout is sent exactly when one is configured, with that value;
      and no request carries the write timeout (there is none for it). */
  lemma SetupPlanContents(platform: Platform, cfg: Config, ifrName: seq<byte>, linkType: nat)
    ensures var p := SetupPlan(platform, cfg, ifrName, linkType);
      && p[0] == SetBufferLength(AsU32(cfg.readBufferSize)) && p[1] == SetInterface(ifrName)
      && (SetHeaderComplete(1) in p <==> linkType != DltNull)
      && (SetFeedback(1) in p <==> linkType == DltNull && platform.FreeBSD?)
      && (forall t :: SetReadTimeout(t) in p <==> cfg.readTimeout == Some(t))
      && 4 <= |p| <= 6
  {
    var p := SetupPlan(platform, cfg, ifrName, linkType);
    var m := ModePlan(platform, linkType, cfg.readTimeout);
    assert p == AttachPlan(AsU32(cfg.readBufferSize), ifrName) + m;
    assert forall q :: q in p <==> q in AttachPlan(AsU32(cfg.readBufferSize), ifrName) || q in m;
  }

  /** How the source tests an `ioctl`'s result: `< 0` in `set_timeout`,
      `== -1` everywhere else. */
  predicate IoctlFails(request: Request, ret: int)
  {
    if request.SetReadTimeout? then ret < 0 else ret == -1
  }

  /** The position of the first request of `plan` from `from` on that fails;
      `|plan|` when none does. */
  function FirstFailing(plan: seq<Request>, ioctlResult: Request -> int, from: nat): (k: nat)
    requires from <= |plan|
    ensures from <= k <= |plan|
    ensures forall j :: from <= j < k ==> !IoctlFails(plan[j], ioctlResult(plan[j]))
    ensures k < |plan| ==> IoctlFails(plan[k], ioctlResult(plan[k]))
    decreases |plan| - from
  {
    if from == |plan| || IoctlFails(plan[from], ioctlResult(plan[from])) then from
    else FirstFailing(plan, ioctlResult, from + 1)
  }

  /** The first failing request is determined by which requests fail. */
  lemma FirstFailingIs(plan: seq<Request>, io: Request -> int, k: nat)
    requires k <= |plan|
    requires forall j :: 0 <= j < k ==> !IoctlFails(plan[j], io(plan[j]))
    requires k < |plan| ==> IoctlFails(plan[k], io(plan[k]))
    ensures FirstFailing(plan, io, 0) == k
  {
    assert !(FirstFailing(plan, io, 0) > k);
  }

  /** The ioctl calls that issuing `requests` on `fd` makes, in order. */
  function IoctlCalls(fd: int, requests: seq<Request>): (calls: seq<Syscall>)
    ensures |calls| == |requests|
    ensures forall i :: 0 <= i < |requests| ==> calls[i] == Ioctl(fd, requests[i])
  {
    seq(|requests|, i requires 0 <= i < |requests| => Ioctl(fd, requests[i]))
  }

  lemma IoctlCallsConcat(fd: int, p: seq<Request>, q: seq<Request>)
    ensures IoctlCalls(fd, p + q) == IoctlCalls(fd, p) + IoctlCalls(fd, q)
  {
    assert forall i :: 0 <= i < |p| + |q| ==> IoctlCalls(fd, p + q)[i] == (IoctlCalls(fd, p) + IoctlCalls(fd, q))[i];
  }

  /** The result and the trace of issuing `plan` on `fd` the way `channel`
      does: every request up to the first that fails, then a close and that
      request's error; every request and no close when none fails. */
  function Outcome(fd: int, plan: seq<Request>, io: Request -> int): (o: (Result<(), OsError>, seq<Syscall>))
  {
    var k := FirstFailing(plan, io, 0);
    if k < |plan| then (Err(ErrnoAfter(Ioctl(fd, plan[k]))), IoctlCalls(fd, plan[..k + 1]) + [Close(fd)])
    else (Ok(()), IoctlCalls(fd, plan))
  }

  /** A failed set-up closes the descriptor exactly once, as its last call,
      and reports the error left by the call just before the close, which is
      a request that failed, every earlier request having succeeded. A
      successful one makes no close at all. */
  lemma OutcomeCloses(fd: int, plan: seq<Request>, io: Request -> int)
    ensures var (r, calls) := Outcome(fd, plan, io);
      && (r.Err? <==> Close(fd) in calls)
      && (r.Ok? ==> calls == IoctlCalls(fd, plan) && forall c :: c in calls ==> !c.Close?)
      && (r.Err? ==>
            2 <= |calls| && calls[|calls| - 1] == Close(fd) && multiset(calls)[Close(fd)] == 1 &&
            r.error == LastOsError(calls[..|calls| - 1]) &&
            var n := |calls| - 2;
            n < |plan| && calls[n] == Ioctl(fd, plan[n]) && IoctlFails(plan[n], io(plan[n])) &&
            forall j :: 0 <= j < n ==> calls[j] == Ioctl(fd, plan[j]) && !IoctlFails(plan[j], io(plan[j])))
  {
    var (r, calls) := Outcome(fd, plan, io);
    var k := FirstFailing(plan, io, 0);
    if k < |plan| {
      var before := IoctlCalls(fd, plan[..k + 1]);
      assert Close(fd) !in before;
      assert calls == before + [Close(fd)];
      assert calls[..|calls| - 1] == before;
      assert multiset(before + [Close(fd)]) == multiset(before) + multiset{Close(fd)};
    }
  }

  /** One request alone: its ioctl, then a close if it fails. */
  lemma OutcomeOfOne(fd: int, request: Request, io: Request -> int)
    ensures Outcome(fd, [request], io) ==
      if IoctlFails(request, io(request))
      then (Err(ErrnoAfter(Ioctl(fd, request))), [Ioctl(fd, request), Close(fd)])
      else (Ok(()), [Ioctl(fd, request)])
  {
    if IoctlFails(request, io(request)) {
      FirstFailingIs([request], io, 0);
      assert [request][..1] == [request];
      assert IoctlCalls(fd, [request][..1]) + [Close(fd)] == [Ioctl(fd, request), Close(fd)];
    } else {
      FirstFailingIs([request], io, 1);
      assert IoctlCalls(fd, [request]) == [Ioctl(fd, request)];
    }
  }

  /** Nothing to issue: no call, no error. */
  lemma OutcomeOfNone(fd: int, io: Request -> int)
    ensures Outcome(fd, [], io) == (Ok(()), [])
  {
  }

  /** Issuing `p + q` is issuing `p` and, when that succeeds, `q` after it. */
  lemma OutcomeConcat(fd: int, p: seq<Request>, q: seq<Request>, io: Request -> int)
    ensures Outcome(fd, p + q, io) ==
      if Outcome(fd, p, io).0.Err? then Outcome(fd, p, io)
      else (Outcome(fd, q, io).0, Outcome(fd, p, io).1 + Outcome(fd, q, io).1)
  {
    var pq := p + q;
    var kp := FirstFailing(p, io, 0);
    if kp < |p| {
      assert forall j :: 0 <= j <= kp ==> pq[j] == p[j];
      FirstFailingIs(pq, io, kp);
      assert pq[..kp + 1] == p[..kp + 1];
    } else {
      var kq := FirstFailing(q, io, 0);
      assert forall j :: |p| <= j < |pq| ==> pq[j] == q[j - |p|];
      FirstFailingIs(pq, io, |p| + kq);
      if kq < |q| {
        assert pq[..|p| + kq + 1] == p + q[..kq + 1];
        assert pq[|p| + kq] == q[kq];
        IoctlCallsConcat(fd, p, q[..kq + 1]);
        assert IoctlCalls(fd, p) + (IoctlCalls(fd, q[..kq + 1]) + [Close(fd)])
            == IoctlCalls(fd, p + q[..kq + 1]) + [Close(fd)];
      } else {
        IoctlCallsConcat(fd, p, q);
      }
    }
  }

  /** What a successful `channel` hands to the sender and the receiver. */
  datatype ChannelInfo = ChannelInfo(
    fd: int,
    loopback: bool,
    writeBufferSize: nat,
    readBufferSize: nat,
    writeTimeout: Option<Duration>)

  // ---------------------------------------------------------------- set-up

  /** `set_timeout`: one ioctl; on failure the descriptor is closed and the
      ioctl's error returned. */
  method SetTimeout(fd: int, timeout: Duration, ioctlResult: Request -> int) returns (r: Result<(), OsError>, calls: seq<Syscall>)
    ensures var call := Ioctl(fd, SetReadTimeout(timeout));
      if ioctlResult(SetReadTimeout(timeout)) < 0
      then r == Err(ErrnoAfter(call)) && calls == [call, Close(fd)]
      else r == Ok(()) && calls == [call]
  {
    calls := [Ioctl(fd, SetReadTimeout(timeout))];
    if ioctlResult(SetReadTimeout(timeout)) < 0 {
      var err := LastOsError(calls);
      calls := calls + [Close(fd)];
      return Err(err), calls;
    }
    r := Ok(());
  }

  /** `set_feedback`: on FreeBSD one ioctl, closing the descriptor itself when
      it fails; on macOS nothing happens (the OS already loops writes back). */
  method SetFeedbackMode(platform: Platform, fd: int, ioctlResult: Request -> int) returns (r: Result<(), OsError>, calls: seq<Syscall>)
    ensures platform.MacOS? ==> r == Ok(()) && calls == []
    ensures platform.FreeBSD? ==> var call := Ioctl(fd, SetFeedback(1));
      if ioctlResult(SetFeedback(1)) == -1
      then r == Err(ErrnoAfter(call)) && calls == [call, Close(fd)]
      else r == Ok(()) && calls == [call]
  {
    calls := [];
    if platform.FreeBSD? {
      calls := [Ioctl(fd, SetFeedback(1))];
      if ioctlResult(SetFeedback(1)) == -1 {
        var err := LastOsError(calls);
        calls := calls + [Close(fd)];
        return Err(err), calls;
      }
    }
    r := Ok(());
  }

  /** One `ioctl` checked the way `channel` checks it inline: on `-1` the
      error is taken, then the descriptor is closed. */
  method CheckedIoctl(fd: int, request: Request, ioctlResult: Request -> int)
    returns (r: Result<(), OsError>, calls: seq<Syscall>)
    requires !request.SetReadTimeout?
    ensures !IoctlFails(request, ioctlResult(request)) ==> r == Ok(()) && calls == [Ioctl(fd, request)]
    ensures IoctlFails(request, ioctlResult(request)) ==>
      r == Err(ErrnoAfter(Ioctl(fd, request))) && calls == [Ioctl(fd, request), Close(fd)]
  {
    calls := [Ioctl(fd, request)];
    if ioctlResult(request) == -1 {
      var err := LastOsError(calls);
      calls := calls + [Close(fd)];
      return Err(err), calls;
    }
    r := Ok(());
  }

  /** The four requests before the link type is known, each checked and
      a failure closing the descriptor (`channel`'s first four `ioctl`s). */
  method Attach(fd: int, buflen: nat, ifrName: seq<byte>, io: Request -> int)
    returns (r: Result<(), OsError>, calls: seq<Syscall>)
    ensures (r, calls) == Outcome(fd, AttachPlan(buflen, ifrName), io)
  {
    var a, b, c, d := SetBufferLength(buflen), SetInterface(ifrName), SetImmediate(1), GetLinkType;
    assert AttachPlan(buflen, ifrName) == [a] + [b] + [c] + [d];
    OutcomeConcat(fd, [a], [b], io);
    OutcomeConcat(fd, [a] + [b], [c], io);
    OutcomeConcat(fd, [a] + [b] + [c], [d], io);

    r, calls := CheckedIoctl(fd, a, io);
    OutcomeOfOne(fd, a, io);
    if r.Err? { return; }

    var more;
    r, more := CheckedIoctl(fd, b, io);
    OutcomeOfOne(fd, b, io);
    calls := calls + more;
    if r.Err? { return; }

    r, more := CheckedIoctl(fd, c, io);
    OutcomeOfOne(fd, c, io);
    calls := calls + more;
    if r.Err? { return; }

    r, more := CheckedIoctl(fd, d, io);
    OutcomeOfOne(fd, d, io);
    calls := calls + more;
  }

  /** The requests after the link-type query: `set_feedback` on the
      loopback device and header-complete mode on any other, then
      `set_timeout` when a read timeout is configured. */
  method SetModes(platform: Platform, fd: int, linkType: nat, readTimeout: Option<Duration>, io: Request -> int)
    returns (r: Result<(), OsError>, calls: seq<Syscall>)
    ensures (r, calls) == Outcome(fd, ModePlan(platform, linkType, readTimeout), io)
  {
    ghost var first: seq<Request>;
    if linkType == DltNull {
      r, calls := SetFeedbackMode(platform, fd, io);
      first := if platform.FreeBSD? then [SetFeedback(1)] else [];
      if platform.FreeBSD? { OutcomeOfOne(fd, SetFeedback(1), io); } else { OutcomeOfNone(fd, io); }
    } else {
      r, calls := CheckedIoctl(fd, SetHeaderComplete(1), io);
      first := [SetHeaderComplete(1)];
      OutcomeOfOne(fd, SetHeaderComplete(1), io);
    }
    ghost var last := if readTimeout.Some? then [SetReadTimeout(readTimeout.value)] else [];
    assert ModePlan(platform, linkType, readTimeout) == first + last;
    OutcomeConcat(fd, first, last, io);
    if r.Err? { return; }

    if readTimeout.Some? {
      var more;
      r, more := SetTimeout(fd, readTimeout.value, io);
      OutcomeOfOne(fd, SetReadTimeout(readTimeout.value), io);
      calls := calls + more;
    } else {
      OutcomeOfNone(fd, io);
      assert calls + [] == calls;
    }
  }

  /** The set-up steps of `channel` once the device is open, up to the
      point where the sender and the receiver are built: the whole plan is
      issued as `Outcome` says. When it succeeds the device is in loopback
      mode exactly when the reported link type is `DLT_NULL`, the read
      buffer is the configured size plus one Ethernet header on loopback, the
      write buffer has the configured size, and the write timeout is kept
      for the sender. */
  method Configure(platform: Platform, fd: int, name: seq<byte>, cfg: Config, env: SetupEnv)
    returns (r: Result<ChannelInfo, OsError>, calls: seq<Syscall>)
    requires |name| <= IfNameSize
    ensures var (res, trace) := Outcome(fd, SetupPlan(platform, cfg, IfreqName(name), env.linkType), env.ioctlResult);
      && calls == trace
      && (res.Err? ==> r == Err(res.error))
      && (res.Ok? ==> r == Ok(ChannelInfo(fd, env.linkType == DltNull, cfg.writeBufferSize,
                                          cfg.readBufferSize + (if env.linkType == DltNull then EthernetHeaderLen else 0),
                                          cfg.writeTimeout)))
  {
    var ifrName := FillIfreqName(name);
    var buflen := AsU32(cfg.readBufferSize);
    OutcomeConcat(fd, AttachPlan(buflen, ifrName), ModePlan(platform, env.linkType, cfg.readTimeout), env.ioctlResult);

    var attached;
    attached, calls := Attach(fd, buflen, ifrName, env.ioctlResult);
    if attached.Err? {
      return Err(attached.error), calls;
    }
    var dlt := env.linkType;

    var loopback := false;
    var allocatedReadBufferSize := cfg.readBufferSize;
    if dlt == DltNull {
      loopback := true;
      allocatedReadBufferSize := allocatedReadBufferSize + EthernetHeaderLen;
    }
    var moded, more := SetModes(platform, fd, dlt, cfg.readTimeout, env.ioctlResult);
    calls := calls + more;
    if moded.Err? {
      return Err(moded.error), calls;
    }
    r := Ok(ChannelInfo(fd, loopback, cfg.writeBufferSize, allocatedReadBufferSize, cfg.writeTimeout));
  }

  /** `channel` up to building the sender and the receiver. The device is
      acquired by `get_fd`; a failed open returns its error and closes
      nothing. After a successful open, `Configure`'s trace follows the
      opens; a failed set-up closes the descriptor exactly once, as the last
      call, and a successful one closes nothing. An interface name longer
      than `IFNAMSIZ` makes the source index out of bounds, so it is
      excluded. */
  method Setup(platform: Platform, name: seq<byte>, cfg: Config, env: SetupEnv)
    returns (r: Result<ChannelInfo, OsError>, calls: seq<Syscall>)
    requires |name| <= IfNameSize
    ensures (r, calls) == SetupResult(platform, name, cfg, env)
  {
    var fd, opens := GetFd(platform, cfg.bpfFdAttempts, env.openResult);
    if fd == -1 {
      return Err(LastOsError(opens)), opens;
    }
    var trace;
    r, trace := Configure(platform, fd, name, cfg, env);
    calls := opens + trace;
  }

  /** What `channel` does up to building the sender and the receiver: the
      opens of `get_fd`, then, once a descriptor is open, the set-up plan
      issued on it up to its first failure. */
  function SetupResult(platform: Platform, name: seq<byte>, cfg: Config, env: SetupEnv):
    (Result<ChannelInfo, OsError>, seq<Syscall>)
    requires |name| <= IfNameSize
  {
    var (fd, opens) := GetFdSpec(platform, cfg.bpfFdAttempts, env.openResult);
    if fd == -1 then (Err(LastOsError(opens)), opens)
    else
      var (res, trace) := Outcome(fd, SetupPlan(platform, cfg, IfreqName(name), env.linkType), env.ioctlResult);
      var loopback := env.linkType == DltNull;
      var readBufferSize := cfg.readBufferSize + (if loopback then EthernetHeaderLen else 0);
      (if res.Err? then Err(res.error)
       else Ok(ChannelInfo(fd, loopback, cfg.writeBufferSize, readBufferSize, cfg.writeTimeout)),
       opens + trace)
  }

  /** How `channel` ends. A failed open returns the error the last open
      left and closes nothing. After a successful open, a failure closes the
      descriptor exactly once, as the very last call, and returns the error
      left by the call before the close; success closes nothing. A channel
      that is built is on loopback exactly when the link type is `DLT_NULL`,
      has a write buffer of the configured size and a read buffer of the
      configured size plus, on loopback, room for an Ethernet header. */
  lemma SetupResultCases(platform: Platform, name: seq<byte>, cfg: Config, env: SetupEnv)
    requires |name| <= IfNameSize
    ensures var (r, calls) := SetupResult(platform, name, cfg, env);
      var (fd, opens) := GetFdSpec(platform, cfg.bpfFdAttempts, env.openResult);
      && (fd == -1 ==> r == Err(LastOsError(opens)) && calls == opens)
      && (fd == -1 || r.Ok? ==> forall c :: c in calls ==> !c.Close?)
      && (fd != -1 && r.Err? ==>
            2 <= |calls| && calls[|calls| - 1] == Close(fd) && multiset(calls)[Close(fd)] == 1 &&
            r.error == LastOsError(calls[..|calls| - 1]) && calls[|calls| - 2].Ioctl?)
      && (r.Ok? ==>
            && r.value.fd == fd && fd != -1
            && r.value.loopback == (env.linkType == DltNull)
            && r.value.writeBufferSize == cfg.writeBufferSize
            && r.value.readBufferSize == cfg.readBufferSize + (if r.value.loopback then EthernetHeaderLen else 0)
            && r.value.writeTimeout == cfg.writeTimeout)
  {
    var (fd, opens) := GetFdSpec(platform, cfg.bpfFdAttempts, env.openResult);
    GetFdOpensOnly(platform, cfg.bpfFdAttempts, env.openResult);
    if fd != -1 {
      var plan := SetupPlan(platform, cfg, IfreqName(name), env.linkType);
      OutcomeCloses(fd, plan, env.ioctlResult);
      OpensThenOutcome(fd, opens, plan, env.ioctlResult);
      var (res, trace) := Outcome(fd, plan, env.ioctlResult);
      if res.Err? {
        var calls := opens + trace;
        assert calls[..|calls| - 1] == opens + trace[..|trace| - 1];
        assert calls[|calls| - 2] == trace[|trace| - 2];
      }
    }
  }

  /** The opens that acquired the descriptor, followed by the set-up's
      ioctls: a close appears only after a failure, as the last call, once. */
  lemma OpensThenOutcome(fd: int, opens: seq<Syscall>, plan: seq<Request>, io: Request -> int)
    requires forall c :: c in opens ==> c.Open?
    ensures var (r, trace) := Outcome(fd, plan, io);
      var calls := opens + trace;
      && (r.Ok? ==> forall c :: c in calls ==> !c.Close?)
      && (r.Err? ==> calls[|calls| - 1] == Close(fd) && multiset(calls)[Close(fd)] == 1)
  {
    OutcomeCloses(fd, plan, io);
    var (r, trace) := Outcome(fd, plan, io);
    assert multiset(opens + trace) == multiset(opens) + multiset(trace);
    assert Close(fd) !in opens;
  }

  /** Every call `get_fd` makes is an open. */
  lemma GetFdOpensOnly(platform: Platform, attempts: nat, openResult: DevicePath -> int)
    ensures forall c :: c in GetFdSpec(platform, attempts, openResult).1 ==> c.Open?
  {
  }

  // ------------------------------------------------------ channel objects

  /** The descriptor shared by the sender and the receiver (the
      `Arc<FileDesc>`), with the trace of every call made on it so far. */
  class Device {
    const fd: int
    var log: seq<Syscall>

    constructor (fd: int, log: seq<Syscall>)
      ensures this.fd == fd && this.log == log
    {
      this.fd := fd;
      this.log := log;
    }
  }

  /** How many bytes of Ethernet header the loopback device lacks: a
      loopback frame is sent without its header and received with a zeroed
      one in front; other devices send and receive whole frames. */
  function EthernetOffset(loopback: bool): (off: nat)
  {
    if loopback then EthernetHeaderLen else 0
  }

  /** The size of the address-family word the loopback device puts in front
      of each captured packet instead of an Ethernet header. */
  function LoopbackHeader(loopback: bool): (hs: nat)
  {
    if loopback then 4 else 0
  }

  /** What the OS answers while a batch is sent: the values `select` and
      `write` return for the `k`-th packet of the batch. */
  datatype SendEnv = SendEnv(selectResult: nat -> int, writeResult: nat -> int)

  /** The result of sending the packets of a batch from some index on, the
      write buffer afterwards, and the calls made. */
  datatype SendOutcome = SendOutcome(result: Result<(), OsError>, buffer: seq<byte>, calls: seq<Syscall>)

  /** `build_and_send`'s loop from packet `k` on: fill the slot with the
      callback, `select`, then `write` the slot without its first `off`
      bytes; a `select` or `write` that returns -1 stops the batch with the
      error it left. */
  function SendFrom(fd: int, timeout: Option<Duration>, off: nat, buf: seq<byte>, k: nat, count: nat, size: nat,
                    f: Populate, env: SendEnv): (o: SendOutcome)
    requires LengthPreserving(f) && (k < count ==> off <= size) && k <= count && count * size <= |buf|
    ensures |o.buffer| == |buf|
    decreases count - k
  {
    if k == count then SendOutcome(Ok(()), buf, [])
    else
      SlotsOrdered(k, count, size);
      var filled := FillSlot(buf, k, size, f);
      var sel := Select(fd, timeout);
      if env.selectResult(k) == -1 then SendOutcome(Err(ErrnoAfter(sel)), filled, [sel])
      else
        var w := Write(fd, Slot(filled, k, size)[off..]);
        if env.writeResult(k) == -1 then SendOutcome(Err(ErrnoAfter(w)), filled, [sel, w])
        else
          var rest := SendFrom(fd, timeout, off, filled, k + 1, count, size, f, env);
          SendOutcome(rest.result, rest.buffer, [sel, w] + rest.calls)
  }

  /** The index of the first packet from `k` on whose `select` or `write`
      fails; `count` when none does. */
  function FirstSendFailure(env: SendEnv, k: nat, count: nat): (n: nat)
    requires k <= count
    ensures k <= n <= count
    ensures forall j :: k <= j < n ==> env.selectResult(j) != -1 && env.writeResult(j) != -1
    ensures n < count ==> env.selectResult(n) == -1 || env.writeResult(n) == -1
    decreases count - k
  {
    if k == count || env.selectResult(k) == -1 || env.writeResult(k) == -1 then k
    else FirstSendFailure(env, k + 1, count)
  }

  /** The calls a batch makes for packets `k .. n - 1` when all of them get
      through: a `select` and a `write` of what the callback made of that
      packet's original slot, minus the first `off` bytes. */
  function SentCalls(fd: int, timeout: Option<Duration>, off: nat, buf: seq<byte>, k: nat, n: nat, size: nat,
                     f: Populate): (calls: seq<Syscall>)
    requires LengthPreserving(f) && (k < n ==> off <= size) && k <= n && n * size <= |buf|
    ensures |calls| == 2 * (n - k)
    decreases n - k
  {
    if k == n then []
    else
      SlotsOrdered(k, n, size);
      [Select(fd, timeout), Write(fd, f(k, Slot(buf, k, size))[off..])]
      + SentCalls(fd, timeout, off, buf, k + 1, n, size, f)
  }

  /** Filling slot `k` does not change what later packets of the batch send. */
  lemma {:induction false} SentCallsAfterFill(fd: int, timeout: Option<Duration>, off: nat, buf: seq<byte>, k: nat,
                                              j: nat, n: nat, size: nat, f: Populate)
    requires LengthPreserving(f) && off <= size && k < j <= n && n * size <= |buf|
    ensures k * size + size <= |buf|
    ensures SentCalls(fd, timeout, off, FillSlot(buf, k, size, f), j, n, size, f) ==
            SentCalls(fd, timeout, off, buf, j, n, size, f)
    decreases n - j
  {
    SlotsOrdered(k, n, size);
    if j < n {
      SlotsOrdered(j, n, size);
      FillSlotKeepsOtherSlots(buf, k, j, size, f);
      SentCallsAfterFill(fd, timeout, off, buf, k, j + 1, n, size, f);
    }
  }

  /** The result of sending a batch from packet `k` on: success exactly
      when no packet's `select` or `write` fails; otherwise the error left by
      the last call made, which is the failing one. */
  lemma {:induction false} SendFromResult(fd: int, timeout: Option<Duration>, off: nat, buf: seq<byte>, k: nat,
                                          count: nat, size: nat, f: Populate, env: SendEnv)
    requires LengthPreserving(f) && (k < count ==> off <= size) && k <= count && count * size <= |buf|
    ensures var o := SendFrom(fd, timeout, off, buf, k, count, size, f, env);
      var n := FirstSendFailure(env, k, count);
      && (o.result.Ok? <==> n == count)
      && (n < count ==> o.calls != [] && o.result == Err(LastOsError(o.calls)))
    decreases count - k
  {
    if k < count && env.selectResult(k) != -1 && env.writeResult(k) != -1 {
      SlotsOrdered(k, count, size);
      var filled := FillSlot(buf, k, size, f);
      SendFromResult(fd, timeout, off, filled, k + 1, count, size, f, env);
    }
  }

  /** The write buffer after sending a batch from packet `k` on: the
      callback has run on the slots up to and including the first failing
      packet (all of them when none fails), and on no later slot. */
  lemma {:induction false} SendFromBuffer(fd: int, timeout: Option<Duration>, off: nat, buf: seq<byte>, k: nat,
                                          count: nat, size: nat, f: Populate, env: SendEnv)
    requires LengthPreserving(f) && (k < count ==> off <= size) && k <= count && count * size <= |buf|
    ensures var n := FirstSendFailure(env, k, count);
      var filledUpTo := if n < count then n + 1 else count;
      (filledUpTo * size <= |buf|) &&
      SendFrom(fd, timeout, off, buf, k, count, size, f, env).buffer == FillRange(buf, k, filledUpTo, size, f)
    decreases count - k
  {
    if k < count {
      SendFromUnfold(fd, timeout, off, buf, k, count, size, f, env);
      var filled := FillSlot(buf, k, size, f);
      var n := FirstSendFailure(env, k, count);
      var filledUpTo := if n < count then n + 1 else count;
      RangeWithin(filledUpTo, count, size);
      if env.selectResult(k) == -1 || env.writeResult(k) == -1 {
        FillRangeFirst(buf, k, k + 1, size, f);
      } else {
        SendFromBuffer(fd, timeout, off, filled, k + 1, count, size, f, env);
        assert n == FirstSendFailure(env, k + 1, count);
        FillRangeFirst(buf, k, filledUpTo, size, f);
      }
    }
  }

  /** The first step of a batch whose packet `k` gets through: its
      `select` and `write`, then the rest of the batch on the filled buffer. */
  lemma SendFromStep(fd: int, timeout: Option<Duration>, off: nat, buf: seq<byte>, k: nat,
                     count: nat, size: nat, f: Populate, env: SendEnv)
    requires LengthPreserving(f) && off <= size && k < count && count * size <= |buf|
    requires env.selectResult(k) != -1 && env.writeResult(k) != -1
    ensures k * size + size <= |buf|
    ensures var rest := SendFrom(fd, timeout, off, FillSlot(buf, k, size, f), k + 1, count, size, f, env);
      SendFrom(fd, timeout, off, buf, k, count, size, f, env).calls ==
        [Select(fd, timeout), Write(fd, f(k, Slot(buf, k, size))[off..])] + rest.calls
    ensures FirstSendFailure(env, k, count) == FirstSendFailure(env, k + 1, count)
  {
    SlotsOrdered(k, count, size);
    assert Slot(FillSlot(buf, k, size, f), k, size) == f(k, Slot(buf, k, size));
  }

  /** The calls made sending a batch from packet `k` on when no packet
      fails: a `select` and a `write` per packet, each writing what the
      callback made of that packet's original slot. */
  lemma {:induction false} SendFromCallsAll(fd: int, timeout: Option<Duration>, off: nat, buf: seq<byte>, k: nat,
                                            count: nat, size: nat, f: Populate, env: SendEnv)
    requires LengthPreserving(f) && (k < count ==> off <= size) && k <= count && count * size <= |buf|
    requires FirstSendFailure(env, k, count) == count
    ensures SendFrom(fd, timeout, off, buf, k, count, size, f, env).calls == SentCalls(fd, timeout, off, buf, k, count, size, f)
    decreases count - k
  {
    if k < count {
      SendFromStep(fd, timeout, off, buf, k, count, size, f, env);
      SendFromCallsAll(fd, timeout, off, FillSlot(buf, k, size, f), k + 1, count, size, f, env);
      SentCallsAfterFill(fd, timeout, off, buf, k, k + 1, count, size, f);
    }
  }

  /** The calls of the failing packet `n`: its `select` and, if that
      succeeded, its `write`. */
  function FailedCalls(fd: int, timeout: Option<Duration>, off: nat, buf: seq<byte>, n: nat, size: nat,
                       f: Populate, env: SendEnv): (calls: seq<Syscall>)
    requires LengthPreserving(f) && off <= size && n * size + size <= |buf|
    ensures calls == [Select(fd, timeout)] ||
            calls == [Select(fd, timeout), Write(fd, f(n, Slot(buf, n, size))[off..])]
  {
    [Select(fd, timeout)] + (if env.selectResult(n) == -1 then [] else [Write(fd, f(n, Slot(buf, n, size))[off..])])
  }

  /** A batch whose packet `k` fails ends there. */
  lemma SendFromFailsHere(fd: int, timeout: Option<Duration>, off: nat, buf: seq<byte>, k: nat,
                          count: nat, size: nat, f: Populate, env: SendEnv)
    requires LengthPreserving(f) && off <= size && k < count && count * size <= |buf|
    requires env.selectResult(k) == -1 || env.writeResult(k) == -1
    ensures k * size + size <= |buf|
    ensures SendFrom(fd, timeout, off, buf, k, count, size, f, env).calls ==
      SentCalls(fd, timeout, off, buf, k, k, size, f) + FailedCalls(fd, timeout, off, buf, k, size, f, env)
  {
    SlotsOrdered(k, count, size);
    assert Slot(FillSlot(buf, k, size, f), k, size) == f(k, Slot(buf, k, size));
    assert SentCalls(fd, timeout, off, buf, k, k, size, f) == [];
  }

  /** The calls made sending a batch from packet `k` on when packet `n` is
      the first to fail: a `select` and a `write` for each packet before `n`,
      as when none fails, then `n`'s `select` and, if that succeeded, its
      `write`; nothing follows. */
  lemma {:induction false} SendFromCallsFailing(fd: int, timeout: Option<Duration>, off: nat, buf: seq<byte>, k: nat,
                                                count: nat, size: nat, f: Populate, env: SendEnv)
    requires LengthPreserving(f) && off <= size && k <= count && count * size <= |buf|
    requires FirstSendFailure(env, k, count) < count
    ensures var n := FirstSendFailure(env, k, count);
      n * size + size <= |buf| &&
      SendFrom(fd, timeout, off, buf, k, count, size, f, env).calls ==
        SentCalls(fd, timeout, off, buf, k, n, size, f) + FailedCalls(fd, timeout, off, buf, n, size, f, env)
    decreases count - k
  {
    var n := FirstSendFailure(env, k, count);
    if k == n {
      SendFromFailsHere(fd, timeout, off, buf, k, count, size, f, env);
    } else {
      SendFromStep(fd, timeout, off, buf, k, count, size, f, env);
      SendFromCallsFailing(fd, timeout, off, FillSlot(buf, k, size, f), k + 1, count, size, f, env);
      SendFromCallsPrepend(fd, timeout, off, buf, k, n, count, size, f, env);
    }
  }

  /** The inductive step of `SendFromCallsFailing`: when packet `k` gets
      through and the rest of the batch ends at `n`, the calls for `k` come
      first and the calls after them are those the original buffer dictates. */
  lemma SendFromCallsPrepend(fd: int, timeout: Option<Duration>, off: nat, buf: seq<byte>, k: nat, n: nat,
                             count: nat, size: nat, f: Populate, env: SendEnv)
    requires LengthPreserving(f) && off <= size && k < n < count && count * size <= |buf|
    requires k * size + size <= |buf| && n * size + size <= |buf|
    requires SendFrom(fd, timeout, off, buf, k, count, size, f, env).calls ==
      [Select(fd, timeout), Write(fd, f(k, Slot(buf, k, size))[off..])] +
      SendFrom(fd, timeout, off, FillSlot(buf, k, size, f), k + 1, count, size, f, env).calls
    requires SendFrom(fd, timeout, off, FillSlot(buf, k, size, f), k + 1, count, size, f, env).calls ==
      SentCalls(fd, timeout, off, FillSlot(buf, k, size, f), k + 1, n, size, f) +
      FailedCalls(fd, timeout, off, FillSlot(buf, k, size, f), n, size, f, env)
    ensures SendFrom(fd, timeout, off, buf, k, count, size, f, env).calls ==
      SentCalls(fd, timeout, off, buf, k, n, size, f) + FailedCalls(fd, timeout, off, buf, n, size, f, env)
  {
    var filled := FillSlot(buf, k, size, f);
    SentCallsAfterFill(fd, timeout, off, buf, k, k + 1, n, size, f);
    FillSlotKeepsOtherSlots(buf, k, n, size, f);
    var first := [Select(fd, timeout), Write(fd, f(k, Slot(buf, k, size))[off..])];
    var middle := SentCalls(fd, timeout, off, buf, k + 1, n, size, f);
    var tail := FailedCalls(fd, timeout, off, buf, n, size, f, env);
    assert FailedCalls(fd, timeout, off, filled, n, size, f, env) == tail;
    assert SentCalls(fd, timeout, off, buf, k, n, size, f) == first + middle;
    assert first + (middle + tail) == (first + middle) + tail;
  }

  /** An outcome with the calls `done` made before it. */
  function AfterCalls(done: seq<Syscall>, o: SendOutcome): (p: SendOutcome)
    ensures p.result == o.result && p.buffer == o.buffer && p.calls == done + o.calls
  {
    SendOutcome(o.result, o.buffer, done + o.calls)
  }

  lemma AfterCallsTwice(done: seq<Syscall>, more: seq<Syscall>, o: SendOutcome)
    ensures AfterCalls(done, AfterCalls(more, o)) == AfterCalls(done + more, o)
  {
    assert done + (more + o.calls) == (done + more) + o.calls;
  }

  /** Filling slot `k` is placing the callback's output at `k * size`. */
  lemma FillSlotAt(buf: seq<byte>, k: nat, at: nat, size: nat, f: Populate)
    requires LengthPreserving(f) && at == k * size && at + size <= |buf|
    ensures FillSlot(buf, k, size, f) == Place(buf, at, f(k, buf[at..at + size]))
  {
  }

  /** One packet of a batch: its slot filled, its `select` and, if that got
      through, its `write`, then the rest of the batch. */
  lemma SendFromUnfold(fd: int, timeout: Option<Duration>, off: nat, buf: seq<byte>, k: nat,
                       count: nat, size: nat, f: Populate, env: SendEnv)
    requires LengthPreserving(f) && off <= size && k < count && count * size <= |buf|
    ensures k * size + size <= |buf|
    ensures var filled := FillSlot(buf, k, size, f);
      var o := SendFrom(fd, timeout, off, buf, k, count, size, f, env);
      var sel, w := Select(fd, timeout), Write(fd, Slot(filled, k, size)[off..]);
      && (env.selectResult(k) == -1 ==> o == SendOutcome(Err(ErrnoAfter(sel)), filled, [sel]))
      && (env.selectResult(k) != -1 && env.writeResult(k) == -1 ==>
            o == SendOutcome(Err(ErrnoAfter(w)), filled, [sel, w]))
      && (env.selectResult(k) != -1 && env.writeResult(k) != -1 ==>
            o == AfterCalls([sel, w], SendFrom(fd, timeout, off, filled, k + 1, count, size, f, env)))
  {
    SlotsOrdered(k, count, size);
  }

  /** Part way through a batch that started on the buffer `start`: packets
      before `k` have got through, making the calls `done` and leaving the
      buffer `buf`, so the batch's outcome is those calls followed by the
      outcome of sending the rest from `buf`. */
  ghost predicate Sending(fd: int, timeout: Option<Duration>, off: nat, start: seq<byte>, buf: seq<byte>,
                          done: seq<Syscall>, k: nat, count: nat, size: nat, f: Populate, env: SendEnv)
  {
    && LengthPreserving(f) && (0 < count ==> off <= size) && k <= count && count * size <= |buf|
    && |start| == |buf|
    && SendFrom(fd, timeout, off, start, 0, count, size, f, env) ==
       AfterCalls(done, SendFrom(fd, timeout, off, buf, k, count, size, f, env))
  }

  /** The slot of the next packet lies inside the buffer. */
  lemma SendingSlot(fd: int, timeout: Option<Duration>, off: nat, start: seq<byte>, buf: seq<byte>,
                    done: seq<Syscall>, k: nat, count: nat, size: nat, f: Populate, env: SendEnv)
    requires Sending(fd, timeout, off, start, buf, done, k, count, size, f, env) && k < count
    ensures off <= size && k * size + size <= |buf|
  {
    SlotsOrdered(k, count, size);
  }

  /** A packet of the batch that gets through: the batch from the start
      is the calls made so far and this packet's two, then the rest. */
  lemma SendContinued(fd: int, timeout: Option<Duration>, off: nat, start: seq<byte>, buf: seq<byte>,
                      done: seq<Syscall>, k: nat, count: nat, size: nat, f: Populate, env: SendEnv)
    requires Sending(fd, timeout, off, start, buf, done, k, count, size, f, env) && k < count
    requires env.selectResult(k) != -1 && env.writeResult(k) != -1
    ensures k * size + size <= |buf|
    ensures var filled := FillSlot(buf, k, size, f);
      Sending(fd, timeout, off, start, filled, done + [Select(fd, timeout), Write(fd, Slot(filled, k, size)[off..])],
              k + 1, count, size, f, env)
  {
    SendFromUnfold(fd, timeout, off, buf, k, count, size, f, env);
    var filled := FillSlot(buf, k, size, f);
    AfterCallsTwice(done, [Select(fd, timeout), Write(fd, Slot(filled, k, size)[off..])],
                    SendFrom(fd, timeout, off, filled, k + 1, count, size, f, env));
  }

  /** A packet of the batch whose `select` or `write` fails: the batch from
      the start ends there, with the error that call left, the slot filled,
      and the calls made so far followed by this packet's. */
  lemma SendStopped(fd: int, timeout: Option<Duration>, off: nat, start: seq<byte>, buf: seq<byte>,
                    done: seq<Syscall>, prior: seq<Syscall>, k: nat, count: nat, size: nat, f: Populate, env: SendEnv)
    requires Sending(fd, timeout, off, start, buf, done, k, count, size, f, env) && k < count
    requires env.selectResult(k) == -1 || env.writeResult(k) == -1
    ensures k * size + size <= |buf|
    ensures var filled := FillSlot(buf, k, size, f);
      var sel, w := Select(fd, timeout), Write(fd, Slot(filled, k, size)[off..]);
      var calls := if env.selectResult(k) == -1 then [sel] else [sel, w];
      var o := SendFrom(fd, timeout, off, start, 0, count, size, f, env);
      && o.result == Err(LastOsError((prior + done) + calls))
      && o.buffer == filled
      && prior + o.calls == (prior + done) + calls
  {
    SendFromUnfold(fd, timeout, off, buf, k, count, size, f, env);
  }

  /** Every packet of the batch got through: it succeeds, with the buffer
      and the calls made along the way. */
  lemma SendFinished(fd: int, timeout: Option<Duration>, off: nat, start: seq<byte>, buf: seq<byte>,
                     done: seq<Syscall>, prior: seq<Syscall>, count: nat, size: nat, f: Populate, env: SendEnv)
    requires Sending(fd, timeout, off, start, buf, done, count, count, size, f, env)
    ensures var o := SendFrom(fd, timeout, off, start, 0, count, size, f, env);
      o.result == Ok(()) && o.buffer == buf && prior + o.calls == prior + done
  {
  }

  /** The result of `build_and_send` (nothing when the batch does not fit),
      the write buffer afterwards, and the calls made. */
  datatype BatchOutcome = BatchOutcome(result: Option<Result<(), OsError>>, buffer: seq<byte>, calls: seq<Syscall>)

  /** `build_and_send`: a batch of `count` packets of `size` bytes that does
      not fit strictly inside the write buffer is refused with nothing done;
      otherwise the packets are built in the buffer's slots and sent in turn. */
  function Batch(fd: int, timeout: Option<Duration>, loopback: bool, buf: seq<byte>, count: nat, size: nat,
                 f: Populate, env: SendEnv): (o: BatchOutcome)
    requires LengthPreserving(f)
    requires count * size < |buf| && 0 < count ==> EthernetOffset(loopback) <= size
    ensures o.result.None? <==> count * size >= |buf|
    ensures o.result.None? ==> o.buffer == buf && o.calls == []
    ensures |o.buffer| == |buf|
  {
    if count * size >= |buf| then BatchOutcome(None, buf, [])
    else
      var s := SendFrom(fd, timeout, EthernetOffset(loopback), buf, 0, count, size, f, env);
      BatchOutcome(Some(s.result), s.buffer, s.calls)
  }

  /** A batch that fits, all in one: it reports success exactly when no
      packet's `select` or `write` fails, and otherwise the error left by the
      last call made; the callback has run on every slot up to and including
      the first failing one and on no later slot; and the calls are a
      `select` and a `write` of each packet that got through, in order,
      followed by those of the failing packet. */
  lemma BatchEffect(fd: int, timeout: Option<Duration>, loopback: bool, buf: seq<byte>, count: nat, size: nat,
                    f: Populate, env: SendEnv)
    requires LengthPreserving(f) && count * size < |buf| && (0 < count ==> EthernetOffset(loopback) <= size)
    ensures var o := Batch(fd, timeout, loopback, buf, count, size, f, env);
      var n := FirstSendFailure(env, 0, count);
      var off := EthernetOffset(loopback);
      && o.result.Some?
      && (o.result.value.Ok? <==> n == count)
      && (o.result.value.Err? ==> o.calls != [] && o.result.value.error == LastOsError(o.calls))
      && (n == count ==> o.buffer == FillRange(buf, 0, count, size, f) &&
                         o.calls == SentCalls(fd, timeout, off, buf, 0, count, size, f))
      && (n < count ==> (n + 1) * size <= |buf| &&
                        o.buffer == FillRange(buf, 0, n + 1, size, f) &&
                        o.calls == SentCalls(fd, timeout, off, buf, 0, n, size, f) +
                                   FailedCalls(fd, timeout, off, buf, n, size, f, env))
  {
    var off := EthernetOffset(loopback);
    SendFromResult(fd, timeout, off, buf, 0, count, size, f, env);
    SendFromBuffer(fd, timeout, off, buf, 0, count, size, f, env);
    if FirstSendFailure(env, 0, count) == count {
      SendFromCallsAll(fd, timeout, off, buf, 0, count, size, f, env);
    } else {
      SendFromCallsFailing(fd, timeout, off, buf, 0, count, size, f, env);
    }
  }

  /** The write half of a channel (`DataLinkSenderImpl`). */
  class Sender {
    const device: Device
    const writeBuffer: array<byte>
    const loopback: bool
    const timeout: Option<Duration>

    constructor (device: Device, writeBufferSize: nat, loopback: bool, timeout: Option<Duration>)
      ensures this.device == device && this.loopback == loopback && this.timeout == timeout
      ensures fresh(writeBuffer) && writeBuffer[..] == Zeros(writeBufferSize)
    {
      this.device := device;
      this.writeBuffer := new byte[writeBufferSize](_ => 0);
      this.loopback := loopback;
      this.timeout := timeout;
    }

    /** `build_and_send`. The source panics, rather than failing, when a
        batch that fits has a zero packet size, or has a packet too short for
        an Ethernet header, so those are excluded. */
    method BuildAndSend(count: nat, size: nat, f: Populate, env: SendEnv) returns (r: Option<Result<(), OsError>>)
      requires LengthPreserving(f)
      requires count * size < writeBuffer.Length ==> 0 < size && (count == 0 || EthernetHeaderLen <= size)
      modifies writeBuffer, device
      ensures var o := Batch(device.fd, timeout, loopback, old(writeBuffer[..]), count, size, f, env);
        r == o.result && writeBuffer[..] == o.buffer && device.log == old(device.log) + o.calls
    {
      var len := count * size;
      if len >= writeBuffer.Length {
        return None;
      }
      var sent := SendBatch(count, size, EthernetOffset(loopback), f, env);
      r := Some(sent);
    }

    /** The loop over the batch's slots: each packet in turn, stopping at
        the first whose `select` or `write` fails. */
    method SendBatch(count: nat, size: nat, off: nat, f: Populate, env: SendEnv) returns (r: Result<(), OsError>)
      requires LengthPreserving(f) && count * size < writeBuffer.Length && (0 < count ==> off <= size)
      modifies writeBuffer, device
      ensures var o := SendFrom(device.fd, timeout, off, old(writeBuffer[..]), 0, count, size, f, env);
        r == o.result && writeBuffer[..] == o.buffer && device.log == old(device.log) + o.calls
    {
      ghost var start := writeBuffer[..];
      ghost var done: seq<Syscall> := [];
      var k := 0;
      while k < count
        invariant device.log == old(device.log) + done
        invariant Sending(device.fd, timeout, off, start, writeBuffer[..], done, k, count, size, f, env)
        decreases count - k
      {
        ghost var before := writeBuffer[..];
        SendingSlot(device.fd, timeout, off, start, before, done, k, count, size, f, env);
        var ok := SendPacket(k, size, off, f, env);
        if !ok {
          SendStopped(device.fd, timeout, off, start, before, done, old(device.log), k, count, size, f, env);
          return Err(LastOsError(device.log));
        }
        SendContinued(device.fd, timeout, off, start, before, done, k, count, size, f, env);
        done := done + [Select(device.fd, timeout), Write(device.fd, Slot(writeBuffer[..], k, size)[off..])];
        k := k + 1;
      }
      SendFinished(device.fd, timeout, off, start, writeBuffer[..], done, old(device.log), count, size, f, env);
      r := Ok(());
    }

    /** One packet of the batch: the callback run on slot `k`, a `select`,
        and, if that got through, a `write` of the slot without its first
        `off` bytes. `ok` says whether both got through. */
    method SendPacket(k: nat, size: nat, off: nat, f: Populate, env: SendEnv) returns (ok: bool)
      requires LengthPreserving(f) && off <= size && k * size + size <= writeBuffer.Length
      modifies writeBuffer, device
      ensures writeBuffer[..] == FillSlot(old(writeBuffer[..]), k, size, f)
      ensures var sel := Select(device.fd, timeout);
        var w := Write(device.fd, Slot(writeBuffer[..], k, size)[off..]);
        && ok == (env.selectResult(k) != -1 && env.writeResult(k) != -1)
        && device.log == old(device.log) + (if env.selectResult(k) == -1 then [sel] else [sel, w])
    {
      ghost var before := writeBuffer[..];
      var at := k * size;
      var chunk := f(k, writeBuffer[at..at + size]);
      CopyInto(writeBuffer, at, chunk);
      FillSlotAt(before, k, at, size, f);
      assert writeBuffer[at + off..at + size] == Slot(writeBuffer[..], k, size)[off..];
      device.log := device.log + [Select(device.fd, timeout)];
      if env.selectResult(k) == -1 {
        return false;
      }
      device.log := device.log + [Write(device.fd, writeBuffer[at + off..at + size])];
      ok := env.writeResult(k) != -1;
    }

    /** `send_to`: one `select`, then, unless it failed, one `write` of the
        packet without its first `off` bytes. The packet is an Ethernet
        frame, so it is at least one header long. */
    method SendTo(packet: seq<byte>, selectResult: int, writeResult: int) returns (r: Option<Result<(), OsError>>)
      requires EthernetHeaderLen <= |packet|
      modifies device
      ensures var sel := Select(device.fd, timeout);
        var w := Write(device.fd, packet[EthernetOffset(loopback)..]);
        && (selectResult == -1 ==> r == Some(Err(ErrnoAfter(sel))) && device.log == old(device.log) + [sel])
        && (selectResult != -1 ==>
              (device.log == old(device.log) + [sel, w] &&
               r == Some(if writeResult == -1 then Err(ErrnoAfter(w)) else Ok(()))))
    {
      var off := EthernetOffset(loopback);
      device.log := device.log + [Select(device.fd, timeout)];
      if selectResult == -1 {
        return Some(Err(LastOsError(device.log)));
      }
      device.log := device.log + [Write(device.fd, packet[off..])];
      if writeResult == -1 {
        return Some(Err(LastOsError(device.log)));
      }
      r := Some(Ok(()));
    }
  }

  /** `send_to` makes the calls of a one-packet batch whose callback writes
      the packet into its slot, and ends the same way. */
  lemma SendToIsOnePacketBatch(fd: int, timeout: Option<Duration>, loopback: bool, packet: seq<byte>, buf: seq<byte>,
                               selectResult: int, writeResult: int)
    requires EthernetHeaderLen <= |packet| < |buf|
    ensures var f: Populate := (_, s) => if |s| == |packet| then packet else s;
      var env := SendEnv(_ => selectResult, _ => writeResult);
      var sel, w := Select(fd, timeout), Write(fd, packet[EthernetOffset(loopback)..]);
      LengthPreserving(f) &&
      var o := Batch(fd, timeout, loopback, buf, 1, |packet|, f, env);
      && o.result.Some?
      && o.calls == (if selectResult == -1 then [sel] else [sel, w])
      && o.result.value == (if selectResult == -1 then Err(ErrnoAfter(sel))
                           else if writeResult == -1 then Err(ErrnoAfter(w)) else Ok(()))
  {
    var f: Populate := (_, s) => if |s| == |packet| then packet else s;
    var env := SendEnv(_ => selectResult, _ => writeResult);
    assert LengthPreserving(f);
    var off := EthernetOffset(loopback);
    var filled := FillSlot(buf, 0, |packet|, f);
    assert Slot(filled, 0, |packet|) == packet;
    assert SendFrom(fd, timeout, off, filled, 1, 1, |packet|, f, env).calls == [];
  }

  /** The read half of a channel (`DataLinkReceiverImpl`). */
  class Receiver {
    const device: Device
    const readBuffer: array<byte>
    const loopback: bool

    constructor (device: Device, readBufferSize: nat, loopback: bool)
      ensures this.device == device && this.loopback == loopback
      ensures fresh(readBuffer) && readBuffer[..] == Zeros(readBufferSize)
    {
      this.device := device;
      this.readBuffer := new byte[readBufferSize](_ => 0);
      this.loopback := loopback;
    }

    /** `iter`: an iterator over this receiver with nothing queued. */
    method Iter() returns (it: FrameIterator)
      requires EthernetOffset(loopback) <= readBuffer.Length
      ensures fresh(it) && it.pc == this && it.packets == [] && it.Valid()
    {
      it := new FrameIterator(this);
    }
  }

  /** `channel`: the set-up, then, when it succeeds, one descriptor shared
      by a sender and a receiver (the `Arc<FileDesc>`), whose trace holds
      every call the set-up made. The write buffer is `write_buffer_size`
      zero bytes and the read buffer the set-up's read size in zero bytes. */
  method Channel(platform: Platform, name: seq<byte>, cfg: Config, env: SetupEnv)
    returns (r: Result<(Sender, Receiver), OsError>, calls: seq<Syscall>)
    requires |name| <= IfNameSize
    ensures var (info, trace) := SetupResult(platform, name, cfg, env);
      && calls == trace
      && r.Err? == info.Err?
      && (r.Err? ==> r.error == info.error)
      && (r.Ok? ==>
            var (tx, rx) := r.value;
            && fresh(tx) && fresh(rx) && fresh(tx.device) && tx.device == rx.device
            && tx.device.fd == info.value.fd && tx.device.log == calls
            && tx.loopback == info.value.loopback && rx.loopback == info.value.loopback
            && tx.timeout == info.value.writeTimeout
            && fresh(tx.writeBuffer) && tx.writeBuffer[..] == Zeros(info.value.writeBufferSize)
            && fresh(rx.readBuffer) && rx.readBuffer[..] == Zeros(info.value.readBufferSize))
  {
    var info;
    info, calls := Setup(platform, name, cfg, env);
    if info.Err? {
      return Err(info.error), calls;
    }
    var ch := info.value;
    var device := new Device(ch.fd, calls);
    var tx := new Sender(device, ch.writeBufferSize, ch.loopback, ch.writeTimeout);
    var rx := new Receiver(device, ch.readBufferSize, ch.loopback);
    r := Ok((tx, rx));
  }

  /** `DataLinkChannelIteratorImpl`: the `(start, length)` pairs of the
      records still queued from the last read, and (for the proofs) the
      captured payload each of them designates. */
  class FrameIterator {
    const pc: Receiver
    var packets: seq<(nat, nat)>
    ghost var pending: seq<seq<byte>>

    /** The queue is consistent with the read buffer, which is long enough
        for the loopback header slot. */
    ghost predicate Valid()
      reads this, pc.readBuffer
    {
      var off := EthernetOffset(pc.loopback);
      off <= pc.readBuffer.Length && QueueValid(pc.readBuffer[..], off, packets, pending)
    }

    constructor (pc: Receiver)
      requires EthernetOffset(pc.loopback) <= pc.readBuffer.Length
      ensures this.pc == pc && packets == [] && pending == [] && Valid()
    {
      this.pc := pc;
      this.packets := [];
      this.pending := [];
    }

    /** `next`. With records still queued, no call is made: the first is
        taken off the queue. Otherwise one `read` into the buffer past the
        header slot: a result of 0 or less is returned as the error it left,
        anything else is scanned into the queue and its first record taken.
        The frame handed out is `off` zero bytes (the loopback device's
        missing Ethernet header) followed by the record's captured payload;
        the zero-fill is the only change to the buffer besides the read. The
        OS is trusted to return at most the bytes asked for, as a well-formed
        record stream. A frame shorter than an Ethernet header would make
        `EthernetPacket::new(..).unwrap()` panic, so the frame taken must be
        at least that long. */
    method Next(readResult: int, bytes: seq<byte>) returns (r: Result<seq<byte>, OsError>)
      requires Valid()
      requires packets != [] ==> EthernetHeaderLen <= packets[0].1 + EthernetOffset(pc.loopback)
      requires packets == [] && readResult > 0 ==>
        |bytes| == readResult && EthernetOffset(pc.loopback) + |bytes| <= pc.readBuffer.Length &&
        WellFormed(bytes, 0, LoopbackHeader(pc.loopback)) &&
        EthernetHeaderLen <= Scan(bytes, 0, LoopbackHeader(pc.loopback))[0].1 + EthernetOffset(pc.loopback)
      modifies this, pc.readBuffer, pc.device
      ensures Valid()
      ensures var off := EthernetOffset(pc.loopback);
        var read := Read(pc.device.fd, pc.readBuffer.Length - off);
        && (old(packets) != [] ==>
              pc.device.log == old(pc.device.log) &&
              r == Ok(Zeros(off) + old(pending)[0]) &&
              packets == old(packets)[1..] && pending == old(pending)[1..] &&
              pc.readBuffer[..] == Place(old(pc.readBuffer[..]), old(packets)[0].0, Zeros(off)))
        && (old(packets) == [] ==> pc.device.log == old(pc.device.log) + [read])
        && (old(packets) == [] && readResult <= 0 ==>
              r == Err(ErrnoAfter(read)) && packets == [] && pc.readBuffer[..] == old(pc.readBuffer[..]))
        && (old(packets) == [] && readResult > 0 ==>
              var hs := LoopbackHeader(pc.loopback);
              var records, payloads := Scan(bytes, 0, hs), RecordPayloads(bytes, hs);
              r == Ok(Zeros(off) + payloads[0]) &&
              packets == records[1..] && pending == payloads[1..] &&
              pc.readBuffer[..] == Place(Place(old(pc.readBuffer[..]), off, bytes), records[0].0, Zeros(off)))
    {
      if packets == [] {
        r := Fetch(readResult, bytes);
      } else {
        var frame := Pop();
        r := Ok(frame);
      }
    }

    /** `next` on an empty queue: one `read` into the buffer past the header
        slot, then the first record of what it returned. */
    method Fetch(readResult: int, bytes: seq<byte>) returns (r: Result<seq<byte>, OsError>)
      requires Valid() && packets == []
      requires readResult > 0 ==>
        |bytes| == readResult && EthernetOffset(pc.loopback) + |bytes| <= pc.readBuffer.Length &&
        WellFormed(bytes, 0, LoopbackHeader(pc.loopback)) &&
        EthernetHeaderLen <= Scan(bytes, 0, LoopbackHeader(pc.loopback))[0].1 + EthernetOffset(pc.loopback)
      modifies this, pc.readBuffer, pc.device
      ensures Valid()
      ensures var off := EthernetOffset(pc.loopback);
        var read := Read(pc.device.fd, pc.readBuffer.Length - off);
        && pc.device.log == old(pc.device.log) + [read]
        && (readResult <= 0 ==>
              r == Err(ErrnoAfter(read)) && packets == [] && pc.readBuffer[..] == old(pc.readBuffer[..]))
        && (readResult > 0 ==>
              var hs := LoopbackHeader(pc.loopback);
              var records, payloads := Scan(bytes, 0, hs), RecordPayloads(bytes, hs);
              r == Ok(Zeros(off) + payloads[0]) &&
              packets == records[1..] && pending == payloads[1..] &&
              pc.readBuffer[..] == Place(Place(old(pc.readBuffer[..]), off, bytes), records[0].0, Zeros(off)))
    {
      var off := EthernetOffset(pc.loopback);
      var capacity := pc.readBuffer.Length - off;
      pc.device.log := pc.device.log + [Read(pc.device.fd, capacity)];
      if readResult <= 0 {
        return Err(LastOsError(pc.device.log));
      }
      ghost var log := pc.device.log;
      Refill(bytes);
      var frame := Pop();
      assert pc.device.log == log;
      return Ok(frame);
    }

    /** The bytes of one read placed past the header slot and scanned: the
        queue then holds every record of the read. */
    method Refill(bytes: seq<byte>)
      requires Valid() && 0 < |bytes|
      requires EthernetOffset(pc.loopback) + |bytes| <= pc.readBuffer.Length
      requires WellFormed(bytes, 0, LoopbackHeader(pc.loopback))
      modifies this, pc.readBuffer
      ensures Valid()
      ensures var hs := LoopbackHeader(pc.loopback);
        packets == Scan(bytes, 0, hs) && pending == RecordPayloads(bytes, hs) && packets != [] &&
        pc.readBuffer[..] == Place(old(pc.readBuffer[..]), EthernetOffset(pc.loopback), bytes)
    {
      var hs, off := LoopbackHeader(pc.loopback), EthernetOffset(pc.loopback);
      ghost var empty := pc.readBuffer[..];
      CopyInto(pc.readBuffer, off, bytes);
      var got := pc.readBuffer[off..off + |bytes|];
      packets := ScanRecords(got, hs);
      pending := RecordPayloads(bytes, hs);
      ScannedQueueValid(empty, off, bytes, hs);
    }

    /** The first queued record taken off the queue: the `off` bytes in
        front of its payload are zeroed and the frame handed out runs from
        there to the end of the payload. */
    method Pop() returns (frame: seq<byte>)
      requires Valid() && packets != []
      requires EthernetHeaderLen <= packets[0].1 + EthernetOffset(pc.loopback)
      modifies this, pc.readBuffer
      ensures Valid()
      ensures var off := EthernetOffset(pc.loopback);
        frame == Zeros(off) + old(pending)[0] &&
        packets == old(packets)[1..] && pending == old(pending)[1..] &&
        pc.readBuffer[..] == Place(old(pc.readBuffer[..]), old(packets)[0].0, Zeros(off))
    {
      var off := EthernetOffset(pc.loopback);
      ghost var full := pc.readBuffer[..];
      PoppedQueueValid(full, off, packets, pending);
      var entry := packets[0];
      var start, len := entry.0, entry.1 + off;
      packets := packets[1..];
      pending := pending[1..];
      forall i | start <= i < start + off {
        pc.readBuffer[i] := 0;
      }
      assert pc.readBuffer[..] == Place(full, start, Zeros(off));
      frame := pc.readBuffer[start..start + len];
    }
  }
}
