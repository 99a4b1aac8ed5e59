# libpnet datalink backends over BPF and WinPcap, in Dafny

This project models the two capture backends of libpnet's `datalink` layer that sit on a
BPF-style kernel interface, and proves properties of the model:

- **`src/datalink/bpf.rs`** is the `/dev/bpf` backend for macOS and FreeBSD. It covers:
  - acquiring a descriptor (`get_fd`);
  - the `ioctl` set-up sequence of `channel`, with its close-on-failure error handling;
  - the batch sender `build_and_send` and `send_to`, which `select` and then `write` one slot of the write buffer per packet;
  - the frame iterator `next`, which reads a buffer of BPF capture records, queues the `(start, length)` pair of each record and hands out one Ethernet frame per call. On the loopback device it replaces the 4-byte address-family word with a zeroed 14-byte Ethernet header.
- **`src/datalink/winpcap.rs`** is the Windows backend over the WinPcap driver API (`Packet*` calls). It covers:
  - the nine-step set-up of `channel`, and the clean-up only its two allocation failures make;
  - the read-timeout conversion;
  - the batch sender, which temporarily rewrites the write packet's `Length` around every `PacketSendPacket`;
  - the same record-scanning iterator over `PacketReceivePacket`'s buffer.

Every OS or driver call is an abstract outcome that the caller of the model supplies:
- set-up answers come as functions from the call to its return value (`SetupEnv`);
- per-packet send results come as functions of the packet index;
- the bytes a read or receive delivers come as a parameter.

Every call a backend makes is recorded, in order, in a trace (`seq<Syscall>` or `seq<AdapterCall>`).

`io::Error::last_os_error()` is modelled as the error left by the last call made (`ErrnoAfter(call)`). So "which error is reported" becomes a statement about the trace.

File layout:

| file | module | contents |
|---|---|---|
| `Common.dfy` | `Common` | bytes, `Option`/`Result`, `Duration`, the `as u32`/`as i32` casts, `Zeros`, `Place`, `CopyInto`, the backend-independent config |
| `Records.dfy` | `BpfRecords` | the `bpf_hdr` record stream (both backends) |
| `Slots.dfy` | `Slots` | the write buffer's packet slots and the caller's fill callback |
| `Bpf.dfy` | `Bpf` | the `/dev/bpf` backend |
| `WinPcap.dfy` | `WinPcap` | the WinPcap backend |

Objects the source updates in place are classes:
- the shared descriptor or adapter, with its call trace;
- the sender, with its write buffer (an `array<byte>`);
- the receiver, with its read buffer;
- the WinPcap `PACKET` structures, with their `Length`;
- the frame iterator, with its queue.

The loops of the source (`get_fd`'s probing, the `ifreq` copy, the send loop, the record scan) are `while`/`for` loops proved against specification functions (`GetFdSpec`, `IfreqName`, `SendFrom`, `Scan`). The lemmas about those functions state what the source promises.

## Model

| member | source | states |
|---|---|---|
| Common.AsU32 | src/datalink/winpcap.rs:143 | an `as u32` cast keeps the value below 2^32, is the identity below 2^32, and differs from its input by a multiple of 2^32 |
| Common.AsI32 | src/datalink/winpcap.rs:111 | an `as i32` cast lands in [-2^31, 2^31), is the identity below 2^31, and is congruent to its input modulo 2^32 |
| Common.CopyInto | src/datalink/bpf.rs:368-372 | the array afterwards is the old contents with the data placed at the offset, every other byte unchanged |
| BpfRecords.WordAlign | src/datalink/bpf.rs:385-386 | `BPF_WORDALIGN` yields a multiple of the alignment that is at least `x` and less than `x + 4` |
| BpfRecords.WordAlignIsLeast | src/datalink/bpf.rs:385-386 | the rounded value is the least multiple of the alignment at or above `x` |
| BpfRecords.Scan | src/datalink/bpf.rs:376-388 | a non-empty read yields at least one queued record and no more records than bytes; an empty one yields none |
| BpfRecords.ScanStep | src/datalink/bpf.rs:378-387 | one turn of the cursor walk: the record at the cursor, then the scan from the word-aligned next record |
| BpfRecords.ScanBounds | src/datalink/bpf.rs:376-388 | every queued pair lies inside the bytes read, past the loopback word, and the pairs ascend without overlapping |
| BpfRecords.ScanRecords | src/datalink/bpf.rs:376-388 | the `while ptr < end` loop queues exactly the records of the scan specification, in buffer order |
| BpfRecords.RecordPayloads | src/datalink/bpf.rs:376-388 | one captured payload per queued record, and at least one for a non-empty read |
| BpfRecords.PlacedPayloads | src/datalink/bpf.rs:366-388 | once the read bytes sit `off` bytes into the buffer, each queued pair's payload sits `off` bytes past its start |
| BpfRecords.ZeroFillKeepsLaterPayload | src/datalink/bpf.rs:392-395 | zeroing the header slot in front of one frame leaves every later queued payload intact |
| BpfRecords.DeliveredFrame | src/datalink/bpf.rs:390-396 | the frame handed out is `off` zero bytes followed by exactly the record's captured payload |
| BpfRecords.ScannedQueueValid | src/datalink/bpf.rs:366-388 | right after a read is scanned, the queue is consistent with the buffer: each pair designates its record's payload |
| BpfRecords.PoppedQueueValid | src/datalink/bpf.rs:390-396 | popping and zero-filling yields zeros plus the first payload, and the rest of the queue stays consistent |
| Slots.FillSlot | src/datalink/bpf.rs:271-275 | the callback's output occupies its slot and every byte outside the slot is unchanged |
| Slots.FillSlotKeepsOtherSlots | src/datalink/bpf.rs:271-275 | filling one slot leaves every other slot as it was |
| Slots.FillRangeEffect | src/datalink/bpf.rs:271-275 | after filling slots in turn, each holds what the callback made of its original bytes, and nothing outside the range changed |
| Bpf.DefaultConfig | src/datalink/bpf.rs:67-77 | 4096-byte buffers, 1000 descriptor attempts, no timeouts |
| Bpf.FromDatalink | src/datalink/bpf.rs:55-65 | every setting carried over unchanged |
| Bpf.FirstOpenable | src/datalink/bpf.rs:110-120 | the first numbered node that opens, every earlier node having failed; `attempts` when all fail |
| Bpf.GetFd | src/datalink/bpf.rs:99-123 | FreeBSD opens the cloning device once. macOS opens `/dev/bpf0`, `/dev/bpf1`... in order, at most `attempts` times. It returns the first descriptor other than -1, and every earlier node failed. -1 means all attempts failed; with 0 attempts no open is made |
| Bpf.IfreqName | src/datalink/bpf.rs:147-150 | the 16-byte name field holds the interface name and zeros after it |
| Bpf.FillIfreqName | src/datalink/bpf.rs:147-150 | the byte-by-byte copy over a zeroed `ifreq` yields exactly that field |
| Bpf.SetupPlanContents | src/datalink/bpf.rs:152-221 | the buffer length is set before the bind. Header-complete mode is requested exactly for a non-loopback device. Feedback mode is requested exactly for loopback on FreeBSD. A read timeout is sent exactly when configured, with its value. No request carries the write timeout |
| Bpf.FirstFailing | src/datalink/bpf.rs:152-221 | the first request that fails, every earlier one having succeeded |
| Bpf.OutcomeCloses | src/datalink/bpf.rs:152-221 | a failed set-up closes the descriptor once, as the last call, and reports the error of the failing request just before the close; success closes nothing |
| Bpf.OutcomeConcat | src/datalink/bpf.rs:152-221 | issuing two request lists in a row is issuing the first and, when it succeeds, the second |
| Bpf.SetTimeout | src/datalink/bpf.rs:80-92 | one ioctl, tested with `< 0`; on failure the descriptor is closed and the ioctl's error returned |
| Bpf.SetFeedbackMode | src/datalink/bpf.rs:125-141 | FreeBSD makes one ioctl, closing on failure; macOS does nothing |
| Bpf.CheckedIoctl | src/datalink/bpf.rs:155-161 | one ioctl tested with `== -1`; on failure the error is taken, then the descriptor closed |
| Bpf.Attach | src/datalink/bpf.rs:152-191 | the buffer-length, bind, immediate and link-type requests, issued as the set-up outcome says |
| Bpf.SetModes | src/datalink/bpf.rs:193-221 | feedback or header-complete mode by link type, then the read timeout when configured, issued as the outcome says |
| Bpf.Configure | src/datalink/bpf.rs:147-221 | the whole plan on the open descriptor. On success the device is loopback exactly when the link type is `DLT_NULL`, and the read buffer is the configured size plus 14 bytes on loopback |
| Bpf.Setup | src/datalink/bpf.rs:97-221 | `channel` up to building the halves does exactly what `SetupResult` specifies |
| Bpf.SetupResultCases | src/datalink/bpf.rs:143-221 | a failed open returns the last open's error and closes nothing. After an open, failure closes the descriptor once, as the last call, returning the failing ioctl's error. Success closes nothing and carries the configured sizes and timeout |
| Bpf.OpensThenOutcome | src/datalink/bpf.rs:143-221 | the opens before the set-up never contain a close, so the close-once property survives prefixing them |
| Bpf.GetFdOpensOnly | src/datalink/bpf.rs:99-123 | every call `get_fd` makes is an open |
| Bpf.Channel | src/datalink/bpf.rs:97-242 | on success, fresh sender and receiver share one descriptor whose trace is the set-up's calls, with zeroed write and read buffers of the set-up's sizes; on failure, the set-up's error |
| Bpf.FirstSendFailure | src/datalink/bpf.rs:276-294 | the first packet whose `select` or `write` returns -1, every earlier one having got through |
| Bpf.SentCalls | src/datalink/bpf.rs:276-294 | a `select` and a `write` per packet, two calls each |
| Bpf.SentCallsAfterFill | src/datalink/bpf.rs:271-294 | filling one slot does not change what later packets write |
| Bpf.SendFromResult | src/datalink/bpf.rs:271-297 | the batch succeeds exactly when no `select` or `write` fails; otherwise it returns the error left by the last call made |
| Bpf.SendFromBuffer | src/datalink/bpf.rs:271-275 | the callback has run on every slot up to and including the first failing packet, and on no later slot |
| Bpf.SendFromCallsAll | src/datalink/bpf.rs:263-297 | with no failure, each packet makes its `select` and a `write` of the callback's output for its original slot, minus the loopback header |
| Bpf.SendFromCallsFailing | src/datalink/bpf.rs:271-297 | with a first failure at packet `n`, the calls are those of packets before `n`, then `n`'s `select` and (if that succeeded) its `write`, and nothing after |
| Bpf.Batch | src/datalink/bpf.rs:260-262 | a batch not strictly inside the write buffer is refused, with nothing done |
| Bpf.BatchEffect | src/datalink/bpf.rs:254-298 | a batch that fits reports success exactly when no packet fails, otherwise the last call's error. The buffer and the calls are as the two lemmas above state |
| Bpf.Sender.BuildAndSend | src/datalink/bpf.rs:254-298 | the result, the write buffer and the appended trace are those of `Batch` |
| Bpf.Sender.SendBatch | src/datalink/bpf.rs:271-297 | the send loop's result, buffer and trace are those of `SendFrom` |
| Bpf.Sender.SendPacket | src/datalink/bpf.rs:271-294 | one slot filled, one `select`, then a `write` of the slot minus the loopback header only if the `select` got through |
| Bpf.Sender.SendTo | src/datalink/bpf.rs:300-332 | one `select`, then one `write` of the packet minus the loopback header unless the `select` failed; the buffer is untouched |
| Bpf.SendToIsOnePacketBatch | src/datalink/bpf.rs:300-332 | `send_to` makes the calls of a one-packet batch that copies the packet into its slot, and ends the same way |
| Bpf.Receiver.Iter | src/datalink/bpf.rs:341-350 | a fresh iterator over this receiver with an empty queue |
| Bpf.FrameIterator.Next | src/datalink/bpf.rs:357-397 | with records queued, no call: zeros plus the first payload. Otherwise one `read` past the header slot. A result of 0 or less is returned as its error. Any other result is scanned and its first record handed out. The buffer changes only by the read and the zero-fill |
| Bpf.FrameIterator.Fetch | src/datalink/bpf.rs:366-396 | the empty-queue path of `next`, as above |
| Bpf.FrameIterator.Refill | src/datalink/bpf.rs:361-388 | the read is placed past the header slot and the queue holds every record of it |
| Bpf.FrameIterator.Pop | src/datalink/bpf.rs:390-396 | the first queued record taken: zeros plus its payload, the header slot zeroed in place |
| WinPcap.DefaultConfig | src/datalink/winpcap.rs:77-85 | 4096-byte buffers and no read timeout |
| WinPcap.FromDatalink | src/datalink/winpcap.rs:67-75 | buffer sizes and read timeout carried over unchanged |
| WinPcap.DriverReadTimeout | src/datalink/winpcap.rs:117-120 | 0 without a timeout. Otherwise the value is congruent modulo 2^32 to seconds times 1,000,000 plus whole sub-second milliseconds, equal to it below 2^31, and always an `i32` |
| WinPcap.SubSecondTimeout | src/datalink/winpcap.rs:117-120 | a sub-second timeout reaches the driver as its whole milliseconds |
| WinPcap.OneSecondTimeout | src/datalink/winpcap.rs:118 | one second is passed as 1,000,000, a thousand times the value for 999 milliseconds |
| WinPcap.LongTimeoutWraps | src/datalink/winpcap.rs:117-120 | 2147 s still fits; 2148 s wraps to a negative value |
| WinPcap.SetupPlan | src/datalink/winpcap.rs:97-159 | nine calls, starting with the adapter's open |
| WinPcap.FirstFailingStep | src/datalink/winpcap.rs:97-159 | the first set-up call that fails, every earlier one having succeeded |
| WinPcap.PlanHasNoCleanup | src/datalink/winpcap.rs:97-159 | no step of a successful set-up frees a packet or closes the adapter |
| WinPcap.SetupShape | src/datalink/winpcap.rs:97-159 | initialising a packet never fails. A failed open or setting ends the calls there. A failed allocation appends its clean-up. No failure makes the whole plan. An error is the one the last call left |
| WinPcap.SetupSucceedsIff | src/datalink/winpcap.rs:97-173 | `channel` succeeds exactly when no step fails, and then makes every call of the plan and no close; a failure reports the last call's error |
| WinPcap.SetupClosesIff | src/datalink/winpcap.rs:132-153 | the adapter is closed exactly when open and settings succeed and an allocation fails, then once and as the last call |
| WinPcap.SetupFreesIff | src/datalink/winpcap.rs:146-153 | the read packet is freed exactly when the write-packet allocation fails after it, just before the close |
| WinPcap.SetupLeaksAdapter | src/datalink/winpcap.rs:105-130 | a setting that fails after a successful open returns without closing the adapter |
| WinPcap.Setup | src/datalink/winpcap.rs:97-159 | `channel` up to building the halves does exactly what `SetupResult` specifies |
| WinPcap.OpenAndConfigure | src/datalink/winpcap.rs:97-130 | the open and four settings; it goes on exactly when all succeed, and otherwise ends as `SetupResult` says |
| WinPcap.AllocatePackets | src/datalink/winpcap.rs:132-159 | the allocations and initialisations after a good configuration end as `SetupResult` says |
| WinPcap.Stopped | src/datalink/winpcap.rs:97-153 | a set-up stopped at its first failing step returns that step's error, or the close's after an allocation failure's clean-up |
| WinPcap.Channel | src/datalink/winpcap.rs:89-173 | on success, fresh sender and receiver share one adapter whose trace is the set-up's calls, each with its own zeroed buffer and `Length` set to its size as `u32`; on failure, the set-up's error |
| WinPcap.FirstFailedSend | src/datalink/winpcap.rs:208-218 | the first packet whose send returns 0, every earlier one having got through |
| WinPcap.SendFromResult | src/datalink/winpcap.rs:196-220 | the batch succeeds exactly when no send fails, with one send per packet up to and including the first failure, whose error it returns |
| WinPcap.SendFromBuffer | src/datalink/winpcap.rs:196-200 | the callback has run on every slot up to and including the first failing packet, and on no later slot |
| WinPcap.LaterSendsRepeat | src/datalink/winpcap.rs:196-210 | once the batch is past packet 0, every later send transmits slot 0 again |
| WinPcap.SendsFirstSlot | src/datalink/winpcap.rs:192-210 | every send of a batch transmits the callback's output for the FIRST slot: the packet's `Buffer` is always the start of the write buffer |
| WinPcap.Batch | src/datalink/winpcap.rs:188-191 | a batch not strictly inside the write packet's `Length` is refused, with nothing done |
| WinPcap.Sender.BuildAndSend | src/datalink/winpcap.rs:183-222 | result, buffer and appended trace are those of `Batch`, and `Length` is the same afterwards whatever the outcome |
| WinPcap.Sender.SendBatch | src/datalink/winpcap.rs:196-220 | the loop's result, buffer and trace are those of `SendFrom`, with `Length` restored |
| WinPcap.Sender.SendChunk | src/datalink/winpcap.rs:197-218 | one slot filled, `Length` saved, set to the packet size and restored around one send of the buffer's first `size` bytes |
| WinPcap.Sender.SendTo | src/datalink/winpcap.rs:224-235 | `send_to` is `build_and_send` of one packet of the frame's length with a copying callback |
| WinPcap.SendToOutcome | src/datalink/winpcap.rs:224-235 | a frame that fits is sent once, exactly, and sits at the buffer's start; a frame that does not fit sends nothing |
| WinPcap.Receiver.Iter | src/datalink/winpcap.rs:247-256 | a fresh iterator over this receiver with an empty queue |
| WinPcap.FrameIterator.Next | src/datalink/winpcap.rs:266-296 | with records queued, no call and the first payload. Otherwise one receive. A result of 0 is returned as its error. Anything else puts the bytes at the buffer's start, sets `ulBytesReceived`, queues every record and hands out the first payload |
| WinPcap.FrameIterator.Fetch | src/datalink/winpcap.rs:269-295 | the empty-queue path of `next`, as above |
| WinPcap.FrameIterator.Refill | src/datalink/winpcap.rs:273-288 | the received bytes are placed at the start of the buffer and the queue holds every record of them |
| WinPcap.FrameIterator.Pop | src/datalink/winpcap.rs:290-295 | the first queued record taken, read in place with the buffer unchanged |

## Left out

- OS and driver calls themselves are not modelled. Nothing is opened, read or written; each call's return value is a parameter and each call is a trace entry.
- These are not modelled, and do not change any modelled value:
  - `Arc`, `Drop` (closing the descriptor or adapter when the last half goes away) and the `Send`/`Sync` impls;
  - the freeing of the packets.
- `internal::duration_to_timeval`, `fd_set`/`FD_ZERO`/`FD_SET` and the `select` arguments other than the descriptor and the timeout are not part of this model. A `select` is recorded with the write timeout it is given.
- The `bindings::bpf` and `bindings::winpcap` modules are not part of this model. One `bpf_hdr` layout is used for every platform: that of macOS and WinPcap (and of 32-bit FreeBSD), whose header starts with a 32-bit timestamp pair. A 64-bit FreeBSD starts the header with a native `timeval` and aligns to `sizeof(long)`; its offsets and alignment are not modelled. The constants of the layout used are: `bh_caplen` at byte 8, `bh_hdrlen` at 16, 18 bytes in all, little-endian, `BPF_ALIGNMENT` 4. These constants are taken as well:
  - `DLT_NULL` = 0;
  - `IFNAMSIZ` = 16;
  - `NDIS_PACKET_TYPE_PROMISCUOUS` = 0x20.
- BpfRecords.WordAlign: rounds up by division, the arithmetic meaning of the bitmask form `(x + A - 1) & !(A - 1)`; the two agree for a power-of-two alignment.
- The loopback device's kernel behaviour is not modelled: it prepends the address-family word to written packets and loops writes back.
- `usize` and `isize` overflow are not modelled (`num_packets * packet_size`, `start + len`, pointer offsets). The model's integers are unbounded.
- WinPcap.DriverReadTimeout: the overflow panic of `as_secs() * 1_000_000` in a debug build is not modelled; the wrapped value has the same low 32 bits.
- Inputs that make the source panic are excluded by `requires`, not modelled as failures:
  - an interface name longer than 16 bytes (BPF `ifr_name` index);
  - a zero byte in the name (WinPcap `CString::new(..).unwrap()`);
  - a zero packet size, or a fitting batch whose packet is shorter than an Ethernet header (`chunks_mut`, `MutableEthernetPacket::new(..).unwrap()`);
  - a frame shorter than 14 bytes (`EthernetPacket::new(..).unwrap()`);
  - a WinPcap receive that reports success with no bytes (`pop_front().unwrap()`).
- The bytes a read or receive delivers are trusted to be a well-formed record stream that fits the buffer (`WellFormed`). The source trusts the kernel or driver for this and does not check it; `caplen - header_size` could otherwise underflow.
- A record whose `bh_hdrlen + bh_caplen` is 0 is excluded by `WellFormed`. On such a record `BPF_WORDALIGN(0)` is 0, so the cursor of the `while ptr < end` loop never moves. The queue then grows without end, and neither backend's `next` returns (src/datalink/bpf.rs:378-387, src/datalink/winpcap.rs:279-287). The model does not capture that non-termination.
- The capacity hint of `VecDeque::with_capacity(buflen / 64)` in `iter` is not modelled; it does not affect behaviour.
- These source behaviours are modelled as written, not corrected:
  - The BPF write timeout is used only as the `select` timeout; no `ioctl` carries it (`Bpf.SetupPlanContents`).
  - The batch size check is `>=`, so a batch exactly filling the buffer is refused.
  - A WinPcap setting that fails after the open leaves the adapter open (`WinPcap.SetupLeaksAdapter`).
  - WinPcap's `build_and_send` sends slot 0 for every packet (`WinPcap.SendsFirstSlot`).
  - The WinPcap read timeout scales seconds by 1,000,000 but milliseconds by 1 (`WinPcap.OneSecondTimeout`).
