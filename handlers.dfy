/**
 * The GET and PUT command handlers of the device service, over one device's
 * `end_dev_params`: lazy open of the socket, the per-device mutex, and the
 * batch loops that marshal frames.
 */
module Handlers {
  import opened Wrappers
  import opened CanTypes
  import opened FrameCodec
  import opened Transport
  import DeviceAddress

  /** The result of one read(): the byte count and the frame variable after it. */
  datatype ReadResult = ReadResult(nbytes: int, frame: CanFrame)

  // ---------------------------------------------------------------------------
  // Traces of one handler call.

  /**
   * The events of one handler call: take the lock; open the socket first if
   * it was not open; on a failed open release the lock at once; otherwise do
   * the batch's I/O and release the lock.
   */
  function Session(wasOpened: bool, o: OpenOutcome, io: seq<Event>): (t: seq<Event>)
  {
    if wasOpened then [Lock] + io + [Unlock]
    else if o.ret != 0 then [Lock] + o.calls + [Unlock]
    else [Lock] + o.calls + io + [Unlock]
  }

  /** The lock is the first event, its release the last, and neither occurs in between. */
  predicate LockedThroughout(t: seq<Event>)
  {
    && |t| >= 2 && t[0] == Lock && t[|t| - 1] == Unlock
    && forall i :: 0 < i < |t| - 1 ==> !t[i].Lock? && !t[i].Unlock?
  }

  predicate IsIo(e: Event)
  {
    e.Read? || e.Write?
  }

  predicate AllIo(t: seq<Event>)
  {
    forall i :: 0 <= i < |t| ==> IsIo(t[i])
  }

  predicate AllOpenSteps(t: seq<Event>)
  {
    forall i :: 0 <= i < |t| ==> IsOpenStep(t[i])
  }

  /** How many times the socket was created, i.e. how many opens were attempted. */
  function OpenAttempts(t: seq<Event>): (n: nat)
  {
    if t == [] then 0 else (if t[0].Socket? then 1 else 0) + OpenAttempts(t[1..])
  }

  function IoCount(t: seq<Event>): (n: nat)
  {
    if t == [] then 0 else (if IsIo(t[0]) then 1 else 0) + IoCount(t[1..])
  }

  lemma {:induction false} CountsAppend(a: seq<Event>, b: seq<Event>)
    ensures OpenAttempts(a + b) == OpenAttempts(a) + OpenAttempts(b)
    ensures IoCount(a + b) == IoCount(a) + IoCount(b)
    decreases |a|
  {
    if a != [] {
      assert (a + b)[0] == a[0];
      assert (a + b)[1..] == a[1..] + b;
      CountsAppend(a[1..], b);
    } else {
      assert a + b == b;
    }
  }

  lemma {:induction false} CountsOfIo(t: seq<Event>)
    requires AllIo(t)
    ensures OpenAttempts(t) == 0 && IoCount(t) == |t|
    decreases |t|
  {
    if t != [] {
      CountsOfIo(t[1..]);
    }
  }

  lemma {:induction false} CountsOfOpen(t: seq<Event>)
    requires AllOpenSteps(t) && |t| > 0 && t[0] == Socket
    requires forall i :: 1 <= i < |t| ==> !t[i].Socket?
    ensures OpenAttempts(t) == 1 && IoCount(t) == 0
  {
    var rest := t[1..];
    assert forall i :: 0 <= i < |rest| ==> !rest[i].Socket? && !IsIo(rest[i]);
    NoSocketNoIo(rest);
  }

  lemma {:induction false} NoSocketNoIo(t: seq<Event>)
    requires forall i :: 0 <= i < |t| ==> !t[i].Socket? && !IsIo(t[i])
    ensures OpenAttempts(t) == 0 && IoCount(t) == 0
    decreases |t|
  {
    if t != [] {
      NoSocketNoIo(t[1..]);
    }
  }

  /** A session keeps the lock from its first event to its last. */
  lemma SessionLocked(wasOpened: bool, o: OpenOutcome, io: seq<Event>)
    requires AllOpenSteps(o.calls) && AllIo(io)
    ensures LockedThroughout(Session(wasOpened, o, io))
  {
    var t := Session(wasOpened, o, io);
    forall i | 0 < i < |t| - 1
      ensures !t[i].Lock? && !t[i].Unlock?
    {
      if wasOpened {
        assert t[i] == io[i - 1];
      } else if o.ret != 0 {
        assert t[i] == o.calls[i - 1];
      } else if i - 1 < |o.calls| {
        assert t[i] == o.calls[i - 1];
      } else {
        assert t[i] == io[i - 1 - |o.calls|];
      }
    }
  }

  /**
   * Lazy open: a session of a device that was not open attempts the open
   * exactly once, and one that was open never does; a failed open is
   * followed by no I/O, and otherwise the batch's I/O is all there is.
   */
  lemma SessionOpens(wasOpened: bool, o: OpenOutcome, io: seq<Event>)
    requires AllOpenSteps(o.calls) && |o.calls| > 0 && o.calls[0] == Socket
    requires forall i :: 1 <= i < |o.calls| ==> !o.calls[i].Socket?
    requires AllIo(io)
    ensures OpenAttempts(Session(wasOpened, o, io)) == if wasOpened then 0 else 1
    ensures IoCount(Session(wasOpened, o, io)) == if !wasOpened && o.ret != 0 then 0 else |io|
  {
    CountsOfIo(io);
    CountsOfOpen(o.calls);
    NoSocketNoIo([Lock]);
    NoSocketNoIo([Unlock]);
    if wasOpened {
      CountsAppend([Lock], io);
      CountsAppend([Lock] + io, [Unlock]);
    } else if o.ret != 0 {
      CountsAppend([Lock], o.calls);
      CountsAppend([Lock] + o.calls, [Unlock]);
    } else {
      CountsAppend([Lock], o.calls);
      CountsAppend([Lock] + o.calls, io);
      CountsAppend([Lock] + o.calls + io, [Unlock]);
    }
  }

  /** The reads of a GET batch: one read() per request, on the device's socket. */
  function Reads(fd: int, n: nat): (t: seq<Event>)
    ensures |t| == n && AllIo(t)
    ensures forall i :: 0 <= i < n ==> t[i] == Read(fd)
  {
    seq(n, _ => Read(fd))
  }

  /** The writes of a PUT batch, one write() per frame, in order. */
  function Writes(fd: int, frames: seq<CanFrame>): (t: seq<Event>)
    ensures |t| == |frames| && AllIo(t)
    ensures forall i :: 0 <= i < |frames| ==> t[i] == Write(fd, frames[i])
  {
    seq(|frames|, i requires 0 <= i < |frames| => Write(fd, frames[i]))
  }

  /** GET's result: the outcome of the last read, and false for an empty batch. */
  predicate LastReadOk(results: seq<ReadResult>)
  {
    |results| > 0 && results[|results| - 1].nbytes > 0
  }

  // ---------------------------------------------------------------------------
  // PUT batches.

  /** The index of the first write() that did not transfer a whole frame, or |writes|. */
  function FirstShortWrite(writes: seq<int>): (k: nat)
    ensures k <= |writes|
    ensures forall j :: 0 <= j < k ==> writes[j] == CanFrameSize
    ensures k < |writes| ==> writes[k] != CanFrameSize
  {
    if writes == [] || writes[0] != CanFrameSize then 0 else 1 + FirstShortWrite(writes[1..])
  }

  /**
   * The number of frames PUT hands to write(): every write before the last
   * attempted one was full; an early stop is caused by a short write; and
   * when every write is full, all frames are attempted.
   */
  function Attempted(writes: seq<int>): (n: nat)
    ensures n <= |writes|
    ensures forall j :: 0 <= j < n - 1 ==> writes[j] == CanFrameSize
    ensures n < |writes| ==> n > 0 && writes[n - 1] != CanFrameSize
    ensures (forall j :: 0 <= j < |writes| ==> writes[j] == CanFrameSize) ==> n == |writes|
  {
    var k := FirstShortWrite(writes);
    if k < |writes| then k + 1 else k
  }

  /** The frame variable as the last decode left it, or as it was before the batch. */
  function LastFrame(prev: CanFrame, frames: seq<CanFrame>): (f: CanFrame)
  {
    if frames == [] then prev else frames[|frames| - 1]
  }

  /**
   * The frames PUT builds from a batch of value arrays: each decoded over the
   * frame variable as the previous decode left it.
   */
  function PutFrames(prev: CanFrame, vs: seq<seq<uint32>>): (fs: seq<CanFrame>)
    requires forall k :: 0 <= k < |vs| ==> WellFormed(vs[k])
    ensures |fs| == |vs|
  {
    if vs == [] then []
    else
      var fs := PutFrames(prev, vs[..|vs| - 1]);
      fs + [DecodeInto(LastFrame(prev, fs), vs[|vs| - 1])]
  }

  /**
   * Frames are written in index order: the k-th frame carries the id, the
   * dlc and the data of the k-th value array.
   */
  lemma {:induction false} PutFramesAt(prev: CanFrame, vs: seq<seq<uint32>>, k: nat)
    requires forall i :: 0 <= i < |vs| ==> WellFormed(vs[i])
    requires k < |vs|
    ensures var f := PutFrames(prev, vs)[k];
      && f.canId == vs[k][0]
      && f.canDlc == vs[k][1] % 0x100
      && forall i :: 0 <= i < f.canDlc ==> f.data[i] == vs[k][i + 2] % 0x100
    decreases |vs|
  {
    if k < |vs| - 1 {
      var init := vs[..|vs| - 1];
      PutFramesAt(prev, init, k);
      assert PutFrames(prev, vs)[k] == PutFrames(prev, init)[k];
    }
  }

  /** One more value array decodes one more frame, over the last one. */
  lemma PutFramesSnoc(prev: CanFrame, vs: seq<seq<uint32>>, k: nat)
    requires k < |vs| && forall i :: 0 <= i <= k ==> WellFormed(vs[i])
    ensures var fs := PutFrames(prev, vs[..k]);
      PutFrames(prev, vs[..k + 1]) == fs + [DecodeInto(LastFrame(prev, fs), vs[k])]
  {
    assert vs[..k + 1][..k] == vs[..k];
  }

  lemma WritesSnoc(fd: int, frames: seq<CanFrame>, f: CanFrame)
    ensures Writes(fd, frames) + [Write(fd, f)] == Writes(fd, frames + [f])
  {
  }

  /** PUT's loop result restated over the attempted prefix. */
  lemma PutBatchAttempted(fd: int, frame0: CanFrame, values: seq<seq<uint32>>, writes: seq<int>, success: bool, io: seq<Event>)
    requires |values| == |writes|
    requires forall k :: 0 <= k < |values| && k <= FirstShortWrite(writes) ==> WellFormed(values[k])
    requires success == (FirstShortWrite(writes) == |values|)
    requires success ==> io == Writes(fd, PutFrames(frame0, values))
    requires !success ==> io == Writes(fd, PutFrames(frame0, values[..FirstShortWrite(writes) + 1]))
    ensures forall k :: 0 <= k < Attempted(writes) ==> WellFormed(values[k])
    ensures io == Writes(fd, PutFrames(frame0, values[..Attempted(writes)]))
  {
    if success {
      assert values[..Attempted(writes)] == values;
    }
  }

  /** One turn of PUT's loop: the next frame is decoded over the last one and written. */
  lemma PutStep(fd: int, frame0: CanFrame, values: seq<seq<uint32>>, k: nat, frame: CanFrame)
    requires k < |values| && forall i :: 0 <= i <= k ==> WellFormed(values[i])
    requires frame == DecodeInto(LastFrame(frame0, PutFrames(frame0, values[..k])), values[k])
    ensures Writes(fd, PutFrames(frame0, values[..k])) + [Write(fd, frame)] == Writes(fd, PutFrames(frame0, values[..k + 1]))
    ensures frame == LastFrame(frame0, PutFrames(frame0, values[..k + 1]))
  {
    PutFramesSnoc(frame0, values, k);
    WritesSnoc(fd, PutFrames(frame0, values[..k]), frame);
  }

  // ---------------------------------------------------------------------------
  // The PUT loop counter as the source declares it.

  /**
   * The values of the source's `uint8_t k` for which the PUT loop body runs,
   * within `fuel` iterations and assuming every write succeeds: `k < nvalues`
   * compares against a uint32_t count while `k++` wraps at 256.
   */
  function AsWrittenPutIndices(k: uint8, nvalues: uint32, fuel: nat): (ks: seq<uint8>)
    ensures |ks| <= fuel
    ensures forall j :: 0 <= j < |ks| ==> ks[j] < nvalues
    decreases fuel
  {
    if fuel == 0 || k >= nvalues then [] else [k] + AsWrittenPutIndices(ToUint8(k + 1), nvalues, fuel - 1)
  }

  /** Below 256 values the as-written loop visits 0 .. nvalues-1 once each and exits. */
  lemma {:induction false} AsWrittenPutBelow256(k: uint8, nvalues: uint32, fuel: nat)
    requires k <= nvalues < 0x100 && fuel >= nvalues - k
    ensures AsWrittenPutIndices(k, nvalues, fuel) == seq(nvalues - k, i requires 0 <= i < nvalues - k => k + i)
    decreases nvalues - k
  {
    if k < nvalues {
      AsWrittenPutBelow256(k + 1, nvalues, fuel - 1);
    }
  }

  /** From 256 values on the as-written loop condition never fails: it runs as long as writes succeed. */
  lemma {:induction false} AsWrittenPutNeverExits(k: uint8, nvalues: uint32, fuel: nat)
    requires nvalues >= 0x100
    ensures |AsWrittenPutIndices(k, nvalues, fuel)| == fuel
    decreases fuel
  {
    if fuel > 0 {
      AsWrittenPutNeverExits(ToUint8(k + 1), nvalues, fuel - 1);
    }
  }

  /**
   * From 256 values on the loop comes back to the first value array: the
   * 257th iteration writes values[0] a second time.
   */
  lemma AsWrittenPutRewritesFirst(nvalues: uint32, fuel: nat)
    requires nvalues >= 0x100 && fuel > 0x100
    ensures |AsWrittenPutIndices(0, nvalues, fuel)| == fuel
    ensures AsWrittenPutIndices(0, nvalues, fuel)[0x100] == AsWrittenPutIndices(0, nvalues, fuel)[0] == 0
  {
    AsWrittenPutPeriodic(0, nvalues, fuel, 0x100);
    AsWrittenPutPeriodic(0, nvalues, fuel, 0);
  }

  lemma {:induction false} AsWrittenPutPeriodic(k: uint8, nvalues: uint32, fuel: nat, n: nat)
    requires nvalues >= 0x100 && n < fuel
    ensures |AsWrittenPutIndices(k, nvalues, fuel)| == fuel
    ensures AsWrittenPutIndices(k, nvalues, fuel)[n] == (k + n) % 0x100
    decreases n
  {
    AsWrittenPutNeverExits(k, nvalues, fuel);
    if n > 0 {
      AsWrittenPutPeriodic(ToUint8(k + 1), nvalues, fuel - 1, n - 1);
    }
  }

  // ---------------------------------------------------------------------------
  // The device.

  /** One device's end_dev_params: its address fields, the open flag, the socket and the mutex. */
  class EndDevParams {
    const canInterface: string
    const filterMsgId: uint32
    const filterMask: uint32
    const timeout: uint8
    var canIsOpened: bool
    var sockFd: int
    /** The per-device pthread mutex, as held or not held. */
    var mutexHeld: bool

    /** The address can_create_address returned, with its mutex initialised (not held). */
    constructor (a: DeviceAddress.Address)
      requires !a.canIsOpened
      ensures !canIsOpened
      ensures canInterface == a.canInterface && filterMsgId == a.filterMsgId
      ensures filterMask == a.filterMask && timeout == a.timeout
      ensures canIsOpened == a.canIsOpened && sockFd == a.sockFd && !mutexHeld
    {
      canInterface, filterMsgId, filterMask, timeout := a.canInterface, a.filterMsgId, a.filterMask, a.timeout;
      canIsOpened, sockFd, mutexHeld := a.canIsOpened, a.sockFd, false;
    }

    /** OpenCan on this device's parameters. */
    function Open(os: OpenOracle): (o: OpenOutcome)
    {
      OpenCan(canInterface, timeout, filterMsgId, filterMask, os)
    }

    /**
     * The entry sequence both handlers share: take the mutex; if the socket
     * is not open, run OpenCan, store its descriptor and, on failure, release
     * the mutex and give up; otherwise mark the socket open.
     */
    method LockAndOpen(os: OpenOracle) returns (ok: bool, trace: seq<Event>)
      requires !mutexHeld
      modifies this
      ensures ok == (old(canIsOpened) || Open(os).ret == 0)
      ensures canIsOpened == ok && mutexHeld == ok
      ensures sockFd == if old(canIsOpened) then old(sockFd) else Open(os).sockFd
      ensures ok ==> trace == [Lock] + (if old(canIsOpened) then [] else Open(os).calls)
      ensures !ok ==> trace == [Lock] + Open(os).calls + [Unlock]
    {
      mutexHeld := true;
      trace := [Lock];
      if !canIsOpened {
        var r := Open(os);
        sockFd := r.sockFd;
        trace := trace + r.calls;
        if r.ret != 0 {
          mutexHeld := false;
          trace := trace + [Unlock];
          return false, trace;
        }
        canIsOpened := true;
      }
      ok := true;
    }

    /**
     * can_get_handler: one read() per request while holding the lock; a
     * successful read stores the frame's encoding in its reading, a failed one
     * leaves the reading as it was; the result is the last read's outcome.
     */
    method GetHandler(nreadings: uint32, readings: array<Option<seq<uint32>>>, os: OpenOracle, results: seq<ReadResult>)
        returns (success: bool, trace: seq<Event>)
      requires !mutexHeld
      requires readings.Length == nreadings && |results| == nreadings
      requires forall i :: 0 <= i < |results| && results[i].nbytes > 0 ==> results[i].frame.canDlc <= CanMaxDlen
      modifies this, readings
      ensures !mutexHeld
      ensures canIsOpened == (old(canIsOpened) || Open(os).ret == 0)
      ensures sockFd == if old(canIsOpened) then old(sockFd) else Open(os).sockFd
      ensures trace == Session(old(canIsOpened), Open(os), Reads(sockFd, nreadings))
      ensures LockedThroughout(trace)
      ensures success == (canIsOpened && LastReadOk(results))
      ensures forall i :: 0 <= i < nreadings ==>
        readings[i] == if canIsOpened && results[i].nbytes > 0 then Some(Encode(results[i].frame)) else old(readings[i])
    {
      OpenCanCalls(canInterface, timeout, filterMsgId, filterMask, os);
      SessionLocked(canIsOpened, Open(os), Reads(if canIsOpened then sockFd else Open(os).sockFd, nreadings));
      var ok;
      ok, trace := LockAndOpen(os);
      if !ok {
        return false, trace;
      }
      var io;
      success, io := ReadBatch(sockFd, nreadings, readings, results);
      mutexHeld := false;
      trace := trace + io + [Unlock];
    }

    /** GET's loop: one read() per request, the result flag overwritten each time. */
    static method ReadBatch(fd: int, nreadings: uint32, readings: array<Option<seq<uint32>>>, results: seq<ReadResult>)
        returns (success: bool, io: seq<Event>)
      requires readings.Length == nreadings && |results| == nreadings
      requires forall i :: 0 <= i < |results| && results[i].nbytes > 0 ==> results[i].frame.canDlc <= CanMaxDlen
      modifies readings
      ensures io == Reads(fd, nreadings)
      ensures success == LastReadOk(results)
      ensures forall i :: 0 <= i < nreadings ==>
        readings[i] == if results[i].nbytes > 0 then Some(Encode(results[i].frame)) else old(readings[i])
    {
      success := false;
      io := [];
      var data := new uint32[128](_ => 0);
      var i: nat := 0;
      while i < nreadings
        invariant i <= nreadings
        invariant io == Reads(fd, i)
        invariant success == (i > 0 && results[i - 1].nbytes > 0)
        invariant forall m :: 0 <= m < i ==>
          readings[m] == if results[m].nbytes > 0 then Some(Encode(results[m].frame)) else old(readings[m])
        invariant forall m :: i <= m < nreadings ==> readings[m] == old(readings[m])
      {
        io := io + [Read(fd)];
        assert Reads(fd, i) + [Read(fd)] == Reads(fd, i + 1);
        var nbytes, frame := results[i].nbytes, results[i].frame;
        if nbytes <= 0 {
          success := false;
        } else {
          EncodeInto(frame, data);
          readings[i] := Some(data[..frame.canDlc + 2]);
          success := true;
        }
        i := i + 1;
      }
    }

    /** The body of GET's encode: id, dlc and the data bytes into the front of `data`, in place. */
    static method EncodeInto(frame: CanFrame, data: array<uint32>)
      requires frame.canDlc <= CanMaxDlen && data.Length == 128
      modifies data
      ensures data[..frame.canDlc + 2] == Encode(frame)
      ensures data[frame.canDlc + 2..] == old(data[frame.canDlc + 2..])
    {
      data[0] := frame.canId;
      data[1] := frame.canDlc;
      var j, k := 2, 0;
      while j < frame.canDlc + 2
        invariant j == k + 2 && k <= frame.canDlc
        invariant data[0] == frame.canId && data[1] == frame.canDlc
        invariant forall m :: 0 <= m < k ==> data[m + 2] == frame.data[m]
        invariant forall m :: j <= m < 128 ==> data[m] == old(data[m])
      {
        data[j] := frame.data[k];
        j, k := j + 1, k + 1;
      }
    }

    /**
     * can_put_handler (with a full-width loop counter): decodes and writes the
     * value arrays in order while holding the lock, stopping after the first
     * write() that does not transfer a whole frame; true when every write did,
     * including for an empty batch. The decoder never checks its input, so
     * every array it reaches must be well formed.
     */
    method PutHandler(nvalues: uint32, values: seq<seq<uint32>>, os: OpenOracle, writes: seq<int>, frame0: CanFrame)
        returns (success: bool, trace: seq<Event>)
      requires !mutexHeld
      requires |values| == nvalues && |writes| == nvalues
      requires canIsOpened || Open(os).ret == 0 ==>
        forall k :: 0 <= k < |values| && k <= FirstShortWrite(writes) ==> WellFormed(values[k])
      modifies this
      ensures !mutexHeld
      ensures canIsOpened == (old(canIsOpened) || Open(os).ret == 0)
      ensures sockFd == if old(canIsOpened) then old(sockFd) else Open(os).sockFd
      ensures success == (canIsOpened && FirstShortWrite(writes) == nvalues)
      ensures canIsOpened ==> forall k :: 0 <= k < Attempted(writes) ==> WellFormed(values[k])
      ensures trace == Session(old(canIsOpened), Open(os),
        if canIsOpened then Writes(sockFd, PutFrames(frame0, values[..Attempted(writes)])) else [])
      ensures LockedThroughout(trace)
    {
      ghost var wasOpened := canIsOpened;
      OpenCanCalls(canInterface, timeout, filterMsgId, filterMask, os);
      var ok;
      ok, trace := LockAndOpen(os);
      if !ok {
        SessionLocked(wasOpened, Open(os), []);
        return false, trace;
      }
      var io;
      success, io := WriteBatch(sockFd, nvalues, values, writes, frame0);
      PutBatchAttempted(sockFd, frame0, values, writes, success, io);
      mutexHeld := false;
      trace := trace + io + [Unlock];
      SessionLocked(wasOpened, Open(os), io);
    }

    /** PUT's loop: decode and write each value array in order; stop at the first short write. */
    static method WriteBatch(fd: int, nvalues: uint32, values: seq<seq<uint32>>, writes: seq<int>, frame0: CanFrame)
        returns (success: bool, io: seq<Event>)
      requires |values| == nvalues && |writes| == nvalues
      requires forall k :: 0 <= k < |values| && k <= FirstShortWrite(writes) ==> WellFormed(values[k])
      ensures success == (FirstShortWrite(writes) == nvalues)
      ensures success ==> io == Writes(fd, PutFrames(frame0, values))
      ensures !success ==> io == Writes(fd, PutFrames(frame0, values[..FirstShortWrite(writes) + 1]))
    {
      var canId, canDlc := frame0.canId, frame0.canDlc;
      var data := new uint8[8](i requires 0 <= i < 8 => frame0.data[i]);
      io := [];
      ghost var stop := FirstShortWrite(writes);
      var k: nat := 0;
      while k < nvalues
        invariant k <= nvalues && k <= stop
        invariant io == Writes(fd, PutFrames(frame0, values[..k]))
        invariant CanFrame(canId, canDlc, data[..]) == LastFrame(frame0, PutFrames(frame0, values[..k]))
      {
        ghost var before := CanFrame(canId, canDlc, data[..]);
        canId, canDlc := DecodeValues(values[k], data, before);
        var frame := CanFrame(canId, canDlc, data[..]);
        PutStep(fd, frame0, values, k, frame);
        io := io + [Write(fd, frame)];
        if writes[k] != CanFrameSize {
          assert k == stop;
          return false, io;
        }
        assert k < stop;
        k := k + 1;
      }
      assert values[..k] == values;
      success := true;
    }

    /**
     * The body of PUT's decode: can_id and can_dlc from the first two
     * elements, then the low byte of each data element into the frame's
     * data buffer, in place; bytes past can_dlc keep their old contents.
     */
    static method DecodeValues(v: seq<uint32>, data: array<uint8>, ghost prev: CanFrame) returns (canId: uint32, canDlc: uint8)
      requires WellFormed(v) && data.Length == 8 && prev.data == data[..]
      modifies data
      ensures CanFrame(canId, canDlc, data[..]) == DecodeInto(prev, v)
    {
      canId := v[0];
      canDlc := ToUint8(v[1]);
      var i: nat := 0;
      while i < canDlc
        invariant i <= canDlc
        invariant forall m :: 0 <= m < i ==> data[m] == ToUint8(v[m + 2])
        invariant forall m :: i <= m < 8 ==> data[m] == old(data[m])
      {
        data[i] := ToUint8(v[i + 2]);
        i := i + 1;
      }
    }
  }
}
