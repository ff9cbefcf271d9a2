/** The recording loop of `capture_screen` (venc.c): frame pacing on the
    tick clock, the per-frame retry loop that hands a converted frame to the
    encoder under pool and encoder back-pressure, and the fixed order of the
    calls that finish the mp4 file. */
module Capture {
  import opened Platform
  import opened Lib
  import opened Pool
  import opened Encode
  import opened AsyncCallbacks

  /** 100-nanosecond ticks per second, the unit of sample times. */
  const TICKS_PER_S: int := 10_000_000

  /** The pacing interval for a frame rate: ticks per second divided by the
      rate, rounded toward zero (for a positive rate Dafny's division agrees). */
  function FrameInterval(fps: nat): (interval: nat)
    requires fps > 0
    ensures interval * fps <= TICKS_PER_S < (interval + 1) * fps
  {
    TICKS_PER_S / fps
  }

  // ---------------------------------------------------------------- pacing

  /** A frame handed to the encoder: its time from the start of the recording and its duration. */
  datatype Frame = Frame(time: int, duration: int)

  /** The frames taken while the clock reads `nows`, one reading per pass of
      the loop, when the last frame was taken at `frameTicks`. A frame is taken
      when the reading is past the last frame plus the interval; it lasts until
      that reading. Whether the encoder can take a frame is always TRUE at this
      point (the pump never answers otherwise), so it does not appear. */
  function PaceFrom(frameTicks: int, interval: int, start: int, nows: seq<int>): seq<Frame>
    decreases |nows|
  {
    if nows == [] then []
    else if nows[0] > frameTicks + interval then
      [Frame(frameTicks - start, nows[0] - frameTicks)] + PaceFrom(nows[0], interval, start, nows[1..])
    else PaceFrom(frameTicks, interval, start, nows[1..])
  }

  /** The frames of a recording that started at tick `start`. */
  function Paced(start: int, interval: int, nows: seq<int>): seq<Frame>
  {
    PaceFrom(start, interval, start, nows)
  }

  lemma {:induction false} PaceFromShape(frameTicks: int, interval: int, start: int, nows: seq<int>)
    ensures var fs := PaceFrom(frameTicks, interval, start, nows);
      && |fs| <= |nows|
      && (fs != [] ==> fs[0].time == frameTicks - start)
      && (forall k :: 0 <= k < |fs| - 1 ==> fs[k + 1].time == fs[k].time + fs[k].duration)
      && (forall k :: 0 <= k < |fs| ==> fs[k].duration > interval)
    decreases |nows|
  {
    if nows != [] {
      PaceFromShape(nows[0], interval, start, nows[1..]);
      PaceFromShape(frameTicks, interval, start, nows[1..]);
    }
  }

  /** The timeline of a recording: the first frame is at time 0, each frame
      starts where the previous one ended, and every frame lasts strictly more
      than one interval, so consecutive frames are more than an interval apart. */
  lemma PacedTimeline(start: int, interval: int, nows: seq<int>)
    ensures var fs := Paced(start, interval, nows);
      && |fs| <= |nows|
      && (fs != [] ==> fs[0].time == 0)
      && (forall k :: 0 <= k < |fs| - 1 ==> fs[k + 1].time == fs[k].time + fs[k].duration)
      && (forall k :: 0 <= k < |fs| ==> fs[k].duration > interval)
  {
    PaceFromShape(start, interval, start, nows);
  }

  /** The pacing part of the recording loop, with the clock readings given. */
  method PaceFrames(start: int, interval: int, nows: seq<int>) returns (frames: seq<Frame>)
    ensures frames == Paced(start, interval, nows)
  {
    var frameTicks := start;
    var nextFrameTarget := frameTicks + interval;
    frames := [];
    for i := 0 to |nows|
      invariant nextFrameTarget == frameTicks + interval
      invariant frames + PaceFrom(frameTicks, interval, start, nows[i..]) == Paced(start, interval, nows)
    {
      assert nows[i..][0] == nows[i] && nows[i..][1..] == nows[i + 1..];
      var nowTicks := nows[i];
      if nowTicks > nextFrameTarget {
        var t := frameTicks;
        var duration := nowTicks - frameTicks;
        frameTicks := nowTicks;
        nextFrameTarget := frameTicks + interval;
        frames := frames + [Frame(t - start, duration)];
      }
    }
    assert nows[|nows|..] == [];
  }

  // ---------------------------------------------------------------- handing one frame to the encoder

  /** What one pass of the retry loop meets: the frame acquisition and the
      conversion calls of `capture_video_frame`, the result of `ProcessInput`,
      and the events the pump then finds. */
  datatype Attempt = Attempt(acq: Acquire, callsHr: int, inputHr: int, batch: seq<MftEvent>)

  /** The pool and the tags the sink has accepted. */
  datatype SessState = SessState(pool: PoolState, written: seq<nat>)

  /** The retry loop for one frame, `rejected` rejections in, in a pool of
      `n` slots (the bound on both counters is the pool size). The pool being
      full ends the loop after one pass: its counter reaches the bound only
      when the pool has a single slot. A rejected frame keeps its slot. */
  function SubmitFrom(s: SessState, time: int, duration: int, attempts: nat -> Attempt, n: nat, rejected: nat): (SessState, Flow)
    decreases n - rejected
  {
    if rejected >= n then (s, Exit(1))
    else
      var a := attempts(rejected);
      var (ps, r) := Capture(s.pool, time, duration, a.acq, a.callsHr);
      match r
      case CaptureFatal(c) => (s.(pool := ps), Exit(c))
      case NoSlot =>
        var p := Pump(ps.slots, s.written, a.batch);
        var after := SessState(ps.(slots := p.slots), p.written);
        if p.flow.Exit? then (after, p.flow)
        else if 1 >= n then (after, Exit(1))
        else (after, Continue)
      case Captured(idx) =>
        if a.inputHr == MF_E_NOTACCEPTING then
          var p := Pump(ps.slots, s.written, a.batch);
          var after := SessState(ps.(slots := p.slots), p.written);
          if p.flow.Exit? then (after, p.flow)
          else SubmitFrom(after, time, duration, attempts, n, rejected + 1)
        else if a.inputHr != S_OK then (s.(pool := ps), Exit(a.inputHr))
        else (s.(pool := ps.(slots := ps.slots[idx := ps.slots[idx].(sample := None)])), Continue)
  }

  /** The retry loop of `capture_screen` for the frame at `time`. */
  method SubmitFrame(rec: Recorder, time: int, duration: int, attempts: nat -> Attempt) returns (flow: Flow)
    modifies rec, rec.pool, rec.pool.slots
    ensures (SessState(rec.pool.State(), rec.written), flow)
            == SubmitFrom(SessState(old(rec.pool.State()), old(rec.written)), time, duration, attempts, rec.pool.slots.Length, 0)
  {
    var n := rec.pool.slots.Length;
    var rejected := 0;
    var poolFull := 0;
    ghost var goal := SubmitFrom(SessState(rec.pool.State(), rec.written), time, duration, attempts, n, 0);
    while rejected < n && poolFull < n
      invariant poolFull == 0 && rejected <= n
      invariant SubmitFrom(SessState(rec.pool.State(), rec.written), time, duration, attempts, n, rejected) == goal
      decreases n - rejected
    {
      var a := attempts(rejected);
      ghost var before := SessState(rec.pool.State(), rec.written);
      var r := rec.pool.CaptureVideoFrame(time, duration, a.acq, a.callsHr);
      match r {
      case NoSlot =>
        poolFull := poolFull + 1;
        var _, f, _ := rec.ProcessMftEvents(a.batch);
        if f.Exit? {
          return f;
        }
        break;
      case CaptureFatal(c) =>
        return Exit(c);
      case Captured(idx) =>
        if a.inputHr == MF_E_NOTACCEPTING {
          rejected := rejected + 1;
          var _, f, _ := rec.ProcessMftEvents(a.batch);
          if f.Exit? {
            return f;
          }
        } else {
          if a.inputHr != S_OK {
            return Exit(a.inputHr);
          }
          rec.pool.DropSample(idx);
          break;
        }
      }
    }
    if rejected >= n {
      return Exit(1);
    }
    if poolFull >= n {
      return Exit(1);
    }
    return Continue;
  }

  /** A pass that is rejected: the frame was captured and converted, the
      encoder answered MF_E_NOTACCEPTING, and the pump found no events. */
  predicate Rejects(a: Attempt)
  {
    a.acq.hr == S_OK && a.callsHr == S_OK && a.inputHr == MF_E_NOTACCEPTING && a.batch == []
  }

  /** A pass whose frame the encoder takes. */
  predicate Accepts(a: Attempt)
  {
    a.acq.hr == S_OK && a.callsHr == S_OK && a.inputHr == S_OK
  }

  lemma FreeSlotExists(slots: seq<Conv>)
    requires FreeCount(slots) > 0
    ensures FirstFree(slots) >= 0
  {
    FreeCountZero(slots);
  }

  /** A successful capture with a free slot claims one. */
  lemma CaptureClaimsFreeSlot(pool: PoolState, time: int, duration: int, a: Attempt)
    requires FreeCount(pool.slots) > 0 && a.acq.hr == S_OK && a.callsHr == S_OK
    ensures var (ps, res) := Capture(pool, time, duration, a.acq, a.callsHr);
      && res.Captured? && res.idx < |ps.slots| && |ps.slots| == |pool.slots|
      && FreeCount(ps.slots) == FreeCount(pool.slots) - 1
      && ps.slots[res.idx].sample.Some?
  {
    FreeSlotExists(pool.slots);
    var idx := FirstFree(pool.slots);
    ClaimAndReturnCount(pool.slots, time, duration, a.acq.image);
    var (ps, res) := Capture(pool, time, duration, a.acq, a.callsHr);
    assert res == Captured(idx) && ps.slots == pool.slots[idx := Claimed(time, duration, idx, a.acq.image)];
  }

  /** A rejected pass uses up a slot and starts the next pass. */
  lemma RejectedPass(s: SessState, time: int, duration: int, attempts: nat -> Attempt, n: nat, rejected: nat)
    requires |s.pool.slots| == n && rejected < n && FreeCount(s.pool.slots) > 0 && Rejects(attempts(rejected))
    ensures var after := SessState(Capture(s.pool, time, duration, attempts(rejected).acq, attempts(rejected).callsHr).0, s.written);
      && |after.pool.slots| == n && FreeCount(after.pool.slots) == FreeCount(s.pool.slots) - 1
      && SubmitFrom(s, time, duration, attempts, n, rejected) == SubmitFrom(after, time, duration, attempts, n, rejected + 1)
  {
    var a := attempts(rejected);
    CaptureClaimsFreeSlot(s.pool, time, duration, a);
  }

  /** An accepted pass uses up a slot and lets recording go on. */
  lemma AcceptedPass(s: SessState, time: int, duration: int, attempts: nat -> Attempt, n: nat, rejected: nat)
    requires |s.pool.slots| == n && rejected < n && FreeCount(s.pool.slots) > 0 && Accepts(attempts(rejected))
    ensures var (after, f) := SubmitFrom(s, time, duration, attempts, n, rejected);
      f == Continue && FreeCount(after.pool.slots) == FreeCount(s.pool.slots) - 1 && after.written == s.written
  {
    var a := attempts(rejected);
    CaptureClaimsFreeSlot(s.pool, time, duration, a);
    var (ps, res) := Capture(s.pool, time, duration, a.acq, a.callsHr);
    FreeCountUpdate(ps.slots, res.idx, ps.slots[res.idx].(sample := None));
  }

  /** Every rejected frame keeps the slot it was converted into. After r
      rejections the frame is either taken, with r + 1 slots used up (the
      r rejected ones never come back, since no sample carrying their tag
      reaches the sink), or, when the r-th rejection is the pool size-th,
      recording stops with exit code 1. */
  lemma {:induction false} RejectionsHoldSlots(s: SessState, time: int, duration: int, attempts: nat -> Attempt,
                                               n: nat, rejected: nat, r: nat)
    requires |s.pool.slots| == n && rejected + r <= n
    requires FreeCount(s.pool.slots) >= r + (if rejected + r < n then 1 else 0)
    requires forall k :: rejected <= k < rejected + r ==> Rejects(attempts(k))
    requires rejected + r < n ==> Accepts(attempts(rejected + r))
    ensures var (after, f) := SubmitFrom(s, time, duration, attempts, n, rejected);
      && (rejected + r == n ==> f == Exit(1) && FreeCount(after.pool.slots) == FreeCount(s.pool.slots) - r)
      && (rejected + r < n ==> f == Continue && FreeCount(after.pool.slots) == FreeCount(s.pool.slots) - r - 1)
      && after.written == s.written
    decreases r
  {
    if rejected < n {
      if r == 0 {
        AcceptedPass(s, time, duration, attempts, n, rejected);
      } else {
        var a := attempts(rejected);
        RejectedPass(s, time, duration, attempts, n, rejected);
        var after := SessState(Capture(s.pool, time, duration, a.acq, a.callsHr).0, s.written);
        RejectionsHoldSlots(after, time, duration, attempts, n, rejected + 1, r - 1);
      }
    }
  }

  /** When every slot is busy the loop makes one pass and stops, so the pool
      counts as exhausted, and recording stops, only for a pool of one slot;
      a larger pool drops the frame and goes on. */
  lemma PoolFullFatalOnlyForSizeOne(s: SessState, time: int, duration: int, attempts: nat -> Attempt, n: nat)
    requires |s.pool.slots| == n >= 1
    requires forall j :: 0 <= j < n ==> !s.pool.slots[j].isFree
    requires Pump(s.pool.slots, s.written, attempts(0).batch).flow == Continue
    ensures SubmitFrom(s, time, duration, attempts, n, 0).1 == (if n == 1 then Exit(1) else Continue)
  {
    assert FirstFree(s.pool.slots) == -1;
  }

  // ---------------------------------------------------------------- shutdown

  /** The calls that finish a recording, in the order they are made. */
  datatype ShutdownCall =
    | DrainEvents | EndStreaming | FlushSink | PlaceMarker | WaitMarker
    | QueryFinalizable | CreateAsyncResult | BeginFinalize | WaitFinalize
    | StopClock | ShutdownSink

  /** Ending the segment: stop the encoder, flush the sink, place the
      end-of-segment marker and wait for it. */
  const EndSegmentOrder: seq<ShutdownCall> := [EndStreaming, FlushSink, PlaceMarker, WaitMarker]
  /** Finalizing the mp4 file. */
  const FinalizeOrder: seq<ShutdownCall> := [QueryFinalizable, CreateAsyncResult, BeginFinalize, WaitFinalize]
  /** Stopping the clock and shutting the media sink down. */
  const CloseOrder: seq<ShutdownCall> := [StopClock, ShutdownSink]

  const ShutdownOrder: seq<ShutdownCall> := [DrainEvents] + EndSegmentOrder + FinalizeOrder + CloseOrder

  /** What the shutdown calls answer: the events left to drain, the result
      codes, and the raw results of the two 30-second waits (with the last
      error for a failed wait). */
  datatype ShutdownReplies = ShutdownReplies(
    drainBatch: seq<MftEvent>, endStreamingHr: int, flushHr: int, markerHr: int,
    markerWait: int, queryHr: int, createResultHr: int, beginFinalizeHr: int,
    finalizeWait: int, stopHr: int, shutdownHr: int, lastError: int)

  /** A wait that does not report Done stops the recording: with code 1 on a
      timeout or an interruption, with the last error when the wait failed. */
  function WaitFlow(status: int, lastError: int): (f: Flow)
    ensures f == Continue <==> status == WAIT_OBJECT_0
  {
    match WaitForSemaphore(status, lastError)
    case Ok(Done) => Continue
    case Ok(_) => Exit(1)
    case Fatal(c) => Exit(c)
  }

  /** How each shutdown call lets the recording go on; `drained` is how the
      final event pump ended. */
  function StepFlow(r: ShutdownReplies, drained: Flow, c: ShutdownCall): Flow
  {
    match c
    case DrainEvents => drained
    case EndStreaming => CheckHResult(r.endStreamingHr)
    case FlushSink => CheckHResult(r.flushHr)
    case PlaceMarker => CheckHResult(r.markerHr)
    case WaitMarker => WaitFlow(r.markerWait, r.lastError)
    case QueryFinalizable => CheckHResult(r.queryHr)
    case CreateAsyncResult => CheckHResult(r.createResultHr)
    case BeginFinalize => CheckHResult(r.beginFinalizeHr)
    case WaitFinalize => WaitFlow(r.finalizeWait, r.lastError)
    case StopClock => CheckHResult(r.stopHr)
    case ShutdownSink => CheckHResult(r.shutdownHr)
  }

  /** No call appears twice in the shutdown order. */
  lemma ShutdownOrderDistinct()
    ensures forall i, j :: 0 <= i < j < |ShutdownOrder| ==> ShutdownOrder[i] != ShutdownOrder[j]
  {
  }

  /** A run of `order` that stopped at its first failing call: `calls` is
      the prefix made, every call but the last let the recording go on, the
      last one decided `flow`, and only a run that made every call goes on. */
  ghost predicate StoppedAt(r: ShutdownReplies, drained: Flow, order: seq<ShutdownCall>,
                            calls: seq<ShutdownCall>, flow: Flow)
  {
    && 1 <= |calls| <= |order| && calls == order[..|calls|]
    && (forall k :: 0 <= k < |calls| - 1 ==> StepFlow(r, drained, calls[k]) == Continue)
    && flow == StepFlow(r, drained, calls[|calls| - 1])
    && (flow == Continue ==> calls == order)
  }

  /** A run that went through all of `a` goes on into `b`. */
  lemma StoppedAtChain(r: ShutdownReplies, drained: Flow, a: seq<ShutdownCall>, b: seq<ShutdownCall>,
                       c1: seq<ShutdownCall>, c2: seq<ShutdownCall>, f2: Flow)
    requires StoppedAt(r, drained, a, c1, Continue) && StoppedAt(r, drained, b, c2, f2)
    ensures StoppedAt(r, drained, a + b, c1 + c2, f2)
  {
    assert (a + b)[..|c1 + c2|] == c1 + c2;
    forall k | 0 <= k < |c1 + c2| - 1
      ensures StepFlow(r, drained, (c1 + c2)[k]) == Continue
    {
      if k == |c1| - 1 {
        assert (c1 + c2)[k] == c1[|c1| - 1];
      }
    }
  }

  /** A run that stopped inside `a` stopped inside any longer order. */
  lemma StoppedAtEarly(r: ShutdownReplies, drained: Flow, a: seq<ShutdownCall>, b: seq<ShutdownCall>,
                       calls: seq<ShutdownCall>, flow: Flow)
    requires StoppedAt(r, drained, a, calls, flow) && flow != Continue
    ensures StoppedAt(r, drained, a + b, calls, flow)
  {
    assert (a + b)[..|calls|] == a[..|calls|];
  }

  /** The end-of-segment calls of `capture_screen`. */
  method EndSegment(r: ShutdownReplies, ghost drained: Flow) returns (calls: seq<ShutdownCall>, flow: Flow)
    ensures StoppedAt(r, drained, EndSegmentOrder, calls, flow)
  {
    calls := [EndStreaming];
    flow := CheckHResult(r.endStreamingHr);
    if flow.Exit? { return; }
    calls := calls + [FlushSink];
    flow := CheckHResult(r.flushHr);
    if flow.Exit? { return; }
    calls := calls + [PlaceMarker];
    flow := CheckHResult(r.markerHr);
    if flow.Exit? { return; }
    calls := calls + [WaitMarker];
    flow := WaitFlow(r.markerWait, r.lastError);
  }

  /** The finalization calls of `capture_screen`. */
  method Finalize(r: ShutdownReplies, ghost drained: Flow) returns (calls: seq<ShutdownCall>, flow: Flow)
    ensures StoppedAt(r, drained, FinalizeOrder, calls, flow)
  {
    calls := [QueryFinalizable];
    flow := CheckHResult(r.queryHr);
    if flow.Exit? { return; }
    calls := calls + [CreateAsyncResult];
    flow := CheckHResult(r.createResultHr);
    if flow.Exit? { return; }
    calls := calls + [BeginFinalize];
    flow := CheckHResult(r.beginFinalizeHr);
    if flow.Exit? { return; }
    calls := calls + [WaitFinalize];
    flow := WaitFlow(r.finalizeWait, r.lastError);
  }

  /** The closing calls of `capture_screen`. */
  method Close(r: ShutdownReplies, ghost drained: Flow) returns (calls: seq<ShutdownCall>, flow: Flow)
    ensures StoppedAt(r, drained, CloseOrder, calls, flow)
  {
    calls := [StopClock];
    flow := CheckHResult(r.stopHr);
    if flow.Exit? { return; }
    calls := calls + [ShutdownSink];
    flow := CheckHResult(r.shutdownHr);
  }

  /** The end of `capture_screen`: the calls are made once each, in the fixed
      order, up to the first one that stops the recording; the recording ends
      normally only when every call succeeded. */
  method Shutdown(rec: Recorder, r: ShutdownReplies) returns (calls: seq<ShutdownCall>, flow: Flow)
    modifies rec, rec.pool.slots
    ensures 1 <= |calls| <= |ShutdownOrder| && calls == ShutdownOrder[..|calls|]
    ensures var drained := Pump(old(rec.pool.slots[..]), old(rec.written), r.drainBatch).flow;
      && (forall k :: 0 <= k < |calls| - 1 ==> StepFlow(r, drained, calls[k]) == Continue)
      && flow == StepFlow(r, drained, calls[|calls| - 1])
    ensures flow == Continue ==> calls == ShutdownOrder
    ensures var p := Pump(old(rec.pool.slots[..]), old(rec.written), r.drainBatch);
      rec.pool.slots[..] == p.slots && rec.written == p.written
  {
    var _, drained, _ := rec.ProcessMftEvents(r.drainBatch);
    ghost var head := [DrainEvents];
    ghost var upToFinalize := head + EndSegmentOrder;
    ghost var upToClose := upToFinalize + FinalizeOrder;
    calls, flow := [DrainEvents], drained;
    assert StoppedAt(r, drained, head, calls, flow);
    if flow != Continue {
      StoppedAtEarly(r, drained, head, EndSegmentOrder, calls, flow);
      StoppedAtEarly(r, drained, upToFinalize, FinalizeOrder, calls, flow);
      StoppedAtEarly(r, drained, upToClose, CloseOrder, calls, flow);
      return;
    }
    var c, f := EndSegment(r, drained);
    StoppedAtChain(r, drained, head, EndSegmentOrder, calls, c, f);
    calls, flow := calls + c, f;
    if flow != Continue {
      StoppedAtEarly(r, drained, upToFinalize, FinalizeOrder, calls, flow);
      StoppedAtEarly(r, drained, upToClose, CloseOrder, calls, flow);
      return;
    }
    c, f := Finalize(r, drained);
    StoppedAtChain(r, drained, upToFinalize, FinalizeOrder, calls, c, f);
    calls, flow := calls + c, f;
    if flow != Continue {
      StoppedAtEarly(r, drained, upToClose, CloseOrder, calls, flow);
      return;
    }
    c, f := Close(r, drained);
    StoppedAtChain(r, drained, upToClose, CloseOrder, calls, c, f);
    calls, flow := calls + c, f;
  }
}
