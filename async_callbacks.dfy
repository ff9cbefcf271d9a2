/** The two asynchronous callbacks of async_callbacks.c, run one call at a
    time: the mp4 sink event callback, which signals when the end-of-segment
    marker comes back and re-arms itself, and the finalize callback, which
    signals when finalization is done. Both are reference counted, own a
    private registry of held handles, and signal through a semaphore with
    room for one count. */
module AsyncCallbacks {
  import opened Platform
  import opened Com

  const MEStreamSinkStopped: int := 302
  const MEStreamSinkMarker: int := 306
  const MFSTREAMSINK_MARKER_ENDOFSEGMENT: int := 1
  const VT_UI4: int := 19
  const MFASYNC_CALLBACK_QUEUE_STANDARD: int := 1

  const WAIT_OBJECT_0: int := 0
  const WAIT_ABANDONED: int := 0x80
  const WAIT_TIMEOUT: int := 0x102
  const WAIT_FAILED: int := 0xFFFF_FFFF

  // ---------------------------------------------------------------- semaphores

  /** What `ReleaseSemaphore(s, 1, NULL)` does to a count below `maximum`:
      raises it by one; at the maximum it fails and changes nothing. */
  function ReleaseStep(count: nat, maximum: nat): (r: (bool, nat))
    ensures r.0 <==> count < maximum
    ensures r.1 == (if r.0 then count + 1 else count)
    ensures r.1 <= maximum || count > maximum
  {
    if count < maximum then (true, count + 1) else (false, count)
  }

  /** A semaphore made by `CreateSemaphore(NULL, 0, 1, NULL)` takes one signal;
      a second one before a wait fails. */
  lemma SingleSlotSignal()
    ensures ReleaseStep(0, 1) == (true, 1)
    ensures ReleaseStep(1, 1) == (false, 1)
  {
  }

  class Semaphore {
    var count: nat
    const maximum: nat

    constructor (initial: nat, maximum: nat)
      requires initial <= maximum
      ensures count == initial && this.maximum == maximum
    {
      count := initial;
      this.maximum := maximum;
    }

    method Release() returns (ok: bool)
      modifies this
      ensures (ok, count) == ReleaseStep(old(count), maximum)
    {
      ok := count < maximum;
      if ok {
        count := count + 1;
      }
    }

    /** A wait in a run with nothing else in flight: it takes the count when
        there is one and times out otherwise. */
    method Wait() returns (status: int)
      modifies this
      ensures old(count) > 0 ==> status == WAIT_OBJECT_0 && count == old(count) - 1
      ensures old(count) == 0 ==> status == WAIT_TIMEOUT && count == 0
    {
      if count > 0 {
        count := count - 1;
        status := WAIT_OBJECT_0;
      } else {
        status := WAIT_TIMEOUT;
      }
    }
  }

  datatype SemaphoreStatus = Done | Timeout | Interrupted

  /** `wait_for_semaphore`: the wait result mapped to a status; WAIT_FAILED
      exits with the last error. */
  function WaitForSemaphore(status: int, lastError: int): (r: Result<SemaphoreStatus>)
    ensures r == Ok(Done) <==> status == WAIT_OBJECT_0
    ensures r == Ok(Timeout) <==> status == WAIT_TIMEOUT
    ensures r.Fatal? <==> status == WAIT_FAILED
    ensures r.Fatal? ==> r.code == lastError
    ensures r == Ok(Interrupted) <==> status !in {WAIT_OBJECT_0, WAIT_TIMEOUT, WAIT_FAILED}
  {
    if status == WAIT_OBJECT_0 then Ok(Done)
    else if status == WAIT_TIMEOUT then Ok(Timeout)
    else if status == WAIT_ABANDONED then Ok(Interrupted)
    else if status == WAIT_FAILED then Fatal(lastError)
    else Ok(Interrupted)
  }

  /** The single-slot semaphore both callbacks create, driven as the main
      thread and a callback drive it: signalled once, a second signal is
      refused, the wait reports Done and a later wait times out; a fresh
      semaphore that is never signalled times out at once. */
  method SignalThenWait(lastError: int) returns (secondSignal: bool, first: Result<SemaphoreStatus>,
                                                 again: Result<SemaphoreStatus>, unsignalled: Result<SemaphoreStatus>)
    ensures !secondSignal
    ensures first == Ok(Done) && again == Ok(Timeout) && unsignalled == Ok(Timeout)
  {
    var done := new Semaphore(0, 1);
    var ok := done.Release();
    secondSignal := done.Release();
    var status := done.Wait();
    first := WaitForSemaphore(status, lastError);
    status := done.Wait();
    again := WaitForSemaphore(status, lastError);
    var idle := new Semaphore(0, 1);
    status := idle.Wait();
    unsignalled := WaitForSemaphore(status, lastError);
  }

  // ---------------------------------------------------------------- reference counting

  /** `struct refcounted`: the count and the callback's private registry. */
  class RefCounted {
    var refCount: int
    const held: Registry
    /** Set when the count reached 0 and the object was deallocated. */
    ghost var freed: bool

    constructor ()
      ensures refCount == 0 && fresh(held) && held.nodes == [] && held.effects == [] && !held.consumed && !freed
    {
      refCount := 0;
      held := new Registry();
      freed := false;
    }

    /** `refcounted_AddRef` */
    method AddRef() returns (n: int)
      requires !freed
      modifies this
      ensures refCount == old(refCount) + 1 && n == refCount && !freed
    {
      refCount := refCount + 1;
      n := refCount;
    }

    /** `refcounted_Release`: at 0, every held handle is released and the object is freed. */
    method Release(mem: Memory) returns (n: int)
      requires !freed && !held.consumed && AllBacked(held.nodes, mem)
      modifies this, held
      ensures refCount == old(refCount) - 1 && n == refCount
      ensures n == 0 ==> freed && held.consumed && held.effects == old(held.effects) + AllEffects(old(held.nodes), mem)
      ensures n != 0 ==> !freed && held.nodes == old(held.nodes) && held.effects == old(held.effects) && !held.consumed
    {
      refCount := refCount - 1;
      n := refCount;
      if n == 0 {
        var _ := held.ReleaseAll(mem);
        freed := true;
      }
    }

    /** `common_QueryInterface`: only IUnknown and IMFAsyncCallback are
        answered, with this object and a new reference. */
    method QueryInterface(iid: Iid) returns (hr: int, ppv: bool)
      requires !freed
      modifies this
      ensures hr == QueryInterfaceResult(iid) && (ppv <==> hr == S_OK)
      ensures refCount == old(refCount) + (if hr == S_OK then 1 else 0) && !freed
    {
      if iid == IUnknown || iid == IMFAsyncCallback {
        var _ := AddRef();
        return S_OK, true;
      }
      return E_NOINTERFACE, false;
    }
  }

  datatype Iid = IUnknown | IMFAsyncCallback | OtherIid(guid: Guid)

  function QueryInterfaceResult(iid: Iid): (hr: int)
    ensures hr == S_OK <==> iid == IUnknown || iid == IMFAsyncCallback
    ensures hr != S_OK ==> hr == E_NOINTERFACE
  {
    if iid == IUnknown || iid == IMFAsyncCallback then S_OK else E_NOINTERFACE
  }

  /** The reference count after a run of AddRef and Release calls, None once it
      has reached 0 (the object is gone). */
  datatype RefOp = AddRefOp | ReleaseOp

  function RefRun(count: int, ops: seq<RefOp>): Option<int>
    decreases |ops|
  {
    if ops == [] then Some(count)
    else if ops[0] == AddRefOp then RefRun(count + 1, ops[1..])
    else if count - 1 == 0 then None
    else RefRun(count - 1, ops[1..])
  }

  /** A callback object driven through a run of AddRef and Release calls:
      the count follows `RefRun`, and the object is freed exactly when the
      run reaches 0, at which point the run stops. */
  method Drive(rc: RefCounted, ops: seq<RefOp>, mem: Memory) returns (final: Option<int>)
    requires !rc.freed && !rc.held.consumed && AllBacked(rc.held.nodes, mem)
    modifies rc, rc.held
    ensures final == RefRun(old(rc.refCount), ops)
    ensures rc.freed <==> final.None?
    ensures final.Some? ==> rc.refCount == final.value
  {
    var i := 0;
    while i < |ops|
      invariant i <= |ops|
      invariant !rc.freed && !rc.held.consumed && AllBacked(rc.held.nodes, mem)
      invariant RefRun(rc.refCount, ops[i..]) == RefRun(old(rc.refCount), ops)
    {
      assert ops[i..][0] == ops[i] && ops[i..][1..] == ops[i + 1..];
      if ops[i] == AddRefOp {
        var _ := rc.AddRef();
      } else {
        var n := rc.Release(mem);
        if n == 0 {
          return None;
        }
      }
      i := i + 1;
    }
    return Some(rc.refCount);
  }

  function Repeat(op: RefOp, n: nat): (r: seq<RefOp>)
    ensures |r| == n && forall k :: 0 <= k < n ==> r[k] == op
  {
    if n == 0 then [] else [op] + Repeat(op, n - 1)
  }

  lemma {:induction false} ReleasesCountDown(count: int, n: nat)
    requires count > n
    ensures RefRun(count, Repeat(ReleaseOp, n)) == Some(count - n)
  {
    if n > 0 {
      assert Repeat(ReleaseOp, n)[1..] == Repeat(ReleaseOp, n - 1);
      ReleasesCountDown(count - 1, n - 1);
    }
  }

  lemma {:induction false} AddRefsCountUp(count: int, n: nat, rest: seq<RefOp>)
    ensures RefRun(count, Repeat(AddRefOp, n) + rest) == RefRun(count + n, rest)
    decreases n
  {
    if n > 0 {
      assert (Repeat(AddRefOp, n) + rest)[0] == AddRefOp;
      assert (Repeat(AddRefOp, n) + rest)[1..] == Repeat(AddRefOp, n - 1) + rest;
      AddRefsCountUp(count + 1, n - 1, rest);
    } else {
      assert Repeat(AddRefOp, n) + rest == rest;
    }
  }

  /** A new callback starts at 1; after n more references, the object survives
      n releases and is freed by the (n+1)-th. */
  lemma BalancedReleasesFree(n: nat)
    ensures RefRun(1, Repeat(AddRefOp, n) + Repeat(ReleaseOp, n)) == Some(1)
    ensures RefRun(1, Repeat(AddRefOp, n) + Repeat(ReleaseOp, n + 1)) == None
  {
    AddRefsCountUp(1, n, Repeat(ReleaseOp, n));
    ReleasesCountDown(1 + n, n);
    AddRefsCountUp(1, n, Repeat(ReleaseOp, n + 1));
    ReleasesLast(1 + n, n);
  }

  lemma {:induction false} ReleasesLast(count: int, n: nat)
    requires count == n + 1
    ensures RefRun(count, Repeat(ReleaseOp, n + 1)) == None
  {
    if n > 0 {
      assert Repeat(ReleaseOp, n + 1)[1..] == Repeat(ReleaseOp, n);
      ReleasesLast(count - 1, n - 1);
    }
  }

  /** `common_GetParameters`: flags 0, the standard work queue, and E_NOTIMPL
      so that the platform uses its defaults. */
  function GetParameters(): (r: (int, int, int))
    ensures r.0 == 0 && r.1 == MFASYNC_CALLBACK_QUEUE_STANDARD && r.2 == E_NOTIMPL
  {
    (0, MFASYNC_CALLBACK_QUEUE_STANDARD, E_NOTIMPL)
  }

  // ---------------------------------------------------------------- the mp4 sink event callback

  /** What the calls inside one `Invoke` answer: `EndGetEvent` (and the event
      it yields), `GetType`, `GetStatus` and `GetValue` (with the event type and
      the value's variant type and number), `PropVariantToString` when debug
      logging is on, `BeginGetEvent`, and the last error if signalling fails. */
  datatype EventReplies = EventReplies(
    endGetHr: int, event: Ptr, typeHr: int, statusHr: int, valueHr: int,
    eventType: int, vt: int, ulVal: int,
    debug: bool, strHr: int, beginHr: int, lastError: int)

  /** The outcome of one `Invoke`: how the process goes on, what it returns,
      whether it signalled end of segment, and whether it asked for the next event. */
  datatype InvokeOutcome = InvokeOutcome(flow: Flow, hr: int, signal: bool, rearm: bool)

  predicate IsEndOfSegment(r: EventReplies)
  {
    r.eventType == MEStreamSinkMarker && r.vt == VT_UI4 && r.ulVal == MFSTREAMSINK_MARKER_ENDOFSEGMENT
  }

  /** The event was read completely: no early return and no fatal error before the decision. */
  predicate EventRead(genIsNull: bool, r: EventReplies)
  {
    && !genIsNull && r.endGetHr == S_OK && r.typeHr == S_OK && r.statusHr == S_OK && r.valueHr == S_OK
    && (r.debug ==> r.strHr in {S_OK, TYPE_E_ELEMENTNOTFOUND, TYPE_E_TYPEMISMATCH})
  }

  function Dies(code: int): InvokeOutcome { InvokeOutcome(Exit(code), code, false, false) }

  /** `mp4_event_callback_Invoke` given the semaphore's count. */
  function EventInvoke(genIsNull: bool, r: EventReplies, semCount: nat): InvokeOutcome
  {
    if genIsNull then InvokeOutcome(Continue, S_OK, false, false)
    else if r.endGetHr == MF_E_SHUTDOWN then InvokeOutcome(Continue, S_OK, false, false)
    else if r.endGetHr != S_OK then Dies(r.endGetHr)
    else if r.typeHr != S_OK then Dies(r.typeHr)
    else if r.statusHr != S_OK then Dies(r.statusHr)
    else if r.valueHr != S_OK then Dies(r.valueHr)
    else if r.debug && r.strHr !in {S_OK, TYPE_E_ELEMENTNOTFOUND, TYPE_E_TYPEMISMATCH} then Dies(r.strHr)
    else
      var signal := IsEndOfSegment(r);
      if signal && semCount >= 1 then Dies(r.lastError)
      else
        var hr := if r.debug then r.strHr else S_OK;
        if r.eventType != MEStreamSinkStopped then InvokeOutcome(Continue, r.beginHr, signal, true)
        else InvokeOutcome(Continue, hr, signal, false)
  }

  /** The decision rules of the event callback: it signals exactly for an
      end-of-segment marker carried as VT_UI4, re-arms after every event it
      read except sink-stopped, does nothing for a NULL generator or after
      shutdown, and a second signal before the wait takes the first is fatal. */
  lemma EventInvokeRules(genIsNull: bool, r: EventReplies, semCount: nat)
    ensures var o := EventInvoke(genIsNull, r, semCount);
      && (o.flow == Continue && o.signal <==> EventRead(genIsNull, r) && IsEndOfSegment(r) && semCount == 0)
      && (o.flow == Continue && o.rearm <==> EventRead(genIsNull, r) && r.eventType != MEStreamSinkStopped
                                             && (IsEndOfSegment(r) ==> semCount == 0))
      && (o.rearm ==> o.hr == r.beginHr)
      && (genIsNull ==> o == InvokeOutcome(Continue, S_OK, false, false))
      && (!genIsNull && r.endGetHr == MF_E_SHUTDOWN ==> o == InvokeOutcome(Continue, S_OK, false, false))
      && (EventRead(genIsNull, r) && IsEndOfSegment(r) && semCount >= 1 ==> o.flow == Exit(r.lastError))
  {
  }

  /** As coded, a sink-stopped event read with debug logging on returns the
      result of the string conversion, which may be a failure code. */
  lemma StoppedEventReturnsConversionResult(r: EventReplies)
    requires EventRead(false, r) && r.eventType == MEStreamSinkStopped && r.debug
    ensures EventInvoke(false, r, 0).hr == r.strHr
  {
  }

  class EventCallback {
    const base: RefCounted
    const eventGen: Ptr
    const endOfSegment: Semaphore

    /** `mp4_event_callback_new`: count 1, the generator held, an empty single-slot semaphore. */
    constructor (eventGen: Ptr)
      ensures this.eventGen == eventGen && fresh(base) && fresh(base.held) && fresh(endOfSegment)
      ensures base.refCount == 1 && !base.freed
      ensures base.held.nodes == [Node(eventGen, "event_gen", 0)] && base.held.effects == [] && !base.held.consumed
      ensures endOfSegment.count == 0 && endOfSegment.maximum == 1
    {
      this.eventGen := eventGen;
      endOfSegment := new Semaphore(0, 1);
      var b := new RefCounted();
      b.held.AcquireObj(eventGen, "event_gen");
      var _ := b.AddRef();
      base := b;
    }

    /** `mp4_event_callback_Invoke`: the event is held for the duration of the
        call and released before re-arming. */
    method Invoke(r: EventReplies) returns (o: InvokeOutcome)
      requires endOfSegment.maximum == 1
      requires !base.held.consumed && AllBacked(base.held.nodes, map[])
      modifies endOfSegment, base.held
      ensures o == EventInvoke(eventGen == NULL, r, old(endOfSegment.count))
      ensures o.flow == Continue ==> endOfSegment.count == old(endOfSegment.count) + (if o.signal then 1 else 0)
      ensures o.flow == Continue ==> base.held.nodes == old(base.held.nodes) && !base.held.consumed
      ensures o.flow == Continue && EventRead(eventGen == NULL, r) ==> base.held.effects == old(base.held.effects) + [ReleaseRef(r.event)]
      ensures o.flow == Continue && !EventRead(eventGen == NULL, r) ==> base.held.effects == old(base.held.effects)
    {
      if eventGen == NULL {
        return InvokeOutcome(Continue, S_OK, false, false);
      }
      if r.endGetHr == MF_E_SHUTDOWN {
        return InvokeOutcome(Continue, S_OK, false, false);
      }
      if r.endGetHr != S_OK {
        return Dies(r.endGetHr);
      }
      base.held.AcquireObj(r.event, "event");
      if r.typeHr != S_OK {
        return Dies(r.typeHr);
      }
      if r.statusHr != S_OK {
        return Dies(r.statusHr);
      }
      if r.valueHr != S_OK {
        return Dies(r.valueHr);
      }
      var hr := S_OK;
      if r.debug {
        hr := r.strHr;
        if hr != TYPE_E_ELEMENTNOTFOUND && hr != TYPE_E_TYPEMISMATCH && hr != S_OK {
          return Dies(hr);
        }
      }
      var signal := IsEndOfSegment(r);
      if signal {
        var ok := endOfSegment.Release();
        if !ok {
          return Dies(r.lastError);
        }
      }
      ReleaseUndoesAcquire(RegState(old(base.held.nodes), old(base.held.effects)), r.event, "event", map[]);
      var _ := base.held.Release(r.event, map[]);
      var rearm := false;
      if r.eventType != MEStreamSinkStopped {
        hr := r.beginHr;
        rearm := true;
      }
      return InvokeOutcome(Continue, hr, signal, rearm);
    }
  }

  // ---------------------------------------------------------------- the finalize callback

  /** `mp4_finalize_callback_Invoke` given the semaphore's count: signals once,
      only after `EndFinalize` succeeded. */
  function FinalizeInvoke(sinkIsNull: bool, endFinalizeHr: int, semCount: nat, lastError: int): (o: InvokeOutcome)
    ensures o.flow == Continue && o.signal <==> !sinkIsNull && endFinalizeHr == S_OK && semCount == 0
    ensures o.flow == Continue ==> o.hr == S_OK && !o.rearm
    ensures !sinkIsNull && endFinalizeHr != S_OK ==> o.flow == Exit(endFinalizeHr) && !o.signal
  {
    if sinkIsNull then InvokeOutcome(Continue, S_OK, false, false)
    else if endFinalizeHr != S_OK then Dies(endFinalizeHr)
    else if semCount >= 1 then Dies(lastError)
    else InvokeOutcome(Continue, S_OK, true, false)
  }

  class FinalizeCallback {
    const base: RefCounted
    const mediaSink: Ptr
    const done: Semaphore

    /** `mp4_finalize_callback_new` */
    constructor (mediaSink: Ptr)
      ensures this.mediaSink == mediaSink && fresh(base) && fresh(base.held) && fresh(done)
      ensures base.refCount == 1 && !base.freed
      ensures base.held.nodes == [Node(mediaSink, "media_sink", 0)] && base.held.effects == [] && !base.held.consumed
      ensures done.count == 0 && done.maximum == 1
    {
      this.mediaSink := mediaSink;
      done := new Semaphore(0, 1);
      var b := new RefCounted();
      b.held.AcquireObj(mediaSink, "media_sink");
      var _ := b.AddRef();
      base := b;
    }

    method Invoke(endFinalizeHr: int, lastError: int) returns (o: InvokeOutcome)
      requires done.maximum == 1
      modifies done
      ensures o == FinalizeInvoke(mediaSink == NULL, endFinalizeHr, old(done.count), lastError)
      ensures o.flow == Continue ==> done.count == old(done.count) + (if o.signal then 1 else 0)
    {
      if mediaSink == NULL {
        return InvokeOutcome(Continue, S_OK, false, false);
      }
      if endFinalizeHr != S_OK {
        return Dies(endFinalizeHr);
      }
      var ok := done.Release();
      if !ok {
        return Dies(lastError);
      }
      return InvokeOutcome(Continue, S_OK, true, false);
    }
  }
}
