/** The encoder side of venc.c: renegotiating the output type after a
    stream change (`select_output_type`, `handle_stream_change`), handing
    encoded samples to the mp4 sink with its back-pressure limit, and the
    event pump `process_mft_events` that returns pool slots. Replies of the
    encoder and the sink are parameters. */
module Encode {
  import opened Platform
  import opened Lib
  import opened Pool
  import opened Selection

  // ---------------------------------------------------------------- select_output_type

  /** The attributes `select_output_type` compares. */
  datatype TypeKey = TypeKey(major: Guid, subtype: Guid, interlace: nat)

  /** The i-th reply of `GetOutputAvailableType`: its result code, the result of
      reading the three attributes (OR-ed together, as the source checks it) and
      their values. */
  datatype AvailableType = AvailableType(enumHr: int, readHr: int, key: TypeKey)

  /** The enumeration from index i on; past the list the encoder answers
      MF_E_NO_MORE_TYPES and, as nothing matched, the process exits with 1. */
  function OutputTypeScan(current: TypeKey, types: seq<AvailableType>, i: nat): Result<nat>
    requires i <= |types|
    decreases |types| - i
  {
    if i == |types| then Fatal(1)
    else
      var t := types[i];
      if t.enumHr == MF_E_NO_MORE_TYPES then Fatal(1)
      else if t.enumHr != S_OK then Fatal(t.enumHr)
      else if t.readHr != S_OK then Fatal(t.readHr)
      else if t.key == current then Ok(i)
      else OutputTypeScan(current, types, i + 1)
  }

  /** What `select_output_type` settles on: the index of the type that becomes
      the output type, or the code the process exits with. */
  function SelectedOutputType(oldReadHr: int, current: TypeKey, types: seq<AvailableType>, setHr: int): Result<nat>
  {
    if oldReadHr != S_OK then Fatal(oldReadHr)
    else match OutputTypeScan(current, types, 0)
      case Fatal(c) => Fatal(c)
      case Ok(k) => if setHr != S_OK then Fatal(setHr) else Ok(k)
  }

  predicate Enumerable(types: seq<AvailableType>)
  {
    forall j :: 0 <= j < |types| ==> types[j].enumHr == S_OK && types[j].readHr == S_OK
  }

  /** When every reply is readable, the type chosen is the first one, in
      enumeration order, with the old type's major type, subtype and interlace
      mode; if none has them the process exits with status 1. */
  lemma {:induction false} OutputTypeFirstMatch(current: TypeKey, types: seq<AvailableType>, i: nat)
    requires i <= |types| && Enumerable(types)
    ensures var r := OutputTypeScan(current, types, i);
      && (r == Fatal(1) <==> forall j :: i <= j < |types| ==> types[j].key != current)
      && (r.Ok? ==> i <= r.value < |types| && types[r.value].key == current
                    && forall j :: i <= j < r.value ==> types[j].key != current)
      && (r.Ok? || r == Fatal(1))
    decreases |types| - i
  {
    if i < |types| {
      OutputTypeFirstMatch(current, types, i + 1);
    }
  }

  /** `select_output_type`, with its enumeration loop. */
  method SelectOutputType(oldReadHr: int, current: TypeKey, types: seq<AvailableType>, setHr: int) returns (r: Result<nat>)
    ensures r == SelectedOutputType(oldReadHr, current, types, setHr)
  {
    if oldReadHr != S_OK {
      return Fatal(oldReadHr);
    }
    var i := 0;
    while true
      invariant i <= |types|
      invariant OutputTypeScan(current, types, i) == OutputTypeScan(current, types, 0)
      decreases |types| - i
    {
      var enumHr := if i < |types| then types[i].enumHr else MF_E_NO_MORE_TYPES;
      if enumHr == MF_E_NO_MORE_TYPES {
        break;
      }
      if enumHr != S_OK {
        return Fatal(enumHr);
      }
      var t := types[i];
      if t.readHr != S_OK {
        return Fatal(t.readHr);
      }
      if t.key == current {
        if setHr != S_OK {
          return Fatal(setHr);
        }
        return Ok(i);
      }
      i := i + 1;
    }
    // no type matches: fatal
    return Fatal(1);
  }

  /** The replies renegotiation meets after a stream change: the two
      `select_streams` calls and the ids they return, the current type and
      the enumeration `select_output_type` reads, the result of setting the
      chosen type, and the result of `set_mp4_output_type` (the code of the
      first of its two checked calls that fails, S_OK when neither does). */
  datatype Renegotiation = Renegotiation(countHr: int, idsHr: int, inIds: seq<nat>, outIds: seq<nat>,
                                         oldReadHr: int, current: TypeKey, types: seq<AvailableType>,
                                         setHr: int, sinkTypeHr: int)

  /** Replies in which an encoder that answers both stream calls reports at
      least one stream each way, which `select_streams` takes for granted. */
  type StreamChange = r: Renegotiation | r.countHr == S_OK && r.idsHr == S_OK ==> |r.inIds| > 0 && |r.outIds| > 0
    witness Renegotiation(E_NOTIMPL, E_NOTIMPL, [], [], S_OK, TypeKey(Guid(0, 0, 0, []), Guid(0, 0, 0, []), 0), [], S_OK, S_OK)

  /** `handle_stream_change`: new stream ids, then a new output type, then the
      sink's type; the result is the new ids and the chosen type, or the exit
      code of the first step that fails. */
  function HandleStreamChange(c: StreamChange): (r: Result<(StreamIds, nat)>)
    ensures var streams := SelectStreams(c.countHr, c.idsHr, c.inIds, c.outIds);
            var chosen := SelectedOutputType(c.oldReadHr, c.current, c.types, c.setHr);
      && (streams.Fatal? ==> r == Fatal(streams.code))
      && (streams.Ok? && chosen.Fatal? ==> r == Fatal(chosen.code))
      && (streams.Ok? && chosen.Ok? && c.sinkTypeHr != S_OK ==> r == Fatal(c.sinkTypeHr))
      && (r.Ok? <==> streams.Ok? && chosen.Ok? && c.sinkTypeHr == S_OK)
      && (r.Ok? ==> r.value == (streams.value, chosen.value))
  {
    match SelectStreams(c.countHr, c.idsHr, c.inIds, c.outIds)
    case Fatal(e) => Fatal(e)
    case Ok(ids) =>
      match SelectedOutputType(c.oldReadHr, c.current, c.types, c.setHr)
      case Fatal(e) => Fatal(e)
      case Ok(k) =>
        match CheckHResult(c.sinkTypeHr)
        case Exit(e) => Fatal(e)
        case Continue => Ok((ids, k))
  }

  /** How a have-output event goes on: a stream change renegotiates, exiting
      with the code of the step that fails; any other failure of
      `ProcessOutput` is fatal. */
  function OutputFlow(outputHr: int, change: StreamChange): (f: Flow)
    ensures outputHr == MF_E_TRANSFORM_STREAM_CHANGE ==> (f == Continue <==> HandleStreamChange(change).Ok?)
    ensures outputHr == MF_E_TRANSFORM_STREAM_CHANGE && f.Exit? ==> Fatal(f.code) == HandleStreamChange(change)
    ensures outputHr != MF_E_TRANSFORM_STREAM_CHANGE ==> f == CheckHResult(outputHr)
  {
    if outputHr != MF_E_TRANSFORM_STREAM_CHANGE then CheckHResult(outputHr)
    else match HandleStreamChange(change)
      case Fatal(e) => Exit(e)
      case Ok(_) => Continue
  }

  // ---------------------------------------------------------------- sink back-pressure

  /** How the sink answers `ProcessSample` for one sample: MF_E_NOTACCEPTING
      `rejections` times, then `final` (for good, when `final` is itself
      MF_E_NOTACCEPTING). Every run of the retry loop sees replies of this shape. */
  datatype SinkScript = SinkScript(rejections: nat, final: int)

  datatype SinkOutcome = Delivered(attempts: nat) | SinkError(code: int) | TooManyRejected

  /** The retry loop of `process_mft_events` with `maxRejected` = pool size. */
  function Deliver(s: SinkScript, maxRejected: nat): SinkOutcome
  {
    if s.rejections >= maxRejected || s.final == MF_E_NOTACCEPTING then TooManyRejected
    else if s.final != S_OK then SinkError(s.final)
    else Delivered(s.rejections + 1)
  }

  /** The sink may refuse a sample at most pool size - 1 times in a row; the
      pool size-th refusal is fatal, and a pool of size 0 cannot deliver at all. */
  lemma SinkRejectionsBounded(maxRejected: nat, r: nat)
    ensures r < maxRejected ==> Deliver(SinkScript(r, S_OK), maxRejected) == Delivered(r + 1)
    ensures r >= maxRejected ==> Deliver(SinkScript(r, S_OK), maxRejected) == TooManyRejected
    ensures Deliver(SinkScript(0, S_OK), 0) == TooManyRejected
  {
  }

  /** The sink retry loop (the wait between tries is left out). */
  method DeliverToSink(s: SinkScript, maxRejected: nat) returns (r: SinkOutcome)
    ensures r == Deliver(s, maxRejected)
  {
    var rejected := 0;
    while rejected < maxRejected
      invariant rejected <= maxRejected
      invariant rejected <= s.rejections || s.final == MF_E_NOTACCEPTING
    {
      var hr := if rejected < s.rejections then MF_E_NOTACCEPTING else s.final;
      if hr == MF_E_NOTACCEPTING {
        rejected := rejected + 1;
      } else {
        if hr != S_OK {
          return SinkError(hr);
        }
        return Delivered(rejected + 1);
      }
    }
    // the sink refused too often: fatal
    return TooManyRejected;
  }

  // ---------------------------------------------------------------- process_mft_events

  /** An encoded sample: how the sink takes it, and the result and value of
      reading its slot index tag. */
  datatype OutputSample = OutputSample(sink: SinkScript, tagHr: int, tag: nat)

  /** What `GetEvent` yields before it reports MF_E_NO_EVENTS_AVAILABLE: a
      failed `GetEvent` or `GetType` (with its code), a have-output event (the
      result of `ProcessOutput`, the replies renegotiation would meet on a
      stream change, and the sample produced, if any), drain-complete, or any
      other event. */
  datatype MftEvent =
    | EventError(code: int)
    | HaveOutput(outputHr: int, change: StreamChange, sample: Option<OutputSample>)
    | DrainComplete
    | OtherEvent

  /** The outcome of one have-output event on the pool slots and on the tags
      of the samples the sink has accepted. */
  function HandleOutput(slots: seq<Conv>, written: seq<nat>, e: MftEvent): (r: (seq<Conv>, seq<nat>, Flow))
    requires e.HaveOutput?
    ensures |r.0| == |slots|
  {
    var f := OutputFlow(e.outputHr, e.change);
    if f.Exit? then (slots, written, f)
    else match e.sample
      case None => (slots, written, Continue)
      case Some(s) =>
        match Deliver(s.sink, |slots|)
        case TooManyRejected => (slots, written, Exit(1))
        case SinkError(c) => (slots, written, Exit(c))
        case Delivered(_) =>
          if s.tagHr != S_OK then (slots, written, Exit(s.tagHr))
          else if s.tag >= |slots| then (slots, written + [s.tag], Exit(1))
          else (MarkFree(slots, s.tag), written + [s.tag], Continue)
  }

  /** The pump's result: slots, accepted tags, how it ended, and the events
      left after a drain-complete. */
  datatype PumpResult = PumpResult(slots: seq<Conv>, written: seq<nat>, flow: Flow, rest: seq<MftEvent>)

  /** `process_mft_events` over the events available at the time of the call:
      stops when there are no more, after a drain-complete, or at a fatal error. */
  function Pump(slots: seq<Conv>, written: seq<nat>, batch: seq<MftEvent>): (r: PumpResult)
    ensures |r.slots| == |slots|
    decreases |batch|
  {
    if batch == [] then PumpResult(slots, written, Continue, [])
    else match batch[0]
      case EventError(c) => PumpResult(slots, written, Exit(c), batch[1..])
      case DrainComplete => PumpResult(slots, written, Continue, batch[1..])
      case OtherEvent => Pump(slots, written, batch[1..])
      case HaveOutput(_, _, _) =>
        var (s2, w2, f) := HandleOutput(slots, written, batch[0]);
        if f.Exit? then PumpResult(s2, w2, f, batch[1..]) else Pump(s2, w2, batch[1..])
  }

  /** The pump only frees slots, and frees exactly the slots whose tag came back
      on a sample the sink accepted; the accepted tags are appended in order
      and every slot keeps its sample and picture. */
  lemma {:induction false} PumpFreesAcceptedTags(slots: seq<Conv>, written: seq<nat>, batch: seq<MftEvent>)
    ensures var r := Pump(slots, written, batch);
      && |r.written| >= |written| && r.written[..|written|] == written
      && (forall j :: 0 <= j < |slots| ==> r.slots[j] == slots[j] || r.slots[j] == slots[j].(isFree := true))
      && (r.flow == Continue ==>
            && (forall k :: |written| <= k < |r.written| ==> r.written[k] < |slots|)
            && forall j :: 0 <= j < |slots| ==> (r.slots[j].isFree <==> slots[j].isFree || j in r.written[|written|..]))
    decreases batch
  {
    if batch != [] {
      match batch[0]
      case EventError(c) =>
      case DrainComplete =>
      case OtherEvent =>
        PumpFreesAcceptedTags(slots, written, batch[1..]);
      case HaveOutput(_, _, _) =>
        var (s2, w2, f) := HandleOutput(slots, written, batch[0]);
        if !f.Exit? {
          PumpFreesAcceptedTags(s2, w2, batch[1..]);
          var r := Pump(s2, w2, batch[1..]);
          assert r == Pump(slots, written, batch);
          assert w2[..|written|] == written;
          assert r.written[..|written|] == r.written[..|w2|][..|written|];
          if |w2| > |written| {
            assert w2 == written + [w2[|written|]];
            assert r.written[|written|..] == [w2[|written|]] + r.written[|w2|..];
          } else {
            assert r.written[|written|..] == r.written[|w2|..];
          }
        }
    }
  }

  /** A slot busy before the pump is still busy after it unless its tag came
      back: in particular, a slot whose sample the encoder never received stays busy. */
  lemma PumpKeepsUntaggedSlotsBusy(slots: seq<Conv>, written: seq<nat>, batch: seq<MftEvent>, j: nat)
    requires j < |slots| && !slots[j].isFree
    ensures var r := Pump(slots, written, batch);
      r.flow == Continue && (forall k :: |written| <= k < |r.written| ==> r.written[k] != j) ==> !r.slots[j].isFree
  {
    PumpFreesAcceptedTags(slots, written, batch);
  }

  /** The encoder-facing side of one recording: the conversion pool and the
      tags of the samples the mp4 sink has accepted, in order. */
  class Recorder {
    const pool: NV12Pool
    var written: seq<nat>

    constructor (p: NV12Pool)
      ensures pool == p && written == []
    {
      pool := p;
      written := [];
    }

    /** `process_mft_events`. The boolean it returns is TRUE on every path that
        does not exit. */
    method ProcessMftEvents(batch: seq<MftEvent>) returns (canAccept: bool, flow: Flow, rest: seq<MftEvent>)
      modifies this, pool.slots
      ensures canAccept
      ensures var r := Pump(old(pool.slots[..]), old(written), batch);
        pool.slots[..] == r.slots && written == r.written && flow == r.flow && rest == r.rest
    {
      ghost var r0 := Pump(pool.slots[..], written, batch);
      var i := 0;
      canAccept := true;
      while i < |batch|
        invariant i <= |batch|
        decreases |batch| - i
        invariant Pump(pool.slots[..], written, batch[i..]) == r0
      {
        var e := batch[i];
        assert batch[i..][0] == e && batch[i..][1..] == batch[i + 1..];
        match e {
        case EventError(c) =>
          return true, Exit(c), batch[i + 1..];
        case DrainComplete =>
          return true, Continue, batch[i + 1..];
        case OtherEvent =>
        case HaveOutput(outputHr, change, sample) =>
          var f := OutputFlow(outputHr, change);
          if f.Exit? {
            return true, f, batch[i + 1..];
          }
          if sample.Some? {
            var s := sample.value;
            var delivered := DeliverToSink(s.sink, pool.slots.Length);
            if delivered == TooManyRejected {
              return true, Exit(1), batch[i + 1..];
            } else if delivered.SinkError? {
              return true, Exit(delivered.code), batch[i + 1..];
            }
            if s.tagHr != S_OK {
              return true, Exit(s.tagHr), batch[i + 1..];
            }
            written := written + [s.tag];
            var g := pool.ReturnSlot(s.tag);
            if g.Exit? {
              return true, g, batch[i + 1..];
            }
          }
        }
        i := i + 1;
      }
      // MF_E_NO_EVENTS_AVAILABLE
      return true, Continue, [];
    }
  }
}
