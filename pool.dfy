/** The NV12 conversion pool of venc.c: a fixed array of conversion slots,
    each free or busy. Capturing a frame claims the lowest free slot, fills
    its texture and gives it a new sample tagged with the slot's index; the
    slot becomes free again only when an encoded sample carrying that tag
    has been accepted by the sink. Textures are modelled by the picture they
    hold, a number; D3D and DXGI results are parameters. */
module Pool {
  import opened Platform

  /** The sample of a slot: presentation time, duration and the index tag. */
  datatype Sample = Sample(time: int, duration: int, tag: nat)

  /** One `struct nv12_conv`: its flag, its current sample, and the picture in its texture. */
  datatype Conv = Conv(isFree: bool, sample: Option<Sample>, image: nat)

  /** The pool as a value: the slots, the backup texture `prev_nv12_frame`, the
      duplication frame the input view was made for, and how many times the
      input view has been (re)created. */
  datatype PoolState = PoolState(slots: seq<Conv>, prevFrame: nat, prevDupFrame: Ptr, viewRecreations: nat)

  // ---------------------------------------------------------------- slots as values

  /** The index `find_available_nv12_conv` returns: the lowest free slot, or -1. */
  function FirstFree(slots: seq<Conv>): (r: int)
    ensures -1 <= r < |slots|
    ensures r == -1 <==> forall j :: 0 <= j < |slots| ==> !slots[j].isFree
    ensures r >= 0 ==> slots[r].isFree && forall j :: 0 <= j < r ==> !slots[j].isFree
  {
    if slots == [] then -1
    else if slots[0].isFree then 0
    else var r := FirstFree(slots[1..]); if r == -1 then -1 else r + 1
  }

  function FreeCount(slots: seq<Conv>): nat
  {
    if slots == [] then 0 else (if slots[0].isFree then 1 else 0) + FreeCount(slots[1..])
  }

  lemma {:induction false} FreeCountUpdate(slots: seq<Conv>, i: nat, c: Conv)
    requires i < |slots|
    ensures FreeCount(slots[i := c]) + (if slots[i].isFree then 1 else 0)
            == FreeCount(slots) + (if c.isFree then 1 else 0)
  {
    if i > 0 {
      FreeCountUpdate(slots[1..], i - 1, c);
      assert slots[i := c][1..] == slots[1..][i - 1 := c];
    }
  }

  lemma {:induction false} FreeCountZero(slots: seq<Conv>)
    ensures FreeCount(slots) == 0 <==> forall j :: 0 <= j < |slots| ==> !slots[j].isFree
  {
    if slots != [] {
      FreeCountZero(slots[1..]);
      assert forall j :: 1 <= j < |slots| ==> slots[j] == slots[1..][j - 1];
    }
  }

  /** The slot `conv` that `capture_video_frame` fills. */
  function Claimed(time: int, duration: int, idx: nat, image: nat): Conv
  {
    Conv(false, Some(Sample(time, duration, idx)), image)
  }

  /** Returning slot `tag` to the pool after the sink accepted its output. */
  function MarkFree(slots: seq<Conv>, tag: nat): seq<Conv>
    requires tag < |slots|
  {
    slots[tag := slots[tag].(isFree := true)]
  }

  /** Claiming uses up exactly one free slot and returning a busy one gives it
      back: the number of free slots is what moves the pool's back-pressure. */
  lemma ClaimAndReturnCount(slots: seq<Conv>, time: int, duration: int, image: nat)
    requires FirstFree(slots) >= 0
    ensures var idx := FirstFree(slots);
      && FreeCount(slots[idx := Claimed(time, duration, idx, image)]) == FreeCount(slots) - 1
      && FreeCount(MarkFree(slots[idx := Claimed(time, duration, idx, image)], idx)) == FreeCount(slots)
  {
    var idx := FirstFree(slots);
    var claimed := slots[idx := Claimed(time, duration, idx, image)];
    FreeCountUpdate(slots, idx, Claimed(time, duration, idx, image));
    FreeCountUpdate(claimed, idx, claimed[idx].(isFree := true));
  }

  /** A slot leaves the busy state only through `MarkFree` with its own tag:
      returning the slots of other tags keeps it busy, so a slot whose sample
      the encoder never took, and which therefore never comes back tagged,
      stays busy for good. */
  lemma {:induction false} BusyUntilOwnTag(slots: seq<Conv>, idx: nat, tags: seq<nat>)
    requires idx < |slots| && !slots[idx].isFree
    requires forall k :: 0 <= k < |tags| ==> tags[k] < |slots| && tags[k] != idx
    decreases tags
    ensures var after := ReturnAll(slots, tags); |after| == |slots| && !after[idx].isFree && after[idx] == slots[idx]
  {
    if tags != [] {
      BusyUntilOwnTag(MarkFree(slots, tags[0]), idx, tags[1..]);
    }
  }

  function ReturnAll(slots: seq<Conv>, tags: seq<nat>): (r: seq<Conv>)
    requires forall k :: 0 <= k < |tags| ==> tags[k] < |slots|
    ensures |r| == |slots|
    decreases tags
  {
    if tags == [] then slots else ReturnAll(MarkFree(slots, tags[0]), tags[1..])
  }

  // ---------------------------------------------------------------- capture_video_frame

  /** What `AcquireNextFrame` reports: its result code and, on success, the
      duplication frame and the picture in it. */
  datatype Acquire = Acquire(hr: int, frame: Ptr, image: nat)

  datatype CaptureResult = NoSlot | Captured(idx: nat) | CaptureFatal(code: int)

  /** `capture_video_frame`. `callsHr` is the result of the first failing call
      after acquisition (texture query, conversion, sample creation, buffer,
      time, duration, tag), S_OK when all succeed. */
  function Capture(ps: PoolState, time: int, duration: int, acq: Acquire, callsHr: int): (r: (PoolState, CaptureResult))
    ensures |r.0.slots| == |ps.slots|
    ensures r.1.Captured? ==> r.1.idx < |ps.slots| && !r.0.slots[r.1.idx].isFree
  {
    var idx := FirstFree(ps.slots);
    if idx == -1 then (ps, NoSlot)
    else
      var busy := ps.(slots := ps.slots[idx := ps.slots[idx].(isFree := false)]);
      if acq.hr == DXGI_ERROR_WAIT_TIMEOUT then
        // the backup texture is copied into the slot
        if callsHr != S_OK then (busy, CaptureFatal(callsHr))
        else (busy.(slots := ps.slots[idx := Claimed(time, duration, idx, ps.prevFrame)]), Captured(idx))
      else if acq.hr != S_OK then (busy, CaptureFatal(acq.hr))
      else if callsHr != S_OK then (busy, CaptureFatal(callsHr))
      else
        var recreations := if acq.frame != ps.prevDupFrame then ps.viewRecreations + 1 else ps.viewRecreations;
        (PoolState(ps.slots[idx := Claimed(time, duration, idx, acq.image)], acq.image, acq.frame, recreations),
         Captured(idx))
  }

  /** What a capture promises: no slot means every slot was busy and nothing
      changed; otherwise the lowest free slot is claimed, tagged with its own
      index and given the new time and duration, no other slot changes, and
      the slot and the backup texture hold the same picture: the new frame,
      or the previous one again when duplication timed out. */
  lemma CaptureClaimsLowestFree(ps: PoolState, time: int, duration: int, acq: Acquire, callsHr: int)
    ensures var (after, r) := Capture(ps, time, duration, acq, callsHr);
      && (r == NoSlot <==> forall j :: 0 <= j < |ps.slots| ==> !ps.slots[j].isFree)
      && (r == NoSlot ==> after == ps)
      && |after.slots| == |ps.slots|
      && (r.Captured? ==>
            && r.idx == FirstFree(ps.slots)
            && after.slots[r.idx] == Conv(false, Some(Sample(time, duration, r.idx)), after.prevFrame)
            && (forall j :: 0 <= j < |ps.slots| && j != r.idx ==> after.slots[j] == ps.slots[j])
            && after.prevFrame == (if acq.hr == DXGI_ERROR_WAIT_TIMEOUT then ps.prevFrame else acq.image))
      && (r.CaptureFatal? ==> r.code != S_OK)
  {
  }

  /** The conversion input view is rebuilt exactly when the duplication API
      hands out a different frame than the last one. */
  lemma InputViewRecreatedOnNewFrame(ps: PoolState, time: int, duration: int, acq: Acquire)
    requires FirstFree(ps.slots) >= 0 && acq.hr == S_OK
    ensures var (after, _) := Capture(ps, time, duration, acq, S_OK);
      && after.prevDupFrame == acq.frame
      && (after.viewRecreations == ps.viewRecreations + 1 <==> acq.frame != ps.prevDupFrame)
      && (after.viewRecreations == ps.viewRecreations <==> acq.frame == ps.prevDupFrame)
  {
  }

  // ---------------------------------------------------------------- the pool object

  class NV12Pool {
    /** `nv12_conv_pool`, of `nv12_pool_size` slots. */
    const slots: array<Conv>
    var prevFrame: nat
    var prevDupFrame: Ptr
    var viewRecreations: nat

    function State(): PoolState
      reads this, slots
    {
      PoolState(slots[..], prevFrame, prevDupFrame, viewRecreations)
    }

    /** `create_nv12_conv_pool`: every slot starts free, without a sample. */
    constructor (poolSize: nat)
      ensures slots.Length == poolSize && fresh(slots)
      ensures forall j :: 0 <= j < poolSize ==> slots[j] == Conv(true, None, 0)
      ensures prevFrame == 0 && prevDupFrame == NULL && viewRecreations == 0
    {
      slots := new Conv[poolSize](_ => Conv(true, None, 0));
      prevFrame := 0;
      prevDupFrame := NULL;
      viewRecreations := 0;
    }

    /** `find_available_nv12_conv` */
    method FindAvailable() returns (r: int)
      ensures r == FirstFree(slots[..])
      ensures r == -1 <==> forall j :: 0 <= j < slots.Length ==> !slots[j].isFree
      ensures r >= 0 ==> r < slots.Length && slots[r].isFree && forall j :: 0 <= j < r ==> !slots[j].isFree
    {
      var i := 0;
      while i < slots.Length
        invariant i <= slots.Length
        invariant forall j :: 0 <= j < i ==> !slots[j].isFree
      {
        if slots[i].isFree {
          return i;
        }
        i := i + 1;
      }
      return -1;
    }

    /** `capture_video_frame` */
    method CaptureVideoFrame(time: int, duration: int, acq: Acquire, callsHr: int) returns (r: CaptureResult)
      modifies this, slots
      ensures (State(), r) == Capture(old(State()), time, duration, acq, callsHr)
    {
      var idx := FindAvailable();
      if idx == -1 {
        // every slot is busy
        return NoSlot;
      }
      slots[idx] := slots[idx].(isFree := false);
      var image: nat;
      if acq.hr == DXGI_ERROR_WAIT_TIMEOUT {
        image := prevFrame;
      } else {
        if acq.hr != S_OK {
          return CaptureFatal(acq.hr);
        }
        if callsHr != S_OK {
          return CaptureFatal(callsHr);
        }
        if acq.frame != prevDupFrame {
          // create_nv12_conv_input
          prevDupFrame := acq.frame;
          viewRecreations := viewRecreations + 1;
        }
        image := acq.image;
        prevFrame := image;
      }
      if callsHr != S_OK {
        return CaptureFatal(callsHr);
      }
      ghost var before := old(slots[..]);
      slots[idx] := Claimed(time, duration, idx, image);
      assert slots[..] == before[idx := Claimed(time, duration, idx, image)];
      return Captured(idx);
    }

    /** After `ProcessInput` takes a slot's sample, the slot lets go of it but stays busy. */
    method DropSample(idx: nat)
      requires idx < slots.Length
      modifies slots
      ensures slots[..] == old(slots[..])[idx := old(slots[idx]).(sample := None)]
      ensures !old(slots[idx].isFree) ==> !slots[idx].isFree
    {
      slots[idx] := slots[idx].(sample := None);
    }

    /** The end of the sink path of `process_mft_events`: a tag outside the pool
        is fatal, otherwise that slot becomes free. */
    method ReturnSlot(tag: nat) returns (f: Flow)
      modifies slots
      ensures tag >= slots.Length ==> f == Exit(1) && slots[..] == old(slots[..])
      ensures tag < slots.Length ==> f == Continue && slots[..] == MarkFree(old(slots[..]), tag)
    {
      if tag >= slots.Length {
        return Exit(1);
      }
      slots[tag] := slots[tag].(isFree := true);
      return Continue;
    }
  }
}
