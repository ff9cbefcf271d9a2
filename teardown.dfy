/** The `free_*` functions of venc.c and the order `exit_process` calls them
    in (main.c). Each structure releases its non-NULL handles through the
    global registry and is then overwritten with zeros, so freeing it again
    does nothing. The structures point at each other: both the display and the
    Media Foundation state point at the one `d3d`, which points at the one
    encoder, and zeroing is what keeps the shared parts from being released
    twice. */
module Teardown {
  import opened Platform
  import opened Com

  /** `INVALID_HANDLE_VALUE`, the "no handle" value of the device handle. */
  const INVALID_HANDLE_VALUE: int := -1

  /** Releasing a handle through the global registry when it is not NULL, on a registry state. */
  function ReleaseIfSetStep(st: RegState, p: Ptr, mem: Memory): (r: RegState)
    requires AllBacked(st.nodes, mem)
    ensures AllBacked(r.nodes, mem)
  {
    if p != NULL then AfterRelease(st, p, mem) else st
  }

  /** The registry state after `release_com_obj` on each non-NULL handle of
      `ps`, in order. */
  function ReleaseFields(st: RegState, ps: seq<Ptr>, mem: Memory): (r: RegState)
    requires AllBacked(st.nodes, mem)
    ensures AllBacked(r.nodes, mem)
    decreases |ps|
  {
    if ps == [] then st
    else ReleaseIfSetStep(ReleaseFields(st, ps[..|ps| - 1], mem), ps[|ps| - 1], mem)
  }

  /** Releasing two runs of handles one after the other is releasing their concatenation. */
  lemma {:induction false} ReleaseFieldsAppend(st: RegState, a: seq<Ptr>, b: seq<Ptr>, mem: Memory)
    requires AllBacked(st.nodes, mem)
    ensures ReleaseFields(st, a + b, mem) == ReleaseFields(ReleaseFields(st, a, mem), b, mem)
    decreases |b|
  {
    if b == [] {
      assert a + b == a;
    } else {
      assert (a + b)[..|a + b| - 1] == a + b[..|b| - 1];
      ReleaseFieldsAppend(st, a, b[..|b| - 1], mem);
    }
  }

  /** A structure whose handles are all NULL releases nothing. */
  lemma {:induction false} ReleaseFieldsOfNulls(st: RegState, ps: seq<Ptr>, mem: Memory)
    requires AllBacked(st.nodes, mem)
    requires forall k :: 0 <= k < |ps| ==> ps[k] == NULL
    ensures ReleaseFields(st, ps, mem) == st
    decreases |ps|
  {
    if ps != [] {
      ReleaseFieldsOfNulls(st, ps[..|ps| - 1], mem);
    }
  }

  /** Releasing handles the registry does not track changes nothing: only a
      tracked handle is released, which is what lets a structure be freed after
      its handles were dropped or released elsewhere. */
  lemma {:induction false} ReleaseFieldsOfUntracked(st: RegState, ps: seq<Ptr>, mem: Memory)
    requires AllBacked(st.nodes, mem)
    requires forall k, j :: 0 <= k < |ps| && 0 <= j < |st.nodes| ==> st.nodes[j].obj != ps[k]
    ensures ReleaseFields(st, ps, mem) == st
    decreases |ps|
  {
    if ps != [] {
      ReleaseFieldsOfUntracked(st, ps[..|ps| - 1], mem);
      if ps[|ps| - 1] != NULL {
        assert IndexOf(st.nodes, ps[|ps| - 1]) == -1;
      }
    }
  }

  lemma PrefixSnoc(done: seq<Ptr>, ps: seq<Ptr>, i: nat)
    requires i < |ps|
    ensures done + ps[..i] + [ps[i]] == done + ps[..i + 1]
  {
    assert ps[..i + 1] == ps[..i] + [ps[i]];
  }

  lemma ConcatAssoc(a: seq<Ptr>, b: seq<Ptr>, c: seq<Ptr>)
    ensures a + b + c == a + (b + c)
  {
  }

  /** The registry may still be used and every array node has its memory. */
  ghost predicate Ready(g: Globals, mem: Memory)
    reads g, g.heldObjs
  {
    !g.heldObjs.consumed && AllBacked(g.heldObjs.nodes, mem)
  }

  /** Releasing a handle when it is not NULL, as the next of the handles `done` a
      structure has released since the registry was in state `s0`. */
  method ReleaseIfSet(g: Globals, p: Ptr, mem: Memory, ghost s0: RegState, ghost done: seq<Ptr>)
    requires Ready(g, mem) && AllBacked(s0.nodes, mem)
    requires g.heldObjs.State() == ReleaseFields(s0, done, mem)
    modifies g.heldObjs
    ensures Ready(g, mem)
    ensures g.heldObjs.State() == ReleaseFields(s0, done + [p], mem)
  {
    assert (done + [p])[..|done|] == done;
    if p != NULL {
      g.ReleaseComObj(p, mem);
    }
  }

  /** Releasing each non-NULL handle of `ps` in turn, after `done`. */
  method ReleaseEach(g: Globals, ps: seq<Ptr>, mem: Memory, ghost s0: RegState, ghost done: seq<Ptr>)
    requires Ready(g, mem) && AllBacked(s0.nodes, mem)
    requires g.heldObjs.State() == ReleaseFields(s0, done, mem)
    modifies g.heldObjs
    ensures Ready(g, mem)
    ensures g.heldObjs.State() == ReleaseFields(s0, done + ps, mem)
  {
    assert done + ps[..0] == done;
    for i := 0 to |ps|
      invariant Ready(g, mem)
      invariant g.heldObjs.State() == ReleaseFields(s0, done + ps[..i], mem)
    {
      ReleaseIfSet(g, ps[i], mem, s0, done + ps[..i]);
      PrefixSnoc(done, ps, i);
    }
    assert ps[..|ps|] == ps;
  }

  /** `struct hw_encoder`, its handles only. */
  class HwEncoder {
    var name: Ptr
    var activate: Ptr
    var encoder: Ptr
    var isInitialized: bool

    function Handles(): seq<Ptr>
      reads this
    {
      [name, activate, encoder]
    }

    predicate IsZero()
      reads this
    {
      name == NULL && activate == NULL && encoder == NULL && !isInitialized
    }

    constructor (name: Ptr, activate: Ptr, encoder: Ptr)
      ensures this.name == name && this.activate == activate && this.encoder == encoder && isInitialized
    {
      this.name := name;
      this.activate := activate;
      this.encoder := encoder;
      isInitialized := true;
    }

    /** `free_hw_encoder`, after the handles `done` released since the
        registry was in state `s0`. */
    method Free(g: Globals, mem: Memory, ghost s0: RegState, ghost done: seq<Ptr>)
      requires Ready(g, mem) && AllBacked(s0.nodes, mem)
      requires g.heldObjs.State() == ReleaseFields(s0, done, mem)
      modifies this, g.heldObjs
      ensures Ready(g, mem) && IsZero()
      ensures g.heldObjs.State() == ReleaseFields(s0, done + old(Handles()), mem)
    {
      ReleaseEach(g, Handles(), mem, s0, done);
      name, activate, encoder, isInitialized := NULL, NULL, NULL, false;
    }
  }

  /** `struct d3d`: the encoder it was selected for and the device handles. */
  class D3d {
    var enc: HwEncoder?
    var dxgiDevice: Ptr
    var dxgiAdapter: Ptr
    var device: Ptr
    var context: Ptr
    var isInitialized: bool

    function OwnHandles(): seq<Ptr>
      reads this
    {
      [dxgiDevice, dxgiAdapter, device, context]
    }

    /** What `free_d3d` releases: the encoder's handles first. */
    function Handles(): seq<Ptr>
      reads this, enc
    {
      (if enc != null then enc.Handles() else []) + OwnHandles()
    }

    predicate IsZero()
      reads this
    {
      enc == null && dxgiDevice == NULL && dxgiAdapter == NULL && device == NULL && context == NULL && !isInitialized
    }

    constructor (enc: HwEncoder?, dxgiDevice: Ptr, dxgiAdapter: Ptr, device: Ptr, context: Ptr)
      ensures this.enc == enc && this.dxgiDevice == dxgiDevice && this.dxgiAdapter == dxgiAdapter
      ensures this.device == device && this.context == context && isInitialized
    {
      this.enc := enc;
      this.dxgiDevice := dxgiDevice;
      this.dxgiAdapter := dxgiAdapter;
      this.device := device;
      this.context := context;
      isInitialized := true;
    }

    /** `free_d3d`, after `done` */
    method Free(g: Globals, mem: Memory, ghost s0: RegState, ghost done: seq<Ptr>)
      requires Ready(g, mem) && AllBacked(s0.nodes, mem)
      requires g.heldObjs.State() == ReleaseFields(s0, done, mem)
      modifies this, enc, g.heldObjs
      ensures Ready(g, mem) && IsZero()
      ensures old(enc) != null ==> old(enc).IsZero()
      ensures g.heldObjs.State() == ReleaseFields(s0, done + old(Handles()), mem)
    {
      ghost var encHandles := if enc != null then enc.Handles() else [];
      if enc != null {
        enc.Free(g, mem, s0, done);
      } else {
        assert done + encHandles == done;
      }
      ReleaseEach(g, OwnHandles(), mem, s0, done + encHandles);
      ConcatAssoc(done, encHandles, OwnHandles());
      enc, dxgiDevice, dxgiAdapter, device, context, isInitialized := null, NULL, NULL, NULL, NULL, false;
    }
  }

  /** The nested `free_d3d` of `free_display` and `free_mf_state`, when the
      structure has a d3d. */
  method FreeD3dIfSet(g: Globals, d3d: D3d?, mem: Memory, ghost s0: RegState, ghost done: seq<Ptr>)
    requires Ready(g, mem) && AllBacked(s0.nodes, mem)
    requires g.heldObjs.State() == ReleaseFields(s0, done, mem)
    modifies d3d, if d3d != null then {d3d.enc} else {}, g.heldObjs
    ensures Ready(g, mem)
    ensures d3d != null ==> d3d.IsZero() && (old(d3d.enc) != null ==> old(d3d.enc).IsZero())
    ensures g.heldObjs.State() == ReleaseFields(s0, done + (if d3d != null then old(d3d.Handles()) else []), mem)
  {
    if d3d != null {
      d3d.Free(g, mem, s0, done);
    } else {
      assert done + [] == done;
    }
  }

  /** The handles of one `struct nv12_conv` that `free_display` releases. */
  datatype ConvHandles = ConvHandles(tex: Ptr, surface: Ptr, outputView: Ptr, buffer: Ptr, sample: Ptr)

  function ConvFieldsOf(c: ConvHandles): seq<Ptr>
  {
    [c.tex, c.surface, c.outputView, c.buffer, c.sample]
  }

  /** The handles of the pool in the order `free_display` releases them. */
  function ConvFields(cs: seq<ConvHandles>): (ps: seq<Ptr>)
    ensures |ps| == 5 * |cs|
    decreases |cs|
  {
    if cs == [] then [] else ConvFields(cs[..|cs| - 1]) + ConvFieldsOf(cs[|cs| - 1])
  }

  lemma ConvFieldsSnoc(cs: seq<ConvHandles>, i: nat)
    requires i < |cs|
    ensures ConvFields(cs[..i + 1]) == ConvFields(cs[..i]) + ConvFieldsOf(cs[i])
  {
    assert cs[..i + 1][..i] == cs[..i];
  }

  /** `struct display`: its d3d, the duplication and video processing handles,
      and the conversion pool. */
  class Display {
    var d3d: D3d?
    var output: Ptr
    var output1: Ptr
    var dup: Ptr
    var videoDevice: Ptr
    var videoContext: Ptr
    var videoProcessorEnum: Ptr
    var videoProcessor: Ptr
    var prevNv12Frame: Ptr
    var inputView: Ptr
    var pool: seq<ConvHandles>

    function FieldHandles(): seq<Ptr>
      reads this
    {
      [output, output1, dup, videoDevice, videoContext, videoProcessorEnum, videoProcessor, prevNv12Frame, inputView]
    }

    function OwnHandles(): seq<Ptr>
      reads this
    {
      FieldHandles() + ConvFields(pool)
    }

    function Handles(): seq<Ptr>
      reads this, d3d, if d3d != null then {d3d.enc} else {}
    {
      (if d3d != null then d3d.Handles() else []) + OwnHandles()
    }

    predicate IsZero()
      reads this
    {
      && d3d == null && output == NULL && output1 == NULL && dup == NULL && videoDevice == NULL
      && videoContext == NULL && videoProcessorEnum == NULL && videoProcessor == NULL
      && prevNv12Frame == NULL && inputView == NULL && pool == []
    }

    /** The display `select_display` starts from: only `d3d` is set, every
        handle is NULL and the pool is empty. */
    constructor (d3d: D3d?)
      ensures this.d3d == d3d && pool == []
      ensures forall k :: 0 <= k < |FieldHandles()| ==> FieldHandles()[k] == NULL
    {
      this.d3d := d3d;
      output, output1, dup, videoDevice, videoContext := NULL, NULL, NULL, NULL, NULL;
      videoProcessorEnum, videoProcessor, prevNv12Frame, inputView := NULL, NULL, NULL, NULL;
      pool := [];
    }

    /** The pool loop of `free_display`: every slot's handles, slot by slot, after `done`. */
    method ReleasePool(g: Globals, mem: Memory, ghost s0: RegState, ghost done: seq<Ptr>)
      requires Ready(g, mem) && AllBacked(s0.nodes, mem)
      requires g.heldObjs.State() == ReleaseFields(s0, done, mem)
      modifies g.heldObjs
      ensures Ready(g, mem)
      ensures g.heldObjs.State() == ReleaseFields(s0, done + ConvFields(pool), mem)
    {
      assert done + ConvFields(pool[..0]) == done;
      for i := 0 to |pool|
        invariant Ready(g, mem)
        invariant g.heldObjs.State() == ReleaseFields(s0, done + ConvFields(pool[..i]), mem)
      {
        ReleaseEach(g, ConvFieldsOf(pool[i]), mem, s0, done + ConvFields(pool[..i]));
        ConvFieldsSnoc(pool, i);
        assert done + ConvFields(pool[..i]) + ConvFieldsOf(pool[i]) == done + ConvFields(pool[..i + 1]);
      }
      assert pool[..|pool|] == pool;
    }

    /** The releases of `free_display` after the d3d's, following `done`. */
    method ReleaseOwn(g: Globals, mem: Memory, ghost s0: RegState, ghost done: seq<Ptr>)
      requires Ready(g, mem) && AllBacked(s0.nodes, mem)
      requires g.heldObjs.State() == ReleaseFields(s0, done, mem)
      modifies g.heldObjs
      ensures Ready(g, mem)
      ensures g.heldObjs.State() == ReleaseFields(s0, done + OwnHandles(), mem)
    {
      ReleaseEach(g, FieldHandles(), mem, s0, done);
      ReleasePool(g, mem, s0, done + FieldHandles());
      assert done + FieldHandles() + ConvFields(pool) == done + OwnHandles();
    }

    /** `free_display`, after `done` */
    method Free(g: Globals, mem: Memory, ghost s0: RegState, ghost done: seq<Ptr>)
      requires Ready(g, mem) && AllBacked(s0.nodes, mem)
      requires g.heldObjs.State() == ReleaseFields(s0, done, mem)
      modifies this, d3d, if d3d != null then {d3d.enc} else {}, g.heldObjs
      ensures Ready(g, mem) && IsZero()
      ensures old(d3d) != null ==> old(d3d).IsZero() && (old(d3d.enc) != null ==> old(d3d.enc).IsZero())
      ensures g.heldObjs.State() == ReleaseFields(s0, done + old(Handles()), mem)
    {
      ghost var d3dHandles := if d3d != null then d3d.Handles() else [];
      FreeD3dIfSet(g, d3d, mem, s0, done);
      ReleaseOwn(g, mem, s0, done + d3dHandles);
      ConcatAssoc(done, d3dHandles, OwnHandles());
      Clear();
    }

    /** The `memset` that ends `free_display`. */
    method Clear()
      modifies this
      ensures IsZero()
    {
      d3d, output, output1, dup, videoDevice, videoContext := null, NULL, NULL, NULL, NULL, NULL;
      videoProcessorEnum, videoProcessor, prevNv12Frame, inputView, pool := NULL, NULL, NULL, NULL, [];
    }
  }

  /** `struct mf_state`: its d3d, the device manager and its device handle,
      the media types and the encoder's event generator. */
  class MfState {
    var d3d: D3d?
    var deviceManager: Ptr
    var outType: Ptr
    var inType: Ptr
    var eventGen: Ptr
    var hD3dDevice: int

    function OwnHandles(): seq<Ptr>
      reads this
    {
      [deviceManager, outType, inType, eventGen]
    }

    function Handles(): seq<Ptr>
      reads this, d3d, if d3d != null then {d3d.enc} else {}
    {
      (if d3d != null then d3d.Handles() else []) + OwnHandles()
    }

    predicate IsZero()
      reads this
    {
      && d3d == null && deviceManager == NULL && outType == NULL && inType == NULL && eventGen == NULL
      && hD3dDevice == INVALID_HANDLE_VALUE
    }

    constructor (d3d: D3d?)
      ensures this.d3d == d3d && deviceManager == NULL && outType == NULL && inType == NULL && eventGen == NULL
      ensures hD3dDevice == INVALID_HANDLE_VALUE
    {
      this.d3d := d3d;
      deviceManager, outType, inType, eventGen := NULL, NULL, NULL, NULL;
      hD3dDevice := INVALID_HANDLE_VALUE;
    }

    /** `free_mf_state`, after `done`. `closed` is the device handle given to
        `CloseDeviceHandle`, which happens before the device manager is released. */
    method Free(g: Globals, mem: Memory, ghost s0: RegState, ghost done: seq<Ptr>) returns (closed: Option<int>)
      requires Ready(g, mem) && AllBacked(s0.nodes, mem)
      requires g.heldObjs.State() == ReleaseFields(s0, done, mem)
      modifies this, d3d, if d3d != null then {d3d.enc} else {}, g.heldObjs
      ensures Ready(g, mem) && IsZero()
      ensures closed == (if old(hD3dDevice) != INVALID_HANDLE_VALUE && old(deviceManager) != NULL
                         then Some(old(hD3dDevice)) else None)
      ensures old(d3d) != null ==> old(d3d).IsZero() && (old(d3d.enc) != null ==> old(d3d.enc).IsZero())
      ensures g.heldObjs.State() == ReleaseFields(s0, done + old(Handles()), mem)
    {
      ghost var d3dHandles := if d3d != null then d3d.Handles() else [];
      FreeD3dIfSet(g, d3d, mem, s0, done);
      closed := None;
      if hD3dDevice != INVALID_HANDLE_VALUE && deviceManager != NULL {
        closed := Some(hD3dDevice);
      }
      ReleaseEach(g, OwnHandles(), mem, s0, done + d3dHandles);
      ConcatAssoc(done, d3dHandles, OwnHandles());
      Clear();
    }

    /** The `memset` that ends `free_mf_state`, with the device handle back at
        `INVALID_HANDLE_VALUE`. */
    method Clear()
      modifies this
      ensures IsZero()
    {
      d3d, deviceManager, outType, inType, eventGen := null, NULL, NULL, NULL, NULL;
      hD3dDevice := INVALID_HANDLE_VALUE;
    }
  }

  /** `struct mp4_file`: the output file, the sink, its presentation clock and
      the event callback. */
  class Mp4File {
    var file: Ptr
    var mediaSink: Ptr
    var sink: Ptr
    var clock: Ptr
    var eventCallback: Ptr
    var isRecording: bool

    function Handles(): seq<Ptr>
      reads this
    {
      [file, mediaSink, sink, clock, eventCallback]
    }

    predicate IsZero()
      reads this
    {
      file == NULL && mediaSink == NULL && sink == NULL && clock == NULL && eventCallback == NULL && !isRecording
    }

    constructor ()
      ensures IsZero()
    {
      file, mediaSink, sink, clock, eventCallback := NULL, NULL, NULL, NULL, NULL;
      isRecording := false;
    }

    /** `free_mp4_file`, after `done`. `stopped` is the clock that was
        stopped, right before it was released. */
    method Free(g: Globals, mem: Memory, ghost s0: RegState, ghost done: seq<Ptr>) returns (stopped: Option<Ptr>)
      requires Ready(g, mem) && AllBacked(s0.nodes, mem)
      requires g.heldObjs.State() == ReleaseFields(s0, done, mem)
      modifies this, g.heldObjs
      ensures Ready(g, mem) && IsZero()
      ensures stopped == (if old(clock) != NULL then Some(old(clock)) else None)
      ensures g.heldObjs.State() == ReleaseFields(s0, done + old(Handles()), mem)
    {
      stopped := if clock != NULL then Some(clock) else None;
      ReleaseEach(g, Handles(), mem, s0, done);
      file, mediaSink, sink, clock, eventCallback, isRecording := NULL, NULL, NULL, NULL, NULL, false;
    }
  }

  /** The handles `exit_process` releases before the final `release_all`, in
      order, for the five global structures wired as the program wires them.
      The shared d3d (with its encoder) is released at the first free that
      reaches it; later frees find it zeroed. */
  function ExitReleases(mp4: seq<Ptr>, mfD3d: bool, dispD3d: bool, d3dEnc: bool,
                        mfOwn: seq<Ptr>, dispOwn: seq<Ptr>, d3dOwn: seq<Ptr>, encH: seq<Ptr>): seq<Ptr>
  {
    var d := (if d3dEnc then encH else []) + d3dOwn;
    mp4
      + ((if mfD3d then d else []) + mfOwn)
      + (if !mfD3d && dispD3d then d else []) + dispOwn
      + (if !mfD3d && !dispD3d then d else [])
      + (if !d3dEnc then encH else [])
  }

  /** The shared d3d and encoder are each released once, whatever stage the
      program reached: every handle of every structure appears exactly once
      among the releases. */
  lemma ExitReleasesEachStructureOnce(mp4: seq<Ptr>, mfD3d: bool, dispD3d: bool, d3dEnc: bool,
                                      mfOwn: seq<Ptr>, dispOwn: seq<Ptr>, d3dOwn: seq<Ptr>, encH: seq<Ptr>)
    ensures multiset(ExitReleases(mp4, mfD3d, dispD3d, d3dEnc, mfOwn, dispOwn, d3dOwn, encH))
            == multiset(mp4) + multiset(mfOwn) + multiset(dispOwn) + multiset(d3dOwn) + multiset(encH)
  {
  }

  /** The handles of a zeroed d3d and of a zeroed encoder. */
  const ZeroD3d: seq<Ptr> := [NULL, NULL, NULL, NULL]
  const ZeroEncoder: seq<Ptr> := [NULL, NULL, NULL]

  /** Every NULL check before a release that `exit_process` makes, in order,
      NULL handles included: the d3d and the encoder are checked again by every
      free that reaches them, and after the first they are zero. */
  function ExitChecks(mp4: seq<Ptr>, mfD3d: bool, dispD3d: bool, d3dEnc: bool,
                      mfOwn: seq<Ptr>, dispOwn: seq<Ptr>, d3dOwn: seq<Ptr>, encH: seq<Ptr>): seq<Ptr>
  {
    var d := (if d3dEnc then encH else []) + d3dOwn;
    mp4
      + ((if mfD3d then d else []) + mfOwn)
      + (if dispD3d then (if mfD3d then ZeroD3d else d) else []) + dispOwn
      + (if mfD3d || dispD3d then ZeroD3d else d)
      + (if d3dEnc then ZeroEncoder else encH)
  }

  /** The non-NULL handles of `ps`, in order. */
  function NonNull(ps: seq<Ptr>): (r: seq<Ptr>)
    ensures forall k :: 0 <= k < |r| ==> r[k] != NULL
    decreases |ps|
  {
    if ps == [] then []
    else NonNull(ps[..|ps| - 1]) + (if ps[|ps| - 1] != NULL then [ps[|ps| - 1]] else [])
  }

  lemma {:induction false} NonNullAppend(a: seq<Ptr>, b: seq<Ptr>)
    ensures NonNull(a + b) == NonNull(a) + NonNull(b)
    decreases |b|
  {
    if b == [] {
      assert a + b == a;
    } else {
      assert (a + b)[..|a + b| - 1] == a + b[..|b| - 1];
      NonNullAppend(a, b[..|b| - 1]);
    }
  }

  lemma {:induction false} NonNullOfNulls(ps: seq<Ptr>)
    requires forall k :: 0 <= k < |ps| ==> ps[k] == NULL
    ensures NonNull(ps) == []
    decreases |ps|
  {
    if ps != [] {
      NonNullOfNulls(ps[..|ps| - 1]);
    }
  }

  /** Only the non-NULL handles of a run are released. */
  lemma {:induction false} ReleaseFieldsNonNull(st: RegState, ps: seq<Ptr>, mem: Memory)
    requires AllBacked(st.nodes, mem)
    ensures ReleaseFields(st, ps, mem) == ReleaseFields(st, NonNull(ps), mem)
    decreases |ps|
  {
    if ps != [] {
      var init, last := ps[..|ps| - 1], ps[|ps| - 1];
      ReleaseFieldsNonNull(st, init, mem);
      if last != NULL {
        var q := NonNull(init) + [last];
        assert q[..|q| - 1] == NonNull(init);
      } else {
        assert NonNull(ps) == NonNull(init);
      }
    }
  }

  /** The checks of the zeroed structures release nothing: `exit_process`
      releases what `ExitReleases` lists. */
  lemma ExitChecksRelease(st: RegState, mp4: seq<Ptr>, mfD3d: bool, dispD3d: bool, d3dEnc: bool,
                          mfOwn: seq<Ptr>, dispOwn: seq<Ptr>, d3dOwn: seq<Ptr>, encH: seq<Ptr>, mem: Memory)
    requires AllBacked(st.nodes, mem)
    ensures ReleaseFields(st, ExitChecks(mp4, mfD3d, dispD3d, d3dEnc, mfOwn, dispOwn, d3dOwn, encH), mem)
         == ReleaseFields(st, ExitReleases(mp4, mfD3d, dispD3d, d3dEnc, mfOwn, dispOwn, d3dOwn, encH), mem)
  {
    var checks := ExitChecks(mp4, mfD3d, dispD3d, d3dEnc, mfOwn, dispOwn, d3dOwn, encH);
    var releases := ExitReleases(mp4, mfD3d, dispD3d, d3dEnc, mfOwn, dispOwn, d3dOwn, encH);
    ExitChecksNonNull(mp4, mfD3d, dispD3d, d3dEnc, mfOwn, dispOwn, d3dOwn, encH);
    ReleaseFieldsNonNull(st, checks, mem);
    ReleaseFieldsNonNull(st, releases, mem);
  }

  /** The two lists differ only by the handles of zeroed structures. */
  lemma ExitChecksNonNull(mp4: seq<Ptr>, mfD3d: bool, dispD3d: bool, d3dEnc: bool,
                          mfOwn: seq<Ptr>, dispOwn: seq<Ptr>, d3dOwn: seq<Ptr>, encH: seq<Ptr>)
    ensures NonNull(ExitChecks(mp4, mfD3d, dispD3d, d3dEnc, mfOwn, dispOwn, d3dOwn, encH))
         == NonNull(ExitReleases(mp4, mfD3d, dispD3d, d3dEnc, mfOwn, dispOwn, d3dOwn, encH))
  {
    var d := (if d3dEnc then encH else []) + d3dOwn;
    var x := mp4 + ((if mfD3d then d else []) + mfOwn);
    var a1 := if dispD3d then (if mfD3d then ZeroD3d else d) else [];
    var b1 := if !mfD3d && dispD3d then d else [];
    var a2 := if mfD3d || dispD3d then ZeroD3d else d;
    var b2 := if !mfD3d && !dispD3d then d else [];
    var a3 := if d3dEnc then ZeroEncoder else encH;
    var b3 := if !d3dEnc then encH else [];
    NonNullOfNulls(ZeroD3d);
    NonNullOfNulls(ZeroEncoder);
    NonNullOfNulls([]);
    assert NonNull(a1) == NonNull(b1) && NonNull(a2) == NonNull(b2) && NonNull(a3) == NonNull(b3);
    NonNullAppend(x, a1);
    NonNullAppend(x + a1, dispOwn);
    NonNullAppend(x + a1 + dispOwn, a2);
    NonNullAppend(x + a1 + dispOwn + a2, a3);
    NonNullAppend(x, b1);
    NonNullAppend(x + b1, dispOwn);
    NonNullAppend(x + b1 + dispOwn, b2);
    NonNullAppend(x + b1 + dispOwn + b2, b3);
  }

  /** `free_mf_state` as seen from the shared d3d and encoder. */
  method FreeMfStage(g: Globals, mf: MfState, d3d: D3d, enc: HwEncoder, mem: Memory,
                     ghost s0: RegState, ghost done: seq<Ptr>)
    requires Ready(g, mem) && AllBacked(s0.nodes, mem)
    requires g.heldObjs.State() == ReleaseFields(s0, done, mem)
    requires mf.d3d == null || mf.d3d == d3d
    requires d3d.enc == null || d3d.enc == enc
    modifies g.heldObjs, mf, d3d, enc
    ensures Ready(g, mem) && mf.IsZero()
    ensures g.heldObjs.State() == ReleaseFields(s0, done + old(mf.Handles()), mem)
    ensures d3d.enc == null || d3d.enc == enc
    ensures old(mf.d3d) != null ==> d3d.IsZero() && (old(d3d.enc) != null ==> enc.IsZero())
    ensures old(mf.d3d) == null ==> d3d.Handles() == old(d3d.Handles())
    ensures !(old(mf.d3d) != null && old(d3d.enc) != null) ==> enc.Handles() == old(enc.Handles())
    ensures old(d3d.IsZero()) ==> d3d.IsZero()
    ensures old(enc.IsZero()) ==> enc.IsZero()
  {
    var _ := mf.Free(g, mem, s0, done);
  }

  /** `free_display` as seen from the shared d3d and encoder. */
  method FreeDisplayStage(g: Globals, disp: Display, d3d: D3d, enc: HwEncoder, mem: Memory,
                          ghost s0: RegState, ghost done: seq<Ptr>)
    requires Ready(g, mem) && AllBacked(s0.nodes, mem)
    requires g.heldObjs.State() == ReleaseFields(s0, done, mem)
    requires disp.d3d == null || disp.d3d == d3d
    requires d3d.enc == null || d3d.enc == enc
    modifies g.heldObjs, disp, d3d, enc
    ensures Ready(g, mem) && disp.IsZero()
    ensures g.heldObjs.State() == ReleaseFields(s0, done + old(disp.Handles()), mem)
    ensures d3d.enc == null || d3d.enc == enc
    ensures old(disp.d3d) != null ==> d3d.IsZero() && (old(d3d.enc) != null ==> enc.IsZero())
    ensures old(disp.d3d) == null ==> d3d.Handles() == old(d3d.Handles())
    ensures !(old(disp.d3d) != null && old(d3d.enc) != null) ==> enc.Handles() == old(enc.Handles())
    ensures old(d3d.IsZero()) ==> d3d.IsZero()
    ensures old(enc.IsZero()) ==> enc.IsZero()
  {
    disp.Free(g, mem, s0, done);
  }

  /** `free_mf_state` then `free_display`: the second finds the shared d3d
      zeroed if the first released it. */
  method FreeOwners(g: Globals, mf: MfState, disp: Display, d3d: D3d, enc: HwEncoder, mem: Memory,
                    ghost s0: RegState, ghost done: seq<Ptr>)
    requires Ready(g, mem) && AllBacked(s0.nodes, mem)
    requires g.heldObjs.State() == ReleaseFields(s0, done, mem)
    requires mf.d3d == null || mf.d3d == d3d
    requires disp.d3d == null || disp.d3d == d3d
    requires d3d.enc == null || d3d.enc == enc
    modifies g.heldObjs, mf, disp, d3d, enc
    ensures Ready(g, mem) && mf.IsZero() && disp.IsZero()
    ensures g.heldObjs.State() == ReleaseFields(s0, done + old(mf.Handles())
              + (if old(disp.d3d) == null then [] else if old(mf.d3d) != null then ZeroD3d else old(d3d.Handles()))
              + old(disp.OwnHandles()), mem)
    ensures old(mf.d3d) != null || old(disp.d3d) != null ==> d3d.IsZero() && (old(d3d.enc) != null ==> enc.IsZero())
    ensures d3d.enc == null || d3d.enc == enc
    ensures old(mf.d3d) == null && old(disp.d3d) == null ==> d3d.Handles() == old(d3d.Handles())
    ensures !((old(mf.d3d) != null || old(disp.d3d) != null) && old(d3d.enc) != null) ==> enc.Handles() == old(enc.Handles())
  {
    ghost var mfH := mf.Handles();
    ghost var dispOwn := disp.OwnHandles();
    ghost var mfD3d := mf.d3d != null;
    ghost var d3dH := d3d.Handles();
    FreeMfStage(g, mf, d3d, enc, mem, s0, done);
    ghost var dispD3dH := if disp.d3d == null then [] else if mfD3d then ZeroD3d else d3dH;
    assert disp.Handles() == dispD3dH + dispOwn;
    FreeDisplayStage(g, disp, d3d, enc, mem, s0, done + mfH);
    assert done + mfH + (dispD3dH + dispOwn) == done + mfH + dispD3dH + dispOwn;
  }

  /** `free_d3d` then `free_hw_encoder` on the shared structures. */
  method FreeShared(g: Globals, d3d: D3d, enc: HwEncoder, mem: Memory, ghost s0: RegState, ghost done: seq<Ptr>)
    requires Ready(g, mem) && AllBacked(s0.nodes, mem)
    requires g.heldObjs.State() == ReleaseFields(s0, done, mem)
    requires d3d.enc == null || d3d.enc == enc
    modifies g.heldObjs, d3d, enc
    ensures Ready(g, mem) && d3d.IsZero() && enc.IsZero()
    ensures g.heldObjs.State() == ReleaseFields(s0, done + old(d3d.Handles())
              + (if old(d3d.enc) != null then ZeroEncoder else old(enc.Handles())), mem)
  {
    ghost var d3dH := d3d.Handles();
    ghost var d3dEnc := d3d.enc != null;
    d3d.Free(g, mem, s0, done);
    assert enc.Handles() == (if d3dEnc then ZeroEncoder else old(enc.Handles()));
    enc.Free(g, mem, s0, done + d3dH);
  }

  /** The five frees of `exit_process`, mp4 file first, as the registry sees them. */
  method FreeStructures(g: Globals, mp4: Mp4File, mf: MfState, disp: Display, d3d: D3d, enc: HwEncoder, mem: Memory)
    requires Ready(g, mem)
    requires mf.d3d == null || mf.d3d == d3d
    requires disp.d3d == null || disp.d3d == d3d
    requires d3d.enc == null || d3d.enc == enc
    modifies g.heldObjs, mp4, mf, disp, d3d, enc
    ensures Ready(g, mem)
    ensures mp4.IsZero() && mf.IsZero() && disp.IsZero() && d3d.IsZero() && enc.IsZero()
    ensures g.heldObjs.State() == ReleaseFields(old(g.heldObjs.State()),
              old(ExitChecks(mp4.Handles(), mf.d3d != null, disp.d3d != null, d3d.enc != null,
                             mf.OwnHandles(), disp.OwnHandles(), d3d.OwnHandles(), enc.Handles())), mem)
  {
    ghost var s0 := g.heldObjs.State();
    ghost var mfD3d, dispD3d, d3dEnc := mf.d3d != null, disp.d3d != null, d3d.enc != null;
    ghost var mfOwn, dispOwn, d3dOwn, encH := mf.OwnHandles(), disp.OwnHandles(), d3d.OwnHandles(), enc.Handles();
    ghost var d := (if d3dEnc then encH else []) + d3dOwn;
    ghost var mp4H := mp4.Handles();
    ghost var mfH := mf.Handles();
    assert mfH == (if mfD3d then d else []) + mfOwn;
    ghost var dispD3dH := if dispD3d then (if mfD3d then ZeroD3d else d) else [];
    assert ReleaseFields(s0, [], mem) == s0;

    var _ := mp4.Free(g, mem, s0, []);
    assert [] + mp4H == mp4H;
    FreeOwners(g, mf, disp, d3d, enc, mem, s0, mp4H);
    ghost var done := mp4H + mfH + dispD3dH + dispOwn;

    ghost var d3dH := if mfD3d || dispD3d then ZeroD3d else d;
    assert d3d.Handles() == d3dH;
    ghost var encPart := if d3dEnc then ZeroEncoder else encH;
    assert (if d3d.enc != null then ZeroEncoder else enc.Handles()) == encPart;
    FreeShared(g, d3d, enc, mem, s0, done);
    assert done + d3dH + encPart == ExitChecks(mp4H, mfD3d, dispD3d, d3dEnc, mfOwn, dispOwn, d3dOwn, encH);
  }

  /** `exit_process`: the five structures are freed, mp4 file first, then the
      registry is released as a whole; `total` is what `release_all` reports.
      Every structure ends zeroed and the registry is consumed. */
  method ExitProcess(g: Globals, mp4: Mp4File, mf: MfState, disp: Display, d3d: D3d, enc: HwEncoder, mem: Memory)
    returns (total: nat)
    requires Ready(g, mem)
    requires mf.d3d == null || mf.d3d == d3d
    requires disp.d3d == null || disp.d3d == d3d
    requires d3d.enc == null || d3d.enc == enc
    modifies g.heldObjs, mp4, mf, disp, d3d, enc
    ensures mp4.IsZero() && mf.IsZero() && disp.IsZero() && d3d.IsZero() && enc.IsZero() && g.heldObjs.consumed
    ensures var before := ReleaseFields(old(g.heldObjs.State()),
              old(ExitReleases(mp4.Handles(), mf.d3d != null, disp.d3d != null, d3d.enc != null,
                               mf.OwnHandles(), disp.OwnHandles(), d3d.OwnHandles(), enc.Handles())), mem);
      && total == TotalFreed(before.nodes, mem)
      && g.heldObjs.effects == before.effects + AllEffects(before.nodes, mem)
  {
    ExitChecksRelease(g.heldObjs.State(), mp4.Handles(), mf.d3d != null, disp.d3d != null, d3d.enc != null,
                      mf.OwnHandles(), disp.OwnHandles(), d3d.OwnHandles(), enc.Handles(), mem);
    FreeStructures(g, mp4, mf, disp, d3d, enc, mem);
    total := g.ReleaseAllComObjs(mem);
  }
}
