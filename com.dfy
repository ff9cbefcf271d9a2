/** The ownership registry (com.c): a singly linked list of acquired COM
    handles, newest first. The list is the `nodes` field of a `Registry`;
    relinking `next` pointers and the head is modelled as splicing that
    sequence. The only effect of releasing a node on the outside world is the
    sequence of `Release()` calls and array frees it makes, which each
    registry records in its `effects` log. */
module Com {
  import opened Platform

  /** One `struct com_obj`: the handle, its debug name, and `count`, which is
      0 for a single object and otherwise the length of the pointer array
      that `obj` points at. */
  datatype Node = Node(obj: Ptr, name: string, count: nat)

  /** What releasing does outside the registry: a `Release()` call on the object,
      or `CoTaskMemFree` of a pointer array. */
  datatype Effect = ReleaseRef(p: Ptr) | FreeArray(p: Ptr)

  /** The contents of the pointer arrays in memory at the time of a release. */
  type Memory = map<Ptr, seq<Ptr>>

  predicate Backed(n: Node, mem: Memory)
  {
    n.count > 0 ==> n.obj in mem && |mem[n.obj]| >= n.count
  }

  predicate AllBacked(nodes: seq<Node>, mem: Memory)
  {
    forall k :: 0 <= k < |nodes| ==> Backed(nodes[k], mem)
  }

  // ---------------------------------------------------------------- release_com_node

  function NonNullCount(elems: seq<Ptr>): nat
  {
    if elems == [] then 0 else (if elems[0] != NULL then 1 else 0) + NonNullCount(elems[1..])
  }

  /** The `Release()` calls on the non-NULL elements of an array, in index order. */
  function ArrayReleases(elems: seq<Ptr>): seq<Effect>
  {
    if elems == [] then []
    else (if elems[0] != NULL then [ReleaseRef(elems[0])] else []) + ArrayReleases(elems[1..])
  }

  /** The release strategy of a node: one `Release()` for a single object; for an
      array, `Release()` on each non-NULL element, then the array is freed. */
  function NodeEffects(n: Node, mem: Memory): seq<Effect>
    requires Backed(n, mem)
  {
    if n.count == 0 then [ReleaseRef(n.obj)]
    else ArrayReleases(mem[n.obj][..n.count]) + [FreeArray(n.obj)]
  }

  /** What `release_com_node` returns: 1, plus the non-NULL elements of an array. */
  function NodeFreed(n: Node, mem: Memory): nat
    requires Backed(n, mem)
  {
    if n.count == 0 then 1 else 1 + NonNullCount(mem[n.obj][..n.count])
  }

  lemma {:induction false} ArrayReleasesCount(elems: seq<Ptr>)
    ensures |ArrayReleases(elems)| == NonNullCount(elems)
    ensures forall e :: e in ArrayReleases(elems) ==> e.ReleaseRef? && e.p != NULL && e.p in elems
  {
    if elems != [] {
      ArrayReleasesCount(elems[1..]);
    }
  }

  /** The count `release_com_node` returns is the number of release actions it makes. */
  lemma NodeFreedCountsEffects(n: Node, mem: Memory)
    requires Backed(n, mem)
    ensures |NodeEffects(n, mem)| == NodeFreed(n, mem)
  {
    if n.count > 0 {
      ArrayReleasesCount(mem[n.obj][..n.count]);
    }
  }

  /** `release_com_node`, with its loop over the array elements. */
  method ReleaseNode(n: Node, mem: Memory) returns (freed: nat, effects: seq<Effect>)
    requires Backed(n, mem)
    ensures freed == NodeFreed(n, mem) && effects == NodeEffects(n, mem)
    ensures n.count == 0 ==> freed == 1 && effects == [ReleaseRef(n.obj)]
    ensures n.count > 0 ==> freed == 1 + NonNullCount(mem[n.obj][..n.count]) && effects[|effects| - 1] == FreeArray(n.obj)
  {
    freed := 1;
    if n.count == 0 {
      effects := [ReleaseRef(n.obj)];
    } else {
      var arr := mem[n.obj];
      effects := [];
      var i := 0;
      while i < n.count
        invariant i <= n.count
        invariant freed == 1 + NonNullCount(arr[..i])
        invariant effects == ArrayReleases(arr[..i])
      {
        SplitLast(arr[..i + 1]);
        assert arr[..i + 1][..i] == arr[..i];
        if arr[i] != NULL {
          effects := effects + [ReleaseRef(arr[i])];
          freed := freed + 1;
        }
        i := i + 1;
      }
      effects := effects + [FreeArray(n.obj)];
    }
  }

  lemma {:induction false} SplitLast(elems: seq<Ptr>)
    requires elems != []
    ensures NonNullCount(elems) == NonNullCount(elems[..|elems| - 1]) + (if elems[|elems| - 1] != NULL then 1 else 0)
    ensures ArrayReleases(elems) == ArrayReleases(elems[..|elems| - 1]) + (if elems[|elems| - 1] != NULL then [ReleaseRef(elems[|elems| - 1])] else [])
  {
    if |elems| > 1 {
      SplitLast(elems[1..]);
      assert elems[1..][..|elems[1..]| - 1] == elems[..|elems| - 1][1..];
    }
  }

  // ---------------------------------------------------------------- the list as a value

  /** Index of the first node (from the head, so the most recently acquired)
      that holds `obj`, or -1. */
  function IndexOf(nodes: seq<Node>, obj: Ptr): (k: int)
    ensures -1 <= k < |nodes|
    ensures k == -1 <==> forall j :: 0 <= j < |nodes| ==> nodes[j].obj != obj
    ensures k >= 0 ==> nodes[k].obj == obj && forall j :: 0 <= j < k ==> nodes[j].obj != obj
  {
    if nodes == [] then -1
    else if nodes[0].obj == obj then 0
    else var k := IndexOf(nodes[1..], obj); if k == -1 then -1 else k + 1
  }

  function RemoveAt(nodes: seq<Node>, k: nat): seq<Node>
    requires k < |nodes|
  {
    nodes[..k] + nodes[k + 1..]
  }

  /** A registry's observable state: its list and the effects it has had. */
  datatype RegState = RegState(nodes: seq<Node>, effects: seq<Effect>)

  /** The state after `release_com_obj_local(obj)`: the first node holding `obj`
      is unlinked and its release strategy runs once; an untracked handle
      leaves everything as it was (an error is logged). */
  function AfterRelease(st: RegState, obj: Ptr, mem: Memory): (r: RegState)
    requires AllBacked(st.nodes, mem)
    ensures AllBacked(r.nodes, mem)
  {
    var k := IndexOf(st.nodes, obj);
    if k == -1 then st
    else
      RemoveAtKeepsBacked(st.nodes, k, mem);
      RegState(RemoveAt(st.nodes, k), st.effects + NodeEffects(st.nodes[k], mem))
  }

  /** The state after `drop_com_obj_local(obj)`: the same node is unlinked, nothing is released. */
  function AfterDrop(st: RegState, obj: Ptr): RegState
  {
    var k := IndexOf(st.nodes, obj);
    if k == -1 then st else RegState(RemoveAt(st.nodes, k), st.effects)
  }

  /** The effects of releasing every node, head first. */
  function AllEffects(nodes: seq<Node>, mem: Memory): seq<Effect>
    requires AllBacked(nodes, mem)
  {
    if nodes == [] then [] else NodeEffects(nodes[0], mem) + AllEffects(nodes[1..], mem)
  }

  /** What `release_all_com_objs_local` returns: the sum of the per-node counts. */
  function TotalFreed(nodes: seq<Node>, mem: Memory): nat
    requires AllBacked(nodes, mem)
  {
    if nodes == [] then 0 else NodeFreed(nodes[0], mem) + TotalFreed(nodes[1..], mem)
  }

  // ---------------------------------------------------------------- properties of the list operations

  /** One node of the `release_all` walk: its counts and effects come first. */
  lemma ReleaseAllStep(ns: seq<Node>, i: nat, mem: Memory, released: seq<Effect>)
    requires i < |ns| && AllBacked(ns, mem)
    ensures TotalFreed(ns[i..], mem) == NodeFreed(ns[i], mem) + TotalFreed(ns[i + 1..], mem)
    ensures released + AllEffects(ns[i..], mem) == (released + NodeEffects(ns[i], mem)) + AllEffects(ns[i + 1..], mem)
  {
    assert ns[i..][1..] == ns[i + 1..];
    var tail := AllEffects(ns[i + 1..], mem);
    assert AllEffects(ns[i..], mem) == NodeEffects(ns[i], mem) + tail;
    assert released + (NodeEffects(ns[i], mem) + tail) == (released + NodeEffects(ns[i], mem)) + tail;
  }


  /** Release and drop unlink exactly one node and keep the others in order. */
  lemma RemoveAtKeepsOthers(nodes: seq<Node>, k: nat)
    requires k < |nodes|
    ensures |RemoveAt(nodes, k)| == |nodes| - 1
    ensures multiset(RemoveAt(nodes, k)) + multiset{nodes[k]} == multiset(nodes)
    ensures forall j :: 0 <= j < k ==> RemoveAt(nodes, k)[j] == nodes[j]
    ensures forall j :: k < j < |nodes| ==> RemoveAt(nodes, k)[j - 1] == nodes[j]
  {
    assert nodes == nodes[..k] + [nodes[k]] + nodes[k + 1..];
  }

  lemma RemoveAtKeepsBacked(nodes: seq<Node>, k: nat, mem: Memory)
    requires k < |nodes| && AllBacked(nodes, mem)
    ensures AllBacked(RemoveAt(nodes, k), mem)
  {
    RemoveAtKeepsOthers(nodes, k);
  }

  /** Releasing a handle right after acquiring it undoes the acquisition:
      the newest node is the one found, and the old list comes back. */
  lemma ReleaseUndoesAcquire(st: RegState, obj: Ptr, name: string, mem: Memory)
    requires AllBacked(st.nodes, mem)
    ensures AllBacked([Node(obj, name, 0)] + st.nodes, mem)
    ensures AfterRelease(RegState([Node(obj, name, 0)] + st.nodes, st.effects), obj, mem)
            == RegState(st.nodes, st.effects + [ReleaseRef(obj)])
  {
    var ns := [Node(obj, name, 0)] + st.nodes;
    assert IndexOf(ns, obj) == 0;
    assert RemoveAt(ns, 0) == st.nodes;
  }

  /** Drop unlinks the same node as release, but makes no release call. */
  lemma DropIsReleaseWithoutEffects(st: RegState, obj: Ptr, mem: Memory)
    requires AllBacked(st.nodes, mem)
    ensures AfterDrop(st, obj).nodes == AfterRelease(st, obj, mem).nodes
    ensures AfterDrop(st, obj).effects == st.effects
  {
  }

  lemma {:induction false} TotalFreedCountsEffects(nodes: seq<Node>, mem: Memory)
    requires AllBacked(nodes, mem)
    ensures |AllEffects(nodes, mem)| == TotalFreed(nodes, mem)
  {
    if nodes != [] {
      NodeFreedCountsEffects(nodes[0], mem);
      TotalFreedCountsEffects(nodes[1..], mem);
    }
  }

  /** A handle that is no longer in the list (it was dropped) and is not an
      element of any tracked array gets no `Release()` from `release_all`. */
  lemma {:induction false} UntrackedNotReleased(nodes: seq<Node>, obj: Ptr, mem: Memory)
    requires AllBacked(nodes, mem)
    requires forall j :: 0 <= j < |nodes| ==> nodes[j].obj != obj
    requires forall j :: 0 <= j < |nodes| && nodes[j].count > 0 ==> obj !in mem[nodes[j].obj][..nodes[j].count]
    ensures ReleaseRef(obj) !in AllEffects(nodes, mem)
  {
    if nodes != [] {
      var n := nodes[0];
      if n.count > 0 {
        ArrayReleasesCount(mem[n.obj][..n.count]);
      }
      UntrackedNotReleased(nodes[1..], obj, mem);
    }
  }

  /** A handle acquired once and then dropped is untouched by a later `release_all`. */
  lemma DroppedHandleNotReleased(st: RegState, obj: Ptr, name: string, mem: Memory)
    requires AllBacked(st.nodes, mem)
    requires forall j :: 0 <= j < |st.nodes| ==> st.nodes[j].obj != obj
    requires forall j :: 0 <= j < |st.nodes| && st.nodes[j].count > 0 ==> obj !in mem[st.nodes[j].obj][..st.nodes[j].count]
    ensures AfterDrop(RegState([Node(obj, name, 0)] + st.nodes, st.effects), obj) == st
    ensures ReleaseRef(obj) !in AllEffects(AfterDrop(RegState([Node(obj, name, 0)] + st.nodes, st.effects), obj).nodes, mem)
  {
    var ns := [Node(obj, name, 0)] + st.nodes;
    assert IndexOf(ns, obj) == 0;
    assert RemoveAt(ns, 0) == st.nodes;
    UntrackedNotReleased(st.nodes, obj, mem);
  }

  // ---------------------------------------------------------------- the registry

  class Registry {
    /** The list, head first: `nodes[0]` is `*objs`. */
    var nodes: seq<Node>
    /** Every release action this registry has made, in order. */
    var effects: seq<Effect>
    /** Set once `release_all` has freed every node: the head still points at
        them, so the list must not be used again. */
    ghost var consumed: bool

    function State(): RegState
      reads this
    {
      RegState(nodes, effects)
    }

    constructor ()
      ensures nodes == [] && effects == [] && !consumed
    {
      nodes := [];
      effects := [];
      consumed := false;
    }

    /** `acquire_com_obj_local`: prepends one node; no `AddRef`, no other change. */
    method AcquireObj(obj: Ptr, name: string)
      requires !consumed
      modifies this
      ensures nodes == [Node(obj, name, 0)] + old(nodes)
      ensures effects == old(effects) && !consumed
    {
      nodes := [Node(obj, name, 0)] + nodes;
    }

    /** `acquire_com_arr_local`: prepends one node for a pointer array of `count` elements. */
    method AcquireArr(arr: Ptr, count: nat, name: string)
      requires !consumed
      modifies this
      ensures nodes == [Node(arr, name, count)] + old(nodes)
      ensures effects == old(effects) && !consumed
    {
      nodes := [Node(arr, name, count)] + nodes;
    }

    /** `release_com_obj_local`. `found` is false exactly when the handle was not
        tracked, which the source reports as an error and otherwise ignores. */
    method Release(obj: Ptr, mem: Memory) returns (found: bool)
      requires !consumed && AllBacked(nodes, mem)
      modifies this
      ensures found <==> IndexOf(old(nodes), obj) >= 0
      ensures State() == AfterRelease(old(State()), obj, mem)
      ensures AllBacked(nodes, mem) && !consumed
    {
      var ns := nodes;
      var i := 0;
      while i < |ns|
        invariant i <= |ns| && nodes == ns && effects == old(effects)
        invariant forall j :: 0 <= j < i ==> ns[j].obj != obj
      {
        if ns[i].obj == obj {
          assert IndexOf(ns, obj) == i;
          var _, fx := ReleaseNode(ns[i], mem);
          RemoveAtKeepsBacked(ns, i, mem);
          effects := effects + fx;
          nodes := ns[..i] + ns[i + 1..];
          return true;
        }
        i := i + 1;
      }
      return false;
    }

    /** `drop_com_obj_local`: unlinks like `Release`, without releasing. */
    method Drop(obj: Ptr) returns (found: bool)
      requires !consumed
      modifies this
      ensures found <==> IndexOf(old(nodes), obj) >= 0
      ensures State() == AfterDrop(old(State()), obj)
      ensures !consumed
      ensures forall mem :: AllBacked(old(nodes), mem) ==> AllBacked(nodes, mem)
    {
      var i := 0;
      while i < |nodes|
        invariant i <= |nodes|
        invariant forall j :: 0 <= j < i ==> nodes[j].obj != obj
      {
        if nodes[i].obj == obj {
          RemoveAtKeepsOthers(nodes, i);
          nodes := nodes[..i] + nodes[i + 1..];
          return true;
        }
        i := i + 1;
      }
      return false;
    }

    /** `release_all_com_objs_local`: visits every node once, head first,
        releases it and returns the sum of the counts. The head is not reset. */
    method ReleaseAll(mem: Memory) returns (total: nat)
      requires !consumed && AllBacked(nodes, mem)
      modifies this
      ensures total == TotalFreed(old(nodes), mem)
      ensures effects == old(effects) + AllEffects(old(nodes), mem)
      ensures nodes == old(nodes) && consumed
    {
      var ns := nodes;
      var released: seq<Effect> := [];
      total := 0;
      for i := 0 to |ns|
        invariant nodes == ns && effects == old(effects)
        invariant total + TotalFreed(ns[i..], mem) == TotalFreed(ns, mem)
        invariant released + AllEffects(ns[i..], mem) == AllEffects(ns, mem)
      {
        var freed, fx := ReleaseNode(ns[i], mem);
        ReleaseAllStep(ns, i, mem, released);
        total := total + freed;
        released := released + fx;
      }
      assert ns[|ns|..] == [];
      assert TotalFreed(ns[|ns|..], mem) == 0;
      assert released + AllEffects(ns[|ns|..], mem) == released;
      effects := effects + released;
      consumed := true;
    }
  }

  // ---------------------------------------------------------------- the global list

  /** The process-wide list `held_objs` owned by the main thread; the global
      functions are the `_local` ones applied to it. */
  class Globals {
    const heldObjs: Registry

    constructor ()
      ensures fresh(heldObjs) && heldObjs.nodes == [] && heldObjs.effects == [] && !heldObjs.consumed
    {
      heldObjs := new Registry();
    }

    /** `acquire_com_obj` */
    method AcquireComObj(obj: Ptr, name: string)
      requires !heldObjs.consumed
      modifies heldObjs
      ensures heldObjs.nodes == [Node(obj, name, 0)] + old(heldObjs.nodes)
      ensures heldObjs.effects == old(heldObjs.effects) && !heldObjs.consumed
    {
      heldObjs.AcquireObj(obj, name);
    }

    /** `acquire_com_arr` */
    method AcquireComArr(arr: Ptr, count: nat, name: string)
      requires !heldObjs.consumed
      modifies heldObjs
      ensures heldObjs.nodes == [Node(arr, name, count)] + old(heldObjs.nodes)
      ensures heldObjs.effects == old(heldObjs.effects) && !heldObjs.consumed
    {
      heldObjs.AcquireArr(arr, count, name);
    }

    /** `release_com_obj` */
    method ReleaseComObj(obj: Ptr, mem: Memory)
      requires !heldObjs.consumed && AllBacked(heldObjs.nodes, mem)
      modifies heldObjs
      ensures heldObjs.State() == AfterRelease(old(heldObjs.State()), obj, mem)
      ensures AllBacked(heldObjs.nodes, mem) && !heldObjs.consumed
    {
      var _ := heldObjs.Release(obj, mem);
    }

    /** `drop_com_obj` */
    method DropComObj(obj: Ptr)
      requires !heldObjs.consumed
      modifies heldObjs
      ensures heldObjs.State() == AfterDrop(old(heldObjs.State()), obj)
      ensures !heldObjs.consumed
      ensures forall mem :: AllBacked(old(heldObjs.nodes), mem) ==> AllBacked(heldObjs.nodes, mem)
    {
      var _ := heldObjs.Drop(obj);
    }

    /** `release_all_com_objs` */
    method ReleaseAllComObjs(mem: Memory) returns (total: nat)
      requires !heldObjs.consumed && AllBacked(heldObjs.nodes, mem)
      modifies heldObjs
      ensures total == TotalFreed(old(heldObjs.nodes), mem)
      ensures heldObjs.effects == old(heldObjs.effects) + AllEffects(old(heldObjs.nodes), mem)
      ensures heldObjs.nodes == old(heldObjs.nodes) && heldObjs.consumed
    {
      total := heldObjs.ReleaseAll(mem);
    }
  }
}
