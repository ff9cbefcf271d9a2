/** Hardware selection in venc.c: which H.264 encoder to use
    (`select_encoder`), which DXGI adapter matches it
    (`select_dxgi_adapter`), which output to record (`select_display`) and
    which stream ids to use (`select_streams`). What the system enumerates
    is a parameter: a list of candidates, adapters or outputs, each carrying
    the result codes of the calls that read it. */
module Selection {
  import opened Platform
  import opened Lib
  import opened VencTypes

  // ---------------------------------------------------------------- vendor classification

  /** The vendor named in a friendly name or adapter description: the
      substrings are tried in the order "Intel", "AMD", "NVIDIA". */
  function NameVendor(name: string): (v: GpuVendor)
    ensures v == Intel <==> Search(name, "Intel") != -1
    ensures v == AMD <==> Search(name, "Intel") == -1 && Search(name, "AMD") != -1
    ensures v == Nvidia <==> Search(name, "Intel") == -1 && Search(name, "AMD") == -1 && Search(name, "NVIDIA") != -1
  {
    if Search(name, "Intel") != -1 then Intel
    else if Search(name, "AMD") != -1 then AMD
    else if Search(name, "NVIDIA") != -1 then Nvidia
    else Unknown
  }

  /** A vendor other than Unknown is only reported when its name occurs in the text. */
  lemma NameVendorSound(name: string)
    ensures NameVendor(name) == Intel ==> exists r :: OccursAt(name, "Intel", r)
    ensures NameVendor(name) == AMD ==> exists r :: OccursAt(name, "AMD", r)
    ensures NameVendor(name) == Nvidia ==> exists r :: OccursAt(name, "NVIDIA", r)
  {
    SearchSound(name, "Intel");
    SearchSound(name, "AMD");
    SearchSound(name, "NVIDIA");
  }

  /** A name that starts with the vendor's name and does not mention an
      vendor checked before it is classified as that vendor. */
  lemma NameVendorOfLeadingName(name: string)
    ensures |name| >= 5 && name[..5] == "Intel" ==> NameVendor(name) == Intel
    ensures |name| >= 3 && name[..3] == "AMD" && Search(name, "Intel") == -1 ==> NameVendor(name) == AMD
    ensures |name| >= 6 && name[..6] == "NVIDIA" && Search(name, "Intel") == -1 && Search(name, "AMD") == -1
            ==> NameVendor(name) == Nvidia
  {
    if |name| >= 5 && name[..5] == "Intel" { SearchFindsPrefix(name, "Intel"); }
    if |name| >= 3 && name[..3] == "AMD" { SearchFindsPrefix(name, "AMD"); }
    if |name| >= 6 && name[..6] == "NVIDIA" { SearchFindsPrefix(name, "NVIDIA"); }
  }

  /** The vendor of a PCI vendor id (the switch of `select_dxgi_adapter`). */
  function PciVendor(id: nat): (v: GpuVendor)
    ensures v == Nvidia <==> id == 0x10DE
    ensures v == AMD <==> id == 0x1002 || id == 0x1022
    ensures v == Intel <==> id == 0x8086 || id == 0x8087 || id == 0x163C
    ensures v == Unknown <==> id !in {0x10DE, 0x1002, 0x1022, 0x8086, 0x8087, 0x163C}
  {
    if id == 0x10DE then Nvidia
    else if id == 0x1002 || id == 0x1022 then AMD
    else if id == 0x8086 || id == 0x8087 || id == 0x163C then Intel
    else Unknown
  }

  // ---------------------------------------------------------------- select_encoder

  /** One activation object from `MFTEnumEx`, with the result codes of the
      three attribute reads and the values they produce. */
  datatype Candidate = Candidate(clsidHr: int, nameHr: int, meritHr: int, clsid: Guid, name: string, merit: nat)

  /** The reads are OR-ed together; the sign bit of the OR is set exactly when
      one of them failed, so the candidate is used only when all three succeeded. */
  predicate ReadsOk(c: Candidate)
  {
    Succeeded(c.clsidHr) && Succeeded(c.nameHr) && Succeeded(c.meritHr)
  }

  /** The running `best` of the scan: -1 as index until a candidate is taken. */
  datatype Best = Best(idx: int, vendor: GpuVendor, merit: nat)

  const NoBest: Best := Best(-1, Unknown, 0)

  /** (vendor rank, merit) of a is lexicographically below that of b. */
  predicate KeyLt(v1: GpuVendor, m1: nat, v2: GpuVendor, m2: nat)
  {
    Rank(v1) < Rank(v2) || (Rank(v1) == Rank(v2) && m1 < m2)
  }

  predicate KeyLe(v1: GpuVendor, m1: nat, v2: GpuVendor, m2: nat)
  {
    KeyLt(v1, m1, v2, m2) || (v1 == v2 && m1 == m2)
  }

  /** The replacement condition of the scan. */
  predicate Replaces(c: Candidate, requested: Guid, best: Best)
  {
    var v := NameVendor(c.name);
    c.clsid == requested || Rank(v) > Rank(best.vendor) || (v == best.vendor && c.merit > best.merit)
  }

  /** The scan of `select_encoder` from index i: skips candidates whose reads
      failed, takes every candidate that replaces the best so far, and stops at
      the first one whose class id is the requested one. */
  function Scan(cands: seq<Candidate>, requested: Guid, i: nat, best: Best): Best
    requires i <= |cands|
    decreases |cands| - i
  {
    if i == |cands| then best
    else
      var c := cands[i];
      if !ReadsOk(c) then Scan(cands, requested, i + 1, best)
      else if Replaces(c, requested, best) then
        var taken := Best(i, NameVendor(c.name), c.merit);
        if c.clsid == requested then taken else Scan(cands, requested, i + 1, taken)
      else Scan(cands, requested, i + 1, best)
  }

  /** The encoder `select_encoder` settles on. */
  datatype EncoderChoice = EncoderChoice(idx: nat, vendor: GpuVendor, merit: nat)

  /** What `select_encoder` returns, or None when it exits with status 1. */
  function SelectedEncoder(cands: seq<Candidate>, requested: Guid): Option<EncoderChoice>
  {
    var b := Scan(cands, requested, 0, NoBest);
    if b.idx < 0 then None else Some(EncoderChoice(b.idx, b.vendor, b.merit))
  }

  predicate IsRequested(cands: seq<Candidate>, requested: Guid, j: int)
  {
    0 <= j < |cands| && ReadsOk(cands[j]) && cands[j].clsid == requested
  }

  /** The key of candidate j is at most (v, m). */
  predicate CandLe(cands: seq<Candidate>, j: nat, v: GpuVendor, m: nat)
    requires j < |cands|
  {
    KeyLe(NameVendor(cands[j].name), cands[j].merit, v, m)
  }

  predicate CandLt(cands: seq<Candidate>, j: nat, v: GpuVendor, m: nat)
    requires j < |cands|
  {
    KeyLt(NameVendor(cands[j].name), cands[j].merit, v, m)
  }

  /** Without a requested class id in cands[i..], the scan ends on the first
      candidate with the greatest (rank, merit) key if that key beats the
      starting best, and keeps the starting best otherwise. */
  lemma {:induction false} ScanFindsMax(cands: seq<Candidate>, requested: Guid, i: nat, best: Best)
    requires i <= |cands| && best.idx < i
    requires forall j :: i <= j < |cands| ==> !IsRequested(cands, requested, j)
    ensures var r := Scan(cands, requested, i, best);
      && KeyLe(best.vendor, best.merit, r.vendor, r.merit)
      && (forall j :: i <= j < |cands| && ReadsOk(cands[j]) ==> CandLe(cands, j, r.vendor, r.merit))
      && (r == best || (i <= r.idx < |cands| && ReadsOk(cands[r.idx])
                        && r == Best(r.idx, NameVendor(cands[r.idx].name), cands[r.idx].merit)
                        && KeyLt(best.vendor, best.merit, r.vendor, r.merit)
                        && forall j :: i <= j < r.idx && ReadsOk(cands[j]) ==> CandLt(cands, j, r.vendor, r.merit)))
    decreases |cands| - i
  {
    if i < |cands| {
      var c := cands[i];
      var v := NameVendor(c.name);
      VendorOrder(v, best.vendor);
      if !ReadsOk(c) {
        ScanFindsMax(cands, requested, i + 1, best);
      } else if Replaces(c, requested, best) {
        assert !IsRequested(cands, requested, i);
        var taken := Best(i, v, c.merit);
        assert KeyLt(best.vendor, best.merit, v, c.merit);
        ScanFindsMax(cands, requested, i + 1, taken);
        var r := Scan(cands, requested, i + 1, taken);
        assert Scan(cands, requested, i, best) == r;
        VendorOrder(v, r.vendor);
        VendorOrder(best.vendor, r.vendor);
        if r == taken {
          assert r.idx == i;
        } else {
          assert KeyLt(v, c.merit, r.vendor, r.merit);
          assert CandLt(cands, i, r.vendor, r.merit);
        }
      } else {
        ScanFindsMax(cands, requested, i + 1, best);
        var r := Scan(cands, requested, i + 1, best);
        VendorOrder(v, r.vendor);
        VendorOrder(best.vendor, r.vendor);
      }
    }
  }

  /** The first candidate (from i on) whose class id is the requested one is
      taken and ends the scan, whatever came before it. */
  lemma {:induction false} ScanStopsAtRequested(cands: seq<Candidate>, requested: Guid, i: nat, best: Best, k: nat)
    requires i <= k && IsRequested(cands, requested, k)
    requires forall j :: i <= j < k ==> !IsRequested(cands, requested, j)
    ensures Scan(cands, requested, i, best) == Best(k, NameVendor(cands[k].name), cands[k].merit)
    decreases k - i
  {
    if i < k {
      var c := cands[i];
      assert !IsRequested(cands, requested, i);
      if ReadsOk(c) && Replaces(c, requested, best) {
        ScanStopsAtRequested(cands, requested, i + 1, Best(i, NameVendor(c.name), c.merit), k);
      } else {
        ScanStopsAtRequested(cands, requested, i + 1, best, k);
      }
    }
  }

  /** An explicitly requested encoder wins: the first readable candidate with
      the requested class id is chosen, whatever its vendor and merit. */
  lemma RequestedEncoderChosen(cands: seq<Candidate>, requested: Guid, k: nat)
    requires IsRequested(cands, requested, k)
    requires forall j :: 0 <= j < k ==> !IsRequested(cands, requested, j)
    ensures SelectedEncoder(cands, requested) == Some(EncoderChoice(k, NameVendor(cands[k].name), cands[k].merit))
  {
    ScanStopsAtRequested(cands, requested, 0, NoBest, k);
  }

  /** Without a requested match, the choice is the first readable candidate with
      the greatest (vendor rank, merit), provided that beats (Unknown, 0);
      otherwise selection fails. */
  lemma BestEncoderChosen(cands: seq<Candidate>, requested: Guid)
    requires forall j :: 0 <= j < |cands| ==> !IsRequested(cands, requested, j)
    ensures var r := SelectedEncoder(cands, requested);
      && (r.None? <==> forall j :: 0 <= j < |cands| && ReadsOk(cands[j]) ==> CandLe(cands, j, Unknown, 0))
      && (r.Some? ==> r.value.idx < |cands| && ReadsOk(cands[r.value.idx])
                      && r.value.vendor == NameVendor(cands[r.value.idx].name)
                      && r.value.merit == cands[r.value.idx].merit
                      && KeyLt(Unknown, 0, r.value.vendor, r.value.merit)
                      && (forall j :: 0 <= j < |cands| && ReadsOk(cands[j]) ==> CandLe(cands, j, r.value.vendor, r.value.merit))
                      && (forall j :: 0 <= j < r.value.idx && ReadsOk(cands[j]) ==> CandLt(cands, j, r.value.vendor, r.value.merit)))
  {
    ScanFindsMax(cands, requested, 0, NoBest);
  }

  /** Consequences of starting from (Unknown, 0): unless it is requested, an
      Nvidia encoder is never chosen, nor an Unknown one with merit 0. */
  lemma NvidiaNeverChosenUnlessRequested(cands: seq<Candidate>, requested: Guid)
    requires forall j :: 0 <= j < |cands| ==> !IsRequested(cands, requested, j)
    ensures var r := SelectedEncoder(cands, requested);
      r.Some? ==> r.value.vendor != Nvidia && !(r.value.vendor == Unknown && r.value.merit == 0)
  {
    BestEncoderChosen(cands, requested);
  }

  /** `select_encoder`'s scan loop: `chosen` is None exactly when the source
      logs "Failed to find a suitable encoder" and exits with status 1. */
  method SelectEncoder(cands: seq<Candidate>, requested: Guid) returns (chosen: Option<EncoderChoice>)
    ensures chosen == SelectedEncoder(cands, requested)
  {
    var best := NoBest;
    var i := 0;
    while i < |cands|
      invariant i <= |cands| && -1 <= best.idx < i
      invariant Scan(cands, requested, i, best) == Scan(cands, requested, 0, NoBest)
    {
      var c := cands[i];
      if !ReadsOk(c) {
        i := i + 1;
        continue;
      }
      var vendor := NameVendor(c.name);
      var clsidIsEqual := c.clsid == requested;
      if clsidIsEqual || Rank(vendor) > Rank(best.vendor) || (vendor == best.vendor && c.merit > best.merit) {
        best := Best(i, vendor, c.merit);
        if clsidIsEqual {
          break;
        }
      }
      i := i + 1;
    }
    if best.idx == -1 {
      return None;
    }
    return Some(EncoderChoice(best.idx, best.vendor, best.merit));
  }

  // ---------------------------------------------------------------- select_dxgi_adapter

  /** One adapter from `EnumAdapters1`: the result of `GetDesc1` and the description. */
  datatype Adapter = Adapter(descHr: int, software: bool, vendorId: nat, description: string)

  /** The PCI vendor id decides; the description is consulted only when the id is unknown. */
  function AdapterVendor(a: Adapter): (v: GpuVendor)
    ensures PciVendor(a.vendorId) != Unknown ==> v == PciVendor(a.vendorId)
    ensures PciVendor(a.vendorId) == Unknown ==> v == NameVendor(a.description)
  {
    var v := PciVendor(a.vendorId);
    if v == Unknown then NameVendor(a.description) else v
  }

  /** How the adapter search ends: no adapter, an adapter index, or a fatal error. */
  datatype AdapterOutcome = NoAdapter | ChosenAdapter(idx: nat) | AdapterFatal(code: int)

  /** The adapter search with software adapters passed over: the first
      hardware adapter whose vendor is known and equals the encoder's. */
  function AdapterScan(adapters: seq<Adapter>, encVendor: GpuVendor, i: nat): AdapterOutcome
    requires i <= |adapters|
    decreases |adapters| - i
  {
    if i == |adapters| then NoAdapter
    else
      var a := adapters[i];
      if a.descHr != S_OK then AdapterFatal(a.descHr)
      else if a.software then AdapterScan(adapters, encVendor, i + 1)
      else
        var v := AdapterVendor(a);
        if v != Unknown && v == encVendor then ChosenAdapter(i)
        else AdapterScan(adapters, encVendor, i + 1)
  }

  predicate AdapterMatches(adapters: seq<Adapter>, encVendor: GpuVendor, j: nat)
    requires j < |adapters|
  {
    !adapters[j].software && AdapterVendor(adapters[j]) != Unknown && AdapterVendor(adapters[j]) == encVendor
  }

  /** The chosen adapter is the first hardware adapter of the encoder's
      vendor; the search fails only on a description error before it, and
      finds nothing only when no adapter matches. */
  lemma {:induction false} AdapterScanFirstMatch(adapters: seq<Adapter>, encVendor: GpuVendor, i: nat)
    requires i <= |adapters|
    requires forall j :: i <= j < |adapters| ==> adapters[j].descHr == S_OK
    ensures var r := AdapterScan(adapters, encVendor, i);
      && !r.AdapterFatal?
      && (r == NoAdapter <==> forall j :: i <= j < |adapters| ==> !AdapterMatches(adapters, encVendor, j))
      && (r.ChosenAdapter? ==> i <= r.idx < |adapters| && AdapterMatches(adapters, encVendor, r.idx)
                               && forall j :: i <= j < r.idx ==> !AdapterMatches(adapters, encVendor, j))
    decreases |adapters| - i
  {
    if i < |adapters| {
      AdapterScanFirstMatch(adapters, encVendor, i + 1);
      if AdapterMatches(adapters, encVendor, i) {
        assert AdapterScan(adapters, encVendor, i) == ChosenAdapter(i);
      } else {
        assert AdapterScan(adapters, encVendor, i) == AdapterScan(adapters, encVendor, i + 1);
      }
    }
  }

  /** An encoder whose vendor is Unknown never gets an adapter. */
  lemma {:induction false} UnknownEncoderGetsNoAdapter(adapters: seq<Adapter>, i: nat)
    requires i <= |adapters|
    ensures !AdapterScan(adapters, Unknown, i).ChosenAdapter?
    decreases |adapters| - i
  {
    if i < |adapters| {
      UnknownEncoderGetsNoAdapter(adapters, i + 1);
    }
  }

  /** One pass of the adapter loop as written: the index it continues with,
      or how the loop ends. */
  datatype AdapterStep = NextAdapter(i: nat) | AdapterDone(outcome: AdapterOutcome)

  function AdapterStepAsWritten(adapters: seq<Adapter>, encVendor: GpuVendor, i: nat): AdapterStep
  {
    if i >= |adapters| then AdapterDone(NoAdapter)
    else
      var a := adapters[i];
      if a.descHr != S_OK then AdapterDone(AdapterFatal(a.descHr))
      // a software adapter is released and the loop goes on without advancing
      else if a.software then NextAdapter(i)
      else
        var v := AdapterVendor(a);
        if v != Unknown && v == encVendor then AdapterDone(ChosenAdapter(i))
        else NextAdapter(i + 1)
  }

  /** As written, a software adapter is enumerated again and again: the loop
      makes no progress and never ends. */
  lemma AdapterLoopStallsOnSoftwareAdapter(adapters: seq<Adapter>, encVendor: GpuVendor, i: nat)
    requires i < |adapters| && adapters[i].descHr == S_OK && adapters[i].software
    ensures AdapterStepAsWritten(adapters, encVendor, i) == NextAdapter(i)
  {
  }

  /** On every other adapter the loop as written takes the step the search
      with software adapters passed over takes. */
  lemma AdapterStepAgreesOffSoftware(adapters: seq<Adapter>, encVendor: GpuVendor, i: nat)
    requires i <= |adapters|
    requires i < |adapters| ==> !adapters[i].software || adapters[i].descHr != S_OK
    ensures AdapterScan(adapters, encVendor, i) ==
      match AdapterStepAsWritten(adapters, encVendor, i)
      case AdapterDone(o) => o
      case NextAdapter(j) => if i < j <= |adapters| then AdapterScan(adapters, encVendor, j) else NoAdapter
  {
  }

  /** The adapter loop with the index advanced past software adapters too. */
  method SelectAdapter(adapters: seq<Adapter>, encVendor: GpuVendor) returns (r: AdapterOutcome)
    ensures r == AdapterScan(adapters, encVendor, 0)
  {
    var i := 0;
    while true
      invariant i <= |adapters|
      invariant AdapterScan(adapters, encVendor, i) == AdapterScan(adapters, encVendor, 0)
      decreases |adapters| - i
    {
      if i == |adapters| {
        // DXGI_ERROR_NOT_FOUND
        return NoAdapter;
      }
      var a := adapters[i];
      if a.descHr != S_OK {
        return AdapterFatal(a.descHr);
      }
      if !a.software {
        var vendor := AdapterVendor(a);
        if vendor != Unknown && vendor == encVendor {
          return ChosenAdapter(i);
        }
      }
      i := i + 1;
    }
  }

  // ---------------------------------------------------------------- select_display

  /** Where one pass of the output loop leads: on to output `i`, or out of
      the loop with the output found, if any. */
  datatype DisplayStep = NextOutput(i: nat) | DisplayDone(found: Option<nat>)

  /** One pass of the output loop as written: `EnumOutputs(i)` on `outputCount`
      outputs, then the comparison with the requested display; `i` is never advanced. */
  function DisplayStepAsWritten(outputCount: nat, display: nat, i: nat): DisplayStep
  {
    if i >= outputCount then DisplayDone(None)
    else if i == display then DisplayDone(Some(i))
    else NextOutput(i)
  }

  /** As written, asking for any display but the first, on a machine with at
      least one output, enumerates output 0 forever. */
  lemma DisplayLoopStalls(outputCount: nat, display: nat)
    requires outputCount > 0 && display > 0
    ensures DisplayStepAsWritten(outputCount, display, 0) == NextOutput(0)
  {
  }

  /** Display 0 is the one case the loop as written handles. */
  lemma DisplayZeroSelected(outputCount: nat)
    requires outputCount > 0
    ensures DisplayStepAsWritten(outputCount, 0, 0) == DisplayDone(Some(0))
  {
  }

  /** The output the loop is meant to find: output number `display`, if it exists. */
  function IntendedDisplay(outputCount: nat, display: nat): (r: Option<nat>)
    ensures r.Some? <==> display < outputCount
    ensures r.Some? ==> r.value == display
  {
    if display < outputCount then Some(display) else None
  }

  /** The output loop with the index advanced. */
  method SelectDisplay(outputCount: nat, display: nat) returns (r: Option<nat>)
    ensures r == IntendedDisplay(outputCount, display)
  {
    var i := 0;
    while true
      invariant i <= outputCount && i <= display
      decreases outputCount - i
    {
      if i == outputCount {
        // DXGI_ERROR_NOT_FOUND
        return None;
      }
      if i == display {
        return Some(i);
      }
      i := i + 1;
    }
  }

  // ---------------------------------------------------------------- select_streams

  datatype StreamIds = StreamIds(inStreamId: nat, outStreamId: nat)

  /** `select_streams`: an encoder that does not implement `GetStreamIDs` uses
      stream 0 both ways; otherwise the first input and output ids, which the
      source reads without checking that any exist. */
  function SelectStreams(countHr: int, idsHr: int, inIds: seq<nat>, outIds: seq<nat>): (r: Result<StreamIds>)
    requires countHr == S_OK && idsHr == S_OK ==> |inIds| > 0 && |outIds| > 0
    ensures countHr != S_OK ==> r == Fatal(countHr)
    ensures countHr == S_OK && idsHr == E_NOTIMPL ==> r == Ok(StreamIds(0, 0))
    ensures countHr == S_OK && idsHr != E_NOTIMPL && idsHr != S_OK ==> r == Fatal(idsHr)
    ensures countHr == S_OK && idsHr == S_OK ==> r == Ok(StreamIds(inIds[0], outIds[0]))
  {
    if countHr != S_OK then Fatal(countHr)
    else if idsHr == E_NOTIMPL then Ok(StreamIds(0, 0))
    else if idsHr != S_OK then Fatal(idsHr)
    else Ok(StreamIds(inIds[0], outIds[0]))
  }
}
