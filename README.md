# cappls core, modelled in Dafny

cappls is a screen recorder for Windows. It duplicates the desktop of one
DXGI output and converts each frame to NV12 in a small pool of GPU
textures. A Media Foundation hardware H.264 encoder encodes the frames,
and an mp4 sink writes them to disk. This project models the core of that
pipeline and proves properties of the model. The core covers:

- **Ownership registry** (`com.c`, module `Com`). This is a linked list of
  every COM handle the program holds. Each handle is acquired into the
  list, and is either released (one `Release()`, or an element-wise release
  and free for a pointer array) or dropped (unlinked without releasing).
  At exit the whole list is released at once. `Registry` is a class whose
  `nodes` field is the list, head first. Its `effects` field logs the
  release calls made on the outside world. `Globals` is the process-wide
  list.
- **Runtime helpers** (`lib.c`, `args.c`, modules `Lib` and `Args`). These
  are wide-string search, copy and comparison, `basename`, the byte
  helpers, the GUID name lookup, `check_hresult`, and the command-line
  lookups.
- **Encoder header** (`venc.h`, module `VencTypes`). It gives the 64-bit
  packing of attribute pairs, the GPU vendor ranking and the pool size
  constant.
- **Hardware selection** (`venc.c`, module `Selection`). This covers
  choosing the encoder, the DXGI adapter, the output and the stream ids.
- **NV12 conversion pool** (`venc.c`, module `Pool`). `NV12Pool` is a class
  over an `array` of slots. A captured frame claims the lowest free slot
  and tags its sample with the slot index. The slot is freed again only
  when an encoded sample carrying that tag is accepted by the sink.
- **Encoding** (`venc.c`, module `Encode`). This covers output-type
  renegotiation, the sink's back-pressure loop and the event pump
  `process_mft_events`.
- **Recording loop** (`venc.c`, module `Capture`). This covers frame
  pacing, the per-frame retry loop, and the fixed order of calls that
  finish the mp4 file.
- **Teardown** (`venc.c`, `main.c`, module `Teardown`). The `free_*`
  functions are modelled as methods on classes that mirror the structures.
  `exit_process` frees them in order and then releases the registry. The
  structures share one `d3d` and one encoder. Zeroing a structure after
  freeing it keeps shared handles from being released twice.
- **Asynchronous callbacks** (`async_callbacks.c`, module
  `AsyncCallbacks`). These are the reference-counted sink-event and
  finalize callbacks, their single-slot semaphores, and
  `wait_for_semaphore`.
- **Hotkey** (`input.c`, module `Hotkey`). This is the low-level keyboard
  hook that turns a control+shift+period chord into one event.

The model represents the outside world as follows:

- Pointers are numbers, and `NULL` is 0.
- Every result that comes from Windows, Media Foundation, Direct3D or DXGI
  is a parameter. This includes result codes, enumerated candidates,
  adapters, outputs, events, sink replies, wait results and clock readings.
- A wide string is the sequence of characters before its terminator.
- A pointer array in memory is a `map` from the array pointer to its
  elements.

Where the code departs from what its names and comments suggest, the model
follows the code:

- `release_all_com_objs_local` does not reset the list head. The registry
  records this with a ghost `consumed` flag, and a consumed registry may
  not be used again.
- When the conversion pool is full, the retry loop makes one attempt and
  leaves. As a result, "pool full for too long" is fatal only for a pool
  of one slot.
- A slot whose sample the encoder refused stays busy for good.
- `process_mft_events` always returns TRUE.
- `find_wstr` does not retry a mismatching character as the start of a new
  match. It therefore misses some occurrences.
- `get_arg` returns the text that starts `len(name)+1` characters after the
  start of the argument, not after the match.
- The header comment of `get_non_opt` describes the opposite of what the
  code does.
- With debug logging on, a sink-stopped event makes the event callback
  return the result of the string conversion.

## Model

| member | source | states |
|---|---|---|
| Lib.CheckHResult | lib.c:218-225 | only S_OK continues; every other code, success codes included, exits with that same code |
| Lib.SuccessCodeOtherThanOkExits | lib.c:218-225 | S_FALSE counts as success, yet check_hresult exits with it |
| Lib.SearchFromSound | lib.c:274-301 | from any consistent scan state, a non-negative result of the scan is an offset where the substring occurs |
| Lib.SearchSound | lib.c:274-301 | find_wstr is sound: any index it returns is an occurrence of the substring |
| Lib.SearchFindsPrefix | lib.c:274-301 | an empty substring, or one the string starts with, is found at index 0 |
| Lib.SearchIncomplete | lib.c:274-301 | find_wstr is not complete: "ab" occurs in "aab" at 1, yet the search reports -1 |
| Lib.FindWstr | lib.c:274-301 | the index loop returns the scan's answer, which is -1 or an occurrence of the substring |
| Lib.CopyWstr | lib.c:303-311 | the source and its terminator are copied to the front of the destination, the rest is untouched, and the destination is returned |
| Lib.WstrEq | lib.c:313-327 | true exactly when both strings have the same characters and the same length |
| Lib.Basename | lib.c:329-340 | the suffix starts right after the last backslash (at 0 when there is none) and holds no backslash |
| Lib.Memcmp | lib.c:261-272 | 0 exactly when the first num bytes agree; otherwise the difference of the first differing pair |
| Lib.Memset | lib.c:252-258 | the first count bytes become the low eight bits of c; the rest is untouched; the destination is returned |
| Lib.Memcpy | lib.c:243-249 | the first count bytes of the source are copied; the rest of the destination is untouched; the destination is returned |
| Lib.GetGuidName | lib.c:342-350 | the name of the first table row with that GUID, and None exactly when no row has it |
| Args.GetOpt | args.c:21-31 | the first index whose argument equals the option, and -1 exactly when no argument does |
| Args.ArgValueOfLeadingName | args.c:33-57 | for the first argument that begins with "name=", the value is the text after the '=' |
| Args.ArgValueCountsFromArgumentStart | args.c:47-53 | a "name=" found in the middle of an argument yields the suffix at offset len(name)+1 from the argument's start |
| Args.GetArg | args.c:33-57 | None when "name=" does not fit the 256-character buffer; otherwise the value of the first argument in which "name=" is found |
| Args.GetNonOpt | args.c:59-73 | the first index from the start index whose argument is non-empty and does not begin with '-', and -1 exactly when there is none |
| Args.DigitRun | args.c:82-91 | the length of the leading run of decimal digits: every character before it is a digit and the one at it is not |
| Args.WstrToUi | args.c:75-94 | the end index is the digit run's length, the result is valid exactly when the run is non-empty, and the value is the run's decimal value modulo 2^32 |
| VencTypes.EncoderClsidBufferFits | venc.h:87-89 | the braced 36-character GUID text and its terminator fill the 39-character buffer exactly |
| VencTypes.Pack64 | venc.h:61 | the high 32 bits of the packed value are the first operand and the low 32 bits the second |
| VencTypes.PackUnpack | venc.h:60-63 | splitting any 64-bit value and packing the halves gives it back |
| VencTypes.PackInjective | venc.h:60-63 | different pairs pack to different values |
| VencTypes.AttributeSize | venc.h:60-63 | the stored value carries the width in the high half and the height in the low half |
| VencTypes.AttributeRatio | venc.h:67-70 | the stored value carries the numerator in the high half and the denominator in the low half |
| VencTypes.VendorOrder | venc.h:73-81 | Nvidia < Unknown < AMD < Intel, a strict total order in which only equal vendors compare equal |
| Com.ArrayReleasesCount | com.c:137-147 | an array node makes one Release() per non-NULL element, each on an element of the array |
| Com.NodeFreedCountsEffects | com.c:130-152 | the count release_com_node returns equals the number of release actions it makes |
| Com.ReleaseNode | com.c:130-152 | a single object: one Release() and a count of 1; an array: Release() on each non-NULL element in order, then the array freed, with 1 plus that many counted |
| Com.IndexOf | com.c:62-87 | the first node from the head holding the handle, and -1 exactly when no node holds it |
| Com.AfterRelease | com.c:62-87 | releasing keeps every array node backed by its memory |
| Com.ReleaseAllStep | com.c:114-128 | the total of a walk from node i is node i's count plus the rest, and its effects come first |
| Com.RemoveAtKeepsOthers | com.c:62-112 | unlinking removes exactly one node and keeps the others in their order |
| Com.ReleaseUndoesAcquire | com.c:44-87 | releasing a handle right after acquiring it restores the old list and makes exactly one Release() on it |
| Com.DropIsReleaseWithoutEffects | com.c:62-112 | drop unlinks the same node as release, but makes no release call |
| Com.TotalFreedCountsEffects | com.c:114-152 | the count release_all returns equals the number of release actions it makes |
| Com.UntrackedNotReleased | com.c:114-152 | a handle that is neither a node nor an element of a tracked array gets no Release() from release_all |
| Com.DroppedHandleNotReleased | com.c:89-128 | a handle acquired and then dropped leaves the registry as it was and is not released by a later release_all |
| Com.Registry.constructor | com.c:20 | a registry starts empty, with nothing released |
| Com.Registry.AcquireObj | com.c:44-51 | prepends one node for a single object and releases nothing |
| Com.Registry.AcquireArr | com.c:53-60 | prepends one node for a pointer array of the given count and releases nothing |
| Com.Registry.Release | com.c:62-87 | the handle is found exactly when some node holds it, and the new state is the old one with the first such node unlinked and released |
| Com.Registry.Drop | com.c:89-112 | the handle is found exactly when some node holds it, and the new state is the old one with the first such node unlinked and nothing released |
| Com.Registry.ReleaseAll | com.c:114-128 | every node is released once, head first; the sum of their counts is returned; the head is not reset |
| Com.Globals.constructor | com.c:20 | the global list starts empty |
| Com.Globals.AcquireComObj | com.c:24-26 | acquire_com_obj is acquire_com_obj_local on the global list |
| Com.Globals.AcquireComArr | com.c:28-30 | acquire_com_arr is acquire_com_arr_local on the global list |
| Com.Globals.ReleaseComObj | com.c:32-34 | release_com_obj is release_com_obj_local on the global list |
| Com.Globals.DropComObj | com.c:36-38 | drop_com_obj is drop_com_obj_local on the global list |
| Com.Globals.ReleaseAllComObjs | com.c:40-42 | release_all_com_objs is release_all_com_objs_local on the global list |
| Selection.NameVendor | venc.c:169-177 | Intel when "Intel" is found; AMD when "AMD" is found and "Intel" is not; Nvidia when only "NVIDIA" is found; each in both directions |
| Selection.NameVendorSound | venc.c:169-177 | a vendor other than Unknown is reported only when its name occurs in the text |
| Selection.NameVendorOfLeadingName | venc.c:169-177 | a name that begins with a vendor's name, and mentions no vendor checked before it, is classified as that vendor |
| Selection.PciVendor | venc.c:258-276 | 0x10DE is Nvidia; 0x1002 and 0x1022 are AMD; 0x8086, 0x8087 and 0x163C are Intel; anything else is Unknown |
| Selection.ScanFindsMax | venc.c:151-203 | with no requested class id ahead, the scan ends on the first readable candidate with the greatest (vendor, merit) key if that key beats the starting best |
| Selection.ScanStopsAtRequested | venc.c:179-202 | the first readable candidate with the requested class id is taken and ends the scan |
| Selection.RequestedEncoderChosen | venc.c:111-225 | an explicitly requested encoder is chosen, whatever its vendor and merit |
| Selection.BestEncoderChosen | venc.c:111-225 | without a requested match, the choice is the first readable candidate with the greatest (vendor rank, merit), and selection fails exactly when none beats (Unknown, 0) |
| Selection.NvidiaNeverChosenUnlessRequested | venc.c:111-225 | unless requested, an Nvidia encoder is never chosen, nor an Unknown one with merit 0 |
| Selection.SelectEncoder | venc.c:151-220 | the loop returns the encoder the scan settles on, and None exactly where the source exits with status 1 |
| Selection.AdapterVendor | venc.c:258-286 | the PCI vendor id decides, and the description is consulted only when the id is unknown |
| Selection.AdapterScanFirstMatch | venc.c:240-298 | with readable descriptions, the adapter chosen is the first hardware adapter of the encoder's vendor, and none is chosen exactly when none matches |
| Selection.UnknownEncoderGetsNoAdapter | venc.c:288-297 | an encoder of Unknown vendor never gets an adapter |
| Selection.AdapterLoopStallsOnSoftwareAdapter | venc.c:253-256 | as written, a software adapter sends the loop back to the same index |
| Selection.AdapterStepAgreesOffSoftware | venc.c:240-298 | on every other adapter, the loop as written takes the step the corrected search takes |
| Selection.SelectAdapter | venc.c:227-298 | the adapter loop, advancing past software adapters, returns the first match or none |
| Selection.DisplayLoopStalls | venc.c:406-424 | as written, asking for any display but the first enumerates output 0 forever |
| Selection.DisplayZeroSelected | venc.c:406-424 | display 0 is chosen on the first pass when an output exists |
| Selection.IntendedDisplay | venc.c:406-424 | the output the loop is meant to find exists exactly when the display number is below the output count, and it is that output |
| Selection.SelectDisplay | venc.c:399-428 | the output loop with the index advanced returns output number display if it exists, and none otherwise |
| Selection.SelectStreams | venc.c:477-504 | an E_NOTIMPL from GetStreamIDs gives stream 0 both ways; success gives the first input and output ids; any other failure is fatal with its code |
| Pool.FirstFree | venc.c:768-776 | the lowest free slot, and -1 exactly when every slot is busy |
| Pool.FreeCountUpdate | venc.c:795 | replacing one slot changes the number of free slots by the change in that slot's flag |
| Pool.FreeCountZero | venc.c:768-776 | no slot is free exactly when the free count is 0 |
| Pool.ClaimAndReturnCount | venc.c:795 | claiming uses up exactly one free slot, and marking it free again restores the count |
| Pool.BusyUntilOwnTag | venc.c:1019-1024 | a busy slot stays busy, unchanged, through any returns of other tags |
| Pool.ReturnAll | venc.c:1024 | returning slots keeps the pool size |
| Pool.Capture | venc.c:778-866 | the pool keeps its size, and a captured slot is busy |
| Pool.CaptureClaimsLowestFree | venc.c:778-866 | a full pool changes nothing; otherwise the lowest free slot is claimed and tagged with its index and the time and duration, no other slot changes, and it holds the new frame, or the previous one on a timeout |
| Pool.InputViewRecreatedOnNewFrame | venc.c:816-819 | the conversion input is rebuilt exactly when the duplication frame differs from the previous one |
| Pool.NV12Pool.constructor | venc.c:333-397 | the pool starts with every slot free and without a sample |
| Pool.NV12Pool.FindAvailable | venc.c:768-776 | the lowest free slot of the array, and -1 exactly when all are busy |
| Pool.NV12Pool.CaptureVideoFrame | venc.c:778-866 | the array and backup texture change as the capture function describes |
| Pool.NV12Pool.DropSample | venc.c:1142-1143 | the slot loses its sample and stays busy; no other slot changes |
| Pool.NV12Pool.ReturnSlot | venc.c:1019-1024 | a tag outside the pool exits with 1; otherwise exactly that slot becomes free |
| Encode.OutputTypeFirstMatch | venc.c:875-940 | with readable replies, the type chosen is the first with the old major type, subtype and interlace mode, and exit 1 happens exactly when none has them |
| Encode.SelectOutputType | venc.c:875-940 | the enumeration loop returns the type the scan settles on, or the exit code |
| Encode.HandleStreamChange | venc.c:942-954 | fails with the exit code of the first of stream selection, type selection and setting the sink's type that fails; succeeds exactly when all three do, with the new ids and type index |
| Encode.OutputFlow | venc.c:986-991 | a stream change goes on exactly when renegotiation succeeds and otherwise exits with its code; any other result of `ProcessOutput` goes through `check_hresult` |
| Encode.SinkRejectionsBounded | venc.c:997-1013 | the sink may refuse a sample at most pool size - 1 times; the pool size-th refusal is fatal |
| Encode.DeliverToSink | venc.c:997-1013 | the retry loop ends as the delivery function describes |
| Encode.HandleOutput | venc.c:980-1029 | a have-output event keeps the pool size |
| Encode.Pump | venc.c:956-1038 | the pump keeps the pool size |
| Encode.PumpFreesAcceptedTags | venc.c:956-1038 | the pump only frees slots, exactly those whose tag came back on an accepted sample, appending the accepted tags in order |
| Encode.PumpKeepsUntaggedSlotsBusy | venc.c:1015-1024 | a busy slot whose tag does not come back stays busy |
| Encode.Recorder.ProcessMftEvents | venc.c:956-1038 | the event loop changes the slots and written tags as the pump describes, and the boolean result is always TRUE |
| Capture.FrameInterval | venc.c:1059 | the interval is the largest number of ticks whose product with the rate fits in one second |
| Capture.PaceFromShape | venc.c:1113-1121 | from any last-frame time, frames are contiguous and each lasts more than one interval |
| Capture.PacedTimeline | venc.c:1078-1121 | the first frame starts at 0, each frame starts where the previous ended, and every frame lasts more than one interval |
| Capture.PaceFrames | venc.c:1113-1121 | the pacing loop takes the frames the pacing function describes |
| Capture.SubmitFrame | venc.c:1123-1156 | the retry loop changes the pool and written tags as the submission function describes |
| Capture.FreeSlotExists | venc.c:768-776 | a positive free count means a free slot is found |
| Capture.CaptureClaimsFreeSlot | venc.c:778-866 | a successful capture with a free slot claims it, using up one free slot |
| Capture.RejectedPass | venc.c:1135-1139 | a rejected pass uses up a slot and starts the next pass |
| Capture.AcceptedPass | venc.c:1135-1145 | an accepted pass uses up a slot and lets recording go on |
| Capture.RejectionsHoldSlots | venc.c:1123-1151 | after r rejections the frame is either taken, with r + 1 slots used up, or recording exits with 1 when the r-th rejection is the pool size-th |
| Capture.PoolFullFatalOnlyForSizeOne | venc.c:1126-1156 | with every slot busy, recording exits only for a pool of one slot; a larger pool drops the frame and goes on |
| Capture.WaitFlow | venc.c:1180-1191 | recording goes on after a wait exactly when the wait reports Done |
| Capture.ShutdownOrderDistinct | venc.c:1164-1234 | no shutdown call appears twice in the order |
| Capture.EndSegment | venc.c:1166-1190 | the end-of-segment calls are made in order up to the first one that stops the recording |
| Capture.Finalize | venc.c:1192-1225 | the finalization calls are made in order up to the first one that stops the recording |
| Capture.Close | venc.c:1230-1234 | the clock stop and sink shutdown are made in order up to the first failure |
| Capture.Shutdown | venc.c:1164-1234 | the calls are made once each in the fixed order, each except the last lets recording go on, and recording ends normally only when every call succeeded |
| Teardown.ReleaseIfSetStep | venc.c:1237-1253 | releasing one handle keeps every array node backed |
| Teardown.ReleaseFieldsAppend | venc.c:1237-1413 | releasing two runs of handles one after the other is releasing their concatenation |
| Teardown.ReleaseFieldsOfNulls | venc.c:1237-1413 | a structure whose handles are all NULL releases nothing |
| Teardown.ReleaseFieldsOfUntracked | venc.c:1237-1413 | releasing handles the registry does not track changes nothing |
| Teardown.ReleaseEach | venc.c:1237-1253 | each non-NULL handle of the run is released in turn |
| Teardown.HwEncoder.Free | venc.c:1237-1253 | the encoder's handles are released in field order and the structure is zeroed |
| Teardown.D3d.Free | venc.c:1255-1279 | the encoder's handles are released first, then the device handles, and both structures are zeroed |
| Teardown.Display.ReleasePool | venc.c:1281-1351 | the handles of every pool slot are released, slot by slot |
| Teardown.Display.Free | venc.c:1281-1351 | the d3d's handles, the display's own handles and the pool's handles are released in order, and the display ends zeroed |
| Teardown.MfState.Free | venc.c:1353-1384 | the device handle is closed only when it is valid and the manager is set, the handles are released in order, and the state ends zeroed with the device handle invalid |
| Teardown.Mp4File.Free | venc.c:1386-1413 | the clock is stopped exactly when it is set, the handles are released in order, and the file ends zeroed |
| Teardown.ExitReleasesEachStructureOnce | main.c:44-58 | every handle of every structure appears exactly once among the exit releases |
| Teardown.NonNullAppend | main.c:44-58 | the non-NULL handles of a concatenation are those of its parts |
| Teardown.ReleaseFieldsNonNull | venc.c:1237-1413 | only the non-NULL handles of a run are released |
| Teardown.ExitChecksNonNull | main.c:44-58 | the handles checked at exit and the intended releases differ only by the NULL handles of zeroed structures |
| Teardown.ExitChecksRelease | main.c:44-58 | the checks of zeroed structures release nothing, so exit releases what the intended list names |
| Teardown.FreeOwners | main.c:46-47 | freeing the media state then the display releases the shared d3d at most once |
| Teardown.FreeShared | main.c:48-49 | freeing the d3d then the encoder releases the encoder at most once |
| Teardown.FreeStructures | main.c:45-49 | the five frees make exactly the checks the exit check list describes, and every structure ends zeroed |
| Teardown.ExitProcess | main.c:44-58 | the shared d3d and encoder are released once, every structure ends zeroed, and release_all then releases the rest and reports its count |
| AsyncCallbacks.ReleaseStep | async_callbacks.c:146-151 | a signal raises the count by one exactly when it is below the maximum, and otherwise fails and changes nothing |
| AsyncCallbacks.SingleSlotSignal | async_callbacks.c:66-71 | a semaphore created with count 0 and maximum 1 takes one signal, and a second one fails |
| AsyncCallbacks.Semaphore.Release | async_callbacks.c:146-151 | the count changes as one release step |
| AsyncCallbacks.Semaphore.Wait | async_callbacks.c:271-276 | a wait takes the count when there is one and times out otherwise |
| AsyncCallbacks.WaitForSemaphore | async_callbacks.c:271-287 | the object-signalled result is Done, the timeout result is Timeout, WAIT_FAILED exits with the last error, and every other result is Interrupted |
| AsyncCallbacks.SignalThenWait | async_callbacks.c:65-71 | on a fresh single-slot semaphore, one signal then a wait gives Done, a second signal is refused, a second wait and a wait with no signal give Timeout |
| AsyncCallbacks.RefCounted.AddRef | async_callbacks.c:239-243 | the count goes up by one and the new count is returned |
| AsyncCallbacks.RefCounted.Release | async_callbacks.c:245-258 | the count goes down by one; at 0 every held handle is released and the object is freed |
| AsyncCallbacks.RefCounted.QueryInterface | async_callbacks.c:223-237 | only IUnknown and IMFAsyncCallback are answered, with a new reference |
| AsyncCallbacks.QueryInterfaceResult | async_callbacks.c:223-237 | S_OK exactly for IUnknown and IMFAsyncCallback, E_NOINTERFACE otherwise |
| AsyncCallbacks.Drive | async_callbacks.c:239-258 | a callback object driven by a run of AddRef and Release calls ends at the count `RefRun` gives, and is freed exactly when `RefRun` gives none |
| AsyncCallbacks.ReleasesCountDown | async_callbacks.c:245-258 | n releases on a count above n leave count - n |
| AsyncCallbacks.AddRefsCountUp | async_callbacks.c:239-243 | n references raise the count by n |
| AsyncCallbacks.BalancedReleasesFree | async_callbacks.c:59-80 | a new callback at count 1 survives as many releases as extra references and is freed by one more |
| AsyncCallbacks.ReleasesLast | async_callbacks.c:245-258 | the release that brings the count to 0 frees the object |
| AsyncCallbacks.GetParameters | async_callbacks.c:260-269 | flags 0, the standard work queue, and E_NOTIMPL |
| AsyncCallbacks.EventInvokeRules | async_callbacks.c:82-163 | the callback signals exactly for an end-of-segment marker, re-arms after every read event except sink-stopped, does nothing for a NULL generator or after shutdown, and a second signal is fatal |
| AsyncCallbacks.StoppedEventReturnsConversionResult | async_callbacks.c:118-162 | with debug logging on, a sink-stopped event returns the string conversion's result |
| AsyncCallbacks.EventCallback.constructor | async_callbacks.c:59-80 | a new callback has count 1, holds the event generator, and has an empty single-slot semaphore |
| AsyncCallbacks.EventCallback.Invoke | async_callbacks.c:82-163 | the outcome follows the decision rules, the semaphore is raised exactly when it signals, and the event is held then released once |
| AsyncCallbacks.FinalizeInvoke | async_callbacks.c:192-212 | signals exactly after a successful EndFinalize on an empty semaphore, and a failed EndFinalize is fatal with its code |
| AsyncCallbacks.FinalizeCallback.constructor | async_callbacks.c:169-190 | a new callback has count 1, holds the media sink, and has an empty single-slot semaphore |
| AsyncCallbacks.FinalizeCallback.Invoke | async_callbacks.c:192-212 | the outcome follows the finalize rules and the semaphore is raised exactly when it signals |
| Hotkey.SetKey | input.c:34-48 | the flag of the key's group takes the stored value and the other flags are unchanged |
| Hotkey.StepWith | input.c:27-62 | a negative code changes nothing; the combo fires exactly when all three flags become set while it was not active, and stays active exactly while all are set |
| Hotkey.FiresOncePerChord | input.c:51-58 | between two firings some call must clear a flag, so holding the chord fires once |
| Hotkey.KeyDownNeverFires | input.c:30-47 | as written, a key-down of the chord clears its flag and never fires |
| Hotkey.ReleaseFiresPressDoesNot | input.c:27-62 | as written, pressing control, shift and period does not fire, while releasing them does |
| Hotkey.ChordFiresOnLastPress | input.c:27-62 | with flags that mean "held", the chord fires as its last key goes down |
| Hotkey.PressFiresOnce | input.c:27-62 | with flags that mean "held", pressing the chord fires once and releasing it does not |
| Hotkey.Hook.constructor | input.c:22-25 | the hook starts with every flag clear |
| Hotkey.Hook.Proc | input.c:27-62 | the hook's flags and firing follow the hook as written |

## Left out

- I/O and the platform are parameters. Every COM, Media Foundation,
  Direct3D, DXGI and Win32 call is an input. The HRESULT or value it
  returns is given to the model.
- `Sleep`, `QueryPerformanceCounter` and the frequency conversion are left
  out. The clock readings are given as ticks.
- Threads are not modelled. The two callbacks run one call at a time, so
  their races with the main thread are not covered.
- Registry bookkeeping inside selection, the pump, capture and shutdown is
  not modelled. The temporary `acquire_com_obj` and `release_com_obj` pairs
  there are not tracked. Only the teardown and the callbacks' own
  registries go through `Com`.
- Integer widths are modelled only where they matter: the `wstr_to_ui`
  wrap-around and the 64-bit packing. Counters elsewhere are unbounded.
- The contents of the GUID name table are left out. Only the lookup is
  modelled.
- `print_attrs`, `list_encoders`, the logger, `wmain` and the
  pre-recording wait loop are left out. So are `process_messages`,
  `install_hook`, `uninstall_hook` and `CallNextHookEx`. They are I/O,
  or they drive the parts that are modelled.
- `activate_encoder`, `prepare_for_streaming`, `create_mp4_sink`,
  `create_mp4_file` and `init_venc` are left out. They are sequences of
  platform calls, each checked with `check_hresult`.
  `set_mp4_output_type` is one such sequence too. On a stream change it
  is modelled only by the code of its first failing call.
- Encode.HandleStreamChange: the new stream ids and output type are
  returned but not stored. The pump does not keep the encoder's state
  between events.
- Pool.NV12Pool.constructor: does not model the texture and view
  creation of `create_nv12_conv_pool`, only the slots' initial state.
- Selection.SelectEncoder: the `MFTEnumEx` failure and the encoder
  argument that is not a GUID (`CLSIDFromString` returning
  CO_E_CLASSSTRING, which exits with 1, or another failure, fatal
  through `check_hresult`) are left out. The model starts from the
  enumerated list.
- Selection.SelectAdapter: `D3D11CreateDevice` and the query for
  `IDXGIDevice` after an adapter is found are left out. Both are fatal
  through `check_hresult` when they fail; the model stops at the chosen
  adapter.
- Selection.SelectAdapter: enumeration errors other than
  DXGI_ERROR_NOT_FOUND are left out. They are fatal through
  `check_hresult`.
- Selection.SelectDisplay: enumeration errors other than
  DXGI_ERROR_NOT_FOUND are left out, as for `SelectAdapter`.
- Selection.SelectStreams: requires non-empty id lists when both calls
  succeed. The source reads the first element without checking.
- Capture.FrameInterval: requires a positive frame rate. With 0 the
  source divides by zero at venc.c:1059, and nothing in the modelled
  files rules 0 out: `wstr_to_ui` accepts "0" and wraps "4294967296" to 0.
- Encode.DeliverToSink: the `Sleep(1)` between tries is left out.
- The recording loop as a whole is left out. Its pieces are modelled
  separately: the pump (`Encode.Recorder.ProcessMftEvents`), pacing
  (`Capture.PaceFrames`) and one frame's submission
  (`Capture.SubmitFrame`). Not modelled: one pass that puts them
  together, the exit with 0 on the termination signal, the
  `process_messages` call, the exit with 1 when the encoder does not
  allocate samples, and the two checked `ProcessMessage` calls
  (BEGIN_STREAMING and START_OF_STREAM) before the loop.
- AsyncCallbacks.EventCallback.Invoke: `PropVariantClear` and the text
  formatting for the debug log are left out. A failed `CreateSemaphore`
  is not modelled either.
- AsyncCallbacks.FinalizeCallback.constructor: a failed
  `CreateSemaphore` (fatal through `check_err`) is not modelled.
- AsyncCallbacks.RefCounted.Release: the deallocation itself is modelled
  only as the `freed` flag.
- `start_finalization`, `wait_for_end_of_segment` and
  `wait_for_finalization` are single forwarding calls. They are covered
  by `Capture.Finalize`, `Capture.WaitFlow` and
  `AsyncCallbacks.WaitForSemaphore`.
- `acquire_com_str` is declared in com.h but not defined in com.c, and
  `release_com_node` never reads the `is_str` flag. The model counts the
  string nodes acquired at venc.c:89 and venc.c:167 as single objects.

## Findings

| source | as written | input that shows it | evidently intended | confidence | as-written member | corrected member |
|---|---|---|---|---|---|---|
| venc.c:253-256 | a software adapter is released and the loop continues without incrementing the index | an adapter list whose first entry has the software flag | skip to the next adapter | high, not executed | Selection.AdapterLoopStallsOnSoftwareAdapter | Selection.SelectAdapter |
| venc.c:406-424 | the output index is never incremented | one output and a requested display of 1 | enumerate outputs 0, 1, … until the requested one | high, not executed | Selection.DisplayLoopStalls | Selection.SelectDisplay |
| input.c:38-46 | each flag is set to whether the event was a key-up | pressing control, shift and period, which does not fire, and releasing them, which does | each flag records that its key is held, so the chord fires when pressed | medium, not executed | Hotkey.ReleaseFiresPressDoesNot | Hotkey.ChordFiresOnLastPress |
