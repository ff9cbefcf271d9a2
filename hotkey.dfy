/** The low-level keyboard hook of input.c: three static flags follow the
    shift, control and period keys, and a fourth, `combo_active`, turns
    "all three flags are set" into a single event per chord. The callback
    `on_combo_pressed` is reported as a `fired` result. */
module Hotkey {

  const WM_KEYDOWN: int := 0x100
  const WM_KEYUP: int := 0x101
  const WM_SYSKEYDOWN: int := 0x104
  const WM_SYSKEYUP: int := 0x105

  const VK_SHIFT: int := 0x10
  const VK_CONTROL: int := 0x11
  const VK_LSHIFT: int := 0xA0
  const VK_RSHIFT: int := 0xA1
  const VK_LCONTROL: int := 0xA2
  const VK_RCONTROL: int := 0xA3
  const VK_OEM_PERIOD: int := 0xBE

  /** One call of the hook: its `n_code`, `w_param` and the virtual key code
      of the `KBDLLHOOKSTRUCT` that `l_param` points at. */
  datatype KeyEvent = KeyEvent(nCode: int, wParam: int, vkCode: int)

  /** `ctrl_pressed`, `shift_pressed`, `period_pressed` and `combo_active`. */
  datatype Flags = Flags(ctrl: bool, shift: bool, period: bool, comboActive: bool)

  /** The flags as the program starts. */
  const Initial: Flags := Flags(false, false, false, false)

  predicate IsKeyDown(wParam: int) { wParam == WM_KEYDOWN || wParam == WM_SYSKEYDOWN }

  predicate IsKeyUp(wParam: int) { wParam == WM_KEYUP || wParam == WM_SYSKEYUP }

  predicate IsShift(vk: int) { vk == VK_SHIFT || vk == VK_LSHIFT || vk == VK_RSHIFT }

  predicate IsControl(vk: int) { vk == VK_CONTROL || vk == VK_LCONTROL || vk == VK_RCONTROL }

  predicate IsChordKey(vk: int) { IsShift(vk) || IsControl(vk) || vk == VK_OEM_PERIOD }

  predicate AllSet(f: Flags) { f.ctrl && f.shift && f.period }

  /** The key switch: the flag of the key's group takes the value `v`. */
  function SetKey(f: Flags, vk: int, v: bool): (r: Flags)
    ensures r.comboActive == f.comboActive
    ensures r.shift == (if IsShift(vk) then v else f.shift)
    ensures r.ctrl == (if IsControl(vk) then v else f.ctrl)
    ensures r.period == (if vk == VK_OEM_PERIOD then v else f.period)
  {
    if IsShift(vk) then f.(shift := v)
    else if IsControl(vk) then f.(ctrl := v)
    else if vk == VK_OEM_PERIOD then f.(period := v)
    else f
  }

  /** One call of the hook, returning the new flags and whether the combo
      fired. `storeKeyDown` chooses what a key event stores in its flag: the
      hook as written stores whether the event was a key-up (`false` here);
      the chord that the input.h:20-21 comment ("When the combo is pressed")
      describes needs whether it was a key-down (`true`).
      The combo fires exactly when all three flags are set and it was not
      already active; it stays active exactly while all three are set. */
  function StepWith(f: Flags, e: KeyEvent, storeKeyDown: bool): (r: (Flags, bool))
    ensures e.nCode < 0 ==> r == (f, false)
    ensures e.nCode >= 0 ==> (r.0.comboActive <==> AllSet(r.0))
    ensures r.1 <==> e.nCode >= 0 && AllSet(r.0) && !f.comboActive
    ensures (!IsChordKey(e.vkCode) || !(IsKeyDown(e.wParam) || IsKeyUp(e.wParam)))
              ==> r.0.(comboActive := f.comboActive) == f
  {
    if e.nCode < 0 then (f, false)
    else
      var keyDown := IsKeyDown(e.wParam);
      var keyUp := IsKeyUp(e.wParam);
      var g := if keyDown || keyUp then SetKey(f, e.vkCode, if storeKeyDown then keyDown else keyUp) else f;
      if AllSet(g) then
        if !g.comboActive then (g.(comboActive := true), true) else (g, false)
      else (g.(comboActive := false), false)
  }

  /** `ll_keyboard_proc` as written. */
  function Step(f: Flags, e: KeyEvent): (r: (Flags, bool))
  {
    StepWith(f, e, false)
  }

  /** The hook with each flag meaning "the key is held", as its name says. */
  function ChordStep(f: Flags, e: KeyEvent): (r: (Flags, bool))
  {
    StepWith(f, e, true)
  }

  /** The flags after a run of hook calls, and how many times the combo fired. */
  function Run(f: Flags, es: seq<KeyEvent>, storeKeyDown: bool): (r: (Flags, nat))
    decreases |es|
  {
    if es == [] then (f, 0)
    else
      var s := StepWith(f, es[0], storeKeyDown);
      var rest := Run(s.0, es[1..], storeKeyDown);
      (rest.0, rest.1 + if s.1 then 1 else 0)
  }

  /** How many calls of a run leave some flag of the chord clear. */
  function Breaks(f: Flags, es: seq<KeyEvent>, storeKeyDown: bool): nat
    decreases |es|
  {
    if es == [] then 0
    else
      var s := StepWith(f, es[0], storeKeyDown);
      Breaks(s.0, es[1..], storeKeyDown) + if es[0].nCode >= 0 && !AllSet(s.0) then 1 else 0
  }

  /** Holding the chord never fires twice: between two firings some call
      must clear a flag, whichever value the hook stores. */
  lemma {:induction false} FiresOncePerChord(f: Flags, es: seq<KeyEvent>, storeKeyDown: bool)
    ensures Run(f, es, storeKeyDown).1 <= (if f.comboActive then 0 else 1) + Breaks(f, es, storeKeyDown)
    decreases |es|
  {
    if es != [] {
      var s := StepWith(f, es[0], storeKeyDown);
      FiresOncePerChord(s.0, es[1..], storeKeyDown);
    }
  }

  /** As written, pressing a key of the chord clears its flag, so no key-down
      of the chord ever fires the combo. */
  lemma KeyDownNeverFires(f: Flags, e: KeyEvent)
    requires e.nCode >= 0 && IsKeyDown(e.wParam) && IsChordKey(e.vkCode)
    ensures !Step(f, e).1 && !AllSet(Step(f, e).0)
  {
  }

  /** As written, pressing control, shift and period from the start does not
      fire, while releasing the three keys does. */
  lemma ReleaseFiresPressDoesNot()
    ensures Run(Initial, [KeyEvent(0, WM_KEYDOWN, VK_LCONTROL), KeyEvent(0, WM_KEYDOWN, VK_LSHIFT),
                          KeyEvent(0, WM_KEYDOWN, VK_OEM_PERIOD)], false).1 == 0
    ensures Run(Initial, [KeyEvent(0, WM_KEYUP, VK_LCONTROL), KeyEvent(0, WM_KEYUP, VK_LSHIFT),
                          KeyEvent(0, WM_KEYUP, VK_OEM_PERIOD)], false).1 == 1
  {
    var down := [KeyEvent(0, WM_KEYDOWN, VK_LCONTROL), KeyEvent(0, WM_KEYDOWN, VK_LSHIFT),
                 KeyEvent(0, WM_KEYDOWN, VK_OEM_PERIOD)];
    var f1 := Flags(false, false, false, false);
    assert StepWith(Initial, down[0], false) == (f1, false);
    assert StepWith(f1, down[1], false) == (f1, false);
    assert StepWith(f1, down[2], false) == (f1, false);
    assert Run(f1, down[1..][1..][1..], false) == (f1, 0);
    assert Run(f1, down[1..][1..], false) == (f1, 0);
    assert Run(f1, down[1..], false) == (f1, 0);

    var up := [KeyEvent(0, WM_KEYUP, VK_LCONTROL), KeyEvent(0, WM_KEYUP, VK_LSHIFT),
               KeyEvent(0, WM_KEYUP, VK_OEM_PERIOD)];
    var g1, g2, g3 := Flags(true, false, false, false), Flags(true, true, false, false), Flags(true, true, true, true);
    assert StepWith(Initial, up[0], false) == (g1, false);
    assert StepWith(g1, up[1], false) == (g2, false);
    assert StepWith(g2, up[2], false) == (g3, true);
    assert Run(g3, up[1..][1..][1..], false) == (g3, 0);
    assert Run(g2, up[1..][1..], false) == (g3, 1);
    assert Run(g1, up[1..], false) == (g3, 1);
  }

  /** With flags that mean "held", the chord fires as its last key goes down,
      once the three are held and the combo was not active. */
  lemma ChordFiresOnLastPress(f: Flags, e: KeyEvent)
    requires e.nCode >= 0 && IsKeyDown(e.wParam) && IsChordKey(e.vkCode) && !f.comboActive
    requires (IsShift(e.vkCode) || f.shift) && (IsControl(e.vkCode) || f.ctrl) && (e.vkCode == VK_OEM_PERIOD || f.period)
    ensures ChordStep(f, e).1
  {
  }

  /** With flags that mean "held", pressing control, shift and period from
      the start fires once, on the period; releasing them does not fire. */
  lemma PressFiresOnce()
    ensures Run(Initial, [KeyEvent(0, WM_KEYDOWN, VK_LCONTROL), KeyEvent(0, WM_KEYDOWN, VK_LSHIFT),
                          KeyEvent(0, WM_KEYDOWN, VK_OEM_PERIOD), KeyEvent(0, WM_KEYUP, VK_OEM_PERIOD),
                          KeyEvent(0, WM_KEYUP, VK_LSHIFT)], true).1 == 1
  {
    var es := [KeyEvent(0, WM_KEYDOWN, VK_LCONTROL), KeyEvent(0, WM_KEYDOWN, VK_LSHIFT),
               KeyEvent(0, WM_KEYDOWN, VK_OEM_PERIOD), KeyEvent(0, WM_KEYUP, VK_OEM_PERIOD),
               KeyEvent(0, WM_KEYUP, VK_LSHIFT)];
    var f1, f2, f3 := Flags(true, false, false, false), Flags(true, true, false, false), Flags(true, true, true, true);
    var f4, f5 := Flags(true, true, false, false), Flags(true, false, false, false);
    assert StepWith(Initial, es[0], true) == (f1, false);
    assert StepWith(f1, es[1], true) == (f2, false);
    assert StepWith(f2, es[2], true) == (f3, true);
    assert StepWith(f3, es[3], true) == (f4, false);
    assert StepWith(f4, es[4], true) == (f5, false);
    assert Run(f5, es[1..][1..][1..][1..][1..], true) == (f5, 0);
    assert Run(f4, es[1..][1..][1..][1..], true) == (f5, 0);
    assert Run(f3, es[1..][1..][1..], true) == (f5, 0);
    assert Run(f2, es[1..][1..], true) == (f5, 1);
    assert Run(f1, es[1..], true) == (f5, 1);
  }

  /** The hook's static flags. */
  class Hook {
    var ctrlPressed: bool
    var shiftPressed: bool
    var periodPressed: bool
    var comboActive: bool

    function State(): Flags
      reads this
    {
      Flags(ctrlPressed, shiftPressed, periodPressed, comboActive)
    }

    constructor ()
      ensures State() == Initial
    {
      ctrlPressed, shiftPressed, periodPressed, comboActive := false, false, false, false;
    }

    /** `ll_keyboard_proc`: `fired` is the call of `on_combo_pressed`. The
        event is then passed on to the next hook whatever happened. */
    method Proc(e: KeyEvent) returns (fired: bool)
      modifies this
      ensures (State(), fired) == Step(old(State()), e)
    {
      fired := false;
      if e.nCode >= 0 {
        var keyDown := e.wParam == WM_KEYDOWN || e.wParam == WM_SYSKEYDOWN;
        var keyUp := e.wParam == WM_KEYUP || e.wParam == WM_SYSKEYUP;
        if keyDown || keyUp {
          if e.vkCode == VK_SHIFT || e.vkCode == VK_LSHIFT || e.vkCode == VK_RSHIFT {
            shiftPressed := keyUp;
          } else if e.vkCode == VK_CONTROL || e.vkCode == VK_LCONTROL || e.vkCode == VK_RCONTROL {
            ctrlPressed := keyUp;
          } else if e.vkCode == VK_OEM_PERIOD {
            periodPressed := keyUp;
          }
        }
        if ctrlPressed && shiftPressed && periodPressed {
          if !comboActive {
            comboActive := true;
            fired := true;
          }
        } else {
          comboActive := false;
        }
      }
    }
  }
}
