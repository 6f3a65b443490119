/**
 * The process-wide convenience accessors `get_key`, `get_mouse` and
 * `get_gamepad`: read from the first device of one kind, or fail with
 * `UnpluggedError` when that kind's list is empty. The process-wide
 * manager is passed in explicitly.
 */
module Helpers {
  import opened Wrappers
  import opened Codes
  import opened Devices
  import opened Manager

  /** The kinds the accessors serve. */
  datatype Kind = KeyboardKind | MouseKind | GamepadKind

  /** The kind list each accessor reads: keyboards, mice or gamepads. */
  function KindSlot(k: Kind): nat
  {
    match k
    case KeyboardKind => 0
    case MouseKind => 1
    case GamepadKind => 2
  }

  /** The name `UnpluggedError` reports for each accessor's kind. */
  function KindName(k: Kind): string
  {
    match k
    case KeyboardKind => "keyboard"
    case MouseKind => "mouse"
    case GamepadKind => "gamepad"
  }

  /** `devices.<kind>[0]`, with the IndexError turned into `UnpluggedError`. */
  function First(devs: seq<Device>, kind: string): (r: Result<Device, Error>)
    ensures r.Ok? <==> devs != []
    ensures r.Ok? ==> r.value == devs[0] && r.value in devs
    ensures r.Err? ==> r.error == Unplugged(kind)
  {
    if devs == [] then Err(Unplugged(kind)) else Ok(devs[0])
  }

  /**
   * In a registry whose lists are filed by class, each accessor hands out
   * a device of its own kind: `get_key` a keyboard, `get_gamepad` a
   * gamepad and `get_mouse` a mouse (plain or Apple's).
   */
  lemma FirstIsOfItsKind(reg: Registry, k: Kind)
    requires Filed(reg)
    ensures var r := First(List(reg, KindSlot(k)), KindName(k));
      r.Ok? ==>
        && (k == KeyboardKind ==> r.value.cls == Keyboard)
        && (k == MouseKind ==> r.value.cls == Mouse || r.value.cls == MightyMouse)
        && (k == GamepadKind ==> r.value.cls == GamePad)
  {
    var r := First(List(reg, KindSlot(k)), KindName(k));
    if r.Ok? {
      assert Slot(r.value.cls) == KindSlot(k);
    }
  }

  /**
   * The accessor shared by the three helpers: fail when the kind's list is
   * empty, otherwise read the first device once and return its events.
   */
  method ReadFirst(m: DeviceManager, k: Kind, pending: seq<InputEvent>) returns (r: Result<seq<InputEvent>, Error>)
    modifies m`calls
    ensures List(m.State(), KindSlot(k)) == [] ==> r == Err(Unplugged(KindName(k))) && m.calls == old(m.calls)
    ensures List(m.State(), KindSlot(k)) != [] ==>
      r == Ok(pending) && m.calls == old(m.calls) + [ReadCall(List(m.State(), KindSlot(k))[0])]
  {
    var first := First(List(m.State(), KindSlot(k)), KindName(k));
    if first.Err? {
      return Err(first.error);
    }
    var events := m.Read(first.value, pending);
    return Ok(events);
  }

  /** `get_key()`: the events of the first keyboard. */
  method GetKey(m: DeviceManager, pending: seq<InputEvent>) returns (r: Result<seq<InputEvent>, Error>)
    modifies m`calls
    ensures m.keyboards == [] ==> r == Err(Unplugged("keyboard")) && m.calls == old(m.calls)
    ensures m.keyboards != [] ==> r == Ok(pending) && m.calls == old(m.calls) + [ReadCall(m.keyboards[0])]
  {
    r := ReadFirst(m, KeyboardKind, pending);
  }

  /** `get_mouse()`: the events of the first mouse. */
  method GetMouse(m: DeviceManager, pending: seq<InputEvent>) returns (r: Result<seq<InputEvent>, Error>)
    modifies m`calls
    ensures m.mice == [] ==> r == Err(Unplugged("mouse")) && m.calls == old(m.calls)
    ensures m.mice != [] ==> r == Ok(pending) && m.calls == old(m.calls) + [ReadCall(m.mice[0])]
  {
    r := ReadFirst(m, MouseKind, pending);
  }

  /** `get_gamepad()`: the events of the first gamepad. */
  method GetGamepad(m: DeviceManager, pending: seq<InputEvent>) returns (r: Result<seq<InputEvent>, Error>)
    modifies m`calls
    ensures m.gamepads == [] ==> r == Err(Unplugged("gamepad")) && m.calls == old(m.calls)
    ensures m.gamepads != [] ==> r == Ok(pending) && m.calls == old(m.calls) + [ReadCall(m.gamepads[0])]
  {
    r := ReadFirst(m, GamepadKind, pending);
  }
}
