/**
 * The concrete situations the repository's tests set up, stated on the
 * model: the four sample paths, a repeated path, an unparsable name, the
 * special-device scan over three event nodes, the by-path scan, the
 * macOS strategy and indexing an empty manager. Path resolution is the
 * identity, as the tests' `realpath` stand-in is.
 */
module Scenarios {
  import opened Wrappers
  import opened Paths
  import opened Codes
  import opened Devices
  import opened Manager

  /** The tests' `realpath` stand-in: every path resolves to itself. */
  const Same: string -> string := (p: string) => p

  const KeyboardPath := "/dev/input/by-path/my-lovely-keyboard-0-event-kbd"
  const MousePath := "/dev/input/by-path/my-lovely-mouse-0-event-mouse"
  const GamepadPath := "/dev/input/by-path/my-lovely-gamepad-0-event-joystick"
  const OtherPath := "/dev/input/by-path/the-machine-that-goes-ping-other"

  const MockDevice := "My Special Mock Input Device"
  const MockDevicePath := "/dev/input/by-id/usb-mock-special-keyboard-event-kbd"

  /**
   * Parsing `<prefix>-<marker>` (no '-' in the marker) into an empty
   * manager files a device of the marker's class and records the path.
   */
  lemma ParseIntoEmpty(prefix: string, marker: string)
    requires '-' !in marker
    ensures var p := prefix + "-" + marker;
      Parse(Empty, Same, ParseArgs(p, None)) == AddTo(Registry([], [], [], [], [p]), Device(ClassOf(marker), Some(p), None))
  {
    var p := prefix + "-" + marker;
    assert p == prefix + ['-'] + marker;
    AfterLastOfJoin(prefix, '-', marker);
  }

  /** The keyboard sample lands in `keyboards` and `_raw`. */
  lemma ParseKeyboardPath()
    ensures Parse(Empty, Same, ParseArgs(KeyboardPath, None))
         == Registry([Device(Keyboard, Some(KeyboardPath), None)], [], [], [], [KeyboardPath])
  {
    assert KeyboardPath == "/dev/input/by-path/my-lovely-keyboard-0-event" + "-" + "kbd";
    ParseIntoEmpty("/dev/input/by-path/my-lovely-keyboard-0-event", "kbd");
  }

  /** The mouse sample lands in `mice` and `_raw`. */
  lemma ParseMousePath()
    ensures Parse(Empty, Same, ParseArgs(MousePath, None))
         == Registry([], [Device(Mouse, Some(MousePath), None)], [], [], [MousePath])
  {
    assert MousePath == "/dev/input/by-path/my-lovely-mouse-0-event" + "-" + "mouse";
    ParseIntoEmpty("/dev/input/by-path/my-lovely-mouse-0-event", "mouse");
  }

  /** The gamepad sample lands in `gamepads` and `_raw`. */
  lemma ParseGamepadPath()
    ensures Parse(Empty, Same, ParseArgs(GamepadPath, None))
         == Registry([], [], [Device(GamePad, Some(GamepadPath), None)], [], [GamepadPath])
  {
    assert GamepadPath == "/dev/input/by-path/my-lovely-gamepad-0-event" + "-" + "joystick";
    ParseIntoEmpty("/dev/input/by-path/my-lovely-gamepad-0-event", "joystick");
  }

  /** The sample of no known kind lands in `other_devices` and `_raw`. */
  lemma ParseOtherPath()
    ensures Parse(Empty, Same, ParseArgs(OtherPath, None))
         == Registry([], [], [], [Device(OtherDevice, Some(OtherPath), None)], [OtherPath])
  {
    assert OtherPath == "/dev/input/by-path/the-machine-that-goes-ping" + "-" + "other";
    ParseIntoEmpty("/dev/input/by-path/the-machine-that-goes-ping", "other");
  }

  /** The second parse of the keyboard path adds nothing: one keyboard, one `_raw` entry. */
  lemma ParseKeyboardTwice()
    ensures var r := ParseAll(Empty, Same, [ParseArgs(KeyboardPath, None), ParseArgs(KeyboardPath, None)]);
      |r.keyboards| == 1 && r.raw == [KeyboardPath]
  {
    var a := ParseArgs(KeyboardPath, None);
    ParseAllSnoc(Empty, Same, [], a);
    ParseAllSnoc(Empty, Same, [a], a);
    assert [a] + [a] == [a, a];
    ParseTwice(Empty, Same, a);
    ParseKeyboardPath();
  }

  /** A name with no '-' is skipped with a warning and changes nothing. */
  lemma BobIsSkipped(reg: Registry, rp: string -> string)
    ensures Outcome(reg, rp, ParseArgs("Bob", None)) == Unparsable
    ensures Parse(reg, rp, ParseArgs("Bob", None)) == reg
  {
    assert '-' !in "Bob";
  }

  /** The event node `/sys/class/input/event<k>` whose name file holds the mock device's name. */
  function MockNode(k: string): EventNode
  {
    EventNode(Join("/sys/class/input", k), MockDevice)
  }

  lemma MockNodeBase(k: string)
    requires '/' !in k
    ensures BaseName(MockNode(k).dir) == k
  {
    BaseNameOfJoin("/sys/class/input", k);
  }

  /** An unknown node of the mock device yields one call, overridden with its character device. */
  lemma MockNodeCall(k: string)
    requires '/' !in k
    ensures SpecialCall(map[MockDevice := MockDevicePath], [], MockNode(k))
         == [ParseArgs(MockDevicePath, Some(Join(InputDir, k)))]
  {
    MockNodeBase(k);
  }

  const ThreeNodes := [MockNode("event1"), MockNode("event2"), MockNode("event3")]

  /**
   * Over three unknown event nodes of the mock device, `_find_special`
   * parses the mock device's path three times, with `/dev/input/event1`,
   * `/dev/input/event2` and `/dev/input/event3` as overrides.
   */
  lemma FindSpecialThree()
    ensures SpecialCalls(map[MockDevice := MockDevicePath], [], ThreeNodes)
         == [ParseArgs(MockDevicePath, Some("/dev/input/event1")),
             ParseArgs(MockDevicePath, Some("/dev/input/event2")),
             ParseArgs(MockDevicePath, Some("/dev/input/event3"))]
  {
    assert Join(InputDir, "event1") == "/dev/input/event1";
    assert Join(InputDir, "event2") == "/dev/input/event2";
    assert Join(InputDir, "event3") == "/dev/input/event3";
    MockTriple("event1", "event2", "event3");
  }

  /** Three unknown nodes of the mock device give its three calls, in node order. */
  lemma MockTriple(k1: string, k2: string, k3: string)
    requires '/' !in k1 && '/' !in k2 && '/' !in k3
    ensures SpecialCalls(map[MockDevice := MockDevicePath], [], [MockNode(k1), MockNode(k2), MockNode(k3)])
         == [ParseArgs(MockDevicePath, Some(Join(InputDir, k1))),
             ParseArgs(MockDevicePath, Some(Join(InputDir, k2))),
             ParseArgs(MockDevicePath, Some(Join(InputDir, k3)))]
  {
    var nodes := [MockNode(k1), MockNode(k2), MockNode(k3)];
    MockPair(k1, k2);
    MockNodeCall(k3);
    assert nodes[..2] == [MockNode(k1), MockNode(k2)];
  }

  /** Two unknown nodes of the mock device give its two calls, in node order. */
  lemma MockPair(k1: string, k2: string)
    requires '/' !in k1 && '/' !in k2
    ensures SpecialCalls(map[MockDevice := MockDevicePath], [], [MockNode(k1), MockNode(k2)])
         == [ParseArgs(MockDevicePath, Some(Join(InputDir, k1))),
             ParseArgs(MockDevicePath, Some(Join(InputDir, k2)))]
  {
    SpecialCallsPair(map[MockDevice := MockDevicePath], [], MockNode(k1), MockNode(k2));
    MockNodeCall(k1);
    MockNodeCall(k2);
  }

  /** When `event1` and `event2` are already known char names, `_find_special` parses nothing. */
  lemma FindSpecialKnown()
    ensures SpecialCalls(map[MockDevice := MockDevicePath], ["event1", "event2"],
                         [MockNode("event1"), MockNode("event2")]) == []
  {
    var nodes := [MockNode("event1"), MockNode("event2")];
    MockNodeBase("event1");
    MockNodeBase("event2");
    assert forall k :: 0 <= k < |nodes| ==> BaseName(nodes[k].dir) in ["event1", "event2"];
    SpecialCallsAllKnown(map[MockDevice := MockDevicePath], ["event1", "event2"], nodes);
  }

  /** `_find_by('path')` over two glob hits parses each of them, without an override. */
  lemma FindByTwoHits()
    ensures var hits := ["/dev/input/by-path/platform-a-shiny-keyboard-event-kbd",
                         "/dev/input/by-path/pci-a-shiny-mouse-event-mouse"];
      ByCalls(hits) == [ParseArgs(hits[0], None), ParseArgs(hits[1], None)]
  {
    var hits := ["/dev/input/by-path/platform-a-shiny-keyboard-event-kbd",
                 "/dev/input/by-path/pci-a-shiny-mouse-event-mouse"];
    ByCallsAt(hits);
  }

  /** The macOS strategy on a fresh manager: one keyboard and two mice. */
  lemma MacCounts(env: Environment)
    ensures var r := Discover(Mac, Empty, Same, map[], [], env);
      |r.keyboards| == 1 && |r.mice| == 2 && r.gamepads == [] && r.otherDevices == []
  {
    MacAddsKeyboardAndTwoMice(Empty, Same, map[], [], env);
  }

  /**
   * A manager built without running a strategy has no devices, so
   * `self[0]` raises IndexError; parsing the keyboard path twice through
   * the manager leaves one keyboard.
   */
  method ManagerScenario(codes: CodeTables) returns (empty: Result<Device, Error>, keyboards: nat)
    ensures empty == Err(IndexOutOfRange(0))
    ensures keyboards == 1
  {
    var m := new DeviceManager(codes, Same);
    empty := m.GetItem(0);
    var _ := m.ParseDevicePath(KeyboardPath, None);
    var _ := m.ParseDevicePath(KeyboardPath, None);
    ParseKeyboardTwice();
    ParseAllSnoc(Empty, Same, [], ParseArgs(KeyboardPath, None));
    ParseAllSnoc(Empty, Same, [ParseArgs(KeyboardPath, None)], ParseArgs(KeyboardPath, None));
    assert [ParseArgs(KeyboardPath, None)] + [ParseArgs(KeyboardPath, None)]
        == [ParseArgs(KeyboardPath, None), ParseArgs(KeyboardPath, None)];
    keyboards := |m.keyboards|;
  }
}
