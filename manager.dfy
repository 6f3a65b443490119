/**
 * The device manager: platform dispatch in `_post_init`, the Linux
 * discovery passes (`_find_devices`, `_find_by`, `_find_special`), the
 * macOS and Windows strategies, `_update_all_devices`, iteration and
 * indexing. The filesystem is given as data: the glob hits of each pass
 * and the display name each event node's name file holds.
 */
module Manager {
  import opened Wrappers
  import opened Paths
  import opened Codes
  import opened Devices

  /** The platform the WIN and MAC flags select. */
  datatype Platform = Linux | Mac | Windows

  /** `if WIN: … elif MAC: … else: …` — Windows wins over macOS, Linux is the default. */
  function PlatformOf(win: bool, mac: bool): (p: Platform)
    ensures p == Windows <==> win
    ensures p == Mac <==> !win && mac
    ensures p == Linux <==> !win && !mac
  {
    if win then Windows else if mac then Mac else Linux
  }

  /** An `event` directory under `/sys/class/input` and the display name its `device/name` file holds. */
  datatype EventNode = EventNode(dir: string, name: string)

  /**
   * What the Linux strategy finds on disk: the hits of
   * the `by-id` and `by-path` globs under `/dev/input` (names holding
   * `-event-`) and of the `event` nodes under `/sys/class/input`, each in the order glob returns them.
   */
  datatype Environment = Environment(byId: seq<string>, byPath: seq<string>, eventNodes: seq<EventNode>)

  /** The directory special devices' character paths are joined to. */
  const InputDir := "/dev/input"

  /** The calls `_find_by` makes: every glob hit, without an override. */
  function ByCalls(hits: seq<string>): (r: seq<ParseArgs>)
    ensures |r| == |hits|
  {
    if hits == [] then []
    else ByCalls(hits[..|hits| - 1]) + [ParseArgs(hits[|hits| - 1], None)]
  }

  /** `_find_by` parses every hit, in glob order, and nothing else. */
  lemma {:induction false} ByCallsAt(hits: seq<string>)
    ensures |ByCalls(hits)| == |hits|
    ensures forall i :: 0 <= i < |hits| ==> ByCalls(hits)[i] == ParseArgs(hits[i], None)
  {
    if hits != [] {
      var init := hits[..|hits| - 1];
      ByCallsAt(init);
      assert forall i :: 0 <= i < |init| ==> ByCalls(hits)[i] == ByCalls(init)[i];
    }
  }

  /**
   * The call `_find_special` makes for one event node: none when the
   * node's char name is already known or its display name is not a
   * special; otherwise the special's path, with the node's character
   * device under `/dev/input` as override.
   */
  function SpecialCall(specials: map<string, string>, known: seq<string>, n: EventNode): seq<ParseArgs>
  {
    if BaseName(n.dir) in known then []
    else if n.name in specials then [SpecialArgs(specials, n)]
    else []
  }

  /** The arguments for a special node: the special's path, with the node's character device as override. */
  function SpecialArgs(specials: map<string, string>, n: EventNode): ParseArgs
    requires n.name in specials
  {
    ParseArgs(specials[n.name], Some(Join(InputDir, BaseName(n.dir))))
  }

  /** The calls `_find_special` makes over the event nodes, in glob order. */
  function SpecialCalls(specials: map<string, string>, known: seq<string>, nodes: seq<EventNode>): (r: seq<ParseArgs>)
    ensures |r| <= |nodes|
  {
    if nodes == [] then []
    else SpecialCalls(specials, known, nodes[..|nodes| - 1]) + SpecialCall(specials, known, nodes[|nodes| - 1])
  }

  /**
   * `_find_special` makes at most one call per node, always for a
   * special's path, and never with the character device of a known char
   * name as override.
   */
  lemma {:induction false} SpecialCallsShape(specials: map<string, string>, known: seq<string>, nodes: seq<EventNode>)
    ensures var r := SpecialCalls(specials, known, nodes);
      && |r| <= |nodes|
      && forall k :: 0 <= k < |r| ==>
           r[k].path in specials.Values && r[k].charPath.Some? && BaseName(r[k].charPath.value) !in known
  {
    if nodes != [] {
      var init, n := nodes[..|nodes| - 1], nodes[|nodes| - 1];
      SpecialCallsShape(specials, known, init);
      if BaseName(n.dir) !in known && n.name in specials {
        BaseNameHasNoSlash(n.dir);
        BaseNameOfJoin(InputDir, BaseName(n.dir));
      }
      var prev, r := SpecialCalls(specials, known, init), SpecialCalls(specials, known, nodes);
      assert r == prev + SpecialCall(specials, known, n);
      forall k | |prev| <= k < |r|
        ensures r[k].path in specials.Values && r[k].charPath.Some? && BaseName(r[k].charPath.value) !in known
      {
        assert r[k] == SpecialArgs(specials, n);
      }
    }
  }

  /** Each unknown node whose display name is a special yields one call, in order. */
  lemma {:induction false} SpecialCallsAllMatch(specials: map<string, string>, known: seq<string>, nodes: seq<EventNode>)
    requires forall k :: 0 <= k < |nodes| ==> BaseName(nodes[k].dir) !in known && nodes[k].name in specials
    ensures |SpecialCalls(specials, known, nodes)| == |nodes|
    ensures forall k :: 0 <= k < |nodes| ==> SpecialCalls(specials, known, nodes)[k] == SpecialArgs(specials, nodes[k])
  {
    if nodes != [] {
      var n := |nodes| - 1;
      var init := nodes[..n];
      assert forall k :: 0 <= k < n ==> init[k] == nodes[k];
      SpecialCallsAllMatch(specials, known, init);
      assert SpecialCall(specials, known, nodes[n]) == [SpecialArgs(specials, nodes[n])];
      ExtendMatch(specials, nodes, SpecialCalls(specials, known, init), SpecialCalls(specials, known, nodes));
    }
  }

  /** Matching calls for all nodes but the last, then the last one's, match all nodes. */
  lemma ExtendMatch(specials: map<string, string>, nodes: seq<EventNode>, prev: seq<ParseArgs>, calls: seq<ParseArgs>)
    requires nodes != [] && |prev| == |nodes| - 1
    requires forall k :: 0 <= k < |nodes| ==> nodes[k].name in specials
    requires forall k :: 0 <= k < |prev| ==> prev[k] == SpecialArgs(specials, nodes[k])
    requires calls == prev + [SpecialArgs(specials, nodes[|nodes| - 1])]
    ensures |calls| == |nodes|
    ensures forall k :: 0 <= k < |nodes| ==> calls[k] == SpecialArgs(specials, nodes[k])
  {
    forall k | 0 <= k < |nodes|
      ensures calls[k] == SpecialArgs(specials, nodes[k])
    {
      if k < |prev| {
        assert calls[k] == prev[k];
      }
    }
  }

  /**
   * A device parsed for a special node is known afterwards by that node's
   * char name, so a later scan over the same node skips it.
   */
  lemma SpecialCharName(c: DeviceClass, path: string, charName: string, rp: string -> string)
    requires '/' !in charName
    ensures CharName(Device(c, Some(path), Some(Join(InputDir, charName))), rp) == charName
  {
    BaseNameOfJoin(InputDir, charName);
  }

  /** Nodes already among the known char names yield no call at all. */
  lemma {:induction false} SpecialCallsAllKnown(specials: map<string, string>, known: seq<string>, nodes: seq<EventNode>)
    requires forall k :: 0 <= k < |nodes| ==> BaseName(nodes[k].dir) in known
    ensures SpecialCalls(specials, known, nodes) == []
  {
    if nodes != [] {
      SpecialCallsAllKnown(specials, known, nodes[..|nodes| - 1]);
    }
  }

  /** Two nodes give the first node's call, then the second's. */
  lemma SpecialCallsPair(specials: map<string, string>, known: seq<string>, n1: EventNode, n2: EventNode)
    ensures SpecialCalls(specials, known, [n1, n2]) == SpecialCall(specials, known, n1) + SpecialCall(specials, known, n2)
  {
    assert [n1, n2][..1] == [n1];
    assert [n1][..0] == [];
    assert SpecialCalls(specials, known, [n1]) == [] + SpecialCall(specials, known, n1);
  }

  lemma SpecialCallsSnoc(specials: map<string, string>, known: seq<string>, nodes: seq<EventNode>, i: nat)
    requires i < |nodes|
    ensures SpecialCalls(specials, known, nodes[..i + 1])
         == SpecialCalls(specials, known, nodes[..i]) + SpecialCall(specials, known, nodes[i])
  {
    assert nodes[..i + 1][..i] == nodes[..i];
  }

  /** The events a device read yields; the timestamp is not modelled. */
  datatype InputEvent = InputEvent(device: string, evType: string, state: int, code: string)

  /** The calls the tests observe through their mocks. */
  datatype Call =
    | FindDevicesCall
    | FindDevicesMacCall
    | FindDevicesWinCall
    | UpdateAllDevicesCall
    | FindByCall(key: string)
    | FindSpecialCall
    | ParseCall(args: ParseArgs)
    | ReadCall(device: Device)

  /** One `_parse_device_path` call record per argument list. */
  function ParseTrace(cs: seq<ParseArgs>): seq<Call>
  {
    if cs == [] then [] else ParseTrace(cs[..|cs| - 1]) + [ParseCall(cs[|cs| - 1])]
  }

  /** The i-th record of a parse trace is the i-th call. */
  lemma {:induction false} ParseTraceAt(cs: seq<ParseArgs>)
    ensures |ParseTrace(cs)| == |cs|
    ensures forall i :: 0 <= i < |cs| ==> ParseTrace(cs)[i] == ParseCall(cs[i])
  {
    if cs != [] {
      var init := cs[..|cs| - 1];
      ParseTraceAt(init);
      assert forall i :: 0 <= i < |init| ==> ParseTrace(cs)[i] == ParseTrace(init)[i];
    }
  }

  function FindByTrace(key: string, hits: seq<string>): seq<Call>
  {
    [FindByCall(key)] + ParseTrace(ByCalls(hits))
  }

  function FindSpecialTrace(specials: map<string, string>, known: seq<string>, nodes: seq<EventNode>): seq<Call>
  {
    [FindSpecialCall] + ParseTrace(SpecialCalls(specials, known, nodes))
  }

  /** `_find_devices`: by id, then by path, then the specials. */
  function FindDevicesTrace(specials: map<string, string>, known: seq<string>, env: Environment): seq<Call>
  {
    [FindDevicesCall] + FindByTrace("id", env.byId) + FindByTrace("path", env.byPath)
      + FindSpecialTrace(specials, known, env.eventNodes)
  }

  /** The strategy call each platform makes. */
  function StrategyCall(p: Platform): Call
  {
    match p
    case Linux => FindDevicesCall
    case Mac => FindDevicesMacCall
    case Windows => FindDevicesWinCall
  }

  /** Everything the chosen strategy records. */
  function StrategyTrace(p: Platform, specials: map<string, string>, known: seq<string>, env: Environment): seq<Call>
  {
    match p
    case Linux => FindDevicesTrace(specials, known, env)
    case Mac => [FindDevicesMacCall]
    case Windows => [FindDevicesWinCall]
  }

  predicate IsStrategy(c: Call)
  {
    c.FindDevicesCall? || c.FindDevicesMacCall? || c.FindDevicesWinCall?
  }

  /** The strategy calls of a trace, in order. */
  function Strategies(t: seq<Call>): seq<Call>
  {
    if t == [] then []
    else Strategies(t[..|t| - 1]) + (if IsStrategy(t[|t| - 1]) then [t[|t| - 1]] else [])
  }

  lemma {:induction false} StrategiesAppend(a: seq<Call>, b: seq<Call>)
    ensures Strategies(a + b) == Strategies(a) + Strategies(b)
  {
    if b == [] {
      assert a + b == a;
    } else {
      assert (a + b)[..|a + b| - 1] == a + b[..|b| - 1];
      StrategiesAppend(a, b[..|b| - 1]);
    }
  }

  lemma {:induction false} NoStrategyInParses(cs: seq<ParseArgs>)
    ensures Strategies(ParseTrace(cs)) == []
  {
    if cs != [] {
      var t := ParseTrace(cs);
      assert t[..|t| - 1] == ParseTrace(cs[..|cs| - 1]);
      NoStrategyInParses(cs[..|cs| - 1]);
    }
  }

  /** A parse trace holds parse records only. */
  lemma {:induction false} OnlyParses(cs: seq<ParseArgs>, x: Call)
    requires !x.ParseCall?
    ensures x !in ParseTrace(cs)
  {
    if cs != [] {
      OnlyParses(cs[..|cs| - 1], x);
    }
  }

  /** A pass record followed by its parses makes no strategy call. */
  lemma PassStrategies(head: Call, cs: seq<ParseArgs>)
    requires !IsStrategy(head)
    ensures Strategies([head] + ParseTrace(cs)) == []
  {
    StrategiesAppend([head], ParseTrace(cs));
    NoStrategyInParses(cs);
    assert Strategies([head]) == Strategies([]) + [];
  }

  /** A pass record followed by its parses holds a non-parse record only as its head. */
  lemma PassCount(head: Call, cs: seq<ParseArgs>, x: Call)
    requires !x.ParseCall?
    ensures multiset([head] + ParseTrace(cs))[x] == if x == head then 1 else 0
  {
    OnlyParses(cs, x);
  }

  /**
   * `_post_init` makes exactly one strategy call, the one its platform
   * selects, and ends with `_update_all_devices`.
   */
  lemma ExactlyOneStrategy(p: Platform, specials: map<string, string>, known: seq<string>, env: Environment)
    ensures var t := StrategyTrace(p, specials, known, env) + [UpdateAllDevicesCall];
      Strategies(t) == [StrategyCall(p)] && t[|t| - 1] == UpdateAllDevicesCall
  {
    var t := StrategyTrace(p, specials, known, env);
    StrategiesAppend(t, [UpdateAllDevicesCall]);
    assert Strategies([UpdateAllDevicesCall]) == Strategies([]) + [];
    if p == Linux {
      LinuxStrategies(specials, known, env);
    } else {
      assert Strategies(t) == Strategies([]) + [StrategyCall(p)];
    }
  }

  /** The Linux strategy's only strategy record is its own `_find_devices` call. */
  lemma LinuxStrategies(specials: map<string, string>, known: seq<string>, env: Environment)
    ensures Strategies(FindDevicesTrace(specials, known, env)) == [FindDevicesCall]
  {
    var p1, p2 := FindByTrace("id", env.byId), FindByTrace("path", env.byPath);
    var p3 := FindSpecialTrace(specials, known, env.eventNodes);
    var q1 := [FindDevicesCall] + p1;
    var q2 := q1 + p2;
    assert FindDevicesTrace(specials, known, env) == q2 + p3;
    PassStrategies(FindByCall("id"), ByCalls(env.byId));
    PassStrategies(FindByCall("path"), ByCalls(env.byPath));
    PassStrategies(FindSpecialCall, SpecialCalls(specials, known, env.eventNodes));
    assert Strategies([FindDevicesCall]) == Strategies([]) + [FindDevicesCall];
    StrategiesAppend([FindDevicesCall], p1);
    assert Strategies(q1) == [FindDevicesCall];
    StrategiesAppend(q1, p2);
    assert Strategies(q2) == [FindDevicesCall];
    StrategiesAppend(q2, p3);
  }

  /** `_find_devices` runs `_find_by('id')` and `_find_by('path')` once each, and `_find_special` once. */
  lemma FindDevicesPasses(specials: map<string, string>, known: seq<string>, env: Environment)
    ensures var bag := multiset(FindDevicesTrace(specials, known, env));
      bag[FindByCall("id")] == 1 && bag[FindByCall("path")] == 1 && bag[FindSpecialCall] == 1
  {
    var p1, p2 := FindByTrace("id", env.byId), FindByTrace("path", env.byPath);
    var p3 := FindSpecialTrace(specials, known, env.eventNodes);
    var bag := multiset([FindDevicesCall]) + multiset(p1) + multiset(p2) + multiset(p3);
    assert multiset(FindDevicesTrace(specials, known, env)) == bag;
    PassCount(FindByCall("id"), ByCalls(env.byId), FindByCall("id"));
    PassCount(FindByCall("path"), ByCalls(env.byPath), FindByCall("id"));
    PassCount(FindSpecialCall, SpecialCalls(specials, known, env.eventNodes), FindByCall("id"));
    PassCount(FindByCall("id"), ByCalls(env.byId), FindByCall("path"));
    PassCount(FindByCall("path"), ByCalls(env.byPath), FindByCall("path"));
    PassCount(FindSpecialCall, SpecialCalls(specials, known, env.eventNodes), FindByCall("path"));
    PassCount(FindByCall("id"), ByCalls(env.byId), FindSpecialCall);
    PassCount(FindByCall("path"), ByCalls(env.byPath), FindSpecialCall);
    PassCount(FindSpecialCall, SpecialCalls(specials, known, env.eventNodes), FindSpecialCall);
  }

  /** The calls the Linux strategy makes to `_parse_device_path`, in order. */
  function LinuxCalls(specials: map<string, string>, known: seq<string>, env: Environment): seq<ParseArgs>
  {
    ByCalls(env.byId) + ByCalls(env.byPath) + SpecialCalls(specials, known, env.eventNodes)
  }

  /** `_find_devices_mac`: one Keyboard, one MightyMouse and one Mouse, in that order. */
  function MacDevices(): (r: seq<Device>)
    ensures |r| == 3
    ensures r[0].cls == Keyboard && r[1].cls == MightyMouse && r[2].cls == Mouse
    ensures forall d :: d in r ==> d.devicePath.None? && d.charPathOverride.None?
  {
    [Device(Keyboard, None, None), Device(MightyMouse, None, None), Device(Mouse, None, None)]
  }

  /** The registry after the strategy of platform `p`; the Windows API's devices are not modelled. */
  function Discover(p: Platform, reg: Registry, rp: string -> string, specials: map<string, string>,
                    known: seq<string>, env: Environment): (r: Registry)
    ensures reg.raw <= r.raw
    ensures p == Mac ==> r.raw == reg.raw && |Flatten(r)| == |Flatten(reg)| + 3
    ensures p == Windows ==> r == reg
  {
    match p
    case Linux =>
      ParseAllExtendsRaw(reg, rp, LinuxCalls(specials, known, env));
      ParseAll(reg, rp, LinuxCalls(specials, known, env))
    case Mac => AddTo(AddTo(AddTo(reg, MacDevices()[0]), MacDevices()[1]), MacDevices()[2])
    case Windows => reg
  }

  /** The macOS strategy adds one keyboard and two mice, and nothing else. */
  lemma MacAddsKeyboardAndTwoMice(reg: Registry, rp: string -> string, specials: map<string, string>,
                                  known: seq<string>, env: Environment)
    ensures var r := Discover(Mac, reg, rp, specials, known, env);
      && r.keyboards == reg.keyboards + [Device(Keyboard, None, None)]
      && r.mice == reg.mice + [Device(MightyMouse, None, None), Device(Mouse, None, None)]
      && r.gamepads == reg.gamepads && r.otherDevices == reg.otherDevices && r.raw == reg.raw
  {
  }

  /** Every strategy keeps the registry invariant. */
  lemma DiscoverValid(p: Platform, reg: Registry, rp: string -> string, specials: map<string, string>,
                      known: seq<string>, env: Environment)
    requires Devices.Valid(reg, rp)
    ensures Devices.Valid(Discover(p, reg, rp, specials, known, env), rp)
  {
    match p
    case Linux => ParseAllValid(reg, rp, LinuxCalls(specials, known, env));
    case Mac =>
      var r1 := AddTo(reg, MacDevices()[0]);
      var r2 := AddTo(r1, MacDevices()[1]);
      AddPathlessValid(reg, rp, MacDevices()[0]);
      AddPathlessValid(r1, rp, MacDevices()[1]);
      AddPathlessValid(r2, rp, MacDevices()[2]);
    case Windows =>
  }

  /**
   * `DeviceManager`: the four kind lists, `all_devices` as last rebuilt,
   * `_raw`, the code tables and the path resolver, with a ghost record of
   * the calls made.
   */
  class DeviceManager {
    const codes: CodeTables
    /** `os.path.realpath`, left uninterpreted. */
    const realpath: string -> string
    var keyboards: seq<Device>
    var mice: seq<Device>
    var gamepads: seq<Device>
    var otherDevices: seq<Device>
    var allDevices: seq<Device>
    var raw: seq<string>
    ghost var calls: seq<Call>

    function State(): Registry
      reads this`keyboards, this`mice, this`gamepads, this`otherDevices, this`raw
    {
      Registry(keyboards, mice, gamepads, otherDevices, raw)
    }

    /** `__init__` up to `_post_init`: the tables loaded, every list empty. */
    constructor (codes: CodeTables, realpath: string -> string)
      ensures this.codes == codes && this.realpath == realpath
      ensures State() == Empty && allDevices == [] && calls == []
    {
      this.codes := codes;
      this.realpath := realpath;
      keyboards, mice, gamepads, otherDevices := [], [], [], [];
      allDevices, raw := [], [];
      calls := [];
    }

    /** `_update_all_devices`: rebuild `all_devices` from the four lists. */
    method UpdateAllDevices()
      modifies this`allDevices, this`calls
      ensures allDevices == Flatten(State())
      ensures calls == old(calls) + [UpdateAllDevicesCall]
    {
      calls := calls + [UpdateAllDevicesCall];
      allDevices := [];
      allDevices := allDevices + keyboards;
      allDevices := allDevices + mice;
      allDevices := allDevices + gamepads;
      allDevices := allDevices + otherDevices;
    }

    /**
     * `_parse_device_path(device_path, char_path_override)`; `warned`
     * stands for the RuntimeWarning of a path that cannot be parsed.
     */
    method ParseDevicePath(devicePath: string, charPathOverride: Option<string>) returns (warned: bool)
      modifies this`keyboards, this`mice, this`gamepads, this`otherDevices, this`raw, this`calls
      ensures warned <==> '-' !in devicePath
      ensures State() == Parse(old(State()), realpath, ParseArgs(devicePath, charPathOverride))
      ensures calls == old(calls) + [ParseCall(ParseArgs(devicePath, charPathOverride))]
    {
      calls := calls + [ParseCall(ParseArgs(devicePath, charPathOverride))];
      var deviceType := DeviceType(devicePath);
      if deviceType.None? {
        return true;
      }
      var resolved := realpath(devicePath);
      if resolved in raw {
        return false;
      }
      raw := raw + [resolved];
      var t := deviceType.value;
      if t == "kbd" {
        keyboards := keyboards + [Device(Keyboard, Some(devicePath), charPathOverride)];
      } else if t == "mouse" {
        mice := mice + [Device(Mouse, Some(devicePath), charPathOverride)];
      } else if t == "joystick" {
        gamepads := gamepads + [Device(GamePad, Some(devicePath), charPathOverride)];
      } else {
        otherDevices := otherDevices + [Device(OtherDevice, Some(devicePath), charPathOverride)];
      }
      return false;
    }

    /** `_find_by(key)`: parse every hit of the `by-{key}` glob, in order. */
    method FindBy(key: string, hits: seq<string>)
      modifies this`keyboards, this`mice, this`gamepads, this`otherDevices, this`raw, this`calls
      ensures State() == ParseAll(old(State()), realpath, ByCalls(hits))
      ensures calls == old(calls) + FindByTrace(key, hits)
    {
      calls := calls + [FindByCall(key)];
      ghost var prefix := calls;
      ghost var reg0 := old(State());
      var i := 0;
      while i < |hits|
        invariant 0 <= i <= |hits|
        invariant State() == ParseAll(reg0, realpath, ByCalls(hits[..i]))
        invariant calls == prefix + ParseTrace(ByCalls(hits[..i]))
      {
        ByStep(reg0, realpath, prefix, hits, i);
        var _ := ParseDevicePath(hits[i], None);
        i := i + 1;
      }
      assert hits[..i] == hits;
    }

    /** `_get_char_names()`: the char names of the devices in `all_devices`. */
    function CharNames(): (r: seq<string>)
      reads this`allDevices
      ensures |r| == |allDevices|
      ensures forall i :: 0 <= i < |r| ==> '/' !in r[i]
    {
      Devices.CharNames(allDevices, realpath)
    }

    /**
     * `_find_special`: for each event node in glob order whose char name
     * is not already known and whose display name is a special, parse
     * the special's path with the node's character device as override.
     */
    method FindSpecial(nodes: seq<EventNode>)
      modifies this`keyboards, this`mice, this`gamepads, this`otherDevices, this`raw, this`calls
      ensures State() == ParseAll(old(State()), realpath, SpecialCalls(codes.specials, old(CharNames()), nodes))
      ensures calls == old(calls) + FindSpecialTrace(codes.specials, old(CharNames()), nodes)
    {
      calls := calls + [FindSpecialCall];
      var charNames := CharNames();
      assert charNames == old(CharNames());
      ghost var prefix := calls;
      ghost var reg0 := old(State());
      var i := 0;
      while i < |nodes|
        invariant 0 <= i <= |nodes|
        invariant State() == ParseAll(reg0, realpath, SpecialCalls(codes.specials, charNames, nodes[..i]))
        invariant calls == prefix + ParseTrace(SpecialCalls(codes.specials, charNames, nodes[..i]))
      {
        SpecialStep(reg0, realpath, prefix, codes.specials, charNames, nodes, i);
        FindSpecialNode(nodes[i], charNames);
        i := i + 1;
      }
      assert nodes[..i] == nodes;
    }

    /** One iteration of `_find_special`'s loop: the node's call, if it makes one. */
    method FindSpecialNode(node: EventNode, charNames: seq<string>)
      modifies this`keyboards, this`mice, this`gamepads, this`otherDevices, this`raw, this`calls
      ensures State() == ParseAll(old(State()), realpath, SpecialCall(codes.specials, charNames, node))
      ensures calls == old(calls) + ParseTrace(SpecialCall(codes.specials, charNames, node))
    {
      var charName := BaseName(node.dir);
      if charName !in charNames {
        var deviceName := node.name;
        if deviceName in codes.specials {
          var args := ParseArgs(codes.specials[deviceName], Some(Join(InputDir, charName)));
          assert SpecialCall(codes.specials, charNames, node) == [args];
          ParseAllSnoc(State(), realpath, [], args);
          ParseTraceSnoc([], args);
          var _ := ParseDevicePath(args.path, args.charPath);
        }
      }
    }

    /** `_find_devices`: the Linux strategy. */
    method FindDevices(env: Environment)
      modifies this`keyboards, this`mice, this`gamepads, this`otherDevices, this`raw, this`calls
      ensures State() == ParseAll(old(State()), realpath, LinuxCalls(codes.specials, old(CharNames()), env))
      ensures calls == old(calls) + FindDevicesTrace(codes.specials, old(CharNames()), env)
    {
      ghost var known := CharNames();
      ghost var c0 := calls;
      calls := calls + [FindDevicesCall];
      FindBy("id", env.byId);
      FindBy("path", env.byPath);
      FindSpecial(env.eventNodes);
      LinuxCompose(old(State()), realpath, codes.specials, known, env);
      TraceCompose(c0, codes.specials, known, env);
    }

    /** `_find_devices_mac`: a Keyboard, a MightyMouse and a Mouse from the native API. */
    method FindDevicesMac()
      modifies this`keyboards, this`mice, this`gamepads, this`otherDevices, this`raw, this`calls
      ensures State() == AddTo(AddTo(AddTo(old(State()), MacDevices()[0]), MacDevices()[1]), MacDevices()[2])
      ensures calls == old(calls) + [FindDevicesMacCall]
    {
      calls := calls + [FindDevicesMacCall];
      keyboards := keyboards + [Device(Keyboard, None, None)];
      mice := mice + [Device(MightyMouse, None, None)];
      mice := mice + [Device(Mouse, None, None)];
    }

    /** `_find_devices_win`: the call is recorded; the Windows API's devices are not modelled. */
    method FindDevicesWin()
      modifies this`calls
      ensures calls == old(calls) + [FindDevicesWinCall]
    {
      calls := calls + [FindDevicesWinCall];
    }

    /**
     * `_post_init`: run the one strategy the platform selects, then
     * `_update_all_devices`.
     */
    method PostInit(win: bool, mac: bool, env: Environment)
      modifies this
      ensures State() == Discover(PlatformOf(win, mac), old(State()), realpath, codes.specials, old(CharNames()), env)
      ensures allDevices == Flatten(State())
      ensures calls == old(calls) + StrategyTrace(PlatformOf(win, mac), codes.specials, old(CharNames()), env)
                       + [UpdateAllDevicesCall]
    {
      if win {
        FindDevicesWin();
      } else if mac {
        FindDevicesMac();
      } else {
        FindDevices(env);
      }
      UpdateAllDevices();
    }

    /** `__iter__`: iteration walks `all_devices`, yielding `self[i]` at step `i`. */
    function Iter(): (r: seq<Device>)
      reads this`allDevices
      ensures |r| == |allDevices|
      ensures forall i :: 0 <= i < |r| ==> GetItem(i) == Ok(r[i])
    {
      allDevices
    }

    /**
     * `__getitem__(index)`: Python list indexing into `all_devices`
     * (negative indices count from the end); IndexError out of range.
     */
    function GetItem(index: int): (r: Result<Device, Error>)
      reads this`allDevices
      ensures r.Ok? <==> -|allDevices| <= index < |allDevices|
      ensures 0 <= index < |allDevices| ==> r == Ok(allDevices[index])
      ensures -|allDevices| <= index < 0 ==> r == Ok(allDevices[|allDevices| + index])
      ensures r.Err? ==> r.error == IndexOutOfRange(index)
    {
      if 0 <= index < |allDevices| then Ok(allDevices[index])
      else if -|allDevices| <= index < 0 then Ok(allDevices[|allDevices| + index])
      else Err(IndexOutOfRange(index))
    }

    /** The i-th device iteration yields is also `self[i - len(self.all_devices)]`, counted from the end. */
    lemma IterMatchesIndex()
      ensures forall i :: 0 <= i < |Iter()| ==> GetItem(i - |Iter()|) == Ok(Iter()[i])
    {
    }

    /** `device.read()`: the events come from the device; the call is recorded. */
    method Read(d: Device, pending: seq<InputEvent>) returns (events: seq<InputEvent>)
      modifies this`calls
      ensures events == pending
      ensures calls == old(calls) + [ReadCall(d)]
    {
      calls := calls + [ReadCall(d)];
      events := pending;
    }
  }

  lemma AppendAssoc<T>(a: seq<T>, b: seq<T>, c: seq<T>)
    ensures (a + b) + c == a + (b + c)
  {
  }

  /** One more `_parse_device_path` call continues both the registry and the record of calls. */
  lemma ParseStep(reg: Registry, rp: string -> string, prefix: seq<Call>, done: seq<ParseArgs>, a: ParseArgs)
    ensures ParseAll(reg, rp, done + [a]) == Parse(ParseAll(reg, rp, done), rp, a)
    ensures prefix + ParseTrace(done + [a]) == prefix + ParseTrace(done) + [ParseCall(a)]
  {
    ParseAllSnoc(reg, rp, done, a);
    ParseTraceSnoc(done, a);
    AppendAssoc(prefix, ParseTrace(done), [ParseCall(a)]);
  }

  /** One more glob hit of `_find_by` continues both the registry and the record of calls. */
  lemma ByStep(reg: Registry, rp: string -> string, prefix: seq<Call>, hits: seq<string>, i: nat)
    requires i < |hits|
    ensures ParseAll(reg, rp, ByCalls(hits[..i + 1]))
         == Parse(ParseAll(reg, rp, ByCalls(hits[..i])), rp, ParseArgs(hits[i], None))
    ensures prefix + ParseTrace(ByCalls(hits[..i + 1]))
         == prefix + ParseTrace(ByCalls(hits[..i])) + [ParseCall(ParseArgs(hits[i], None))]
  {
    assert hits[..i + 1][..i] == hits[..i];
    assert ByCalls(hits[..i + 1]) == ByCalls(hits[..i]) + [ParseArgs(hits[i], None)];
    ParseStep(reg, rp, prefix, ByCalls(hits[..i]), ParseArgs(hits[i], None));
  }

  /** One more event node of `_find_special` continues both the registry and the record of calls. */
  lemma SpecialStep(reg: Registry, rp: string -> string, prefix: seq<Call>, specials: map<string, string>,
                    known: seq<string>, nodes: seq<EventNode>, i: nat)
    requires i < |nodes|
    ensures var done, step := SpecialCalls(specials, known, nodes[..i]), SpecialCall(specials, known, nodes[i]);
      && ParseAll(reg, rp, SpecialCalls(specials, known, nodes[..i + 1])) == ParseAll(ParseAll(reg, rp, done), rp, step)
      && prefix + ParseTrace(SpecialCalls(specials, known, nodes[..i + 1])) == prefix + ParseTrace(done) + ParseTrace(step)
  {
    SpecialCallsSnoc(specials, known, nodes, i);
    StepCompose(reg, rp, prefix, SpecialCalls(specials, known, nodes[..i]), SpecialCall(specials, known, nodes[i]));
  }

  /** A batch of calls after the ones done continues both the registry and the record of calls. */
  lemma StepCompose(reg: Registry, rp: string -> string, prefix: seq<Call>, done: seq<ParseArgs>, step: seq<ParseArgs>)
    ensures ParseAll(reg, rp, done + step) == ParseAll(ParseAll(reg, rp, done), rp, step)
    ensures prefix + ParseTrace(done + step) == prefix + ParseTrace(done) + ParseTrace(step)
  {
    ParseAllAppend(reg, rp, done, step);
    ParseTraceAppend(done, step);
    AppendAssoc(prefix, ParseTrace(done), ParseTrace(step));
  }

  lemma ParseTraceSnoc(cs: seq<ParseArgs>, x: ParseArgs)
    ensures ParseTrace(cs + [x]) == ParseTrace(cs) + [ParseCall(x)]
  {
    assert (cs + [x])[..|cs|] == cs;
  }

  lemma {:induction false} ParseTraceAppend(a: seq<ParseArgs>, b: seq<ParseArgs>)
    ensures ParseTrace(a + b) == ParseTrace(a) + ParseTrace(b)
  {
    if b == [] {
      assert a + b == a;
    } else {
      assert (a + b)[..|a + b| - 1] == a + b[..|b| - 1];
      ParseTraceAppend(a, b[..|b| - 1]);
    }
  }

  /** The three passes of the Linux strategy parse, one after the other, the calls `LinuxCalls` lists. */
  lemma LinuxCompose(reg: Registry, rp: string -> string, specials: map<string, string>, known: seq<string>, env: Environment)
    ensures ParseAll(ParseAll(ParseAll(reg, rp, ByCalls(env.byId)), rp, ByCalls(env.byPath)), rp,
                     SpecialCalls(specials, known, env.eventNodes))
         == ParseAll(reg, rp, LinuxCalls(specials, known, env))
  {
    ParseAllAppend(reg, rp, ByCalls(env.byId), ByCalls(env.byPath));
    ParseAllAppend(reg, rp, ByCalls(env.byId) + ByCalls(env.byPath), SpecialCalls(specials, known, env.eventNodes));
  }

  lemma TraceCompose(c0: seq<Call>, specials: map<string, string>, known: seq<string>, env: Environment)
    ensures c0 + [FindDevicesCall] + FindByTrace("id", env.byId) + FindByTrace("path", env.byPath)
              + FindSpecialTrace(specials, known, env.eventNodes)
         == c0 + FindDevicesTrace(specials, known, env)
  {
  }

  /** Every registry `DeviceManager()` can build satisfies the registry invariant. */
  lemma BuiltRegistryValid(p: Platform, rp: string -> string, specials: map<string, string>, env: Environment)
    ensures Devices.Valid(Discover(p, Empty, rp, specials, [], env), rp)
  {
    EmptyValid(rp);
    DiscoverValid(p, Empty, rp, specials, [], env);
  }

  /** `DeviceManager()`: `__init__` followed by `_post_init`. */
  method NewDeviceManager(codes: CodeTables, realpath: string -> string, win: bool, mac: bool, env: Environment)
    returns (m: DeviceManager)
    ensures fresh(m) && m.codes == codes && m.realpath == realpath
    ensures m.State() == Discover(PlatformOf(win, mac), Empty, realpath, codes.specials, [], env)
    ensures m.allDevices == Flatten(m.State())
    ensures m.calls == StrategyTrace(PlatformOf(win, mac), codes.specials, [], env) + [UpdateAllDevicesCall]
  {
    m := new DeviceManager(codes, realpath);
    assert |m.CharNames()| == 0;
    m.PostInit(win, mac, env);
  }

  /**
   * `_get_char_names` reads `all_devices`, which `_post_init` rebuilds only
   * after the strategy, so while `DeviceManager()` runs its special pass no
   * char name is known yet. A by-id hit resolving to `/dev/input/eventN`
   * therefore does not keep the special node `eventN` from being parsed
   * too: when both paths can be parsed and the special's own path resolves
   * to a different file, both devices are registered, under the same char
   * name.
   */
  lemma SpecialSkipInertAtConstruction(rp: string -> string, specials: map<string, string>, hit: string, node: EventNode)
    requires '-' in hit
    requires node.name in specials && '-' in specials[node.name]
    requires rp(specials[node.name]) != rp(hit)
    requires BaseName(rp(hit)) == BaseName(node.dir)
    ensures var r := Discover(Linux, Empty, rp, specials, [], Environment([hit], [], [node]));
      var n := BaseName(node.dir);
      |Flatten(r)| == 2 && CharNames(Flatten(r), rp) == [n, n]
  {
    var n := BaseName(node.dir);
    var a1, a2 := ParseArgs(hit, None), SpecialArgs(specials, node);
    var env := Environment([hit], [], [node]);
    DiscoverLinux(Empty, rp, specials, [], env);
    OneHitOneNode(specials, hit, node);
    assert Discover(Linux, Empty, rp, specials, [], env) == ParseAll(Empty, rp, [a1, a2]);
    ParseTwoNew(rp, a1, a2);
    SpecialArgsCharName(rp, specials, node);
    HitCharName(rp, hit);
    TwoNamed(Flatten(ParseAll(Empty, rp, [a1, a2])), rp, NewDevice(a1), NewDevice(a2), n);
  }

  /** A list holding the bag of two devices that share a char name lists that name twice. */
  lemma TwoNamed(all: seq<Device>, rp: string -> string, d1: Device, d2: Device, n: string)
    requires multiset(all) == multiset{d1, d2}
    requires CharName(d1, rp) == n && CharName(d2, rp) == n
    ensures |all| == 2 && CharNames(all, rp) == [n, n]
  {
    PairBag(all, d1, d2);
    BothNamed(all, rp, n);
  }

  lemma DiscoverLinux(reg: Registry, rp: string -> string, specials: map<string, string>, known: seq<string>, env: Environment)
    ensures Discover(Linux, reg, rp, specials, known, env) == ParseAll(reg, rp, LinuxCalls(specials, known, env))
  {
  }

  /** The device parsed for a special node is known by the node's char name. */
  lemma SpecialArgsCharName(rp: string -> string, specials: map<string, string>, node: EventNode)
    requires node.name in specials && '-' in specials[node.name]
    ensures CharName(NewDevice(SpecialArgs(specials, node)), rp) == BaseName(node.dir)
  {
    BaseNameHasNoSlash(node.dir);
    BaseNameOfJoin(InputDir, BaseName(node.dir));
  }

  /** A device parsed from a glob hit, with no override, is known by its resolved path's last component. */
  lemma HitCharName(rp: string -> string, hit: string)
    requires '-' in hit
    ensures CharName(NewDevice(ParseArgs(hit, None)), rp) == BaseName(rp(hit))
  {
  }

  /** Two devices that share a char name list it twice. */
  lemma BothNamed(devs: seq<Device>, rp: string -> string, n: string)
    requires |devs| == 2 && forall d :: d in devs ==> CharName(d, rp) == n
    ensures CharNames(devs, rp) == [n, n]
  {
    assert devs[0] in devs && devs[1] in devs;
  }

  /** One by-id hit and one special node, with nothing known, give the hit's call and then the node's. */
  lemma OneHitOneNode(specials: map<string, string>, hit: string, node: EventNode)
    requires node.name in specials
    ensures LinuxCalls(specials, [], Environment([hit], [], [node])) == [ParseArgs(hit, None), SpecialArgs(specials, node)]
  {
    assert ByCalls([hit]) == ByCalls([]) + [ParseArgs(hit, None)];
    assert SpecialCalls(specials, [], [node]) == SpecialCalls(specials, [], []) + SpecialCall(specials, [], node);
  }

  /** Two parsable calls with different resolved paths both register a device. */
  lemma ParseTwoNew(rp: string -> string, a1: ParseArgs, a2: ParseArgs)
    requires '-' in a1.path && '-' in a2.path && rp(a1.path) != rp(a2.path)
    ensures multiset(Flatten(ParseAll(Empty, rp, [a1, a2]))) == multiset{NewDevice(a1), NewDevice(a2)}
  {
    var r1 := Parse(Empty, rp, a1);
    TwoCalls(Empty, rp, a1, a2);
    ParseAdds(Empty, rp, a1);
    ParseAdds(r1, rp, a2);
  }

  lemma TwoCalls(reg: Registry, rp: string -> string, a1: ParseArgs, a2: ParseArgs)
    ensures ParseAll(reg, rp, [a1, a2]) == Parse(Parse(reg, rp, a1), rp, a2)
  {
    ParseAllSnoc(reg, rp, [], a1);
    ParseAllSnoc(reg, rp, [a1], a2);
    assert [a1] + [a2] == [a1, a2];
  }

  /** A list holding the bag of two devices has length two and holds nothing else. */
  lemma PairBag(all: seq<Device>, d1: Device, d2: Device)
    requires multiset(all) == multiset{d1, d2}
    ensures |all| == 2 && forall d :: d in all ==> d == d1 || d == d2
  {
    assert |all| == |multiset(all)|;
    forall d | d in all
      ensures d == d1 || d == d2
    {
      assert d in multiset(all);
    }
  }

  /** A call that adds a device adds exactly that device to what `_update_all_devices` collects. */
  lemma ParseAdds(reg: Registry, rp: string -> string, a: ParseArgs)
    requires '-' in a.path && rp(a.path) !in reg.raw
    ensures Parse(reg, rp, a).raw == reg.raw + [rp(a.path)]
    ensures multiset(Flatten(Parse(reg, rp, a))) == multiset(Flatten(reg)) + multiset{NewDevice(a)}
  {
    var reg' := reg.(raw := reg.raw + [rp(a.path)]);
    assert Parse(reg, rp, a) == AddTo(reg', NewDevice(a));
    WithRaw(reg, rp, reg.raw + [rp(a.path)]);
    FlattenAddTo(reg', NewDevice(a));
  }

  /** Filing a device adds exactly that device to what `_update_all_devices` collects. */
  lemma FlattenAddTo(reg: Registry, d: Device)
    ensures multiset(Flatten(AddTo(reg, d))) == multiset(Flatten(reg)) + multiset{d}
  {
    var k, m, g, o := reg.keyboards, reg.mice, reg.gamepads, reg.otherDevices;
    var r := AddTo(reg, d);
    assert multiset(Flatten(reg)) == multiset(k) + multiset(m) + multiset(g) + multiset(o);
    assert multiset(Flatten(r)) == multiset(r.keyboards) + multiset(r.mice) + multiset(r.gamepads) + multiset(r.otherDevices);
    match d.cls
    case Keyboard => assert r == reg.(keyboards := k + [d]);
    case Mouse => assert r == reg.(mice := m + [d]);
    case MightyMouse => assert r == reg.(mice := m + [d]);
    case GamePad => assert r == reg.(gamepads := g + [d]);
    case OtherDevice => assert r == reg.(otherDevices := o + [d]);
  }


}
