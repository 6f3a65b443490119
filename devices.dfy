/**
 * The device registry of the device manager: the four kind lists, the
 * `_raw` list of resolved paths already seen, `_parse_device_path` as a
 * step on a registry value, and `_update_all_devices` as `Flatten`.
 */
module Devices {
  import opened Wrappers
  import opened Paths

  /** The device classes the manager constructs. */
  datatype DeviceClass = Keyboard | Mouse | MightyMouse | GamePad | OtherDevice

  /**
   * A constructed device: its class and the `device_path` and
   * `char_path_override` it was constructed with. The back-reference to
   * the manager is implicit: every device belongs to the manager that
   * holds it. Devices built by the macOS strategy have neither path.
   */
  datatype Device = Device(cls: DeviceClass, devicePath: Option<string>, charPathOverride: Option<string>)

  /** `device_path.rsplit('-', 1)[1]`, None for a path that cannot be parsed. */
  function DeviceType(path: string): (r: Option<string>)
    ensures r.None? <==> '-' !in path
    ensures r.Some? ==> '-' !in r.value && |r.value| < |path|
    ensures r.Some? ==> path == path[..|path| - |r.value| - 1] + "-" + r.value
  {
    AfterLastIsTail(path, '-');
    AfterLast(path, '-')
  }

  /** The class chosen by the device type: `kbd`, `mouse`, `joystick`, anything else. */
  function ClassOf(deviceType: string): (c: DeviceClass)
    ensures c == Keyboard <==> deviceType == "kbd"
    ensures c == Mouse <==> deviceType == "mouse"
    ensures c == GamePad <==> deviceType == "joystick"
    ensures c != MightyMouse
  {
    if deviceType == "kbd" then Keyboard
    else if deviceType == "mouse" then Mouse
    else if deviceType == "joystick" then GamePad
    else OtherDevice
  }

  /** The class a path is filed under; None when it is skipped with a RuntimeWarning. */
  function Classify(path: string): (r: Option<DeviceClass>)
    ensures r.None? <==> '-' !in path
  {
    match DeviceType(path)
    case None => None
    case Some(t) => Some(ClassOf(t))
  }

  /** A path ending in `-marker` (no '-' in marker) is classified by its marker alone. */
  lemma ClassifyMarked(prefix: string, marker: string)
    requires '-' !in marker
    ensures Classify(prefix + "-" + marker) == Some(ClassOf(marker))
  {
    assert prefix + "-" + marker == prefix + ['-'] + marker;
    AfterLastOfJoin(prefix, '-', marker);
  }

  /** The state `_parse_device_path` changes: the four kind lists and `_raw`. */
  datatype Registry = Registry(
    keyboards: seq<Device>,
    mice: seq<Device>,
    gamepads: seq<Device>,
    otherDevices: seq<Device>,
    raw: seq<string>)

  /** A freshly constructed manager's registry. */
  const Empty := Registry([], [], [], [], [])

  /** `_update_all_devices`: keyboards, then mice, then gamepads, then other devices. */
  function Flatten(reg: Registry): (all: seq<Device>)
    ensures |all| == |reg.keyboards| + |reg.mice| + |reg.gamepads| + |reg.otherDevices|
    ensures forall d :: d in all <==>
      d in reg.keyboards || d in reg.mice || d in reg.gamepads || d in reg.otherDevices
  {
    reg.keyboards + reg.mice + reg.gamepads + reg.otherDevices
  }

  /** The concatenation order is kept element by element. */
  lemma FlattenOrder(reg: Registry)
    ensures var all := Flatten(reg);
      var k, m, g := |reg.keyboards|, |reg.mice|, |reg.gamepads|;
      && |all| == k + m + g + |reg.otherDevices|
      && all[..k] == reg.keyboards
      && all[k..k + m] == reg.mice
      && all[k + m..k + m + g] == reg.gamepads
      && all[k + m + g..] == reg.otherDevices
      && (all == [] <==> reg.keyboards == [] && reg.mice == [] && reg.gamepads == [] && reg.otherDevices == [])
  {
    var k, m, g := |reg.keyboards|, |reg.mice|, |reg.gamepads|;
    var all := Flatten(reg);
    assert all == reg.keyboards + reg.mice + reg.gamepads + reg.otherDevices;
    assert all[..k] == reg.keyboards;
    assert all[k..k + m] == reg.mice;
    assert all[k + m..k + m + g] == reg.gamepads;
    assert all[k + m + g..] == reg.otherDevices;
  }

  /** The list a class is filed in: 0 keyboards, 1 mice, 2 gamepads, 3 other devices. */
  function Slot(c: DeviceClass): (i: nat)
    ensures i < 4
  {
    match c
    case Keyboard => 0
    case Mouse => 1
    case MightyMouse => 1
    case GamePad => 2
    case OtherDevice => 3
  }

  /** The kind list with number `i`. */
  function List(reg: Registry, i: nat): seq<Device>
    requires i < 4
  {
    if i == 0 then reg.keyboards
    else if i == 1 then reg.mice
    else if i == 2 then reg.gamepads
    else reg.otherDevices
  }

  /** `self.<list>.append(device)` for the list the device's class is filed in. */
  function AddTo(reg: Registry, d: Device): Registry
  {
    match d.cls
    case Keyboard => reg.(keyboards := reg.keyboards + [d])
    case Mouse => reg.(mice := reg.mice + [d])
    case MightyMouse => reg.(mice := reg.mice + [d])
    case GamePad => reg.(gamepads := reg.gamepads + [d])
    case OtherDevice => reg.(otherDevices := reg.otherDevices + [d])
  }

  /** Appending touches the device's own list only, and `_raw` not at all. */
  lemma AddToEffect(reg: Registry, d: Device)
    ensures AddTo(reg, d).raw == reg.raw
    ensures List(AddTo(reg, d), Slot(d.cls)) == List(reg, Slot(d.cls)) + [d]
    ensures forall i :: 0 <= i < 4 && i != Slot(d.cls) ==> List(AddTo(reg, d), i) == List(reg, i)
  {
  }

  /** The arguments of one `_parse_device_path(device_path, char_path_override)` call. */
  datatype ParseArgs = ParseArgs(path: string, charPath: Option<string>)

  /** What one call does: warn and skip, ignore a known device, or add one. */
  datatype ParseOutcome = Unparsable | AlreadyKnown | Added

  function Outcome(reg: Registry, rp: string -> string, a: ParseArgs): (o: ParseOutcome)
    ensures o == Unparsable <==> '-' !in a.path
    ensures o == AlreadyKnown <==> '-' in a.path && rp(a.path) in reg.raw
  {
    match Classify(a.path)
    case None => Unparsable
    case Some(_) => if rp(a.path) in reg.raw then AlreadyKnown else Added
  }

  /** The device `_parse_device_path` constructs for a parsable path. */
  function NewDevice(a: ParseArgs): Device
    requires '-' in a.path
  {
    Device(Classify(a.path).value, Some(a.path), a.charPath)
  }

  /**
   * `_parse_device_path(path, char_path_override)` with resolver `rp` for
   * `os.path.realpath`: a path without a device type is skipped, a path
   * whose resolved form is in `_raw` changes nothing, any other path
   * records its resolved form and appends one new device to its kind list.
   */
  function Parse(reg: Registry, rp: string -> string, a: ParseArgs): Registry
  {
    match Classify(a.path)
    case None => reg
    case Some(c) =>
      var resolved := rp(a.path);
      if resolved in reg.raw then reg
      else AddTo(reg.(raw := reg.raw + [resolved]), Device(c, Some(a.path), a.charPath))
  }

  /**
   * A call that does not add changes nothing; a call that adds records
   * the resolved path, appends the new device to its own list only, and
   * grows the flattened view by one.
   */
  lemma ParseEffect(reg: Registry, rp: string -> string, a: ParseArgs)
    ensures Outcome(reg, rp, a) != Added ==> Parse(reg, rp, a) == reg
    ensures Outcome(reg, rp, a) == Added ==>
      var r, d := Parse(reg, rp, a), NewDevice(a);
      && d.cls != MightyMouse
      && r.raw == reg.raw + [rp(a.path)]
      && List(r, Slot(d.cls)) == List(reg, Slot(d.cls)) + [d]
      && (forall i :: 0 <= i < 4 && i != Slot(d.cls) ==> List(r, i) == List(reg, i))
      && |Flatten(r)| == |Flatten(reg)| + 1
  {
    if Outcome(reg, rp, a) == Added {
      var reg' := reg.(raw := reg.raw + [rp(a.path)]);
      AddToEffect(reg', NewDevice(a));
    }
  }

  /** A sequence of `_parse_device_path` calls, in order. */
  function ParseAll(reg: Registry, rp: string -> string, calls: seq<ParseArgs>): Registry
  {
    if calls == [] then reg
    else Parse(ParseAll(reg, rp, calls[..|calls| - 1]), rp, calls[|calls| - 1])
  }

  /** A sequence of calls only extends `_raw`, by at most one path per call. */
  lemma {:induction false} ParseAllExtendsRaw(reg: Registry, rp: string -> string, calls: seq<ParseArgs>)
    ensures var r := ParseAll(reg, rp, calls);
      reg.raw <= r.raw && |r.raw| <= |reg.raw| + |calls|
  {
    if calls != [] {
      ParseAllExtendsRaw(reg, rp, calls[..|calls| - 1]);
    }
  }

  lemma ParseAllSnoc(reg: Registry, rp: string -> string, calls: seq<ParseArgs>, x: ParseArgs)
    ensures ParseAll(reg, rp, calls + [x]) == Parse(ParseAll(reg, rp, calls), rp, x)
  {
    assert (calls + [x])[..|calls|] == calls;
  }

  /** Running two batches of calls one after the other is running their concatenation. */
  lemma {:induction false} ParseAllAppend(reg: Registry, rp: string -> string, a: seq<ParseArgs>, b: seq<ParseArgs>)
    ensures ParseAll(reg, rp, a + b) == ParseAll(ParseAll(reg, rp, a), rp, b)
  {
    if b == [] {
      assert a + b == a;
    } else {
      assert (a + b)[..|a + b| - 1] == a + b[..|b| - 1];
      ParseAllAppend(reg, rp, a, b[..|b| - 1]);
    }
  }

  /**
   * Deduplication is keyed on the resolved path: once a parsable path has
   * been parsed, any path resolving to the same place changes nothing.
   */
  lemma ParseSameIdentity(reg: Registry, rp: string -> string, a: ParseArgs, b: ParseArgs)
    requires '-' in a.path
    requires rp(a.path) == rp(b.path)
    ensures Parse(Parse(reg, rp, a), rp, b) == Parse(reg, rp, a)
  {
    var r := Parse(reg, rp, a);
    assert rp(a.path) in r.raw;
  }

  /** Parsing the same path twice leaves the registry as one parse did. */
  lemma ParseTwice(reg: Registry, rp: string -> string, a: ParseArgs)
    ensures Parse(Parse(reg, rp, a), rp, a) == Parse(reg, rp, a)
  {
    if '-' in a.path {
      ParseSameIdentity(reg, rp, a, a);
    } else {
      assert Outcome(reg, rp, a) == Unparsable;
    }
  }

  /** The canonical identity of a device: its resolved device path, if it has one. */
  function Identity(d: Device, rp: string -> string): seq<string>
  {
    match d.devicePath
    case None => []
    case Some(p) => [rp(p)]
  }

  /** The identities of a list of devices, in order. */
  function Identities(devs: seq<Device>, rp: string -> string): seq<string>
  {
    if devs == [] then [] else Identity(devs[0], rp) + Identities(devs[1..], rp)
  }

  lemma {:induction false} IdentitiesAppend(a: seq<Device>, b: seq<Device>, rp: string -> string)
    ensures Identities(a + b, rp) == Identities(a, rp) + Identities(b, rp)
  {
    if a == [] {
      assert a + b == b;
    } else {
      assert (a + b)[1..] == a[1..] + b;
      IdentitiesAppend(a[1..], b, rp);
    }
  }

  /** No element occurs twice. */
  predicate Distinct(s: seq<string>)
  {
    forall i, j :: 0 <= i < j < |s| ==> s[i] != s[j]
  }

  /** The identities of all registered devices, as a bag. */
  function IdBag(reg: Registry, rp: string -> string): multiset<string>
  {
    multiset(Identities(Flatten(reg), rp))
  }

  /** Each list holds devices of its own class only. */
  predicate Filed(reg: Registry)
  {
    forall i, d :: 0 <= i < 4 && d in List(reg, i) ==> Slot(d.cls) == i
  }

  /**
   * The registry invariant: `_raw` holds no path twice, the identities of
   * the registered devices are exactly the paths in `_raw`, and each
   * device sits in its own kind list.
   */
  predicate Valid(reg: Registry, rp: string -> string)
  {
    Distinct(reg.raw) && IdBag(reg, rp) == multiset(reg.raw) && Filed(reg)
  }

  lemma EmptyValid(rp: string -> string)
    ensures Valid(Empty, rp)
  {
    assert Flatten(Empty) == [];
    assert IdBag(Empty, rp) == multiset{};
  }

  lemma IdBagSplit(reg: Registry, rp: string -> string)
    ensures IdBag(reg, rp) ==
      multiset(Identities(reg.keyboards, rp)) + multiset(Identities(reg.mice, rp))
      + multiset(Identities(reg.gamepads, rp)) + multiset(Identities(reg.otherDevices, rp))
  {
    IdentitiesAppend(reg.keyboards, reg.mice, rp);
    IdentitiesAppend(reg.keyboards + reg.mice, reg.gamepads, rp);
    IdentitiesAppend(reg.keyboards + reg.mice + reg.gamepads, reg.otherDevices, rp);
  }

  /** Appending a device adds exactly its identity to the bag. */
  lemma AddToIdBag(reg: Registry, rp: string -> string, d: Device)
    ensures IdBag(AddTo(reg, d), rp) == IdBag(reg, rp) + multiset(Identity(d, rp))
  {
    var r := AddTo(reg, d);
    var dd := multiset(Identity(d, rp));
    IdBagSplit(reg, rp);
    IdBagSplit(r, rp);
    var k, m := multiset(Identities(reg.keyboards, rp)), multiset(Identities(reg.mice, rp));
    var g, o := multiset(Identities(reg.gamepads, rp)), multiset(Identities(reg.otherDevices, rp));
    BagShift(k, m, g, o, dd);
    match d.cls
    case Keyboard =>
      assert r == reg.(keyboards := reg.keyboards + [d]);
      AppendBag(reg.keyboards, d, rp);
    case Mouse =>
      assert r == reg.(mice := reg.mice + [d]);
      AppendBag(reg.mice, d, rp);
    case MightyMouse =>
      assert r == reg.(mice := reg.mice + [d]);
      AppendBag(reg.mice, d, rp);
    case GamePad =>
      assert r == reg.(gamepads := reg.gamepads + [d]);
      AppendBag(reg.gamepads, d, rp);
    case OtherDevice =>
      assert r == reg.(otherDevices := reg.otherDevices + [d]);
      AppendBag(reg.otherDevices, d, rp);
  }

  lemma AppendBag(devs: seq<Device>, d: Device, rp: string -> string)
    ensures multiset(Identities(devs + [d], rp)) == multiset(Identities(devs, rp)) + multiset(Identity(d, rp))
  {
    assert Identities([d], rp) == Identity(d, rp);
    IdentitiesAppend(devs, [d], rp);
  }

  /** Adding a bag to any one of four summands adds it to the sum. */
  lemma BagShift<T>(k: multiset<T>, m: multiset<T>, g: multiset<T>, o: multiset<T>, dd: multiset<T>)
    ensures (k + dd) + m + g + o == k + m + g + o + dd
    ensures k + (m + dd) + g + o == k + m + g + o + dd
    ensures k + m + (g + dd) + o == k + m + g + o + dd
    ensures k + m + g + (o + dd) == k + m + g + o + dd
  {
  }

  lemma AddToFiled(reg: Registry, d: Device)
    requires Filed(reg)
    ensures Filed(AddTo(reg, d))
  {
    var r := AddTo(reg, d);
    forall i, e | 0 <= i < 4 && e in List(r, i)
      ensures Slot(e.cls) == i
    {
      if i == Slot(d.cls) {
        assert e in List(reg, i) || e == d;
      } else {
        assert e in List(reg, i);
      }
    }
  }

  /** A device without a path (the macOS strategy's) keeps the invariant. */
  lemma AddPathlessValid(reg: Registry, rp: string -> string, d: Device)
    requires Valid(reg, rp)
    requires d.devicePath.None?
    ensures Valid(AddTo(reg, d), rp)
  {
    AddToEffect(reg, d);
    AddToIdBag(reg, rp, d);
    AddToFiled(reg, d);
  }

  /** `_parse_device_path` keeps the invariant. */
  lemma ParseValid(reg: Registry, rp: string -> string, a: ParseArgs)
    requires Valid(reg, rp)
    ensures Valid(Parse(reg, rp, a), rp)
  {
    if Outcome(reg, rp, a) == Added {
      var resolved := rp(a.path);
      var reg' := reg.(raw := reg.raw + [resolved]);
      var d := NewDevice(a);
      assert Parse(reg, rp, a) == AddTo(reg', d);
      WithRaw(reg, rp, reg.raw + [resolved]);
      AddToEffect(reg', d);
      AddToIdBag(reg', rp, d);
      AddToFiled(reg', d);
      assert Identity(d, rp) == [resolved];
      DistinctSnoc(reg.raw, resolved);
    }
  }

  /** Replacing `_raw` leaves the registered devices, their identities and their filing alone. */
  lemma WithRaw(reg: Registry, rp: string -> string, raw: seq<string>)
    ensures Flatten(reg.(raw := raw)) == Flatten(reg)
    ensures IdBag(reg.(raw := raw), rp) == IdBag(reg, rp)
    ensures Filed(reg) ==> Filed(reg.(raw := raw))
  {
    var r := reg.(raw := raw);
    assert List(r, 0) == List(reg, 0) && List(r, 1) == List(reg, 1);
    assert List(r, 2) == List(reg, 2) && List(r, 3) == List(reg, 3);
  }

  /** Appending a new element keeps a sequence free of repeats. */
  lemma DistinctSnoc(s: seq<string>, x: string)
    requires Distinct(s) && x !in s
    ensures Distinct(s + [x])
  {
    var t := s + [x];
    forall i, j | 0 <= i < j < |t|
      ensures t[i] != t[j]
    {
      if j == |s| {
        assert t[i] == s[i];
      }
    }
  }

  lemma {:induction false} ParseAllValid(reg: Registry, rp: string -> string, calls: seq<ParseArgs>)
    requires Valid(reg, rp)
    ensures Valid(ParseAll(reg, rp, calls), rp)
  {
    if calls != [] {
      ParseAllValid(reg, rp, calls[..|calls| - 1]);
      ParseValid(ParseAll(reg, rp, calls[..|calls| - 1]), rp, calls[|calls| - 1]);
    }
  }

  lemma {:induction false} DistinctCount(s: seq<string>, x: string)
    requires Distinct(s)
    ensures multiset(s)[x] <= 1
  {
    if s != [] {
      var init := s[..|s| - 1];
      assert s == init + [s[|s| - 1]];
      DistinctCount(init, x);
      if x == s[|s| - 1] {
        assert x !in init;
      }
    }
  }

  /** Two equal elements at two positions count twice. */
  lemma RepeatCounts(s: seq<string>, i: nat, j: nat)
    requires i < j < |s|
    ensures s[i] == s[j] ==> multiset(s)[s[i]] >= 2
  {
    assert s == s[..j] + s[j..];
    assert s[i] in s[..j];
    assert s[j] in s[j..];
  }

  lemma CountDistinct(s: seq<string>)
    requires forall x :: multiset(s)[x] <= 1
    ensures Distinct(s)
  {
    forall i, j | 0 <= i < j < |s|
      ensures s[i] != s[j]
    {
      RepeatCounts(s, i, j);
    }
  }

  /** No canonical identity appears twice across the four lists. */
  lemma IdentitiesDistinct(reg: Registry, rp: string -> string)
    requires Valid(reg, rp)
    ensures Distinct(Identities(Flatten(reg), rp))
  {
    forall x
      ensures multiset(Identities(Flatten(reg), rp))[x] <= 1
    {
      DistinctCount(reg.raw, x);
    }
    CountDistinct(Identities(Flatten(reg), rp));
  }

  /** `get_char_name()`: the last component of the character device path. */
  function CharName(d: Device, rp: string -> string): (r: string)
    ensures '/' !in r
    ensures d.devicePath.None? && (d.charPathOverride.None? || d.charPathOverride == Some("")) ==> r == ""
  {
    match d.charPathOverride
    case Some(p) =>
      if p != "" then
        BaseNameHasNoSlash(p);
        BaseName(p)
      else CharNameOfPath(d, rp)
    case None => CharNameOfPath(d, rp)
  }

  /** Without an override, the character device is the resolved device path. */
  function CharNameOfPath(d: Device, rp: string -> string): (r: string)
    ensures '/' !in r
  {
    match d.devicePath
    case Some(p) =>
      BaseNameHasNoSlash(rp(p));
      BaseName(rp(p))
    case None => ""
  }

  /** `_get_char_names()`: the char names of the given devices, in order. */
  function CharNames(devs: seq<Device>, rp: string -> string): (r: seq<string>)
    ensures |r| == |devs|
    ensures forall i :: 0 <= i < |r| ==> r[i] == CharName(devs[i], rp)
  {
    seq(|devs|, i requires 0 <= i < |devs| => CharName(devs[i], rp))
  }
}
