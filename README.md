# inputs: the device manager, modelled in Dafny

The `inputs` package finds the keyboards, mice, gamepads and other input
devices attached to the machine and keeps them in a `DeviceManager`. This
project models the manager as its test suite pins it down:

- the registry: the four insertion-ordered kind lists, the `_raw` list
  of resolved paths already seen, `_parse_device_path`,
  `_update_all_devices`, iteration and indexing;
- discovery: `_post_init` choosing exactly one platform strategy, the
  Linux passes `_find_devices`, `_find_by` and `_find_special`, and the
  macOS strategy;
- the code-table lookups `get_event_type` and `get_event_string`;
- the helpers `get_key`, `get_mouse` and `get_gamepad`.

The implementation module is not part of this model. The contracts
follow the assertions of `tests/test_inputs.py` where the tests make
one. Some behaviour the tests only mock or leave unconstrained is
reconstructed; the choices below list the reconstructions that change
results, and what follows from them.

Layout:

- `wrappers.dfy` holds `Option`, `Result` and the exceptions the
  package raises.
- `paths.dfy` holds the string operations the manager relies on:
  `rsplit('-', 1)`, the last `/` component, and
  `os.path.join`.
- `codes.dfy` holds the code tables and the two lookups.
- `devices.dfy` holds the registry as a value and `_parse_device_path`
  as a step on it (`Parse`, `ParseAll` for a sequence of calls). It also
  holds the registry invariant `Valid`: `_raw` has no duplicate, the
  identities of the registered devices are exactly `_raw`, and every
  device sits in the list of its class.
- `manager.dfy` holds the `DeviceManager` class. Its methods change the
  kind lists, `_raw`, `all_devices` and a ghost record `calls` of the
  calls the tests observe through mocks. Each method states its new
  state as a function of the old one (`Parse`, `ParseAll`, `Discover`),
  and the invariant and the tested properties are proved about those
  functions.
- `helpers.dfy` holds the helpers.
- `scenarios.dfy` holds the concrete situations the tests set up. There,
  path resolution is the identity, as the tests' `realpath` stand-in is.

The filesystem is data. `_find_by` receives the glob hits. `_find_special`
receives the event nodes with the display name each node's name file
holds. `os.path.realpath` is an uninterpreted `string -> string` function.

Choices about behaviour that the tests leave open:

- `__getitem__` follows Python list indexing, so a negative index counts
  from the end. This model follows the list semantics that
  `self.all_devices[index]` has. The tests only check the non-negative
  indices and the empty manager, so an implementation that also rejects
  negative indices would pass them too.
- A path is classified by the text after its last `-`, which is what
  `rsplit('-', 1)[1]` gives. A path without `-` makes that subscript
  fail. The manager then issues a RuntimeWarning and skips the path. The
  model returns that warning as the boolean result of `ParseDevicePath`.
- On Windows, `get_event_string` first maps a Key code through
  `codes['wincodes']` when that table holds it, and looks the mapped code
  up with no fallback to the original code (`EffectiveCode`). The tests
  only assert that `('Key', 0x133)` still gives `BTN_NORTH` with WIN
  set. So with `Key = {5: 'X'}` and `wincodes = {5: 6}`, the Windows
  lookup of `('Key', 5)` is UnknownEventCode for code 6, while the other
  platforms give `'X'`.
- `get_char_name` and `_get_char_names` are reconstructed; the tests
  only mock `_get_char_names`. A device's char name is the last `/`
  component of its character path override when that is non-empty, else
  of its resolved device path (`CharName`). `_get_char_names` lists the
  char names of `all_devices` (`DeviceManager.CharNames`).
- `_parse_device_path` does not refresh `all_devices`; only
  `_update_all_devices` does, and `_post_init` calls it after the
  strategy. Together with the previous point, `DeviceManager()` runs its
  special pass with no known char names, so the skip in `_find_special`
  never fires during construction (`NewDeviceManager` states its result
  with no known names). Suppose a by-id hit resolves to
  `/dev/input/event3` and the special node `event3` is present too. If
  both paths contain `-` and the special's own path resolves to a
  different file than the hit, both are registered under the char name
  `event3` (`SpecialSkipInertAtConstruction`). If the two resolve to the
  same file, only the first is registered (`ParseSameIdentity`).
- `_post_init` picks one strategy from the WIN and MAC flags, and WIN
  takes precedence when both are set (`PlatformOf`). The tests only set
  neither flag, MAC alone, or WIN alone.
- `_find_devices` runs `_find_by('id')`, then `_find_by('path')`, then
  `_find_special` (`LinuxCalls`, `FindDevicesTrace`). The tests pin
  only that `'path'` is the last `_find_by` argument, that `'id'` is
  passed as well, and that `_find_special` runs once. This order decides
  which of two calls with the same resolved path is registered, and so
  which override and char name the device keeps (`ParseSameIdentity`).

## Model

| member | source | states |
|---|---|---|
| Paths.AfterLast | tests/test_inputs.py:252-263 | `rsplit('-', 1)[1]` exists exactly when the separator occurs; otherwise the path cannot be classified |
| Paths.AfterLastIsTail | tests/test_inputs.py:163-250 | the suffix holds no separator, and the path is what comes before, then the separator, then the suffix |
| Paths.AfterLastOfJoin | tests/test_inputs.py:163-250 | `<prefix>-<marker>` with no `-` in the marker splits off exactly the marker |
| Paths.BaseName | tests/test_inputs.py:364-375 | `split('/')[-1]`: the whole path when it holds no `/`; otherwise a strictly shorter tail, with the path being what precedes it, then `/`, then the tail |
| Paths.Join | tests/test_inputs.py:364-375 | `os.path.join(dir, name)` is one character longer than `dir` and `name` together, with `/` right after `dir` |
| Paths.BaseNameOfJoin | tests/test_inputs.py:347-375 | the last `/` component of `dir/name` is `name` when `name` has no `/` |
| Paths.BaseNameHasNoSlash | tests/test_inputs.py:377-388 | a char name never contains `/` |
| Codes.GetEventType | tests/test_inputs.py:265-275 | succeeds exactly for type ids in `codes['types']`, giving the table's name; otherwise UnknownEventType with that id |
| Codes.EffectiveCode | tests/test_inputs.py:304-310 | on Windows only a Key code that `wincodes` knows is remapped; every other code is looked up as given |
| Codes.GetEventString | tests/test_inputs.py:277-315 | succeeds exactly when the type and its effective code are in the tables, giving the table's name; otherwise UnknownEventCode |
| Codes.WindowsAgreesUnlessRemapped | tests/test_inputs.py:304-310 | the Windows flag changes no lookup except for Key codes that `wincodes` maps elsewhere |
| Codes.TestedTables | tests/test_inputs.py:125-130 | a table with every entry the tests rely on exists (`types[1] == 'Key'`, `Key[1] == 'KEY_ESC'`, `xpad['right_trigger'] == 5`, ...) |
| Codes.TestedLookups | tests/test_inputs.py:265-315 | on any such table the lookups return Sync/Key/Relative/Absolute for 0..3, UnknownEventType for 0x64, the eight tested names (BTN_NORTH also on Windows), and UnknownEventCode for ('Key', 0x999) |
| Devices.DeviceType | tests/test_inputs.py:163-263 | `rsplit('-', 1)[1]`: None exactly when the path holds no `-`; otherwise a `-`-free tail, with the path being what precedes it, then `-`, then the tail |
| Devices.ClassOf | tests/test_inputs.py:163-250 | `kbd` files a Keyboard, `mouse` a Mouse and `joystick` a GamePad; nothing else gives these classes, and parsing never builds a MightyMouse |
| Devices.Classify | tests/test_inputs.py:252-263 | a path has a class exactly when it contains `-` |
| Devices.ClassifyMarked | tests/test_inputs.py:163-250 | a path ending in `-<marker>` is classified by the marker alone |
| Devices.Flatten | tests/test_inputs.py:132-159 | `_update_all_devices`' list has the four lists' total length, and holds a device exactly when one of the four lists does |
| Devices.FlattenOrder | tests/test_inputs.py:132-159 | `all_devices` is keyboards, then mice, then gamepads, then other devices, element by element, and it is empty exactly when all four lists are |
| Devices.AddToEffect | tests/test_inputs.py:163-250 | filing a device appends it to its own class's list and leaves the other three lists and `_raw` unchanged |
| Devices.Outcome | tests/test_inputs.py:163-263 | a call of `_parse_device_path` (`Parse`, which classifies through `Classify`) is unparsable exactly when the path has no `-`, already known exactly when its resolved path is in `_raw`, and adds a device otherwise |
| Devices.ParseEffect | tests/test_inputs.py:163-250 | a call that does not add leaves the registry unchanged; one that adds appends the resolved path to `_raw` and the device built from `(path, char_path_override)` to its own list only, and grows `all_devices`' source by one |
| Devices.ParseAllExtendsRaw | tests/test_inputs.py:392-402 | a sequence of `_parse_device_path` calls (`ParseAll`) only extends `_raw`, by at most one path per call |
| Devices.ParseAllAppend | tests/test_inputs.py:319-324 | parsing two batches in turn is parsing their concatenation |
| Devices.ParseSameIdentity | tests/test_inputs.py:181-198 | once a path is registered, any path resolving to the same file adds nothing |
| Devices.ParseTwice | tests/test_inputs.py:181-198 | parsing the same path twice leaves the registry as one parse did |
| Devices.EmptyValid | tests/test_inputs.py:125-135 | a fresh manager satisfies the registry invariant |
| Devices.AddToIdBag | tests/test_inputs.py:163-250 | filing a device adds exactly its identity to the registered identities |
| Devices.AddToFiled | tests/test_inputs.py:163-250 | filing a device by its class keeps every list holding its own class only |
| Devices.AddPathlessValid | tests/test_inputs.py:420-433 | adding a device without a path, as the macOS strategy does, keeps the invariant |
| Devices.ParseValid | tests/test_inputs.py:163-250 | `_parse_device_path` keeps the invariant: no resolved path twice, registered identities equal to `_raw`, every device in its own list |
| Devices.ParseAllValid | tests/test_inputs.py:392-402 | any sequence of `_parse_device_path` calls keeps the invariant |
| Devices.IdentitiesDistinct | tests/test_inputs.py:181-198 | in a valid registry no two devices share a resolved path |
| Devices.CharName | tests/test_inputs.py:377-388 | `get_char_name`: never holds `/`, and is empty for a device with neither a path nor a non-empty override (the macOS strategy's) |
| Devices.CharNames | tests/test_inputs.py:377-388 | `_get_char_names`: one char name per device, in order, each that device's `get_char_name` |
| Manager.PlatformOf | tests/test_inputs.py:45-110 | Windows exactly when WIN is set, macOS exactly when MAC is set and WIN is not, Linux otherwise |
| Manager.ByCalls | tests/test_inputs.py:392-402 | `_find_by` makes exactly as many calls as there are glob hits |
| Manager.ByCallsAt | tests/test_inputs.py:392-402 | `_find_by` makes one call per glob hit, in glob order, with no override |
| Manager.SpecialCharName | tests/test_inputs.py:377-388 | a device parsed for node `eventN`, with `/dev/input/eventN` as override, has char name `eventN` |
| Manager.SpecialCalls | tests/test_inputs.py:347-388 | `_find_special` makes no more calls than there are event nodes |
| Manager.SpecialCallsShape | tests/test_inputs.py:347-388 | every call `_find_special` makes parses a special's path, with an override whose char name is not among the known ones, and there are no more calls than event nodes |
| Manager.SpecialCallsAllMatch | tests/test_inputs.py:347-375 | N unknown nodes whose display name is a special give exactly N calls, in node order, each `(specials[name], /dev/input/<node>)` |
| Manager.SpecialCallsAllKnown | tests/test_inputs.py:377-388 | nodes whose char names are already known give no call |
| Manager.ParseTraceAt | tests/test_inputs.py:347-375 | the i-th recorded parse is the i-th call made |
| Manager.NoStrategyInParses | tests/test_inputs.py:45-102 | parse calls are never strategy calls |
| Manager.ExactlyOneStrategy | tests/test_inputs.py:45-102 | `_post_init` makes exactly one strategy call, the one the platform selects, and ends with `_update_all_devices` |
| Manager.LinuxStrategies | tests/test_inputs.py:52-70 | on Linux the only strategy call is `_find_devices` itself |
| Manager.FindDevicesPasses | tests/test_inputs.py:319-324 | `_find_devices` calls `_find_by('id')`, `_find_by('path')` and `_find_special` exactly once each |
| Manager.MacDevices | tests/test_inputs.py:420-433 | `_find_devices_mac` builds a Keyboard, a MightyMouse and a Mouse, in that order, none with a path or an override |
| Manager.Discover | tests/test_inputs.py:45-102 | every strategy only extends `_raw`; the macOS strategy leaves `_raw` alone and adds three devices; the Windows strategy changes nothing |
| Manager.MacAddsKeyboardAndTwoMice | tests/test_inputs.py:420-433 | the macOS strategy appends one Keyboard to `keyboards`, a MightyMouse and a Mouse to `mice`, and changes nothing else |
| Manager.DiscoverValid | tests/test_inputs.py:45-102 | every platform strategy keeps the registry invariant; for Windows this holds only because `FindDevicesWin` adds no device |
| Manager.BuiltRegistryValid | tests/test_inputs.py:45-102 | every registry `DeviceManager()` builds satisfies the registry invariant; for Windows this holds only because `FindDevicesWin` adds no device |
| Manager.SpecialSkipInertAtConstruction | tests/test_inputs.py:377-388 | during `DeviceManager()` no char name is known to `_find_special`, so a special node whose char name a by-id hit already resolves to is parsed as well, when both paths contain `-` and the special's own path resolves to a different file than the hit: two devices, both under that char name |
| Manager.LinuxCompose | tests/test_inputs.py:319-324 | the three Linux passes in turn parse exactly the calls by id, then by path, then the specials |
| Manager.DeviceManager.constructor | tests/test_inputs.py:113-130 | `__init__` with `_post_init` held back: the tables are kept, the lists, `_raw` and `all_devices` are empty, and no call is recorded |
| Manager.DeviceManager.UpdateAllDevices | tests/test_inputs.py:132-159 | `all_devices` becomes the concatenation of the four lists in fixed order, and nothing else changes |
| Manager.DeviceManager.ParseDevicePath | tests/test_inputs.py:163-263 | the new registry is `Parse` of the old: a known resolved path adds nothing, a new one is recorded and its device filed by marker; the warning is raised exactly for a path without `-` |
| Manager.DeviceManager.FindBy | tests/test_inputs.py:392-402 | the registry becomes the one parsing every glob hit in order gives, and the record shows the pass and then one parse per hit |
| Manager.DeviceManager.CharNames | tests/test_inputs.py:377-388 | `_get_char_names` lists one char name per device of `all_devices`, none holding `/` |
| Manager.DeviceManager.FindSpecial | tests/test_inputs.py:347-388 | the registry becomes the one parsing the special calls in node order gives, with the char names known at the start deciding which nodes are skipped |
| Manager.DeviceManager.FindSpecialNode | tests/test_inputs.py:347-388 | one node of `_find_special`'s loop: the registry and the record advance by exactly that node's call, or by nothing when the node is known or not a special |
| Manager.DeviceManager.FindDevices | tests/test_inputs.py:319-324 | the registry becomes the one the three passes in turn give, and the record shows `_find_devices` then the passes in order |
| Manager.DeviceManager.FindDevicesMac | tests/test_inputs.py:420-433 | a Keyboard, a MightyMouse and a Mouse are filed, in that order, and `_raw` is unchanged |
| Manager.DeviceManager.FindDevicesWin | tests/test_inputs.py:90-102 | the Windows strategy records its call |
| Manager.DeviceManager.PostInit | tests/test_inputs.py:45-102 | with the WIN and MAC flags, the registry becomes `Discover` for `PlatformOf(win, mac)`, `all_devices` is rebuilt from it, and the record is that platform's strategy followed by `_update_all_devices` |
| Manager.DeviceManager.GetItem | tests/test_inputs.py:326-342 | succeeds exactly for indices in `-len..len-1`, giving `all_devices[i]` (counted from the end when negative); IndexError otherwise |
| Manager.DeviceManager.Iter | tests/test_inputs.py:326-330 | `__iter__` yields as many devices as `all_devices` holds, and the i-th is `self[i]` |
| Manager.DeviceManager.IterMatchesIndex | tests/test_inputs.py:326-342 | the i-th device iteration yields is also `self[i - len]`, counted from the end |
| Manager.DeviceManager.Read | tests/test_inputs.py:448-458 | a read returns the device's pending events and is recorded once |
| Manager.NewDeviceManager | tests/test_inputs.py:45-102 | `DeviceManager()` under the WIN and MAC flags holds the registry the strategy `PlatformOf(win, mac)` builds from nothing, with no char name known, `all_devices` rebuilt from it, and records that strategy and then `_update_all_devices` |
| Helpers.First | tests/test_inputs.py:448-505 | the first device of a kind when the list is not empty, UnpluggedError naming the kind when it is |
| Helpers.FirstIsOfItsKind | tests/test_inputs.py:448-505 | in a valid registry `get_key` serves a keyboard, `get_mouse` a mouse and `get_gamepad` a gamepad |
| Helpers.ReadFirst | tests/test_inputs.py:448-505 | an empty list gives UnpluggedError and reads nothing; otherwise the first device is read exactly once and its events returned |
| Helpers.GetKey | tests/test_inputs.py:448-466 | no keyboard gives UnpluggedError; otherwise the first keyboard is read exactly once |
| Helpers.GetMouse | tests/test_inputs.py:468-486 | no mouse gives UnpluggedError; otherwise the first mouse is read exactly once |
| Helpers.GetGamepad | tests/test_inputs.py:488-505 | no gamepad gives UnpluggedError; otherwise the first gamepad is read exactly once |
| Scenarios.ParseIntoEmpty | tests/test_inputs.py:163-250 | a marked path parsed into a fresh manager is filed by its marker and recorded in `_raw` |
| Scenarios.ParseKeyboardPath | tests/test_inputs.py:163-179 | the keyboard sample gives one keyboard built with `(path, None)`, and `_raw == [path]` |
| Scenarios.ParseMousePath | tests/test_inputs.py:200-216 | the mouse sample gives one mouse, and `_raw == [path]` |
| Scenarios.ParseGamepadPath | tests/test_inputs.py:218-234 | the joystick sample gives one gamepad, and `_raw == [path]` |
| Scenarios.ParseOtherPath | tests/test_inputs.py:236-250 | the `-other` sample gives one other device, and `_raw == [path]` |
| Scenarios.ParseKeyboardTwice | tests/test_inputs.py:181-198 | parsing the keyboard path twice leaves one keyboard and a single `_raw` entry |
| Scenarios.BobIsSkipped | tests/test_inputs.py:252-263 | `"Bob"` is unparsable and changes nothing |
| Scenarios.MockNodeBase | tests/test_inputs.py:347-375 | the char name of `/sys/class/input/eventN` is `eventN` |
| Scenarios.MockNodeCall | tests/test_inputs.py:347-375 | an unknown node of the mock special gives one call with `/dev/input/eventN` as override |
| Scenarios.FindSpecialThree | tests/test_inputs.py:347-375 | three nodes of the mock special give three calls with its path, overridden with event1, event2, event3 in order |
| Scenarios.FindSpecialKnown | tests/test_inputs.py:377-388 | with `event1` and `event2` already known, the two nodes give no call |
| Scenarios.FindByTwoHits | tests/test_inputs.py:392-402 | both by-path hits are parsed, in order, without an override |
| Scenarios.MacCounts | tests/test_inputs.py:420-433 | the macOS strategy on a fresh manager gives one keyboard and two mice |
| Scenarios.ManagerScenario | tests/test_inputs.py:332-336 | indexing a fresh manager at 0 raises IndexError, and parsing the keyboard path twice through the manager leaves one keyboard |

## Left out

- Real filesystem access is not modelled: `glob.glob`, `os.path.realpath` and the reads of `/sys/class/input/*/device/name`. Glob hits and name-file contents are inputs, and `realpath` is an uninterpreted function.
- Stripping the name file's trailing whitespace is not modelled: each node's display name is given as already read.
- Reading and decoding device events is not modelled. `Read` returns the events it is given and records the call.
- The devices the Windows API enumerates are not modelled. `FindDevicesWin` records its call only.
- The macOS strategy's devices are built without paths, so their char names are empty. The native macOS device objects are not modelled.
- `InputEvent`'s float timestamp is not modelled. Its other fields are plain copies.
- The full code tables are not modelled. `CodeTables` is any table, and `HasTestedEntries` names the entries the tests use.
- Codes.GetEventString: the single `codes` dict is split into separate fields (`types`, `names`, `winCodes`, `xpad`, `specials`), so a lookup whose type name is `'types'`, `'wincodes'`, `'xpad'` or `'specials'` does not reach those tables. It consults `names` only and gives UnknownEventCode unless `names` also holds that key.
- The mutable global WIN and MAC flags are parameters: `win` and `mac` for `PostInit` and `NewDeviceManager`, and `win` for `GetEventString`.
- The process-wide `devices` singleton and its lazy construction are not modelled. The helpers take the manager as a parameter.
- The RuntimeWarning channel is a boolean result, not a side effect.
- Windows backslash separators in the override paths are not modelled. Paths use `/`.
- The back-reference from each device to its manager is implicit.
- Manager.DeviceManager.ParseDevicePath: the registry invariant is proved on `Parse` (`ParseValid`, `ParseAllValid`, `DiscoverValid`, `BuiltRegistryValid`) rather than stated as a class invariant of every method. Each method ties its new state to those functions.
