/**
 * The event code tables the device manager keeps in `codes`, and the two
 * lookups over them, `get_event_type` and `get_event_string`.
 */
module Codes {
  import opened Wrappers

  /**
   * The parts of `codes` the core reads: `codes['types']`, the per-type
   * tables `codes[ev_type]`, `codes['wincodes']` (Windows key codes to
   * the common codes), `codes['xpad']` and `codes['specials']` (display
   * name of a special device to the path it is parsed under).
   */
  datatype CodeTables = CodeTables(
    types: map<int, string>,
    names: map<string, map<int, string>>,
    winCodes: map<int, int>,
    xpad: map<string, int>,
    specials: map<string, string>)

  /** `get_event_type(raw_type)`: the name of an event type, or UnknownEventType. */
  function GetEventType(t: CodeTables, rawType: int): (r: Result<string, Error>)
    ensures r.Ok? <==> rawType in t.types
    ensures r.Ok? ==> r.value == t.types[rawType]
    ensures r.Err? ==> r.error == UnknownEventType(rawType)
  {
    if rawType in t.types then Ok(t.types[rawType]) else Err(UnknownEventType(rawType))
  }

  /**
   * The code actually looked up: on Windows a Key code that `wincodes`
   * knows is first mapped to its common equivalent.
   */
  function EffectiveCode(t: CodeTables, win: bool, evType: string, code: int): (c: int)
    ensures !win || evType != "Key" || code !in t.winCodes ==> c == code
    ensures win && evType == "Key" && code in t.winCodes ==> c == t.winCodes[code]
  {
    if win && evType == "Key" && code in t.winCodes then t.winCodes[code] else code
  }

  /**
   * `get_event_string(evtype, code)`: the symbolic name of a code, or
   * UnknownEventCode when either the type or the code has no entry.
   */
  function GetEventString(t: CodeTables, win: bool, evType: string, code: int): (r: Result<string, Error>)
    ensures var c := EffectiveCode(t, win, evType, code);
      (r.Ok? <==> evType in t.names && c in t.names[evType])
      && (r.Ok? ==> r.value == t.names[evType][c])
      && (r.Err? ==> r.error == UnknownEventCode(evType, c))
  {
    var c := EffectiveCode(t, win, evType, code);
    if evType in t.names && c in t.names[evType] then Ok(t.names[evType][c])
    else Err(UnknownEventCode(evType, c))
  }

  /** The Windows flag changes only Key codes that `wincodes` remaps. */
  lemma WindowsAgreesUnlessRemapped(t: CodeTables, evType: string, code: int)
    requires evType != "Key" || code !in t.winCodes || t.winCodes[code] == code
    ensures GetEventString(t, true, evType, code) == GetEventString(t, false, evType, code)
  {
  }

  /** Does table `t` name `code` of type `evType` as `name`? */
  predicate Names(t: CodeTables, evType: string, code: int, name: string)
  {
    evType in t.names && code in t.names[evType] && t.names[evType][code] == name
  }

  /** The entries of the code tables the tests of the device manager rely on. */
  predicate HasTestedEntries(t: CodeTables)
  {
    && 0x00 in t.types && t.types[0x00] == "Sync"
    && 0x01 in t.types && t.types[0x01] == "Key"
    && 0x02 in t.types && t.types[0x02] == "Relative"
    && 0x03 in t.types && t.types[0x03] == "Absolute"
    && 0x64 !in t.types
    && Names(t, "Key", 0x01, "KEY_ESC")
    && Names(t, "Key", 0x133, "BTN_NORTH")
    && Names(t, "Relative", 0x08, "REL_WHEEL")
    && Names(t, "Absolute", 0x07, "ABS_RUDDER")
    && Names(t, "Switch", 0x05, "SW_DOCK")
    && Names(t, "Misc", 0x04, "MSC_SCAN")
    && Names(t, "LED", 0x01, "LED_CAPSL")
    && Names(t, "Repeat", 0x01, "REP_MAX")
    && Names(t, "Sound", 0x01, "SND_BELL")
    && "Key" in t.names && 0x999 !in t.names["Key"]
    && (0x133 in t.winCodes ==> Names(t, "Key", t.winCodes[0x133], "BTN_NORTH"))
    && "right_trigger" in t.xpad && t.xpad["right_trigger"] == 5
  }

  /** A table holding exactly the tested entries: the requirements can be met. */
  function TestedTables(): (t: CodeTables)
    ensures HasTestedEntries(t)
  {
    CodeTables(
      map[0x00 := "Sync", 0x01 := "Key", 0x02 := "Relative", 0x03 := "Absolute"],
      map[
        "Key" := map[0x01 := "KEY_ESC", 0x133 := "BTN_NORTH"],
        "Relative" := map[0x08 := "REL_WHEEL"],
        "Absolute" := map[0x07 := "ABS_RUDDER"],
        "Switch" := map[0x05 := "SW_DOCK"],
        "Misc" := map[0x04 := "MSC_SCAN"],
        "LED" := map[0x01 := "LED_CAPSL"],
        "Repeat" := map[0x01 := "REP_MAX"],
        "Sound" := map[0x01 := "SND_BELL"]],
      map[],
      map["right_trigger" := 5],
      map[])
  }

  /** What the lookups return on every table holding the tested entries. */
  lemma TestedLookups(t: CodeTables)
    requires HasTestedEntries(t)
    ensures GetEventType(t, 0x00) == Ok("Sync")
    ensures GetEventType(t, 0x01) == Ok("Key")
    ensures GetEventType(t, 0x02) == Ok("Relative")
    ensures GetEventType(t, 0x03) == Ok("Absolute")
    ensures GetEventType(t, 0x64) == Err(UnknownEventType(0x64))
    ensures GetEventString(t, false, "Key", 0x133) == Ok("BTN_NORTH")
    ensures GetEventString(t, false, "Relative", 0x08) == Ok("REL_WHEEL")
    ensures GetEventString(t, false, "Absolute", 0x07) == Ok("ABS_RUDDER")
    ensures GetEventString(t, false, "Switch", 0x05) == Ok("SW_DOCK")
    ensures GetEventString(t, false, "Misc", 0x04) == Ok("MSC_SCAN")
    ensures GetEventString(t, false, "LED", 0x01) == Ok("LED_CAPSL")
    ensures GetEventString(t, false, "Repeat", 0x01) == Ok("REP_MAX")
    ensures GetEventString(t, false, "Sound", 0x01) == Ok("SND_BELL")
    ensures GetEventString(t, true, "Key", 0x133) == Ok("BTN_NORTH")
    ensures GetEventString(t, false, "Key", 0x999) == Err(UnknownEventCode("Key", 0x999))
  {
  }
}
