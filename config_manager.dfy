/** The analysis tool's configuration (ground_station/config_manager.py): the
    channel-name mapping, track and analysis settings read from an INI file over
    built-in defaults, and the lookup that resolves an internal channel name to a
    column of a loaded log. Reading and writing the file, and the INI syntax, are
    outside the model: the file arrives already parsed, as its sections' entries
    in file order, or as `None` when reading it failed. */
module ConfigManager {
  import opened Wrappers
  import opened Text

  type Entries = seq<(string, string)>

  /** A parsed INI file: each section's entries in file order. */
  type IniFile = map<string, Entries>

  // ---------------------------------------------------------------------------
  // Column-name resolution

  /** What `get_channel_name` is given as the log's columns: a list, a pandas
      Index, or anything else (such as `None`). */
  datatype Columns = ListColumns(names: seq<string>) | IndexColumns(names: seq<string>) | OtherColumns

  /** The column name the mapping gives for an internal name: the mapping is
      looked up with the lower-cased name, defaulting to the name as given. */
  function MappedName(configMap: map<string, string>, internalName: string): string {
    var lower := Lower(internalName);
    if lower in configMap then configMap[lower] else internalName
  }

  /** `get_channel_name`: the mapped name, else the internal name as given, else
      its lower-case form, whichever is a column first; `None` when none is or the
      columns are neither a list nor an Index. */
  function GetChannelName(configMap: map<string, string>, internalName: string, cols: Columns): (r: Option<string>)
    ensures r.Some? ==> !cols.OtherColumns? && r.value in cols.names
    ensures r.Some? ==> r.value in {MappedName(configMap, internalName), internalName, Lower(internalName)}
  {
    if cols.OtherColumns? then None
    else
      var mapped := MappedName(configMap, internalName);
      var lower := Lower(internalName);
      if mapped in cols.names then Some(mapped)
      else if internalName in cols.names then Some(internalName)
      else if lower in cols.names then Some(lower)
      else None
  }

  /** The candidates are tried in order: a candidate that is a column is chosen
      unless an earlier one is also a column, and there is no result exactly when
      no candidate is a column. */
  lemma ChannelNamePriority(configMap: map<string, string>, internalName: string, names: seq<string>)
    ensures var mapped, lower := MappedName(configMap, internalName), Lower(internalName);
      forall cols | cols == ListColumns(names) || cols == IndexColumns(names) ::
        var r := GetChannelName(configMap, internalName, cols);
        && (mapped in names ==> r == Some(mapped))
        && (mapped !in names && internalName in names ==> r == Some(internalName))
        && (mapped !in names && internalName !in names && lower in names ==> r == Some(lower))
        && (r.None? <==> mapped !in names && internalName !in names && lower !in names)
  {
  }

  /** A list and an Index holding the same names resolve alike. */
  lemma ListAndIndexAgree(configMap: map<string, string>, internalName: string, names: seq<string>)
    ensures GetChannelName(configMap, internalName, ListColumns(names))
         == GetChannelName(configMap, internalName, IndexColumns(names))
  {
  }

  /** The mapping is consulted case-insensitively: internal names that differ
      only in case and whose mapped column exists resolve to that column. */
  lemma MappingIgnoresCase(configMap: map<string, string>, a: string, b: string, cols: Columns)
    requires Lower(a) == Lower(b) && Lower(a) in configMap
    requires !cols.OtherColumns? && configMap[Lower(a)] in cols.names
    ensures GetChannelName(configMap, a, cols) == GetChannelName(configMap, b, cols) == Some(configMap[Lower(a)])
  {
  }

  // ---------------------------------------------------------------------------
  // Loading the configuration

  /** The built-in channel mapping, track and analysis settings, in the order
      they are written. */
  const PositionChannels: Entries :=
    [("timestamp", "Timestamp"), ("gpslat", "GPS_Lat"), ("gpslon", "GPS_Lon"), ("gpsspeed", "GPS_Speed")]
  const InertialChannels: Entries :=
    [("lataccel", "IMU_AccelX"), ("lonaccel", "IMU_AccelY"), ("vertaccel", "IMU_AccelZ"), ("yawrate", "IMU_GyroZ")]
  const WheelChannels: Entries :=
    [("wheelspeedfl", "WheelSpeed_FL"), ("wheelspeedfr", "WheelSpeed_FR"),
     ("wheelspeedrl", "WheelSpeed_RL"), ("wheelspeedrr", "WheelSpeed_RR")]
  const SuspensionChannels: Entries :=
    [("suspposfl", "SuspensionPos_FL"), ("suspposfr", "SuspensionPos_FR"),
     ("suspposrl", "SuspensionPos_RL"), ("suspposrr", "SuspensionPos_RR")]
  const DriverChannels: Entries :=
    [("steerangle", "SteeringAngle"), ("throttlepos", "ThrottlePos"), ("brakepressf", "BrakePressure_F"),
     ("enginerpm", "EngineRPM"), ("coolanttemp", "CoolantTemp"), ("vehiclespeed", "VehicleSpeed")]
  const DefaultChannels: Entries :=
    PositionChannels + InertialChannels + WheelChannels + SuspensionChannels + DriverChannels
  const DefaultTrack: Entries := [("StartFinishLat", "-25.45000"), ("StartFinishLon", "-49.23000")]
  const DefaultAnalysis: Entries :=
    [("SkidpadRadius", "9.0"), ("LapDetectionThresholdMeters", "15.0"), ("MinLapTimeSeconds", "20.0")]

  const ChannelsSection := "CHANNELS"
  const TrackSection := "TRACK"
  const AnalysisSection := "ANALYSIS"

  function Key(e: (string, string), lowerKeys: bool): string {
    if lowerKeys then Lower(e.0) else e.0
  }

  /** Entries assigned one after another into `m`, keys lower-cased when
      `lowerKeys` (as the INI parser stores option names). */
  function Assign(m: map<string, string>, entries: Entries, lowerKeys: bool): map<string, string> {
    if entries == [] then m
    else
      var n := |entries| - 1;
      Assign(m, entries[..n], lowerKeys)[Key(entries[n], lowerKeys) := entries[n].1]
  }

  /** A key that no entry names keeps its value, and no other key appears. */
  lemma {:induction false} AssignUntouched(m: map<string, string>, entries: Entries, lowerKeys: bool, k: string)
    requires forall i | 0 <= i < |entries| :: Key(entries[i], lowerKeys) != k
    ensures k in Assign(m, entries, lowerKeys) <==> k in m
    ensures k in m ==> Assign(m, entries, lowerKeys)[k] == m[k]
  {
    if entries != [] {
      var n := |entries| - 1;
      AssignUntouched(m, entries[..n], lowerKeys, k);
    }
  }

  /** A key takes the value of the last entry that names it. */
  lemma {:induction false} AssignLastWins(m: map<string, string>, entries: Entries, lowerKeys: bool, i: nat)
    requires i < |entries|
    requires forall j | i < j < |entries| :: Key(entries[j], lowerKeys) != Key(entries[i], lowerKeys)
    ensures var k := Key(entries[i], lowerKeys);
      k in Assign(m, entries, lowerKeys) && Assign(m, entries, lowerKeys)[k] == entries[i].1
  {
    var n := |entries| - 1;
    if i < n {
      assert forall j | i < j < n :: entries[..n][j] == entries[j];
      AssignLastWins(m, entries[..n], lowerKeys, i);
    }
  }

  /** Lower-cased assignment into a map with lower-case keys keeps every key
      lower-case. */
  lemma {:induction false} AssignKeepsLowerKeys(m: map<string, string>, entries: Entries)
    requires forall k | k in m :: Lower(k) == k
    ensures forall k | k in Assign(m, entries, true) :: Lower(k) == k
  {
    if entries != [] {
      var n := |entries| - 1;
      AssignKeepsLowerKeys(m, entries[..n]);
      LowerIdempotent(entries[n].0);
    }
  }

  /** No upper-case ASCII letter in `s`. */
  predicate IsLowerCase(s: string) {
    forall j | 0 <= j < |s| :: !('A' <= s[j] <= 'Z')
  }

  /** Entries whose names are lower-case already are stored under the same
      names whether or not the names are lower-cased. */
  lemma {:induction false} AssignLowerCaseKeys(m: map<string, string>, entries: Entries)
    requires forall i | 0 <= i < |entries| :: IsLowerCase(entries[i].0)
    ensures Assign(m, entries, true) == Assign(m, entries, false)
  {
    if entries != [] {
      var n := |entries| - 1;
      AssignLowerCaseKeys(m, entries[..n]);
      assert Lower(entries[n].0) == entries[n].0;
    }
  }

  /** Every entry's name is lower-case. */
  predicate LowerCaseNames(es: Entries) {
    forall i | 0 <= i < |es| :: IsLowerCase(es[i].0)
  }

  lemma LowerCaseNamesAppend(a: Entries, b: Entries)
    requires LowerCaseNames(a) && LowerCaseNames(b)
    ensures LowerCaseNames(a + b)
  {
    forall i | 0 <= i < |a + b|
      ensures IsLowerCase((a + b)[i].0)
    {
      if i >= |a| {
        assert (a + b)[i] == b[i - |a|];
      }
    }
  }

  lemma PositionChannelsLowerCase() ensures LowerCaseNames(PositionChannels) {}
  lemma InertialChannelsLowerCase() ensures LowerCaseNames(InertialChannels) {}
  lemma WheelChannelsLowerCase() ensures LowerCaseNames(WheelChannels) {}
  lemma SuspensionChannelsLowerCase() ensures LowerCaseNames(SuspensionChannels) {}
  lemma DriverChannelsLowerCase() ensures LowerCaseNames(DriverChannels) {}

  /** The built-in channel names are lower-case. */
  lemma DefaultChannelsLowerCase()
    ensures forall i | 0 <= i < |DefaultChannels| :: IsLowerCase(DefaultChannels[i].0)
  {
    PositionChannelsLowerCase();
    InertialChannelsLowerCase();
    WheelChannelsLowerCase();
    SuspensionChannelsLowerCase();
    DriverChannelsLowerCase();
    LowerCaseNamesAppend(PositionChannels, InertialChannels);
    LowerCaseNamesAppend(PositionChannels + InertialChannels, WheelChannels);
    LowerCaseNamesAppend(PositionChannels + InertialChannels + WheelChannels, SuspensionChannels);
    LowerCaseNamesAppend(PositionChannels + InertialChannels + WheelChannels + SuspensionChannels, DriverChannels);
  }

  /** A Python dictionary written out with these entries. */
  function Dict(entries: Entries): map<string, string> {
    Assign(map[], entries, false)
  }

  /** The file's entries for a section, none when it lacks the section. */
  function FileEntries(file: IniFile, section: string): Entries {
    if section in file then file[section] else []
  }

  /** What the parser holds for a section: the defaults it was given, then the
      file's entries, all under lower-cased option names. */
  function Section(file: IniFile, section: string, defaults: Entries): (sec: map<string, string>)
    ensures forall k | k in sec :: Lower(k) == k
  {
    AssignKeepsLowerKeys(map[], defaults);
    AssignKeepsLowerKeys(Assign(map[], defaults, true), FileEntries(file, section));
    Assign(Assign(map[], defaults, true), FileEntries(file, section), true)
  }

  /** Sets each of the section's options in `base`, under its lower-cased name
      when `lowerKeys`; the section's names are lower-case already. */
  method Overlay(base: map<string, string>, sec: map<string, string>, lowerKeys: bool) returns (r: map<string, string>)
    requires lowerKeys ==> forall k | k in sec :: Lower(k) == k
    ensures r == base + sec
  {
    r := base;
    var todo := sec.Keys;
    while todo != {}
      invariant todo <= sec.Keys
      invariant r.Keys == base.Keys + (sec.Keys - todo)
      invariant forall k | k in r :: r[k] == if k in sec && k !in todo then sec[k] else base[k]
      decreases todo
    {
      var k :| k in todo;
      var key := if lowerKeys then Lower(k) else k;
      r := r[key := sec[k]];
      todo := todo - {k};
    }
  }

  /** `load_config`: `fileExists` says whether the file was there, `createOk`
      whether writing the defaults to a missing file succeeded, and `file` what
      parsing it produced, `None` when parsing or processing raised. The parser
      silently skips a file it cannot open, so an unreadable file arrives as
      `Some(map[])`, like an empty one. A file that cannot be created or fails
      to parse gives the built-in dictionaries; otherwise each result is the
      built-in dictionary overlaid with the parser's section for it. */
  method LoadConfig(fileExists: bool, createOk: bool, file: Option<IniFile>)
    returns (channels: map<string, string>, track: map<string, string>, analysis: map<string, string>)
    ensures (!fileExists && !createOk) || file.None? ==>
      channels == Dict(DefaultChannels) && track == Dict(DefaultTrack) && analysis == Dict(DefaultAnalysis)
    ensures (fileExists || createOk) && file.Some? ==>
      && channels == Dict(DefaultChannels) + Section(file.value, ChannelsSection, DefaultChannels)
      && track == Dict(DefaultTrack) + Section(file.value, TrackSection, DefaultTrack)
      && analysis == Dict(DefaultAnalysis) + Section(file.value, AnalysisSection, DefaultAnalysis)
  {
    if (!fileExists && !createOk) || file.None? {
      return Dict(DefaultChannels), Dict(DefaultTrack), Dict(DefaultAnalysis);
    }
    var f := file.value;
    channels := Overlay(Dict(DefaultChannels), Section(f, ChannelsSection, DefaultChannels), true);
    track := Overlay(Dict(DefaultTrack), Section(f, TrackSection, DefaultTrack), false);
    analysis := Overlay(Dict(DefaultAnalysis), Section(f, AnalysisSection, DefaultAnalysis), false);
  }

  /** A channel entry of the file overrides the mapping under its lower-cased
      name when no later entry names the same channel. */
  lemma FileOverridesChannel(file: IniFile, i: nat)
    requires var es := FileEntries(file, ChannelsSection);
      i < |es| && forall j | i < j < |es| :: Lower(es[j].0) != Lower(es[i].0)
    ensures var es := FileEntries(file, ChannelsSection);
      var channels := Dict(DefaultChannels) + Section(file, ChannelsSection, DefaultChannels);
      Lower(es[i].0) in channels && channels[Lower(es[i].0)] == es[i].1
  {
    var es := FileEntries(file, ChannelsSection);
    assert forall j | i < j < |es| :: Key(es[j], true) != Key(es[i], true);
    AssignLastWins(Assign(map[], DefaultChannels, true), es, true, i);
  }

  /** A built-in channel that no entry of the file names keeps its default. */
  lemma DefaultChannelKept(file: IniFile, k: string)
    requires var es := FileEntries(file, ChannelsSection);
      forall j | 0 <= j < |es| :: Lower(es[j].0) != k
    requires k in Dict(DefaultChannels)
    ensures var channels := Dict(DefaultChannels) + Section(file, ChannelsSection, DefaultChannels);
      k in channels && channels[k] == Dict(DefaultChannels)[k]
  {
    var es := FileEntries(file, ChannelsSection);
    assert forall j | 0 <= j < |es| :: Key(es[j], true) != k;
    AssignUntouched(Assign(map[], DefaultChannels, true), es, true, k);
    DefaultChannelsLowerCase();
    AssignLowerCaseKeys(map[], DefaultChannels);
  }

  // ---------------------------------------------------------------------------
  // The fallback's key spelling

  /** The option name under which the lap detector reads the start/finish latitude. */
  const StartFinishLatKey := "startfinishlat"

  lemma StartFinishLatLowered()
    ensures Lower(DefaultTrack[0].0) == StartFinishLatKey
  {
    var l := Lower(DefaultTrack[0].0);
    assert |l| == |StartFinishLatKey|;
    forall j | 0 <= j < |l| ensures l[j] == StartFinishLatKey[j] {
    }
  }

  /** As written, a file that was read always yields track settings with the
      lower-cased start/finish latitude (the parser stores the built-in option
      under that name), but the fallback for a file that cannot be created or
      fails to parse returns the built-in dictionary, which has only the mixed-case name. */
  lemma FallbackLosesStartFinishKey(file: IniFile)
    ensures StartFinishLatKey !in Dict(DefaultTrack)
    ensures StartFinishLatKey in Dict(DefaultTrack) + Section(file, TrackSection, DefaultTrack)
  {
    TrackDefaultsParsed();
    AssignUntouchedOrNamed(Assign(map[], DefaultTrack, true), FileEntries(file, TrackSection), StartFinishLatKey);
    assert DefaultTrack[0].0[0] != StartFinishLatKey[0] && DefaultTrack[1].0[0] != StartFinishLatKey[0];
    AssignUntouched(map[], DefaultTrack, false, StartFinishLatKey);
  }

  /** The parser holds the built-in start/finish latitude under its lower-cased
      name. */
  lemma TrackDefaultsParsed()
    ensures var parsed := Assign(map[], DefaultTrack, true);
      StartFinishLatKey in parsed && parsed[StartFinishLatKey] == "-25.45000"
  {
    StartFinishLatLowered();
    assert Lower(DefaultTrack[1].0)[12] != Lower(DefaultTrack[0].0)[12];
    AssignLastWins(map[], DefaultTrack, true, 0);
  }

  /** Lower-cased assignment never drops a key. */
  lemma {:induction false} AssignUntouchedOrNamed(m: map<string, string>, entries: Entries, k: string)
    requires k in m
    ensures k in Assign(m, entries, true)
  {
    if entries != [] {
      AssignUntouchedOrNamed(m, entries[..|entries| - 1], k);
    }
  }

  /** The fallback as evidently intended: the built-in dictionary overlaid with
      what the parser would hold for a file without the section, so that both
      paths use the same option names. */
  function CorrectedFallback(defaults: Entries): (r: map<string, string>)
    ensures forall i | 0 <= i < |defaults| :: Lower(defaults[i].0) in r
  {
    AssignKeepsLowerKeys(map[], defaults);
    forall i | 0 <= i < |defaults| ensures Lower(defaults[i].0) in Assign(map[], defaults, true) {
      AssignNamesKey(map[], defaults, i);
    }
    Dict(defaults) + Assign(map[], defaults, true)
  }

  /** Every entry's lower-cased name is a key after assignment. */
  lemma {:induction false} AssignNamesKey(m: map<string, string>, entries: Entries, i: nat)
    requires i < |entries|
    ensures Lower(entries[i].0) in Assign(m, entries, true)
  {
    var n := |entries| - 1;
    if i < n {
      AssignNamesKey(m, entries[..n], i);
      assert entries[..n][i] == entries[i];
    }
  }

  /** The corrected fallback is what a file lacking the section yields, and it
      keeps the built-in start/finish latitude under the name the lap detector
      reads. */
  lemma CorrectedFallbackMatchesFile(file: IniFile)
    requires TrackSection !in file
    ensures CorrectedFallback(DefaultTrack) == Dict(DefaultTrack) + Section(file, TrackSection, DefaultTrack)
    ensures StartFinishLatKey in CorrectedFallback(DefaultTrack)
    ensures CorrectedFallback(DefaultTrack)[StartFinishLatKey] == "-25.45000"
  {
    assert FileEntries(file, TrackSection) == [];
    TrackDefaultsParsed();
  }
}
