/**
 * config/settings.py: `TalkSmithConfig`, an INI-backed settings store whose
 * getters consult a `TALKSMITH_<SECTION>_<KEY>` environment variable before
 * the file, and the process-wide `get_config` singleton.
 *
 * The environment is a `map<string, string>` parameter; the disk is a map from
 * each existing settings file's path to its parsed sections.
 */
module Settings {
  import opened Base
  import opened Strings
  import Paths

  /** One INI section: option name (folded to lower case) to raw value. */
  type Section = map<string, string>
  type Sections = map<string, Section>
  type Env = map<string, string>

  // ---------------------------------------------------------------------
  // get / set on the parsed sections
  // ---------------------------------------------------------------------

  /** configparser's `optionxform`: option names are case-insensitive. */
  function OptionKey(key: string): string { Lower(key) }

  /** The overriding variable for `section`/`key`. */
  function EnvKey(section: string, key: string): (k: string)
    ensures StartsWith(k, "TALKSMITH_")
  {
    "TALKSMITH_" + Upper(section) + "_" + Upper(key)
  }

  /**
   * `get(section, key, fallback)`: the environment variable whenever it is
   * set (even to ""), else the stored option, else the fallback.
   */
  function Lookup(secs: Sections, env: Env, section: string, key: string, fallback: Option<string>): (r: Option<string>)
    ensures EnvKey(section, key) in env ==> r == Some(env[EnvKey(section, key)])
    ensures EnvKey(section, key) !in env && section in secs && OptionKey(key) in secs[section] ==>
      r == Some(secs[section][OptionKey(key)])
    ensures EnvKey(section, key) !in env && !(section in secs && OptionKey(key) in secs[section]) ==>
      r == fallback
  {
    var e := EnvKey(section, key);
    if e in env then Some(env[e])
    else if section in secs && OptionKey(key) in secs[section] then Some(secs[section][OptionKey(key)])
    else fallback
  }

  /** `set(section, key, value)`: adds the section when missing, then stores the option. */
  function Assign(secs: Sections, section: string, key: string, value: string): (r: Sections)
    ensures r.Keys == secs.Keys + {section}
    ensures forall s :: s in secs && s != section ==> r[s] == secs[s]
  {
    var old_ := if section in secs then secs[section] else map[];
    secs[section := old_[OptionKey(key) := value]]
  }

  /** After `set`, `get` of the same option returns the value, unless the environment overrides it. */
  lemma GetAfterSet(secs: Sections, env: Env, section: string, key: string, value: string, fallback: Option<string>)
    requires EnvKey(section, key) !in env
    ensures Lookup(Assign(secs, section, key, value), env, section, key, fallback) == Some(value)
  {
    var r := Assign(secs, section, key, value);
    assert section in r && OptionKey(key) in r[section];
  }

  /** `set` changes no other option of any section, nor what `get` reports for it. */
  lemma SetKeepsOthers(secs: Sections, env: Env, section: string, key: string, value: string,
                       s2: string, k2: string, fallback: Option<string>)
    requires s2 != section || OptionKey(k2) != OptionKey(key)
    ensures Lookup(Assign(secs, section, key, value), env, s2, k2, fallback) == Lookup(secs, env, s2, k2, fallback)
  {
    var r := Assign(secs, section, key, value);
    if s2 == section {
      assert s2 in r;
      assert (OptionKey(k2) in r[s2]) <==> (s2 in secs && OptionKey(k2) in secs[s2]);
    }
  }

  /** Option names differing only in case name the same option. */
  lemma GetIgnoresKeyCase(secs: Sections, env: Env, section: string, key: string, fallback: Option<string>)
    requires EnvKey(section, key) !in env && EnvKey(section, Upper(key)) !in env
    ensures Lookup(secs, env, section, Upper(key), fallback) == Lookup(secs, env, section, key, fallback)
  {
    LowerUpper(key);
  }

  lemma LowerUpper(s: string)
    ensures Lower(Upper(s)) == Lower(s)
  {
    assert forall i :: 0 <= i < |s| ==> Lower(Upper(s))[i] == LowerChar(UpperChar(s[i]));
  }

  // ---------------------------------------------------------------------
  // Typed getters
  // ---------------------------------------------------------------------

  /** `get_int`: the fallback when the value is missing or not an `int(...)` literal. */
  function AsInt(v: Option<string>, fallback: int): (r: int)
    ensures v.None? ==> r == fallback
    ensures v.Some? && ParseInt(v.value).None? ==> r == fallback
    ensures v.Some? && ParseInt(v.value).Some? ==> r == ParseInt(v.value).value
  {
    match v
    case None => fallback
    case Some(s) => ParseInt(s).GetOr(fallback)
  }

  /** A stored `str(n)` reads back as `n`, whatever the fallback. */
  lemma AsIntOfIntToString(n: int, fallback: int)
    ensures AsInt(Some(IntToString(n)), fallback) == n
  {
    ParseIntOfIntToString(n);
  }

  /** A decimal such as "42.7" is not an integer literal, so the fallback is returned. */
  lemma AsIntRejectsDecimal(fallback: int)
    ensures AsInt(Some("42.7"), fallback) == fallback
  {
    var s := "42.7";
    StripNoEdgeSpace(s);
    assert s[2] == '.' && !IsDigit(s[2]);
    assert !ValidDigitGroups(s);
  }

  /** The spellings `get_bool` accepts as true, compared after `lower()`. */
  predicate Truthy(s: string) {
    s == "true" || s == "yes" || s == "1" || s == "on"
  }

  /** `get_bool`: the fallback when missing; otherwise whether the lower-cased value is a true spelling. */
  function AsBool(v: Option<string>, fallback: bool): (r: bool)
    ensures v.None? ==> r == fallback
    ensures v.Some? ==> (r <==> Truthy(Lower(v.value)))
  {
    match v
    case None => fallback
    case Some(s) => Truthy(Lower(s))
  }

  /** `get_bool` ignores case: an upper-cased value reads the same. */
  lemma AsBoolIgnoresCase(s: string, fallback: bool)
    ensures AsBool(Some(Upper(s)), fallback) == AsBool(Some(s), fallback)
  {
    LowerUpper(s);
  }

  /** A value set (even the empty string) decides on its own: the fallback no longer matters. */
  lemma AsBoolPresentIgnoresFallback(s: string)
    ensures AsBool(Some(s), true) == AsBool(Some(s), false)
    ensures AsBool(Some(""), true) == false
  {
    assert Lower("") == "";
  }

  /** `[item.strip() for item in parts if item.strip()]`. */
  function CleanItems(parts: seq<string>): (r: seq<string>)
    ensures |r| <= |parts|
    ensures forall i :: 0 <= i < |r| ==> r[i] != [] && !IsSpace(r[i][0]) && !IsSpace(r[i][|r[i]| - 1])
  {
    if parts == [] then []
    else
      var t := Strip(parts[0]);
      StripSpec(parts[0]);
      if t != [] then [t] + CleanItems(parts[1..]) else CleanItems(parts[1..])
  }

  /** Items that are already stripped and non-empty pass through unchanged, in order. */
  lemma {:induction false} CleanItemsOfClean(items: seq<string>)
    requires forall i :: 0 <= i < |items| ==> items[i] != [] && !IsSpace(items[i][0]) && !IsSpace(items[i][|items[i]| - 1])
    ensures CleanItems(items) == items
  {
    if items != [] {
      StripNoEdgeSpace(items[0]);
      CleanItemsOfClean(items[1..]);
      assert items == [items[0]] + items[1..];
    }
  }

  /**
   * `get_list`: a missing value gives the fallback or `[]`; otherwise the
   * non-blank pieces of `value.split(separator)`, stripped, in order. Python
   * raises `ValueError` for an empty separator.
   */
  function AsList(v: Option<string>, separator: string, fallback: Option<seq<string>>): (r: Result<seq<string>>)
    ensures v.None? ==> r == Ok(fallback.GetOr([]))
    ensures v.Some? && separator == [] ==> r.Err?
    ensures v.Some? && separator != [] ==> r == Ok(CleanItems(Split(v.value, separator)))
  {
    match v
    case None => Ok(fallback.GetOr([]))
    case Some(s) =>
      if separator == [] then Err(ValueError("empty separator"))
      else Ok(CleanItems(Split(s, separator)))
  }

  /**
   * Listing stripped, non-empty items free of the separator character and
   * joining them with it is read back by `get_list` as exactly those items.
   */
  lemma AsListOfJoin(items: seq<string>, c: char, fallback: Option<seq<string>>)
    requires forall i :: 0 <= i < |items| ==> items[i] != [] && !IsSpace(items[i][0]) && !IsSpace(items[i][|items[i]| - 1])
    requires forall i :: 0 <= i < |items| ==> c !in items[i]
    ensures AsList(Some(Join([c], items)), [c], fallback) == Ok(items)
  {
    if items == [] {
      assert Split("", [c]) == [""];
      assert Strip("") == "";
    } else {
      SplitJoin(items, c);
      CleanItemsOfClean(items);
    }
  }

  // ---------------------------------------------------------------------
  // Defaults and the configuration file search
  // ---------------------------------------------------------------------

  /** `_load_defaults`: the sections written when no settings file is found. */
  function Defaults(): (d: Sections)
    ensures d.Keys == {"Paths", "Models", "Diarization", "Export", "Processing", "Logging"}
  {
    map[
      "Paths" := map[
        "input_dir" := "data/inputs",
        "output_dir" := "data/outputs",
        "samples_dir" := "data/samples",
        "cache_dir" := ".cache"],
      "Models" := map[
        "whisper_model" := "large-v3",
        "whisper_device" := "auto",
        "compute_type" := "float16",
        "diarization_model" := "pyannote/speaker-diarization-3.1",
        "batch_size" := "16",
        "num_workers" := "4"],
      "Diarization" := map[
        "mode" := "whisperx",
        "vad_threshold" := "0.5",
        "min_speakers" := "1",
        "max_speakers" := "10",
        "min_segment_length" := "0.5"],
      "Export" := map[
        "formats" := "txt,json,srt",
        "include_timestamps" := "true",
        "include_confidence" := "true",
        "word_level" := "false"],
      "Processing" := map[
        "denoise" := "false",
        "normalize_audio" := "true",
        "trim_silence" := "false",
        "sample_rate" := "16000"],
      "Logging" := map[
        "level" := "INFO",
        "format" := "json",
        "log_dir" := "data/outputs/{slug}/logs",
        "console_output" := "true"]
    ]
  }

  /** The standard locations, in search order: ./settings.ini, ./config/settings.ini, ~/.talksmith/settings.ini. */
  function Candidates(cwd: string, home: string): (c: seq<string>)
    ensures |c| == 3
  {
    [ Paths.JoinPath(cwd, "settings.ini"),
      Paths.JoinPath(Paths.JoinPath(cwd, "config"), "settings.ini"),
      Paths.JoinPath(Paths.JoinPath(home, ".talksmith"), "settings.ini") ]
  }

  /** Index of the first candidate that exists, or `|cands|` when none does. */
  function FirstExisting(cands: seq<string>, existing: set<string>): (k: nat)
    ensures k <= |cands|
    ensures forall j :: 0 <= j < k ==> cands[j] !in existing
    ensures k < |cands| ==> cands[k] in existing
  {
    if cands == [] then 0
    else if cands[0] in existing then 0
    else 1 + FirstExisting(cands[1..], existing)
  }

  /** `_find_config_file`: an explicit non-empty path, then TALKSMITH_CONFIG, then the first existing candidate, then ./config/settings.ini. */
  function FindConfigFile(configPath: Option<string>, env: Env, cwd: string, home: string, existing: set<string>): string
  {
    if configPath.Some? && configPath.value != "" then configPath.value
    else if "TALKSMITH_CONFIG" in env then env["TALKSMITH_CONFIG"]
    else
      var cands := Candidates(cwd, home);
      var k := FirstExisting(cands, existing);
      if k < |cands| then cands[k] else cands[1]
  }

  /** The priority order of `_find_config_file`, case by case. */
  lemma FindConfigFilePriority(configPath: Option<string>, env: Env, cwd: string, home: string, existing: set<string>)
    ensures var r := FindConfigFile(configPath, env, cwd, home, existing);
      var cands := Candidates(cwd, home);
      && (configPath.Some? && configPath.value != "" ==> r == configPath.value)
      && (!(configPath.Some? && configPath.value != "") && "TALKSMITH_CONFIG" in env ==> r == env["TALKSMITH_CONFIG"])
      && (!(configPath.Some? && configPath.value != "") && "TALKSMITH_CONFIG" !in env ==>
            (exists k :: 0 <= k < 3 && r == cands[k] && cands[k] in existing && forall j :: 0 <= j < k ==> cands[j] !in existing)
            || (r == cands[1] && forall j :: 0 <= j < 3 ==> cands[j] !in existing))
  {
    var cands := Candidates(cwd, home);
    var k := FirstExisting(cands, existing);
    if k < 3 {
      assert cands[k] in existing;
    }
  }

  /** `__init__`: read the chosen file when the path is non-empty and exists, otherwise load the defaults. */
  function LoadedSections(path: string, files: map<string, Sections>): Sections
  {
    if path != "" && path in files then files[path] else Defaults()
  }

  /** An explicit path to an existing file is read, whatever the environment says. */
  lemma ExplicitFileIsRead(p: string, env: Env, cwd: string, home: string, files: map<string, Sections>)
    requires p != "" && p in files
    ensures LoadedSections(FindConfigFile(Some(p), env, cwd, home, files.Keys), files) == files[p]
  {
  }

  /** Without a path, a TALKSMITH_CONFIG setting or any file in the standard locations, the defaults are loaded. */
  lemma NoFileGivesDefaults(configPath: Option<string>, env: Env, cwd: string, home: string, files: map<string, Sections>)
    requires configPath.None? || configPath.value == ""
    requires "TALKSMITH_CONFIG" !in env
    requires forall c :: c in Candidates(cwd, home) ==> c !in files
    ensures LoadedSections(FindConfigFile(configPath, env, cwd, home, files.Keys), files) == Defaults()
  {
    var cands := Candidates(cwd, home);
    assert cands[1] in cands;
  }

  /** Without an override, the defaults give `get_int("Models", "batch_size") == 16`. */
  lemma DefaultBatchSize(env: Env)
    requires EnvKey("Models", "batch_size") !in env
    ensures AsInt(Lookup(Defaults(), env, "Models", "batch_size", None), 0) == 16
  {
    DefaultEntries();
    assert IntToString(16) == "16" by {
      assert NatToString(16) == NatToString(1) + [DigitChar(6)];
    }
    AsIntOfIntToString(16, 0);
  }

  /** Without an override, the defaults give `get_list("Export", "formats") == ["txt", "json", "srt"]`. */
  lemma DefaultFormats(env: Env)
    requires EnvKey("Export", "formats") !in env
    ensures AsList(Lookup(Defaults(), env, "Export", "formats", None), ",", None) == Ok(["txt", "json", "srt"])
  {
    DefaultEntries();
    FormatsList();
  }

  lemma FormatsList()
    ensures AsList(Some("txt,json,srt"), ",", None) == Ok(["txt", "json", "srt"])
  {
    var items := ["txt", "json", "srt"];
    assert Join(",", items) == "txt,json,srt" by {
      assert Join(",", items[2..]) == "srt";
      assert Join(",", items[1..]) == "json,srt";
    }
    AsListOfJoin(items, ',', None);
  }

  /** The two default entries used above, under option names already in lower case. */
  lemma DefaultEntries()
    ensures OptionKey("batch_size") == "batch_size" && Defaults()["Models"]["batch_size"] == "16"
    ensures OptionKey("formats") == "formats" && Defaults()["Export"]["formats"] == "txt,json,srt"
  {
    assert Lower("batch_size") == "batch_size";
    assert Lower("formats") == "formats";
  }

  // ---------------------------------------------------------------------
  // The configuration object and the singleton
  // ---------------------------------------------------------------------

  class TalkSmithConfig {
    /** The parser's sections. */
    var sections: Sections
    /** The path `_find_config_file` chose. */
    var configPath: string

    constructor (path: Option<string>, env: Env, cwd: string, home: string, files: map<string, Sections>)
      ensures configPath == FindConfigFile(path, env, cwd, home, files.Keys)
      ensures sections == LoadedSections(configPath, files)
    {
      configPath := FindConfigFile(path, env, cwd, home, files.Keys);
      sections := LoadedSections(FindConfigFile(path, env, cwd, home, files.Keys), files);
    }

    function Get(section: string, key: string, fallback: Option<string>, env: Env): (r: Option<string>)
      reads this
      ensures r == Lookup(sections, env, section, key, fallback)
    {
      Lookup(sections, env, section, key, fallback)
    }

    function GetInt(section: string, key: string, fallback: int, env: Env): (r: int)
      reads this
      ensures r == AsInt(Lookup(sections, env, section, key, None), fallback)
    {
      AsInt(Get(section, key, None, env), fallback)
    }

    function GetBool(section: string, key: string, fallback: bool, env: Env): (r: bool)
      reads this
      ensures r == AsBool(Lookup(sections, env, section, key, None), fallback)
    {
      AsBool(Get(section, key, None, env), fallback)
    }

    function GetList(section: string, key: string, separator: string, fallback: Option<seq<string>>, env: Env): (r: Result<seq<string>>)
      reads this
      ensures r == AsList(Lookup(sections, env, section, key, None), separator, fallback)
    {
      AsList(Get(section, key, None, env), separator, fallback)
    }

    method Set(section: string, key: string, value: string)
      modifies this
      ensures sections == Assign(old(sections), section, key, value)
      ensures configPath == old(configPath)
    {
      var current := if section in sections then sections[section] else map[];
      sections := sections[section := current[OptionKey(key) := value]];
    }
  }

  /** The module-level `_config` slot behind `get_config`. */
  class ConfigRegistry {
    var current: TalkSmithConfig?

    constructor ()
      ensures current == null
    {
      current := null;
    }

    /** Builds a configuration only when none exists or `reload` is set; otherwise `path` is ignored. */
    method GetConfig(path: Option<string>, reload: bool, env: Env, cwd: string, home: string, files: map<string, Sections>)
      returns (c: TalkSmithConfig)
      modifies this
      ensures old(current) != null && !reload ==> c == old(current)
      ensures old(current) == null || reload ==>
        fresh(c) && c.configPath == FindConfigFile(path, env, cwd, home, files.Keys)
        && c.sections == LoadedSections(c.configPath, files)
      ensures current == c
    {
      if current == null || reload {
        current := new TalkSmithConfig(path, env, cwd, home, files);
      }
      c := current;
    }
  }
}
