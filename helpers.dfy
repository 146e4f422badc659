/** The helper functions of `utils/helpers.py`: the free-port scan, port
    release, time and platform formatting, the required-field schema check
    of the configuration, the parsing of device-property listings and the
    Appium health probe. Sockets, subprocesses and HTTP are parameters:
    each is the answer the outside world gave. */
module Helpers {
  import opened Wrappers
  import opened Text
  import opened Json

  /* ---------------------------------------------------------------- ports */

  /** A port the scan accepts: not excluded, nobody listening on it, and a
      bind to it succeeds. */
  predicate Eligible(p: int, exclude: seq<int>, inUse: int -> bool, canBind: int -> bool) {
    p !in exclude && !inUse(p) && canBind(p)
  }

  /** `get_free_port`: scans `start..end` upwards and returns the first
      eligible port, or `None` when there is none. */
  method GetFreePort(start: int, end: int, exclude: seq<int>, inUse: int -> bool, canBind: int -> bool)
    returns (r: Option<int>)
    ensures r.Some? ==> start <= r.value <= end && Eligible(r.value, exclude, inUse, canBind)
    ensures r.Some? ==> forall p :: start <= p < r.value ==> !Eligible(p, exclude, inUse, canBind)
    ensures r.None? ==> forall p :: start <= p <= end ==> !Eligible(p, exclude, inUse, canBind)
  {
    var port := start;
    while port <= end
      invariant start <= port
      invariant forall p :: start <= p < port ==> !Eligible(p, exclude, inUse, canBind)
    {
      if port in exclude {
        port := port + 1;
        continue;
      }
      if inUse(port) {
        port := port + 1;
        continue;
      }
      if !canBind(port) {
        // the bind raised OSError
        port := port + 1;
        continue;
      }
      return Some(port);
    }
    return None;
  }

  /** What one attempt of `kill_process_by_port` observes. */
  datatype KillAttempt =
      /** a process was found on the port and the kill command succeeded */
    | Killed
      /** no process was found, or its kill failed; then the port is checked */
    | NotKilled(portFree: bool)
      /** a command raised outside the inner handlers: no port check */
    | Raised

  predicate Releases(a: KillAttempt) {
    a.Killed? || (a.NotKilled? && a.portFree)
  }

  /** `kill_process_by_port`: at most `maxRetries` attempts, stopping at the
      first that kills the process or finds the port free; a one-second
      sleep follows every failed attempt but the last. */
  method KillProcessByPort(maxRetries: int, attempt: nat -> KillAttempt)
    returns (ok: bool, attempts: nat, sleeps: nat)
    ensures ok <==> exists i :: 0 <= i < maxRetries && Releases(attempt(i))
    ensures ok ==> 1 <= attempts <= maxRetries && Releases(attempt(attempts - 1))
    ensures forall i :: 0 <= i < attempts - 1 ==> !Releases(attempt(i))
    ensures !ok ==> attempts == (if maxRetries < 0 then 0 else maxRetries)
    ensures sleeps == (if ok then attempts - 1 else if maxRetries <= 0 then 0 else maxRetries - 1)
  {
    attempts, sleeps := 0, 0;
    while attempts < maxRetries
      invariant attempts <= (if maxRetries < 0 then 0 else maxRetries)
      invariant forall i :: 0 <= i < attempts ==> !Releases(attempt(i))
      invariant sleeps == if attempts == 0 then 0 else attempts - 1 + (if attempts < maxRetries then 1 else 0)
    {
      var a := attempt(attempts);
      attempts := attempts + 1;
      if Releases(a) {
        sleeps := attempts - 1;
        return true, attempts, sleeps;
      }
      if attempts - 1 < maxRetries - 1 {
        sleeps := attempts;
      }
    }
    ok := false;
  }

  /* ----------------------------------------------------------- formatting */

  /** `format_time`: `HH:MM:SS` from one hour on, `MM:SS` below. */
  function FormatTime(seconds: nat): string {
    Join(TimeFields(seconds), ":")
  }

  /** The zero-padded hours (from one hour on), minutes and seconds. */
  function TimeFields(seconds: nat): seq<string> {
    var hours := seconds / 3600;
    var minutes := (seconds % 3600) / 60;
    var secs := seconds % 60;
    if hours > 0 then [Pad2(hours), Pad2(minutes), Pad2(secs)] else [Pad2(minutes), Pad2(secs)]
  }

  /** Splitting the formatted time at ':' gives its fields back. */
  lemma SplitFormatTime(seconds: nat)
    ensures Split(FormatTime(seconds), ':') == TimeFields(seconds)
    ensures forall i :: 0 <= i < |TimeFields(seconds)| ==> IsNumeral(TimeFields(seconds)[i]) && |TimeFields(seconds)[i]| >= 2
  {
    var fields := TimeFields(seconds);
    forall i | 0 <= i < |fields|
      ensures ':' !in fields[i] && IsNumeral(fields[i]) && |fields[i]| >= 2
    {
      DigitsHaveNoColon(fields[i]);
    }
    SplitJoin(fields, ':');
  }

  predicate IsNumeral(s: string) {
    forall i :: 0 <= i < |s| ==> IsDigit(s[i])
  }

  lemma DigitsHaveNoColon(s: string)
    requires IsNumeral(s)
    ensures ':' !in s
  {
    assert forall i :: 0 <= i < |s| ==> s[i] != ':';
  }

  /** Reading the fields of `format_time` back gives the number of seconds:
      three fields of hours, minutes and seconds from one hour on, two of
      minutes and seconds below; minutes and seconds stay under 60. */
  lemma FormatTimeReadBack(seconds: nat)
    ensures var parts := Split(FormatTime(seconds), ':');
      && (forall i :: 0 <= i < |parts| ==> IsNumeral(parts[i]) && |parts[i]| >= 2)
      && (seconds >= 3600 ==>
            && |parts| == 3
            && ParseDecimal(parts[0]) * 3600 + ParseDecimal(parts[1]) * 60 + ParseDecimal(parts[2]) == seconds
            && ParseDecimal(parts[1]) < 60 && ParseDecimal(parts[2]) < 60)
      && (seconds < 3600 ==>
            && |parts| == 2
            && ParseDecimal(parts[0]) * 60 + ParseDecimal(parts[1]) == seconds
            && ParseDecimal(parts[1]) < 60)
  {
    var h, m, sec := seconds / 3600, (seconds % 3600) / 60, seconds % 60;
    SplitFormatTime(seconds);
    ParsePad2(h);
    ParsePad2(m);
    ParsePad2(sec);
    ClockArithmetic(seconds);
  }

  /** Hours, minutes and seconds add back up to the whole. */
  lemma ClockArithmetic(seconds: nat)
    ensures var h, m, s := seconds / 3600, (seconds % 3600) / 60, seconds % 60;
      && h * 3600 + m * 60 + s == seconds && m < 60 && s < 60
      && (h > 0 <==> seconds >= 3600)
  {
    var h, r := seconds / 3600, seconds % 3600;
    var m, s := r / 60, r % 60;
    assert seconds == h * 3600 + r;
    assert r == m * 60 + s;
    assert seconds == (h * 60 + m) * 60 + s;
    assert s == seconds % 60;
  }

  /** `get_platform_name`, given `platform.system()`: macOS and Windows
      get their short names, any other system its lower-cased name. */
  function PlatformName(system: string): (r: string)
    ensures r == Lower(r)
    ensures r == "mac" <==> Lower(system) in ["darwin", "mac"]
    ensures r == "win" <==> Lower(system) in ["windows", "win"]
    ensures Lower(system) != "darwin" && Lower(system) != "windows" ==> r == Lower(system)
  {
    var s := Lower(system);
    LowerIdempotent(s);
    if s == "darwin" then "mac"
    else if s == "windows" then "win"
    else if s == "linux" then "linux"
    else s
  }

  /** Platform names are fixed points: naming a name gives it back. */
  lemma PlatformNameIdempotent(system: string)
    ensures PlatformName(PlatformName(system)) == PlatformName(system)
  {
    var r := PlatformName(system);
    LowerIdempotent(r);
  }

  lemma LowerIdempotent(s: string)
    ensures Lower(Lower(s)) == Lower(s)
  {
  }

  /* ------------------------------------------------------ schema checking */

  /** The Python type a leaf of the schema names. */
  datatype Kind = StrKind | IntKind

  /** A schema: a type, or a dict of named sub-schemas in declaration order. */
  datatype Schema = Leaf(kind: Kind) | Node(fields: seq<Field>)
  datatype Field = Field(key: string, schema: Schema)

  /** The two errors of `validate_dict`, with the dotted path of the
      offending key. */
  datatype SchemaError = Missing(path: string) | WrongType(path: string)

  /** `isinstance(v, str)` / `isinstance(v, int)` */
  predicate HasKind(v: Value, k: Kind) {
    match k
    case StrKind => IsStr(v)
    case IntKind => IsInt(v)
  }

  /** The required fields that `validate_config` and
      `Config._validate_config` both check. */
  const RequiredFields: seq<Field> := [
    Field("work_dir", Leaf(StrKind)),
    Field("log_level", Leaf(StrKind)),
    Field("device", Node([
      Field("android_sdk", Leaf(StrKind)),
      Field("ios_cert", Leaf(StrKind)),
      Field("timeout", Leaf(IntKind))])),
    Field("record", Node([
      Field("interval", Leaf(IntKind)),
      Field("mode", Leaf(StrKind)),
      Field("save_dir", Leaf(StrKind))])),
    Field("advanced", Node([
      Field("appium", Node([
        Field("host", Leaf(StrKind)),
        Field("port", Leaf(IntKind))]))]))
  ]

  /** `validate_dict(data, schema, path)`: the first violation in schema
      order, or `None` when the data conforms. */
  function ValidateDict(data: Object, fields: seq<Field>, path: string): (r: Option<SchemaError>)
    decreases fields
  {
    if fields == [] then None
    else
      var f := fields[0];
      match Lookup(data, f.key)
      case None => Some(Missing(path + f.key))
      case Some(v) =>
        var here := match f.schema
          case Leaf(k) => if HasKind(v, k) then None else Some(WrongType(path + f.key))
          case Node(sub) =>
            if !v.Dict? then Some(WrongType(path + f.key))
            else ValidateDict(v.entries, sub, path + f.key + ".");
        if here.Some? then here else ValidateDict(data, fields[1..], path)
  }

  /** The data has every field of the schema, each of the right type, with
      nested schemas matched by nested dicts. */
  predicate Conforms(data: Object, fields: seq<Field>)
    decreases fields
  {
    forall i :: 0 <= i < |fields| ==> FieldConforms(data, fields[i])
  }

  predicate FieldConforms(data: Object, f: Field)
    decreases f
  {
    && HasKey(data, f.key)
    && match f.schema
       case Leaf(k) => HasKind(Lookup(data, f.key).value, k)
       case Node(sub) =>
         && Lookup(data, f.key).value.Dict?
         && Conforms(Lookup(data, f.key).value.entries, sub)
  }

  /** `validate_dict` succeeds exactly on conforming data. */
  lemma {:induction false} ValidateDictIff(data: Object, fields: seq<Field>, path: string)
    ensures ValidateDict(data, fields, path).None? <==> Conforms(data, fields)
    decreases fields
  {
    if fields != [] {
      var f := fields[0];
      assert forall i :: 1 <= i < |fields| ==> fields[1..][i - 1] == fields[i];
      ValidateDictIff(data, fields[1..], path);
      if HasKey(data, f.key) {
        var v := Lookup(data, f.key).value;
        if f.schema.Node? && v.Dict? {
          ValidateDictIff(v.entries, f.schema.fields, path + f.key + ".");
        }
      }
      assert Conforms(data, fields) <==> FieldConforms(data, f) && Conforms(data, fields[1..]);
    }
  }

  /** Every reported path extends the path the check started from. */
  lemma {:induction false} ValidateDictPath(data: Object, fields: seq<Field>, path: string)
    ensures var r := ValidateDict(data, fields, path);
      r.Some? ==> StartsWith(r.value.path, path)
    decreases fields
  {
    if fields != [] {
      var f := fields[0];
      ValidateDictPath(data, fields[1..], path);
      assert (path + f.key)[..|path|] == path;
      if HasKey(data, f.key) {
        var v := Lookup(data, f.key).value;
        if f.schema.Node? && v.Dict? {
          var p2 := path + f.key + ".";
          ValidateDictPath(v.entries, f.schema.fields, p2);
          var r := ValidateDict(v.entries, f.schema.fields, p2);
          if r.Some? {
            assert p2[..|path|] == path;
            assert r.value.path[..|p2|] == p2;
            assert r.value.path[..|path|] == p2[..|path|];
          }
        }
      }
    }
  }

  /** `validate_config`: checks the required fields from the top. */
  function ValidateConfig(config: Object): (r: Option<SchemaError>)
    ensures r.None? <==> Conforms(config, RequiredFields)
  {
    ValidateDictIff(config, RequiredFields, "");
    ValidateDict(config, RequiredFields, "")
  }

  /** What a configuration that passed the check is known to hold. */
  lemma ConformingConfig(config: Object)
    requires Conforms(config, RequiredFields)
    ensures HasKey(config, "work_dir") && Lookup(config, "work_dir").value.Str?
    ensures HasKey(config, "log_level") && Lookup(config, "log_level").value.Str?
    ensures HasKey(config, "device") && Lookup(config, "device").value.Dict?
    ensures var d := Lookup(config, "device").value.entries;
      HasKey(d, "android_sdk") && Lookup(d, "android_sdk").value.Str?
    ensures HasKey(config, "record") && Lookup(config, "record").value.Dict?
    ensures var rec := Lookup(config, "record").value.entries;
      HasKey(rec, "save_dir") && Lookup(rec, "save_dir").value.Str?
  {
    assert RequiredFields[0].key == "work_dir";
    assert RequiredFields[1].key == "log_level";
    var dev := RequiredFields[2];
    assert dev.schema.fields[0].key == "android_sdk";
    var rec := RequiredFields[3];
    assert rec.schema.fields[2].key == "save_dir";
  }

  /* -------------------------------------------------- property listings */

  /** The key and value that one `key: value` line defines, if it has a ':'. */
  function LineEntry(line: string, clean: string -> string): Option<(string, string)> {
    match SplitFirst(line, ':')
    case None => None
    case Some(kv) => Some((clean(kv.0), clean(kv.1)))
  }

  /** The dict built from a property listing: every line with a ':' is
      split at the first ':', key and value are cleaned, and a later line
      overrides an earlier one with the same key. */
  function ParseProps(lines: seq<string>, clean: string -> string): map<string, string> {
    if lines == [] then map[]
    else
      var before := ParseProps(lines[..|lines| - 1], clean);
      match LineEntry(lines[|lines| - 1], clean)
      case None => before
      case Some(kv) => before[kv.0 := kv.1]
  }

  predicate Defines(line: string, clean: string -> string, k: string) {
    LineEntry(line, clean).Some? && LineEntry(line, clean).value.0 == k
  }

  /** A key is in the parsed dict iff some line defines it, and its value
      is the one from the last line that does. */
  lemma ParsePropsLastWins(lines: seq<string>, clean: string -> string, k: string)
    ensures k in ParseProps(lines, clean) <==> exists i :: 0 <= i < |lines| && Defines(lines[i], clean, k)
    ensures k in ParseProps(lines, clean) ==>
      exists i :: 0 <= i < |lines| && Defines(lines[i], clean, k)
        && ParseProps(lines, clean)[k] == LineEntry(lines[i], clean).value.1
        && forall j :: i < j < |lines| ==> !Defines(lines[j], clean, k)
  {
    ParsePropsHas(lines, clean, k);
    if k in ParseProps(lines, clean) {
      var i := ParsePropsLast(lines, clean, k);
    }
  }

  lemma {:induction false} ParsePropsHas(lines: seq<string>, clean: string -> string, k: string)
    ensures k in ParseProps(lines, clean) <==> exists i :: 0 <= i < |lines| && Defines(lines[i], clean, k)
  {
    if lines != [] {
      var n := |lines| - 1;
      var init := lines[..n];
      ParsePropsHas(init, clean, k);
      ParsePropsStep(lines, clean, k);
      if exists i :: 0 <= i < n && Defines(init[i], clean, k) {
        var i :| 0 <= i < n && Defines(init[i], clean, k);
        assert init[i] == lines[i];
      }
      if exists i :: 0 <= i < |lines| && Defines(lines[i], clean, k) {
        var i :| 0 <= i < |lines| && Defines(lines[i], clean, k);
        if i < n {
          assert init[i] == lines[i];
        }
      }
    }
  }

  /** The last line adds its key to those of the lines before it. */
  lemma ParsePropsStep(lines: seq<string>, clean: string -> string, k: string)
    requires lines != []
    ensures k in ParseProps(lines, clean) <==>
      k in ParseProps(lines[..|lines| - 1], clean) || Defines(lines[|lines| - 1], clean, k)
  {
  }

  /** The line whose value a key present in the parsed dict holds. */
  lemma {:induction false} ParsePropsLast(lines: seq<string>, clean: string -> string, k: string) returns (i: int)
    requires k in ParseProps(lines, clean)
    ensures 0 <= i < |lines| && Defines(lines[i], clean, k)
    ensures ParseProps(lines, clean)[k] == LineEntry(lines[i], clean).value.1
    ensures forall j :: i < j < |lines| ==> !Defines(lines[j], clean, k)
  {
    var n := |lines| - 1;
    var init := lines[..n];
    if Defines(lines[n], clean, k) {
      i := n;
    } else {
      i := ParsePropsLast(init, clean, k);
      assert init[i] == lines[i];
      forall j | i < j < |lines| ensures !Defines(lines[j], clean, k) {
        if j < n {
          assert init[j] == lines[j];
        }
      }
    }
  }

  /** The `'Unknown'` default of the property lookups. */
  function PropOr(props: map<string, string>, k: string): string {
    if k in props then props[k] else "Unknown"
  }

  /** `strip('[] ')` of the getprop listing. */
  function StripBrackets(s: string): string {
    StripChars(s, "[] ")
  }

  /** The getprop listing of an Android device, as a dict. */
  function ParseGetprop(output: string): map<string, string> {
    ParseProps(Split(output, '\n'), StripBrackets)
  }

  /** The `ideviceinfo` / `tidevice info` listing of an iOS device. */
  function ParseDeviceInfo(output: string): map<string, string> {
    ParseProps(Split(output, '\n'), Strip)
  }

  /** Why `get_device_info` failed; every failure is re-raised as an
      EnvironmentError around its cause. */
  datatype InfoFailure = CommandFailed | UnsupportedPlatform(platform: string)
  datatype EnvironmentError = EnvironmentError(cause: InfoFailure)

  /** The dict `get_device_info` returns; its `platform` key is the
      constructor. */
  datatype DeviceInfo =
    | AndroidInfo(id: string, model: string, brand: string, version: string, sdk: string)
    | IosInfo(id: string, model: string, name: string, version: string)

  /** `get_device_info`: `output` is the listing the device command printed,
      or `None` when the command failed. */
  function GetDeviceInfo(deviceId: string, platform: string, output: Option<string>): (r: Result<DeviceInfo, EnvironmentError>)
    ensures r.Ok? <==> (platform == "android" || platform == "ios") && output.Some?
    ensures platform != "android" && platform != "ios" ==> r == Err(EnvironmentError(UnsupportedPlatform(platform)))
    ensures r.Ok? ==> r.value.id == deviceId && (r.value.AndroidInfo? <==> platform == "android")
    ensures r.Ok? && platform == "android" ==>
      var props := ParseGetprop(output.value);
      && r.value.model == PropOr(props, "ro.product.model")
      && r.value.brand == PropOr(props, "ro.product.brand")
      && r.value.version == PropOr(props, "ro.build.version.release")
      && r.value.sdk == PropOr(props, "ro.build.version.sdk")
    ensures r.Ok? && platform == "ios" ==>
      var props := ParseDeviceInfo(output.value);
      && r.value.model == PropOr(props, "ProductType")
      && r.value.name == PropOr(props, "DeviceName")
      && r.value.version == PropOr(props, "ProductVersion")
  {
    if platform == "android" then
      if output.None? then Err(EnvironmentError(CommandFailed))
      else
        var props := ParseGetprop(output.value);
        Ok(AndroidInfo(deviceId, PropOr(props, "ro.product.model"), PropOr(props, "ro.product.brand"),
                       PropOr(props, "ro.build.version.release"), PropOr(props, "ro.build.version.sdk")))
    else if platform == "ios" then
      if output.None? then Err(EnvironmentError(CommandFailed))
      else
        var props := ParseDeviceInfo(output.value);
        Ok(IosInfo(deviceId, PropOr(props, "ProductType"), PropOr(props, "DeviceName"),
                   PropOr(props, "ProductVersion")))
    else Err(EnvironmentError(UnsupportedPlatform(platform)))
  }

  /* ---------------------------------------------------------- the probe */

  /** The answer to an HTTP `GET /status`: a status code, or an exception
      (refused connection, timeout, anything else). */
  datatype Probe = Responded(status: int) | Failed

  /** `check_appium_service` */
  function CheckAppiumService(probe: Probe): (healthy: bool)
    ensures healthy <==> probe == Responded(200)
  {
    probe.Responded? && probe.status == 200
  }
}
