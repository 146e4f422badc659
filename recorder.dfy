/** The action recorder of `core/recorder.py`: the Appium capabilities
    built from the device and the configuration, the `recording` /
    `actions` / `last_action_time` state of a recording session, and the
    test code generated from the recorded actions. The driver (connecting,
    the current activity or window) and the clock are parameters; times are
    whole milliseconds. */
module Recording {
  import opened Wrappers
  import opened Json
  import Text

  /* ------------------------------------------------------------ capabilities */

  /** `config.get('devices', {}).get(platform, [{}])[0]`: the first device
      entry configured for the platform, with no overrides for a falsy
      entry; `None` where the lookup raises (devices that are not a dict, a
      platform entry that is not a non-empty list, a truthy first entry that
      is not a dict). */
  function DeviceConfig(config: Object, platform: string): (cfg: Option<Object>)
    ensures !HasKey(config, "devices") ==> cfg == Some([])
  {
    var devices := match Lookup(config, "devices") case Some(v) => v case None => Dict([]);
    if !devices.Dict? then None
    else
      var entries := match Lookup(devices.entries, platform) case Some(v) => v case None => List([Dict([])]);
      if !entries.List? || entries.items == [] then None
      else
        var first := entries.items[0];
        if first.Dict? then Some(first.entries)
        else if !Truthy(first) then Some([])
        else None
  }

  /** `if key in cfg: caps[name] = cfg[key]` */
  function Override(caps: Object, cfg: Object, key: string, name: string): (r: Object)
    ensures Lookup(r, name) == if HasKey(cfg, key) then Lookup(cfg, key) else Lookup(caps, name)
    ensures forall k :: k != name ==> Lookup(r, k) == Lookup(caps, k)
  {
    if HasKey(cfg, key) then
      PutOthers(caps, name, Lookup(cfg, key).value);
      Put(caps, name, Lookup(cfg, key).value)
    else caps
  }

  const DefaultPackage := "com.android.settings"
  const DefaultActivity := ".Settings"

  /** The keys of the Android capabilities, each once, where the dict
      display of `_get_android_caps` first writes it. */
  const AndroidKeys: seq<string> := [
    "platformName", "platformVersion", "deviceName", "automationName", "noReset", "autoGrantPermissions",
    "newCommandTimeout", "adbExecTimeout", "uiautomator2ServerInstallTimeout", "androidInstallTimeout",
    "skipServerInstallation", "skipDeviceInitialization", "systemPort", "uiautomator2ServerLaunchTimeout",
    "uiautomator2ServerReadTimeout", "androidDeviceReadyTimeout", "avdLaunchTimeout", "avdReadyTimeout",
    "ignoreUnimportantViews", "disableAndroidWatchers", "skipLogcatCapture", "ensureWebviewsHavePages"]

  /** The values of the Android capabilities, in the order of their keys. */
  function AndroidValues(version: Value, id: Value): (vals: seq<Value>)
    ensures |vals| == |AndroidKeys|
  {
    [ Str("Android"), Str(Render(version)), Str(Render(id)), Str("UiAutomator2"), Bool(true), Bool(true),
      Int(300), Int(60000), Int(60000), Int(90000),
      Bool(false), Bool(false), Int(8201), Int(60000),
      Int(60000), Int(60000), Int(60000), Int(60000),
      Bool(true), Bool(true), Bool(true), Bool(true)]
  }

  /** The fixed Android capabilities. */
  function AndroidBase(version: Value, id: Value): Object {
    Zip(AndroidKeys, AndroidValues(version, id))
  }

  /** The fixed capabilities name the platform, its version and the
      device, */
  lemma AndroidBaseIdentity(version: Value, id: Value)
    ensures var caps := AndroidBase(version, id);
      && Lookup(caps, "platformName") == Some(Str("Android"))
      && Lookup(caps, "platformVersion") == Some(Str(Render(version)))
      && Lookup(caps, "deviceName") == Some(Str(Render(id)))
  {
    var vals := AndroidValues(version, id);
    ZipAt(AndroidKeys, vals, 0);
    ZipAt(AndroidKeys, vals, 1);
    ZipAt(AndroidKeys, vals, 2);
  }

  /** keep the app's data between sessions, */
  lemma AndroidBaseNoReset(version: Value, id: Value)
    ensures Lookup(AndroidBase(version, id), "noReset") == Some(Bool(true))
  {
    ZipAt(AndroidKeys, AndroidValues(version, id), 4);
  }

  /** use system port 8201 */
  lemma AndroidBasePort(version: Value, id: Value)
    ensures Lookup(AndroidBase(version, id), "systemPort") == Some(Int(8201))
  {
    ZipAt(AndroidKeys, AndroidValues(version, id), 12);
  }

  /** and name no app. */
  lemma AndroidBaseNoApp(version: Value, id: Value)
    ensures !HasKey(AndroidBase(version, id), "appPackage") && !HasKey(AndroidBase(version, id), "appActivity")
  {
    NotAndroidKey("appPackage");
    NotAndroidKey("appActivity");
    ZipHasKey(AndroidKeys, AndroidValues(version, id), "appPackage");
    ZipHasKey(AndroidKeys, AndroidValues(version, id), "appActivity");
  }

  /** No fixed key starts with "app". */
  lemma NotAndroidKey(k: string)
    requires |k| >= 3 && k[0] == 'a' && k[1] == 'p' && k[2] == 'p'
    ensures k !in AndroidKeys
  {
    forall i | 0 <= i < |AndroidKeys| ensures AndroidKeys[i] != k {
      assert AndroidKeys[i][0] != 'a' || AndroidKeys[i][1] != 'p' || AndroidKeys[i][2] != 'p';
    }
  }

  /** The four keys a device entry may override. */
  function AndroidOverrides(base: Object, cfg: Object): (caps: Object)
    ensures Lookup(caps, "appPackage") == if HasKey(cfg, "app_package") then Lookup(cfg, "app_package") else Lookup(base, "appPackage")
    ensures Lookup(caps, "appActivity") ==
      if HasKey(cfg, "app_activity") then Lookup(cfg, "app_activity") else Lookup(base, "appActivity")
    ensures Lookup(caps, "systemPort") == if HasKey(cfg, "system_port") then Lookup(cfg, "system_port") else Lookup(base, "systemPort")
    ensures Lookup(caps, "noReset") == if HasKey(cfg, "no_reset") then Lookup(cfg, "no_reset") else Lookup(base, "noReset")
    ensures forall k :: k != "appPackage" && k != "appActivity" && k != "systemPort" && k != "noReset" ==>
      Lookup(caps, k) == Lookup(base, k)
  {
    var c1 := Override(base, cfg, "app_package", "appPackage");
    var c2 := Override(c1, cfg, "app_activity", "appActivity");
    var c3 := Override(c2, cfg, "system_port", "systemPort");
    Override(c3, cfg, "no_reset", "noReset")
  }

  /** Without a configured package, the settings app is opened. */
  function WithDefaultApp(caps: Object): (r: Object)
    ensures Lookup(r, "appPackage") == if HasKey(caps, "appPackage") then Lookup(caps, "appPackage") else Some(Str(DefaultPackage))
    ensures Lookup(r, "appActivity") ==
      if HasKey(caps, "appPackage") then Lookup(caps, "appActivity") else Some(Str(DefaultActivity))
    ensures forall k :: k != "appPackage" && k != "appActivity" ==> Lookup(r, k) == Lookup(caps, k)
  {
    if HasKey(caps, "appPackage") then caps
    else
      var p := Put(caps, "appPackage", Str(DefaultPackage));
      PutOthers(caps, "appPackage", Str(DefaultPackage));
      PutOthers(p, "appActivity", Str(DefaultActivity));
      Put(p, "appActivity", Str(DefaultActivity))
  }

  /** `_get_android_caps`, or `None` when it raises: the device lacks its
      version or id, or the device entry of the configuration raises. */
  function AndroidCaps(deviceInfo: Object, config: Object): Option<Object> {
    if !HasKey(deviceInfo, "platform_version") || !HasKey(deviceInfo, "id") then None
    else match DeviceConfig(config, "android")
      case None => None
      case Some(cfg) =>
        var base := AndroidBase(Get(deviceInfo, "platform_version"), Get(deviceInfo, "id"));
        var caps := AndroidOverrides(base, cfg);
        Some(WithDefaultApp(caps))
  }

  /** The Android capabilities build exactly when the device has a version
      and an id and its configuration entry can be read. */
  lemma AndroidCapsDefined(deviceInfo: Object, config: Object)
    ensures AndroidCaps(deviceInfo, config).Some? <==>
      HasKey(deviceInfo, "platform_version") && HasKey(deviceInfo, "id") && DeviceConfig(config, "android").Some?
  {
  }

  /** The Android capabilities take the package, activity, system port and
      no-reset flag from the device entry only where it has them; without a
      configured package, the settings app is opened, whatever activity was
      configured. */
  lemma AndroidCapsSpec(deviceInfo: Object, config: Object)
    requires AndroidCaps(deviceInfo, config).Some?
    ensures
      var caps, cfg := AndroidCaps(deviceInfo, config).value, DeviceConfig(config, "android").value;
      && Lookup(caps, "platformName") == Some(Str("Android"))
      && Lookup(caps, "platformVersion") == Some(Str(Render(Get(deviceInfo, "platform_version"))))
      && Lookup(caps, "deviceName") == Some(Str(Render(Get(deviceInfo, "id"))))
      && Lookup(caps, "systemPort") == (if HasKey(cfg, "system_port") then Lookup(cfg, "system_port") else Some(Int(8201)))
      && Lookup(caps, "noReset") == (if HasKey(cfg, "no_reset") then Lookup(cfg, "no_reset") else Some(Bool(true)))
      && Lookup(caps, "appPackage") ==
           (if HasKey(cfg, "app_package") then Lookup(cfg, "app_package") else Some(Str(DefaultPackage)))
      && Lookup(caps, "appActivity") ==
           (if HasKey(cfg, "app_package") then Lookup(cfg, "app_activity") else Some(Str(DefaultActivity)))
  {
    var cfg := DeviceConfig(config, "android").value;
    var base := AndroidBase(Get(deviceInfo, "platform_version"), Get(deviceInfo, "id"));
    AndroidBaseIdentity(Get(deviceInfo, "platform_version"), Get(deviceInfo, "id"));
    AndroidBaseNoReset(Get(deviceInfo, "platform_version"), Get(deviceInfo, "id"));
    AndroidBasePort(Get(deviceInfo, "platform_version"), Get(deviceInfo, "id"));
    AndroidBaseNoApp(Get(deviceInfo, "platform_version"), Get(deviceInfo, "id"));
    assert AndroidCaps(deviceInfo, config).value == WithDefaultApp(AndroidOverrides(base, cfg));
    OverriddenKeeps(base, cfg);
    OverriddenSettings(base, cfg);
    OverriddenApp(base, cfg);
  }

  /** A key neither overriding nor defaulting touches keeps its value. */
  lemma OverriddenOther(base: Object, cfg: Object, k: string)
    requires k != "appPackage" && k != "appActivity" && k != "systemPort" && k != "noReset"
    ensures Lookup(WithDefaultApp(AndroidOverrides(base, cfg)), k) == Lookup(base, k)
  {
  }

  /** The device entry's overrides, then the default app, keep the
      platform, version and device name. */
  lemma OverriddenKeeps(base: Object, cfg: Object)
    ensures var caps := WithDefaultApp(AndroidOverrides(base, cfg));
      && Lookup(caps, "platformName") == Lookup(base, "platformName")
      && Lookup(caps, "platformVersion") == Lookup(base, "platformVersion")
      && Lookup(caps, "deviceName") == Lookup(base, "deviceName")
  {
    OverriddenOther(base, cfg, "platformName");
    OverriddenOther(base, cfg, "platformVersion");
    OverriddenOther(base, cfg, "deviceName");
  }

  /** The system port and no-reset flag come from the device entry where
      it has them. */
  lemma OverriddenSettings(base: Object, cfg: Object)
    ensures var caps := WithDefaultApp(AndroidOverrides(base, cfg));
      && Lookup(caps, "systemPort") == (if HasKey(cfg, "system_port") then Lookup(cfg, "system_port") else Lookup(base, "systemPort"))
      && Lookup(caps, "noReset") == (if HasKey(cfg, "no_reset") then Lookup(cfg, "no_reset") else Lookup(base, "noReset"))
  {
    var c := AndroidOverrides(base, cfg);
    DefaultAppOther(c, "systemPort");
    DefaultAppOther(c, "noReset");
  }

  /** Defaulting the app leaves every other key as it was. */
  lemma DefaultAppOther(caps: Object, k: string)
    requires k != "appPackage" && k != "appActivity"
    ensures Lookup(WithDefaultApp(caps), k) == Lookup(caps, k)
  {
  }

  /** On fixed capabilities that name no app, the app is the configured
      one when a package is configured, and the settings app otherwise. */
  lemma OverriddenApp(base: Object, cfg: Object)
    requires !HasKey(base, "appPackage") && !HasKey(base, "appActivity")
    ensures var caps := WithDefaultApp(AndroidOverrides(base, cfg));
      && Lookup(caps, "appPackage") ==
           (if HasKey(cfg, "app_package") then Lookup(cfg, "app_package") else Some(Str(DefaultPackage)))
      && Lookup(caps, "appActivity") ==
           (if HasKey(cfg, "app_package") then Lookup(cfg, "app_activity") else Some(Str(DefaultActivity)))
  {
    var c := AndroidOverrides(base, cfg);
    assert HasKey(c, "appPackage") == HasKey(cfg, "app_package");
  }

  const IosKeys: seq<string> := [
    "platformName", "platformVersion", "deviceName", "automationName", "noReset", "newCommandTimeout",
    "webviewConnectTimeout", "simpleIsVisibleCheck"]

  /** The fixed iOS capabilities of `_get_ios_caps`. */
  function IosBase(version: Value, id: Value): (caps: Object)
    ensures Lookup(caps, "platformName") == Some(Str("iOS"))
    ensures Lookup(caps, "platformVersion") == Some(Str(Render(version)))
    ensures Lookup(caps, "deviceName") == Some(Str(Render(id)))
    ensures Lookup(caps, "noReset") == Some(Bool(true))
    ensures !HasKey(caps, "bundleId") && !HasKey(caps, "wdaLocalPort")
  {
    var vals := [Str("iOS"), Str(Render(version)), Str(Render(id)), Str("XCUITest"), Bool(true), Int(300),
                 Int(90000), Bool(true)];
    var caps := Zip(IosKeys, vals);
    assert Lookup(caps, "platformName") == Some(Str("iOS")) by { ZipAt(IosKeys, vals, 0); }
    assert Lookup(caps, "platformVersion") == Some(Str(Render(version))) by { ZipAt(IosKeys, vals, 1); }
    assert Lookup(caps, "deviceName") == Some(Str(Render(id))) by { ZipAt(IosKeys, vals, 2); }
    assert Lookup(caps, "noReset") == Some(Bool(true)) by { ZipAt(IosKeys, vals, 4); }
    assert !HasKey(caps, "bundleId") by { ZipHasKey(IosKeys, vals, "bundleId"); }
    assert !HasKey(caps, "wdaLocalPort") by { ZipHasKey(IosKeys, vals, "wdaLocalPort"); }
    caps
  }

  /** The three keys an iOS device entry may override. */
  function IosOverrides(base: Object, cfg: Object): (caps: Object)
    ensures Lookup(caps, "bundleId") == if HasKey(cfg, "bundle_id") then Lookup(cfg, "bundle_id") else Lookup(base, "bundleId")
    ensures Lookup(caps, "wdaLocalPort") ==
      if HasKey(cfg, "wda_local_port") then Lookup(cfg, "wda_local_port") else Lookup(base, "wdaLocalPort")
    ensures Lookup(caps, "noReset") == if HasKey(cfg, "no_reset") then Lookup(cfg, "no_reset") else Lookup(base, "noReset")
    ensures forall k :: k != "bundleId" && k != "wdaLocalPort" && k != "noReset" ==> Lookup(caps, k) == Lookup(base, k)
  {
    var c1 := Override(base, cfg, "bundle_id", "bundleId");
    var c2 := Override(c1, cfg, "wda_local_port", "wdaLocalPort");
    Override(c2, cfg, "no_reset", "noReset")
  }

  /** A key the iOS overrides do not touch keeps its value. */
  lemma IosOverriddenOther(base: Object, cfg: Object, k: string)
    requires k != "bundleId" && k != "wdaLocalPort" && k != "noReset"
    ensures Lookup(IosOverrides(base, cfg), k) == Lookup(base, k)
  {
  }

  /** `_get_ios_caps`, or `None` when it raises. */
  function IosCaps(deviceInfo: Object, config: Object): Option<Object> {
    if !HasKey(deviceInfo, "platform_version") || !HasKey(deviceInfo, "id") then None
    else match DeviceConfig(config, "ios")
      case None => None
      case Some(cfg) => Some(IosOverrides(IosBase(Get(deviceInfo, "platform_version"), Get(deviceInfo, "id")), cfg))
  }

  /** The iOS capabilities build exactly when the device has a version and
      an id and its configuration entry can be read. */
  lemma IosCapsDefined(deviceInfo: Object, config: Object)
    ensures IosCaps(deviceInfo, config).Some? <==>
      HasKey(deviceInfo, "platform_version") && HasKey(deviceInfo, "id") && DeviceConfig(config, "ios").Some?
  {
  }

  /** The iOS capabilities take the bundle id, WebDriverAgent port and
      no-reset flag from the device entry only where it has them. */
  lemma IosCapsSpec(deviceInfo: Object, config: Object)
    requires IosCaps(deviceInfo, config).Some?
    ensures
      var caps, cfg := IosCaps(deviceInfo, config).value, DeviceConfig(config, "ios").value;
      && Lookup(caps, "platformName") == Some(Str("iOS"))
      && Lookup(caps, "platformVersion") == Some(Str(Render(Get(deviceInfo, "platform_version"))))
      && Lookup(caps, "deviceName") == Some(Str(Render(Get(deviceInfo, "id"))))
      && Lookup(caps, "bundleId") == Lookup(cfg, "bundle_id")
      && Lookup(caps, "wdaLocalPort") == Lookup(cfg, "wda_local_port")
      && Lookup(caps, "noReset") == (if HasKey(cfg, "no_reset") then Lookup(cfg, "no_reset") else Some(Bool(true)))
  {
    var cfg := DeviceConfig(config, "ios").value;
    var base := IosBase(Get(deviceInfo, "platform_version"), Get(deviceInfo, "id"));
    assert IosCaps(deviceInfo, config).value == IosOverrides(base, cfg);
    IosOverriddenOther(base, cfg, "platformName");
    IosOverriddenOther(base, cfg, "platformVersion");
    IosOverriddenOther(base, cfg, "deviceName");
  }

  /* ------------------------------------------------------------ recording */

  /** `device_info.get('platform', '').lower()`, or `None` when the platform
      is not a string and `lower` raises. */
  function Platform(deviceInfo: Object): Option<string> {
    match Lookup(deviceInfo, "platform")
    case None => Some("")
    case Some(Str(s)) => Some(Text.Lower(s))
    case Some(_) => None
  }

  /** `http://{host}:{port}` from `config['appium']`, or `None` when a key
      is missing. */
  function AppiumUrl(config: Object): Option<string> {
    match Lookup(config, "appium")
    case Some(Dict(appium)) =>
      if HasKey(appium, "host") && HasKey(appium, "port")
      then Some("http://" + Render(Get(appium, "host")) + ":" + Render(Get(appium, "port")))
      else None
    case _ => None
  }

  /** The capabilities for a platform `start_recording` accepts. */
  function CapsFor(deviceInfo: Object, config: Object, platform: string): Option<Object> {
    if platform == "android" then AndroidCaps(deviceInfo, config) else IosCaps(deviceInfo, config)
  }

  /** Everything `start_recording` checks before it connects: a device is
      set, its platform is android or ios, its capabilities build, and the
      server address is configured. */
  predicate CanStart(deviceInfo: Object, config: Object) {
    && deviceInfo != []
    && Platform(deviceInfo).Some? && (Platform(deviceInfo).value == "android" || Platform(deviceInfo).value == "ios")
    && CapsFor(deviceInfo, config, Platform(deviceInfo).value).Some?
    && AppiumUrl(config).Some?
  }

  /** `if v: action[key] = v` */
  function PutIf(a: Object, key: string, v: Value): (r: Object)
    requires KeysUnique(a)
    ensures Lookup(r, key) == if Truthy(v) then Some(v) else Lookup(a, key)
    ensures KeysUnique(r)
  {
    if Truthy(v) then
      PutUnique(a, key, v);
      Put(a, key, v)
    else a
  }

  /** A conditional put leaves every other key as it was. */
  lemma PutIfOther(a: Object, key: string, v: Value, k: string)
    requires KeysUnique(a) && k != key
    ensures Lookup(PutIf(a, key, v), k) == Lookup(a, k)
  {
    PutOthers(a, key, v);
  }

  const ActionKeys: seq<string> := ["type", "timestamp", "time_gap", "context"]

  /** The optional arguments of `record_action`, in the order it adds them. */
  const OptionalKeys: seq<string> := ["element", "coordinates", "text", "duration", "extra_info"]

  /** `if v: action[key] = v` for each key and value in turn. */
  function PutIfAll(a: Object, keys: seq<string>, vals: seq<Value>): (r: Object)
    requires |keys| == |vals| && KeysUnique(a)
    ensures KeysUnique(r)
    decreases |keys|
  {
    if keys == [] then a else PutIfAll(PutIf(a, keys[0], vals[0]), keys[1..], vals[1..])
  }

  /** A key none of the conditional puts names keeps its value. */
  lemma {:induction false} PutIfAllOther(a: Object, keys: seq<string>, vals: seq<Value>, k: string)
    requires |keys| == |vals| && KeysUnique(a) && k !in keys
    ensures Lookup(PutIfAll(a, keys, vals), k) == Lookup(a, k)
    decreases |keys|
  {
    if keys != [] {
      PutIfOther(a, keys[0], vals[0], k);
      PutIfAllOther(PutIf(a, keys[0], vals[0]), keys[1..], vals[1..], k);
    }
  }

  /** A key named once holds its value when that value is truthy, and its
      old value otherwise. */
  lemma {:induction false} PutIfAllAt(a: Object, keys: seq<string>, vals: seq<Value>, i: int)
    requires |keys| == |vals| && KeysUnique(a) && 0 <= i < |keys|
    requires forall p, q :: 0 <= p < q < |keys| ==> keys[p] != keys[q]
    ensures Lookup(PutIfAll(a, keys, vals), keys[i]) == if Truthy(vals[i]) then Some(vals[i]) else Lookup(a, keys[i])
    decreases |keys|
  {
    var a1 := PutIf(a, keys[0], vals[0]);
    if i == 0 {
      assert keys[0] !in keys[1..];
      PutIfAllOther(a1, keys[1..], vals[1..], keys[0]);
    } else {
      assert keys[i] == keys[1..][i - 1] && vals[i] == vals[1..][i - 1];
      PutIfOther(a, keys[0], vals[0], keys[i]);
      PutIfAllAt(a1, keys[1..], vals[1..], i - 1);
    }
  }

  /** The action `record_action` appends: type, time, the gap since the
      previous action, the page context, and each optional argument that
      is truthy. */
  function NewAction(actionType: string, now: int, gap: int, context: Object,
                     element: Value, coordinates: Value, text: Value, duration: Value, extraInfo: Value): (a: Object)
    ensures KeysUnique(a)
  {
    var vals := [Str(actionType), Int(now), Int(gap), Dict(context)];
    ZipUnique(ActionKeys, vals);
    PutIfAll(Zip(ActionKeys, vals), OptionalKeys, [element, coordinates, text, duration, extraInfo])
  }

  /** The action holds its type, time, gap and context, */
  lemma NewActionFixed(actionType: string, now: int, gap: int, context: Object,
                       element: Value, coordinates: Value, text: Value, duration: Value, extraInfo: Value)
    ensures var a := NewAction(actionType, now, gap, context, element, coordinates, text, duration, extraInfo);
      && Lookup(a, "type") == Some(Str(actionType)) && Lookup(a, "timestamp") == Some(Int(now))
      && Lookup(a, "time_gap") == Some(Int(gap)) && Lookup(a, "context") == Some(Dict(context))
  {
    var vals := [Str(actionType), Int(now), Int(gap), Dict(context)];
    var opt := [element, coordinates, text, duration, extraInfo];
    ZipUnique(ActionKeys, vals);
    FixedKept(Zip(ActionKeys, vals), opt, "type");
    FixedKept(Zip(ActionKeys, vals), opt, "timestamp");
    FixedKept(Zip(ActionKeys, vals), opt, "time_gap");
    FixedKept(Zip(ActionKeys, vals), opt, "context");
    ZipAt(ActionKeys, vals, 0);
    ZipAt(ActionKeys, vals, 1);
    ZipAt(ActionKeys, vals, 2);
    ZipAt(ActionKeys, vals, 3);
  }

  lemma FixedKept(base: Object, opt: seq<Value>, k: string)
    requires KeysUnique(base) && |opt| == |OptionalKeys| && k in ActionKeys
    ensures Lookup(PutIfAll(base, OptionalKeys, opt), k) == Lookup(base, k)
  {
    PutIfAllOther(base, OptionalKeys, opt, k);
  }

  /** and each optional argument exactly when it is truthy. */
  lemma NewActionOptional(actionType: string, now: int, gap: int, context: Object,
                          element: Value, coordinates: Value, text: Value, duration: Value, extraInfo: Value)
    ensures var a := NewAction(actionType, now, gap, context, element, coordinates, text, duration, extraInfo);
      && Lookup(a, "element") == (if Truthy(element) then Some(element) else None)
      && Lookup(a, "coordinates") == (if Truthy(coordinates) then Some(coordinates) else None)
      && Lookup(a, "text") == (if Truthy(text) then Some(text) else None)
      && Lookup(a, "duration") == (if Truthy(duration) then Some(duration) else None)
      && Lookup(a, "extra_info") == (if Truthy(extraInfo) then Some(extraInfo) else None)
  {
    var vals := [Str(actionType), Int(now), Int(gap), Dict(context)];
    var opt := [element, coordinates, text, duration, extraInfo];
    ZipUnique(ActionKeys, vals);
    OptionalSet(vals, opt, 0);
    OptionalSet(vals, opt, 1);
    OptionalSet(vals, opt, 2);
    OptionalSet(vals, opt, 3);
    OptionalSet(vals, opt, 4);
  }

  lemma OptionalSet(vals: seq<Value>, opt: seq<Value>, i: int)
    requires |vals| == |ActionKeys| && |opt| == |OptionalKeys| && 0 <= i < |OptionalKeys|
    requires KeysUnique(Zip(ActionKeys, vals))
    ensures Lookup(PutIfAll(Zip(ActionKeys, vals), OptionalKeys, opt), OptionalKeys[i]) ==
      if Truthy(opt[i]) then Some(opt[i]) else None
  {
    ZipHasKey(ActionKeys, vals, OptionalKeys[i]);
    PutIfAllAt(Zip(ActionKeys, vals), OptionalKeys, opt, i);
  }

  class Recorder {
    const deviceInfo: Object
    const config: Object
    var recording: bool
    var actions: seq<Object>
    var startTime: Option<int>
    var lastActionTime: Option<int>

    /** A recording session always knows when its last action was. */
    ghost predicate Valid()
      reads this
    {
      recording ==> lastActionTime.Some?
    }

    constructor (deviceInfo: Object, config: Object)
      ensures Valid() && this.deviceInfo == deviceInfo && this.config == config
      ensures !recording && actions == [] && startTime == None && lastActionTime == None
    {
      this.deviceInfo := deviceInfo;
      this.config := config;
      recording := false;
      actions := [];
      startTime := None;
      lastActionTime := None;
    }

    /** `start_recording`: fails, changing nothing, when a check fails or
        the driver does not connect; otherwise a fresh session starts now. */
    method StartRecording(connected: bool, now: int) returns (ok: bool)
      requires Valid()
      modifies this
      ensures Valid()
      ensures ok <==> CanStart(deviceInfo, config) && connected
      ensures ok ==> recording && actions == [] && startTime == Some(now) && lastActionTime == Some(now)
      ensures !ok ==>
        && recording == old(recording) && actions == old(actions)
        && startTime == old(startTime) && lastActionTime == old(lastActionTime)
    {
      if deviceInfo == [] {
        return false;
      }
      var platform := Platform(deviceInfo);
      if platform.None? || (platform.value != "android" && platform.value != "ios") {
        return false;
      }
      var caps := CapsFor(deviceInfo, config, platform.value);
      if caps.None? {
        return false;
      }
      var url := AppiumUrl(config);
      if url.None? || !connected {
        return false;
      }
      recording := true;
      actions := [];
      startTime := Some(now);
      lastActionTime := startTime;
      ok := true;
    }

    /** `record_action`: outside a session nothing happens; inside one,
        exactly one action is appended, stamped with the gap since the
        previous one, which `now` then becomes. */
    method RecordAction(actionType: string, element: Value, coordinates: Value, text: Value, duration: Value,
                        extraInfo: Value, context: Object, now: int)
      requires Valid()
      modifies this
      ensures Valid() && recording == old(recording) && startTime == old(startTime)
      ensures !old(recording) ==> actions == old(actions) && lastActionTime == old(lastActionTime)
      ensures old(recording) ==>
        && actions == old(actions) + [NewAction(actionType, now, now - old(lastActionTime).value, context,
                                                element, coordinates, text, duration, extraInfo)]
        && lastActionTime == Some(now)
    {
      if !recording {
        return;
      }
      var gap := now - lastActionTime.value;
      actions := actions + [NewAction(actionType, now, gap, context, element, coordinates, text, duration, extraInfo)];
      lastActionTime := Some(now);
    }

    /** `stop_recording`: ends the session and hands back every action it
        recorded. */
    method StopRecording() returns (recorded: seq<Object>)
      requires Valid()
      modifies this
      ensures Valid() && !recording && recorded == old(actions)
      ensures actions == old(actions) && lastActionTime == old(lastActionTime) && startTime == old(startTime)
    {
      recording := false;
      recorded := actions;
    }
  }

  /* ------------------------------------------------------------ code generation */

  /** The lines that locate an action's element: the element must be a
      dict whose `locator_type` (default 'id') is a string. */
  function LocateLines(element: Value): (lines: Option<seq<string>>)
    ensures lines.Some? ==> |lines.value| == 3
  {
    if !element.Dict? then None
    else
      var locatorType := match Lookup(element.entries, "locator_type") case Some(v) => v case None => Str("id");
      var locatorValue := match Lookup(element.entries, "locator_value") case Some(v) => v case None => Str("");
      if !locatorType.Str? then None
      else Some([
        "element = wait.until(",
        "    EC.presence_of_element_located((AppiumBy." + Text.Upper(locatorType.s) + ", '" + Render(locatorValue) + "'))",
        ")"])
  }

  /** `action.get(key, default)` rendered into the code. */
  function RenderOr(a: Object, key: string, default: int): string {
    match Lookup(a, key)
    case Some(v) => Render(v)
    case None => Text.IntToString(default)
  }

  /** `_generate_swipe_action_code`: the coordinates must be a dict with
      both end points. */
  function SwipeLines(a: Object): (lines: Option<seq<string>>)
    ensures lines.Some? ==> |lines.value| == 5
  {
    match Get(a, "coordinates")
    case Dict(c) =>
      if HasKey(c, "start_x") && HasKey(c, "start_y") && HasKey(c, "end_x") && HasKey(c, "end_y") then
        Some([
          "driver.swipe(",
          "    " + Render(Get(c, "start_x")) + ", " + Render(Get(c, "start_y")) + ",",
          "    " + Render(Get(c, "end_x")) + ", " + Render(Get(c, "end_y")) + ",",
          "    " + RenderOr(a, "duration", 500),
          ")"])
      else None
    case _ => None
  }

  /** `_generate_long_press_code`: on the element when there is one, else
      at the coordinates. */
  function LongPressLines(a: Object): (lines: Option<seq<string>>)
    ensures lines.Some? ==> |lines.value| == (if HasKey(a, "element") then 6 else 3)
  {
    var press :=
      if HasKey(a, "element") then
        match LocateLines(Get(a, "element"))
        case None => None
        case Some(locate) => Some(locate + ["actions.long_press(element, duration=" + RenderOr(a, "duration", 1000) + ")"])
      else
        match Get(a, "coordinates")
        case Dict(c) =>
          if HasKey(c, "x") && HasKey(c, "y") then
            Some(["actions.long_press(x=" + Render(Get(c, "x")) + ", y=" + Render(Get(c, "y")) + ", duration=" +
                  RenderOr(a, "duration", 1000) + ")"])
          else None
        case _ => None;
    match press
    case None => None
    case Some(p) => Some(["actions = TouchAction(driver)"] + p + ["actions.perform()"])
  }

  /** The four lines of touch number `i`; the touch must be a dict with
      `x` and `y`. */
  function TouchLines(i: nat, touch: Value): (lines: Option<seq<string>>)
    ensures lines.Some? ==> |lines.value| == 4
  {
    match touch
    case Dict(t) =>
      if HasKey(t, "x") && HasKey(t, "y") then
        var name := "action" + Text.NatToString(i);
        Some([
          name + " = TouchAction(driver)",
          name + ".press(x=" + Render(Get(t, "x")) + ", y=" + Render(Get(t, "y")) + ")",
          name + ".wait(" + RenderOr(t, "duration", 500) + ")",
          name + ".release()"])
      else None
    case _ => None
  }

  /** The touches from number `i` on. */
  function TouchesLines(i: nat, touches: seq<Value>): (lines: Option<seq<string>>)
    ensures lines.Some? ==> |lines.value| == 4 * |touches|
    decreases |touches|
  {
    if touches == [] then Some([])
    else match (TouchLines(i, touches[0]), TouchesLines(i + 1, touches[1..]))
      case (Some(first), Some(rest)) => Some(first + rest)
      case _ => None
  }

  /** `action0, action1, ...` */
  function ActionNames(n: nat): seq<string> {
    seq(n, i requires 0 <= i < n => "action" + Text.NatToString(i))
  }

  /** `_generate_multi_touch_code`: four lines per touch, then one line
      that performs them together. */
  function MultiTouchLines(touches: seq<Value>): (lines: Option<seq<string>>)
    ensures lines.Some? ==> |lines.value| == 4 * |touches| + 1
  {
    match TouchesLines(0, touches)
    case None => None
    case Some(each) => Some(each + ["driver.multi_action([" + Text.Join(ActionNames(|touches|), ", ") + "])"])
  }

  /** The lines for the action's type, before any indentation; types
      without a generator, and actions lacking what their type needs, give
      none. */
  function ActionLines(a: Object): Option<seq<string>> {
    var kind := Get(a, "type");
    if kind == Str("click") then
      if !HasKey(a, "element") then Some([])
      else match LocateLines(Get(a, "element"))
        case None => None
        case Some(locate) => Some(locate + ["element.click()"])
    else if kind == Str("input") then
      if !HasKey(a, "element") || !HasKey(a, "text") then Some([])
      else match LocateLines(Get(a, "element"))
        case None => None
        case Some(locate) => Some(locate + ["element.clear()", "element.send_keys('" + Render(Get(a, "text")) + "')"])
    else if kind == Str("swipe") then
      if !HasKey(a, "coordinates") then Some([]) else SwipeLines(a)
    else if kind == Str("long_press") then
      if !HasKey(a, "element") && !HasKey(a, "coordinates") then Some([]) else LongPressLines(a)
    else if kind == Str("multi_touch") then
      var extra := match Lookup(a, "extra_info") case Some(v) => v case None => Dict([]);
      if !extra.Dict? then None
      else if !HasKey(extra.entries, "actions") then Some([])
      else match Get(extra.entries, "actions")
        case List(touches) => MultiTouchLines(touches)
        case _ => None
    else Some([])
  }

  /** How many lines each action type contributes. */
  lemma ActionLineCounts(a: Object)
    requires ActionLines(a).Some?
    ensures Get(a, "type") == Str("click") ==> |ActionLines(a).value| == (if HasKey(a, "element") then 4 else 0)
    ensures Get(a, "type") == Str("input") ==>
      |ActionLines(a).value| == (if HasKey(a, "element") && HasKey(a, "text") then 5 else 0)
    ensures Get(a, "type") == Str("swipe") ==> |ActionLines(a).value| == (if HasKey(a, "coordinates") then 5 else 0)
    ensures Get(a, "type") == Str("long_press") ==>
      |ActionLines(a).value| ==
        (if HasKey(a, "element") then 6 else if HasKey(a, "coordinates") then 3 else 0)
    ensures
      (&& Get(a, "type") == Str("multi_touch") && HasKey(a, "extra_info") && Get(a, "extra_info").Dict?
       && Get(Get(a, "extra_info").entries, "actions").List?) ==>
      |ActionLines(a).value| == 4 * |Get(Get(a, "extra_info").entries, "actions").items| + 1
    ensures Get(a, "type") !in [Str("click"), Str("input"), Str("swipe"), Str("long_press"), Str("multi_touch")] ==>
      ActionLines(a).value == []
  {
  }

  /** `f"{ms / 1000:.1f}"` for a gap in milliseconds, to the nearest tenth
      of a second (halves rounded up). */
  function Tenths(ms: nat): string {
    var t := (ms + 50) / 100;
    Text.NatToString(t / 10) + "." + [Text.DigitChar(t % 10)]
  }

  /** The wait line of a step: only for a gap over half a second; `None`
      when the gap is missing or not a number of milliseconds. */
  function SleepLines(a: Object): (lines: Option<seq<string>>)
    ensures lines.Some? <==> Get(a, "time_gap").Int?
    ensures lines.Some? ==> (lines.value != [] <==> Get(a, "time_gap").i > 500)
    ensures lines.Some? ==> |lines.value| <= 1
    ensures lines.Some? && lines.value != [] ==> Text.StartsWith(lines.value[0], "        time.sleep(")
    ensures lines.Some? ==> forall j :: 0 <= j < |lines.value| ==> Text.StartsWith(lines.value[j], "        ")
  {
    match Get(a, "time_gap")
    case Int(g) =>
      if g > 500 then
        var line := "        time.sleep(" + Tenths(g) + ")";
        assert line[..|"        time.sleep("|] == "        time.sleep(";
        assert line[..8] == "        ";
        Some([line])
      else Some([])
    case _ => None
  }

  const ActivityComment := "# 检查当前Activity"
  const WindowComment := "# 检查当前Window"

  /** `_generate_context_check_code`: four lines for a recorded activity,
      four for a recorded window. */
  function ContextCheckLines(context: Object): (lines: seq<string>)
    ensures |lines| == (if HasKey(context, "activity") then 4 else 0) + (if HasKey(context, "window") then 4 else 0)
  {
    (if HasKey(context, "activity") then
      var activity := Render(Get(context, "activity"));
      [ActivityComment,
       "current_activity = driver.current_activity",
       "if current_activity != '" + activity + "':",
       "    logger.warning(f'Activity不匹配: 期望=" + activity + ", 实际={current_activity}')"]
    else []) +
    (if HasKey(context, "window") then
      var window := Render(Get(context, "window"));
      [WindowComment,
       "current_window = driver.current_window_handle",
       "if current_window != '" + window + "':",
       "    logger.warning(f'Window不匹配: 期望=" + window + ", 实际={current_window}')"]
    else [])
  }

  /** The context check of a step, when the action has a context; the
      context must be a dict. */
  function ContextLines(a: Object): Option<seq<string>> {
    if !HasKey(a, "context") then Some([])
    else match Get(a, "context")
      case Dict(c) => Some(ContextCheckLines(c))
      case _ => None
  }

  const StepComment := "\n        # 步骤 "

  /** The lines of step number `i`: its comment, the action's lines and the
      context check, both indented by `indent`, and between them the wait
      line; `None` when generating them raises. */
  function StepLines(i: nat, a: Object, indent: string): (lines: Option<seq<string>>)
    ensures lines.Some? <==>
      HasKey(a, "type") && ActionLines(a).Some? && SleepLines(a).Some? && ContextLines(a).Some?
    ensures lines.Some? ==>
      |lines.value| == 1 + |ActionLines(a).value| + |SleepLines(a).value| + |ContextLines(a).value|
  {
    if !HasKey(a, "type") then None
    else match (ActionLines(a), SleepLines(a), ContextLines(a))
      case (Some(act), Some(sleep), Some(ctx)) =>
        Some([StepComment + Text.NatToString(i) + ": " + Render(Get(a, "type"))] +
             Text.Indent(act, indent) + sleep + Text.Indent(ctx, indent))
      case _ => None
  }

  /** The steps of the actions, numbered from `i`. */
  function StepsLines(i: nat, actions: seq<Object>, indent: string): Option<seq<string>>
    decreases |actions|
  {
    if actions == [] then Some([])
    else match (StepLines(i, actions[0], indent), StepsLines(i + 1, actions[1..], indent))
      case (Some(first), Some(rest)) => Some(first + rest)
      case _ => None
  }

  /** The lines of a step's body: everything but its comment. */
  predicate BodyIndented(lines: seq<string>, indent: string) {
    forall j :: 1 <= j < |lines| ==> Text.StartsWith(lines[j], indent)
  }

  /** With the intended indentation of eight spaces, every line of a step
      after its comment is indented at least as deep as the body of the
      generated `try:`. */
  lemma StepBodyIndented(i: nat, a: Object)
    requires StepLines(i, a, "        ").Some?
    ensures BodyIndented(StepLines(i, a, "        ").value, "        ")
  {
    var act, sleep, ctx := ActionLines(a).value, SleepLines(a).value, ContextLines(a).value;
    var ind := "        ";
    StepParts(i, a, ind);
    PartsIndented(StepComment + Text.NatToString(i) + ": " + Render(Get(a, "type")), act, sleep, ctx, ind);
  }

  /** The parts a generated step is made of. */
  lemma StepParts(i: nat, a: Object, indent: string)
    requires StepLines(i, a, indent).Some?
    ensures StepLines(i, a, indent).value ==
      [StepComment + Text.NatToString(i) + ": " + Render(Get(a, "type"))] +
      Text.Indent(ActionLines(a).value, indent) + SleepLines(a).value + Text.Indent(ContextLines(a).value, indent)
  {
  }

  /** A comment followed by indented lines, lines that already start with
      the indentation, and more indented lines has its body indented. */
  lemma PartsIndented(c: string, act: seq<string>, mid: seq<string>, ctx: seq<string>, ind: string)
    requires forall j :: 0 <= j < |mid| ==> Text.StartsWith(mid[j], ind)
    ensures BodyIndented([c] + Text.Indent(act, ind) + mid + Text.Indent(ctx, ind), ind)
  {
    var ia, ic := Text.Indent(act, ind), Text.Indent(ctx, ind);
    var lines := [c] + ia + mid + ic;
    forall j | 1 <= j < |lines| ensures Text.StartsWith(lines[j], ind) {
      if j < 1 + |ia| {
        assert lines[j] == ind + act[j - 1];
        assert (ind + act[j - 1])[..|ind|] == ind;
      } else if j < 1 + |ia| + |mid| {
        assert lines[j] == mid[j - 1 - |ia|];
      } else {
        assert lines[j] == ind + ctx[j - 1 - |ia| - |mid|];
        assert (ind + ctx[j - 1 - |ia| - |mid|])[..|ind|] == ind;
      }
    }
  }

  /** As written, the action's lines get no indentation of their own: the
      step of a recorded click on an element puts its first code line at
      the left margin, so once the whole code is shifted by four spaces it
      sits at column four, outside the `try:` whose body is at column
      twelve. */
  lemma StepAsWrittenLeavesTry()
    ensures var a := Zip(["type", "element", "time_gap"], [Str("click"), Dict([]), Int(0)]);
      && StepLines(1, a, "").Some?
      && StepLines(1, a, "").value[1] == "element = wait.until("
      && !BodyIndented(StepLines(1, a, "").value, "        ")
  {
    var keys, vals := ["type", "element", "time_gap"], [Str("click"), Dict([]), Int(0)];
    var a := Zip(keys, vals);
    assert Get(a, "type") == Str("click") by { ZipAt(keys, vals, 0); }
    assert Get(a, "element") == Dict([]) && HasKey(a, "element") by { ZipAt(keys, vals, 1); }
    assert Get(a, "time_gap") == Int(0) by { ZipAt(keys, vals, 2); }
    assert !HasKey(a, "context") by { ZipHasKey(keys, vals, "context"); }
    var act := ActionLines(a).value;
    assert act[0] == "element = wait.until(";
    var lines := StepLines(1, a, "").value;
    assert lines[1] == act[0];
    assert lines[1][0] != ' ';
  }

  /** Indentation steps of the generated code. */
  const Four := "    "
  const Eight := "        "

  /** The success line of the `try:` body. */
  const LoggerLine := Eight + "logger.info('测试用例执行成功')"

  /** The rest of the `try:` body and the three handlers. */
  const HandlerLines := [
    Eight + "return True",
    Four + "except TimeoutException as e:",
    Eight + "logger.error(f'等待元素超时: {e}')",
    Eight + "return False",
    Four + "except NoSuchElementException as e:",
    Eight + "logger.error(f'未找到元素: {e}')",
    Eight + "return False",
    Four + "except Exception as e:",
    Eight + "logger.error(f'测试执行失败: {e}')",
    Eight + "return False"]

  /** The closing lines as written: the blank line before the success line
      is a line break inside the same entry. */
  const FooterLines := ["\n" + LoggerLine] + HandlerLines

  /** The closing lines with the blank line as an entry of its own, so the
      four-space shift reaches the success line too. */
  const IntendedFooterLines := ["", LoggerLine] + HandlerLines

  /** The indentation of a physical line: its leading spaces. */
  function Column(line: string): (c: nat)
    ensures c <= |line| && forall k :: 0 <= k < c ==> line[k] == ' '
    ensures c < |line| ==> line[c] != ' '
  {
    Text.Leading(line, ch => ch == ' ')
  }

  /** A line made of spaces and then a non-space character has the
      spaces' length as its column. */
  lemma ColumnIs(line: string, spaces: string, rest: string)
    requires line == spaces + rest && rest != [] && rest[0] != ' '
    requires forall k :: 0 <= k < |spaces| ==> spaces[k] == ' '
    ensures Column(line) == |spaces|
  {
    assert line[|spaces|] == rest[0];
    forall k | 0 <= k < |spaces| ensures line[k] == ' ' {
      assert line[k] == spaces[k];
    }
  }

  /** As written, the four-space shift lands before the line break of the
      first closing entry, so the success line keeps its eight spaces: the
      column of the shifted `try:`, which ends the `try:` body before its
      handlers. */
  lemma FooterAsWrittenLeavesTry()
    ensures Text.Split(Text.Indent(FooterLines, Four)[0], '\n') == [Four, LoggerLine]
    ensures Column(LoggerLine) == Column(Four + TryLine) == 8
  {
    var parts := [Four, LoggerLine];
    Text.SplitJoin(parts, '\n');
    assert Text.Join(parts, ['\n']) == Text.Indent(FooterLines, Four)[0];
    ColumnIs(LoggerLine, Eight, "logger.info('测试用例执行成功')");
    assert Four + TryLine == (Four + Four) + "try:";
    ColumnIs(Four + TryLine, Four + Four, "try:");
  }

  /** With the blank line as its own entry, the shifted success line and
      `return True` sit at column twelve, inside the `try:` body, and the
      handlers at the column of the `try:`. */
  lemma IntendedFooterInsideTry()
    ensures var shifted := Text.Indent(IntendedFooterLines, Four);
      && Column(shifted[1]) == Column(shifted[2]) == 12
      && Column(shifted[3]) == Column(shifted[6]) == Column(shifted[9]) == Column(Four + TryLine)
  {
    var shifted := Text.Indent(IntendedFooterLines, Four);
    assert shifted[1] == (Four + Eight) + "logger.info('测试用例执行成功')";
    ColumnIs(shifted[1], Four + Eight, "logger.info('测试用例执行成功')");
    assert shifted[2] == (Four + Eight) + "return True";
    ColumnIs(shifted[2], Four + Eight, "return True");
    assert shifted[3] == (Four + Four) + "except TimeoutException as e:";
    ColumnIs(shifted[3], Four + Four, "except TimeoutException as e:");
    assert shifted[6] == (Four + Four) + "except NoSuchElementException as e:";
    ColumnIs(shifted[6], Four + Four, "except NoSuchElementException as e:");
    assert shifted[9] == (Four + Four) + "except Exception as e:";
    ColumnIs(shifted[9], Four + Four, "except Exception as e:");
    assert Four + TryLine == (Four + Four) + "try:";
    ColumnIs(Four + TryLine, Four + Four, "try:");
  }

  /** The imports, the test function's header and the `try:` that open the
      generated code. */
  function HeaderLines(moduleName: string, name: string): (lines: seq<string>)
    ensures |lines| == 10 && lines[8] == TryLine
  {
    ImportLines +
    ["def test_" + moduleName + "_" + Text.ReplaceChar(Text.Lower(name), ' ', '_') + "(driver):",
     TryLine,
     WaitLine]
  }

  const TryLine := Four + "try:"
  const WaitLine := "        wait = WebDriverWait(driver, 10)"
  const ImportLines: seq<string> := [
    "from appium import webdriver",
    "from appium.webdriver.common.appiumby import AppiumBy",
    "from appium.webdriver.common.touch_action import TouchAction",
    "from selenium.webdriver.support.ui import WebDriverWait",
    "from selenium.webdriver.support import expected_conditions as EC",
    "from selenium.common.exceptions import TimeoutException, NoSuchElementException",
    "import time\n"]

  /** The generated lines before the four-space shift, with step bodies
      indented by `indent`. */
  function TestCodeLines(moduleName: string, name: string, actions: seq<Object>, indent: string, footer: seq<string>):
    Option<seq<string>>
  {
    match StepsLines(1, actions, indent)
    case None => None
    case Some(steps) => Some(HeaderLines(moduleName, name) + steps + footer)
  }

  /** The generated lines shifted by four spaces and joined, or "" when
      generating them raises. */
  function ShiftedCode(lines: Option<seq<string>>): (code: string)
    ensures code == "" <==> lines.None? || lines.value == []
    ensures lines.Some? ==> code == Text.Join(Text.Indent(lines.value, "    "), "\n")
  {
    match lines
    case None => ""
    case Some(ls) =>
      var shifted := Text.Indent(ls, "    ");
      if ls == [] then ""
      else
        assert shifted[0] == "    " + ls[0];
        assert |shifted| == 1 || Text.Join(shifted, "\n") == shifted[0] + "\n" + Text.Join(shifted[1..], "\n");
        Text.Join(shifted, "\n")
  }

  /** `generate_test_code` as written: action and context lines unindented,
      and the success line left at the column of the `try:`. */
  function GenerateTestCodeAsWritten(moduleName: string, name: string, actions: seq<Object>): string {
    ShiftedCode(TestCodeLines(moduleName, name, actions, "", FooterLines))
  }

  /** `generate_test_code` with the action and context lines and the
      success line inside the `try:` body. */
  function GenerateTestCode(moduleName: string, name: string, actions: seq<Object>): string {
    ShiftedCode(TestCodeLines(moduleName, name, actions, "        ", IntendedFooterLines))
  }

  /** The generated code has the ten opening lines, each step's lines and
      the closing lines; and it is produced exactly when no step raises. */
  lemma {:induction false} TestCodeShape(moduleName: string, name: string, actions: seq<Object>, indent: string,
                                         footer: seq<string>)
    ensures TestCodeLines(moduleName, name, actions, indent, footer).Some? <==>
      forall k :: 0 <= k < |actions| ==> StepLines(k + 1, actions[k], indent).Some?
    ensures TestCodeLines(moduleName, name, actions, indent, footer).Some? ==>
      |TestCodeLines(moduleName, name, actions, indent, footer).value| == 10 + StepsCount(1, actions, indent) + |footer|
  {
    StepsShape(1, actions, indent);
  }

  /** The number of lines of the steps from number `i` on, counting a step
      that raises as none. */
  function StepsCount(i: nat, actions: seq<Object>, indent: string): nat
    decreases |actions|
  {
    if actions == [] then 0
    else
      (match StepLines(i, actions[0], indent) case Some(ls) => |ls| case None => 0) +
      StepsCount(i + 1, actions[1..], indent)
  }

  lemma {:induction false} StepsShape(i: nat, actions: seq<Object>, indent: string)
    ensures StepsLines(i, actions, indent).Some? <==>
      forall k :: 0 <= k < |actions| ==> StepLines(i + k, actions[k], indent).Some?
    ensures StepsLines(i, actions, indent).Some? ==> |StepsLines(i, actions, indent).value| == StepsCount(i, actions, indent)
  {
    StepsDefined(i, actions, indent);
    StepsLength(i, actions, indent);
  }

  lemma {:induction false} StepsLength(i: nat, actions: seq<Object>, indent: string)
    ensures StepsLines(i, actions, indent).Some? ==> |StepsLines(i, actions, indent).value| == StepsCount(i, actions, indent)
    decreases |actions|
  {
    if actions != [] {
      StepsLength(i + 1, actions[1..], indent);
    }
  }

  lemma {:induction false} StepsDefined(i: nat, actions: seq<Object>, indent: string)
    ensures StepsLines(i, actions, indent).Some? <==>
      forall k :: 0 <= k < |actions| ==> StepLines(i + k, actions[k], indent).Some?
    decreases |actions|
  {
    if actions != [] {
      var rest := actions[1..];
      StepsDefined(i + 1, rest, indent);
      if StepsLines(i, actions, indent).Some? {
        forall k | 0 <= k < |actions| ensures StepLines(i + k, actions[k], indent).Some? {
          if k > 0 {
            assert actions[k] == rest[k - 1];
            assert StepLines(i + 1 + (k - 1), rest[k - 1], indent).Some?;
          }
        }
      } else if StepLines(i, actions[0], indent).Some? {
        var k :| 0 <= k < |rest| && StepLines(i + 1 + k, rest[k], indent).None?;
        assert actions[k + 1] == rest[k];
        assert StepLines(i + (k + 1), actions[k + 1], indent).None?;
      }
    }
  }

  /** A step of a recorded action waits exactly when the action came more
      than half a second after the previous one, and checks the context
      the driver reported. */
  lemma RecordedStep(i: nat, indent: string, actionType: string, now: int, gap: int, context: Object,
                     element: Value, coordinates: Value, text: Value, duration: Value, extraInfo: Value)
    ensures var a := NewAction(actionType, now, gap, context, element, coordinates, text, duration, extraInfo);
      && SleepLines(a).Some? && (SleepLines(a).value != [] <==> gap > 500)
      && ContextLines(a) == Some(ContextCheckLines(context))
      && (StepLines(i, a, indent).Some? <==> ActionLines(a).Some?)
  {
    NewActionFixed(actionType, now, gap, context, element, coordinates, text, duration, extraInfo);
  }

  /** The locator a click step waits for: the element's `locator_type`
      (default 'id') in upper case and its `locator_value` (default ''). */
  function LocatorLine(element: Object, t: string): string {
    var v := match Lookup(element, "locator_value") case Some(x) => x case None => Str("");
    "    EC.presence_of_element_located((AppiumBy." + Text.Upper(t) + ", '" + Render(v) + "'))"
  }

  /** `locator_type` of an element, 'id' when it has none. */
  function LocatorType(element: Object): Value {
    match Lookup(element, "locator_type") case Some(x) => x case None => Str("id")
  }

  /** The step of a click on an element has action lines exactly when the
      element's locator type is a string; they wait for that element's
      locator and then click it. */
  lemma ClickStepLocates(i: nat, a: Object, indent: string)
    requires HasKey(a, "type") && Get(a, "type") == Str("click") && HasKey(a, "element") && Get(a, "element").Dict?
    ensures ActionLines(a).Some? <==> LocatorType(Get(a, "element").entries).Str?
    ensures StepLines(i, a, indent).Some? ==>
      var lines := StepLines(i, a, indent).value;
      var e := Get(a, "element").entries;
      && |lines| >= 5
      && lines[1] == indent + "element = wait.until("
      && lines[2] == indent + LocatorLine(e, LocatorType(e).s)
      && lines[4] == indent + "element.click()"
  {
    var e := Get(a, "element").entries;
    if ActionLines(a).Some? {
      assert ActionLines(a).value == LocateLines(Dict(e)).value + ["element.click()"];
    }
    if StepLines(i, a, indent).Some? {
      StepParts(i, a, indent);
      var act := ActionLines(a).value;
      var lines := StepLines(i, a, indent).value;
      assert lines[1] == Text.Indent(act, indent)[0];
      assert lines[2] == Text.Indent(act, indent)[1];
      assert lines[4] == Text.Indent(act, indent)[3];
    }
  }

  /** A recorded click on a (non-empty) element gives a step exactly when
      the element's locator type is missing or a string, and that step
      waits for the element's locator and then clicks it. */
  lemma RecordedClickLocates(i: nat, indent: string, now: int, gap: int, context: Object,
                             element: Object, coordinates: Value, text: Value, duration: Value, extraInfo: Value)
    requires element != []
    ensures var a := NewAction("click", now, gap, context, Dict(element), coordinates, text, duration, extraInfo);
      && (StepLines(i, a, indent).Some? <==> LocatorType(element).Str?)
      && (StepLines(i, a, indent).Some? ==>
            var lines := StepLines(i, a, indent).value;
            && |lines| >= 5
            && lines[1] == indent + "element = wait.until("
            && lines[2] == indent + LocatorLine(element, LocatorType(element).s)
            && lines[4] == indent + "element.click()")
  {
    var a := NewAction("click", now, gap, context, Dict(element), coordinates, text, duration, extraInfo);
    assert HasKey(a, "type") && Get(a, "type") == Str("click") by {
      NewActionFixed("click", now, gap, context, Dict(element), coordinates, text, duration, extraInfo);
    }
    assert HasKey(a, "element") && Get(a, "element") == Dict(element) by {
      NewActionOptional("click", now, gap, context, Dict(element), coordinates, text, duration, extraInfo);
    }
    RecordedStep(i, indent, "click", now, gap, context, Dict(element), coordinates, text, duration, extraInfo);
    ClickStepLocates(i, a, indent);
  }
}
