# Mobile test automation core, modelled in Dafny

This project models the bookkeeping at the heart of a desktop tool for
automating Android and iOS app tests through Appium:

- **the device manager**: platform switching, the retry wrapper, device
  discovery from adb / idevice_id / tidevice output, and the registry of
  Appium servers, kept in two dicts keyed by port;
- **the device tab**: the table that binds a connected device to the port
  of the server started for it, the refreshes of the device list and the
  server table that follow every change, and the running-time label;
- **the helpers**: the free-port scan, the port release retries,
  `format_time`, `get_platform_name`, the recursive schema check,
  device-info parsing and the health probe;
- **the configuration store**: dotted-path `get`/`set`, the recursive
  `deep_update` merge, schema validation and default filling;
- **the test-case and assertion managers**: in-memory stores from module
  name to records, with create, lookup, update, delete and the listing
  sorted by `updated_at`. They also cover report counts, old-report
  selection, assertion verification and assertion code generation;
- **the action recorder**: the recording state machine, the Appium
  capabilities built from the configuration, and the generated test code;
- **the step editor**: in-place editing of the step list (append, delete,
  move up/down, template insertion) and the per-step script lines.

The outside world becomes parameters. That covers command output, health
polls, port and bind checks, spawned process ids, clock readings, user
confirmations, whether a record's file is found, and the driver's element
lookup. Python dicts whose order matters are association lists
(`Json.Object`) with a `Lookup` that finds the first entry. Registries
whose iteration order matters carry an explicit insertion order next to
their `map`.

Files, one module each: `wrappers.dfy`, `text.dfy`, `json.dfy`, `seqs.dfy`,
`sorting.dfy` (shared support); `helpers.dfy`, `config.dfy`,
`device_manager.dfy`, `device_tab.dfy`, `records.dfy` (the store both
managers share), `testcase_manager.dfy`, `assertion_manager.dfy`,
`recorder.dfy`, `step_editor.dfy`.

## Model

| member | source | states |
|---|---|---|
| Helpers.GetFreePort | utils/helpers.py:234-263 | Returns the smallest port in [start, end] that is not excluded, not in use and bindable. Returns None exactly when no port in the range qualifies. |
| Helpers.KillProcessByPort | utils/helpers.py:185-232 | Succeeds iff one of the first `max_retries` attempts releases the port. It stops at the first such attempt, and sleeps only between an attempt that failed and the next. |
| Helpers.SplitFormatTime | utils/helpers.py:265-277 | Splitting the formatted time at ':' gives back its fields, each at least two digits. |
| Helpers.FormatTimeReadBack | utils/helpers.py:265-277 | Reading the fields back recovers the number of seconds: HH:MM:SS from one hour on, MM:SS below, with minutes and seconds under 60. |
| Helpers.ClockArithmetic | utils/helpers.py:271-277 | h·3600 + m·60 + s is the whole, m and s are under 60, and the hours field is shown iff the time is at least an hour. |
| Helpers.PlatformName | utils/helpers.py:279-293 | The result is lower case. It is 'mac' exactly for darwin (or mac) and 'win' exactly for windows (or win). Any other system gives its lower-cased name. |
| Helpers.PlatformNameIdempotent | utils/helpers.py:279-293 | Naming a platform name again gives it back. |
| Helpers.ValidateDictIff | utils/helpers.py:524-537 | `validate_dict` raises nothing iff every schema key is present, every nested schema meets a dict that conforms, and every leaf has its type. |
| Helpers.ValidateDictPath | utils/helpers.py:524-537 | Every error path extends the path the check started from, which is how the "key." prefixes build up. |
| Helpers.ValidateConfig | utils/helpers.py:494-539 | `validate_config` raises nothing iff the configuration conforms to the required-field schema. |
| Helpers.ConformingConfig | utils/helpers.py:503-522 | A conforming configuration has string work_dir and log_level, and dicts device and record with their typed fields. |
| Helpers.ParsePropsLastWins | utils/helpers.py:612-618 | A key is in the parsed dict iff some line with a ':' defines it. Its value is the cleaned text after the first ':' of the last such line. |
| Helpers.GetDeviceInfo | utils/helpers.py:594-663 | Succeeds iff the platform is android or ios and the command printed. An unsupported platform gives an EnvironmentError around that cause. Each field is the parsed property or 'Unknown'. |
| Helpers.CheckAppiumService | utils/helpers.py:665-678 | Healthy iff the probe answered status 200; an exception means unhealthy. |
| Configuration.GetAfterSet | utils/config.py:90-103 | After a successful `set`, `get` of the same dotted path returns the value set. |
| Configuration.SetFailsIff | utils/config.py:97-103 | `set` raises exactly when a proper prefix of the path already leads to a value that is not a dict. |
| Configuration.NothingBelowEmpty | utils/config.py:99-103 | Setting any path in an empty dict succeeds: missing levels are created. |
| Configuration.SetKeepsOtherKeys | utils/config.py:97-103 | `set` leaves every other top-level key as it was. |
| Configuration.SetKeepsOtherPaths | utils/config.py:97-103 | `get` along any dotted path that parts from the one written (neither a prefix of it nor an extension) finds what it found before the `set`. |
| Configuration.MergeOkIff | utils/config.py:111-117 | `deep_update` completes iff no dict value of the update meets a non-dict at the same place, at any depth. |
| Configuration.MergeEffect | utils/config.py:111-119 | A completed merge keeps keys only the original has and stores non-dict update values as given. Dict update values become the recursive merge of what was there. |
| Configuration.MergeStaysDict | utils/config.py:111-117 | Merging into a dict always leaves a dict. |
| Configuration.DeepUpdate | utils/config.py:111-117 | The in-place recursive update computes exactly the merge and reports whether it completed. |
| Configuration.LoadConfig | utils/config.py:28-54 | Loading succeeds iff the dict read passes `_validate_config`. Then every default-filling step of `_supplement_config` runs to completion. |
| Configuration.Config.constructor | utils/config.py:18-54 | The store starts from the loaded dict, validated and completed with its defaults. |
| Configuration.Config.Get | utils/config.py:72-88 | Follows the dotted path. Returns the default on a missing key or a non-dict on the way. |
| Configuration.Config.Set | utils/config.py:90-103 | The new store is the dict the dotted-path write produces, or the old one when the write raises. |
| Configuration.Config.Update | utils/config.py:105-119 | The new store is the merge, including a merge cut short, since the dict is updated in place. |
| Configuration.Config.ValidateConfig | utils/config.py:139-177 | Raises ConfigError exactly when the required-field schema is violated. |
| Configuration.Config.Supplement | utils/config.py:179-197 | The new store is the result of the four default-filling steps in order. |
| Configuration.FillKeeps | utils/config.py:182-187 | Filling one top-level default leaves every other key unchanged. |
| Configuration.FillSets | utils/config.py:182-187 | An empty value is replaced by the default and a non-empty one is kept. |
| Configuration.FillNestedKeeps | utils/config.py:190-197 | Filling a nested default leaves every other top-level key unchanged. |
| Configuration.FillNestedSets | utils/config.py:190-197 | An empty nested value takes the default when there is one, and a non-empty one is kept. |
| Configuration.ConformingHasSupplementKeys | utils/config.py:48-49 | A configuration that passed validation has every key `_supplement_config` reads. |
| Configuration.SupplementFillsDefaults | utils/config.py:179-197 | Every step runs. Empty work_dir, log_level and record.save_dir get their defaults, and an empty android_sdk takes a non-empty ANDROID_HOME. Non-empty values and all other keys are kept. |
| DeviceManagement.RetryOperation | core/device_manager.py:109-127 | At most `max_retries` calls; the first value returned is the result. There is one sleep between consecutive failures, and the last exception is re-raised after the final failure. |
| DeviceManagement.AndroidRecords | core/device_manager.py:138-172 | One Android record per device whose properties could be read, in adb's order. The model shown is brand and model. |
| DeviceManagement.AndroidRecordsExact | core/device_manager.py:138-172 | The records are exactly the records of the adb devices whose properties could be read, one each, in adb's order; no such device is skipped. |
| DeviceManagement.NonBlank | core/device_manager.py:184 | Keeps only the ids that are not blank, each taken from the listing. |
| DeviceManagement.NonBlankExact | core/device_manager.py:184 | Every non-blank line of the listing is kept, in order, and nothing else. |
| DeviceManagement.IdeviceRecords | core/device_manager.py:175-213 | One iOS record per listed id whose info command succeeded. |
| DeviceManagement.IdeviceRecordsExact | core/device_manager.py:175-213 | The records are exactly one per listed id whose info command succeeded, in listing order, with that id and its properties. |
| DeviceManagement.TideviceLine | core/device_manager.py:223-228 | A tidevice list line gives a record only under the id that is its first word. |
| DeviceManagement.TideviceRecords | core/device_manager.py:214-255 | Every record comes from a listed line whose first word is its id. |
| DeviceManagement.TideviceRecordsExact | core/device_manager.py:214-255 | The records are exactly one per listed line that yields a device, in listing order. |
| DeviceManagement.Discover | core/device_manager.py:133-262 | Only records of the current platform are returned. A failed adb, idevice_id or tidevice listing, or an unknown platform, gives none. |
| DeviceManagement.PollOutcomes | core/device_manager.py:298-319 | A start-up becomes healthy or times out, never both. Otherwise a poll raised before any 200. |
| DeviceManagement.ByProbeMembers | core/device_manager.py:382-391 | The ports kept (or stopped) by a listing are exactly those whose probe did not raise (or did). |
| DeviceManagement.RunningSound | core/device_manager.py:382-401 | Every listed server is a registered port whose probe answered 200. It is shown as running, with its registered host and start time. |
| DeviceManagement.RunningComplete | core/device_manager.py:382-401 | Every registered port whose probe answered 200 is listed. |
| DeviceManagement.DropFailedIs | core/device_manager.py:387-391 | Stopping the failed ports one by one removes exactly the set of failed ports. |
| DeviceManagement.ListServersAsWrittenRaises | core/device_manager.py:382-391 | As written, the listing raises iff some registered port's probe raised. Otherwise it equals the intended listing. |
| DeviceManagement.ListServersAsWrittenCounterexample | core/device_manager.py:382-391 | With two servers where the first stops answering, the listing as written raises, while the intended listing shows the second. |
| DeviceManagement.DeviceManager.constructor | core/device_manager.py:12-20 | Starts on android with no devices, empty registries and three retries. |
| DeviceManagement.DeviceManager.SetPlatform | core/device_manager.py:25-34 | Accepts exactly android and ios, then sets the platform and empties the device list. Any other name changes nothing (the source raises). |
| DeviceManagement.DeviceManager.GetDevices | core/device_manager.py:129-131 | The device list becomes the discovered devices after exactly one call, since the internal discovery never raises. |
| DeviceManagement.DeviceManager.StartServerInternal | core/device_manager.py:268-323 | Registers the port in both dicts, as running, iff the port is free or released, the spawn succeeded and a poll answered 200 before any raised. On a timeout only the process is terminated. |
| DeviceManagement.DeviceManager.StartAppiumServer | core/device_manager.py:264-266 | Same outcome as the internal start, which the retry wrapper calls once: the port is registered as running iff it is free or released, the spawn succeeded and a poll answered 200. A timeout terminates only the process, and the platform and devices are unchanged. |
| DeviceManagement.DeviceManager.StopServer | core/device_manager.py:331-351 | A registered port is terminated and removed from both dicts; an unknown port changes nothing. |
| DeviceManagement.DeviceManager.StopAllServers | core/device_manager.py:352-371 | Terminates every registered process in registration order and leaves both dicts empty. |
| DeviceManagement.DeviceManager.CheckPort | core/device_manager.py:382-399 | One port of the listing: a 200 lists it as running, and a probe that raised stops its server. |
| DeviceManagement.DeviceManager.GetAppiumServers | core/device_manager.py:376-401 | Lists, in registration order, the ports that answered 200, and stops exactly the ports whose probe raised. The loop runs over a snapshot of the ports. |
| DeviceTabModel.RunningTimeLabel | gui/device_tab.py:341-349 | Seconds under a minute and whole minutes under an hour. Otherwise whole hours plus leftover minutes, each bounded so the label brackets the running time. |
| DeviceTabModel.DeviceTab.constructor | gui/device_tab.py:19-38 | No device is connected and no device is listed; every bound port is registered. |
| DeviceTabModel.DeviceTab.RefreshDevices | gui/device_tab.py:263-267 | The tab's device list and the manager's become the discovered devices. Connections and servers are unchanged. |
| DeviceTabModel.DeviceTab.RefreshAppiumStatus | gui/device_tab.py:329-333 | The server table is the listing of the ports that answered 200. Every registered server whose probe raised is stopped and unregistered, and nothing else changes. |
| DeviceTabModel.DeviceTab.Connect | gui/device_tab.py:388-450 | Fails, changing neither table, registry nor device list, for a connected id, a range with no free port, or a server that does not start; the only process it terminates then is a spawned server that timed out. Otherwise binds the device to the first free port and registers its healthy server. Then both refreshes run: the device list is rediscovered, and the servers whose probe raised are unregistered and their processes terminated, in registration order. When every registered port was in use and no probe raises, every bound port stays registered. |
| DeviceTabModel.DeviceTab.Disconnect | gui/device_tab.py:486-513 | An unknown id changes nothing and terminates nothing. A connected one has its port's server process terminated and unregistered, and is removed. Then both refreshes run, terminating the processes whose probe raised, in registration order. When no probe raises, every bound port stays registered. |
| DeviceTabModel.DeviceTab.StopAll | gui/device_tab.py:524-568 | Once confirmed, every device connected at the start is disconnected, with the refreshes of each disconnection, and the device list is rediscovered. The stop log only grows, and when the table was coupled to the registry it holds the process of every connected device. Without devices or confirmation nothing changes and nothing is terminated. |
| DeviceTabModel.DeviceTab.DisconnectAll | gui/device_tab.py:563-565 | Disconnecting a snapshot of the ids empties the table, unregisters every bound port and the servers whose probe raised, and, when the table was coupled to the registry, terminates the process of every connected device. |
| DeviceTabModel.DeviceTab.Toggle | gui/device_tab.py:369-386 | A connected device is disconnected: its server process is terminated and unregistered, and it leaves the table and the id order. Any other is connected iff a port is free and its server comes up. It is then bound to the first free port, appended to the id order, and its server is registered. A failed connection changes neither the table nor the registries, and terminates only a spawned server that timed out. The servers whose probe raised are terminated, the device list is rediscovered, and the table stays coupled to the registry. |
| Records.FindNamed | core/testcase_manager.py:149-161 | The position of the first record with that name, or none when no record has it. |
| Records.DropNamed | core/testcase_manager.py:241-244 | Keeps exactly the records without that name. |
| Records.DropNamedCount | core/testcase_manager.py:241-244 | The kept and the removed records together are the original records, as a multiset. |
| Records.LoadedMembers | core/testcase_manager.py:51-88 | A record is loaded iff its file parsed to a non-empty dict that passes the record check. |
| Records.LoadedNamed | core/testcase_manager.py:51-88 | Every loaded record has a name. |
| Records.ApplyUpdatesLookup | core/testcase_manager.py:183 | After `dict.update`, an updated key holds the new value and every other key its old one. |
| Records.ApplyUpdatesKeys | core/testcase_manager.py:178-183 | Updates that only name existing keys leave the key list unchanged. |
| Records.UpdatedKeepsName | core/testcase_manager.py:183-184 | An update that does not touch the name keeps the record's name. |
| Records.UpdatedHasName | core/testcase_manager.py:183-184 | An accepted update never loses the name key. |
| Records.ReplaceFirstNamed | core/testcase_manager.py:198-201 | Replaces exactly the first record with that name, leaving the others and the length unchanged. |
| Records.FlattenMembers | core/testcase_manager.py:266-268 | The all-modules listing holds exactly the records of the known modules. |
| Records.WithStatus | core/testcase_manager.py:270-271 | Keeps exactly the records with that status. |
| Records.PickedMembers | core/testcase_manager.py:266-271 | A record is considered iff it is in the requested module (any, when none is given) and has the requested status (any, when none is given). |
| Records.ListingSpec | core/testcase_manager.py:258-277 | The listing is sorted newest `updated_at` first and is a permutation of the considered records. It is empty when some record has no string `updated_at`. |
| Records.ListingStable | core/testcase_manager.py:273 | Records with equal `updated_at` keep the order in which they were considered, as Python's sort is stable. |
| Sorting.SortStable | core/testcase_manager.py:273 | For every key, the items with that key appear in the sorted list in their original order. |
| Records.Store.constructor | core/testcase_manager.py:10-19 | The store starts empty. |
| Records.Store.Find | core/testcase_manager.py:149-161 | Found iff the module has a record with that name; the first such record is returned. |
| Records.Store.SetModule | core/testcase_manager.py:51-88 | Sets a module's records, adding the module to the order when it is new. |
| Records.Store.LoadModule | core/testcase_manager.py:51-88 | A module's records become its loaded records. |
| Records.Store.Append | core/testcase_manager.py:134-136 | Appends one record to the module's list, creating the list when missing. |
| Records.Store.UpdateNamed | core/testcase_manager.py:163-213 | Fails for an unknown record or an unknown update key, and then changes nothing. Otherwise the record is updated in place before the file search, and it replaces the first record of that name when its file is found. |
| Records.Store.ReplaceFirst | core/testcase_manager.py:198-201 | Only the first record of that name in the module is replaced. |
| Records.Store.DeleteNamed | core/testcase_manager.py:215-256 | Succeeds iff the record exists and its file is found. It then removes every record of that name from the module and nothing else. |
| TestCases.NewTestCase | core/testcase_manager.py:111-120 | The new record is named as asked. |
| TestCases.NewTestCaseSpec | core/testcase_manager.py:111-120 | The new record passes the record check, has each key once, and is 'active' as of now. |
| TestCases.TestCaseManager.constructor | core/testcase_manager.py:10-19 | No test cases. |
| TestCases.TestCaseManager.LoadModule | core/testcase_manager.py:51-88 | The module's cases are the parsed files that pass `_validate_test_case`. |
| TestCases.TestCaseManager.Create | core/testcase_manager.py:90-147 | Succeeds iff every argument is truthy and the name is new in its module. It then appends exactly the new active record, creating the module when missing; otherwise nothing changes. |
| TestCases.TestCaseManager.Update | core/testcase_manager.py:163-213 | Fails for an unknown case or an update key the case lacks. Otherwise the record is updated and time-stamped in place, and written back when its file is found. |
| TestCases.TestCaseManager.Delete | core/testcase_manager.py:215-256 | Fails when the case is absent or its file is not found, and then changes nothing. Otherwise removes every case of that name from the module and keeps the rest. |
| TestCases.Summarize | core/testcase_manager.py:366-373 | Counts exist iff every result has a status and a numeric duration, and then the total is the number of results. |
| TestCases.DurationBounded | core/testcase_manager.py:371 | When each duration lies in [0, m], the total duration lies in [0, m·n]. |
| TestCases.CountsBounded | core/testcase_manager.py:369-370 | Passed plus failed never exceeds the number of results. |
| TestCases.SummaryBounded | core/testcase_manager.py:366-373 | In a report, passed + failed ≤ total. |
| TestCases.Reports | core/testcase_manager.py:400-404 | Exactly the files named report_*.json. |
| TestCases.OldReportsSpec | core/testcase_manager.py:393-418 | Only reports are deleted: all but the `keep_count` newest, and none newer than a report that is kept. |
| Assertions.NewAssertion | core/assertion_manager.py:134-145 | The new record is named as asked. |
| Assertions.NewAssertionValid | core/assertion_manager.py:134-145 | The new record passes `_validate_assertion` and has the requested type. |
| Assertions.NewAssertionFields | core/assertion_manager.py:134-145 | Keeps expected_text only for a text assertion, and stores the locator type, the timeout, the time and status 'active'. |
| Assertions.NewAssertionNoAttribute | core/assertion_manager.py:134-145 | The new record has no attribute_name and no expected_value. |
| Assertions.NewAssertionUnique | core/assertion_manager.py:134-145 | Each key appears once. |
| Assertions.AssertionManager.constructor | core/assertion_manager.py:15-24 | No assertions. |
| Assertions.AssertionManager.LoadModule | core/assertion_manager.py:62-99 | The module's assertions are the parsed files that pass `_validate_assertion`. |
| Assertions.AssertionManager.Create | core/assertion_manager.py:101-172 | Succeeds iff the arguments are truthy, the type is one of the five, a text type has expected text, and the name is new. It then appends exactly the new record, whose timeout is the given non-zero one or else the configured one; it fails when neither exists. Otherwise nothing changes. |
| Assertions.AssertionManager.Update | core/assertion_manager.py:188-238 | Fails for an unknown assertion or an update key it lacks. Otherwise it is updated in place and written back when its file is found. |
| Assertions.AssertionManager.Delete | core/assertion_manager.py:240-281 | Fails when absent. Otherwise removes every assertion of that name from the module and keeps the rest. |
| Assertions.Verify | core/assertion_manager.py:304-376 | Passes only once the element is located. A text check passes iff the stripped texts agree. An attribute check without its name or value fails, and an unknown type fails. |
| Assertions.CreatedVerdict | core/assertion_manager.py:134-145 | For a created assertion whose element is found, exists passes and text compares stripped texts. The state checks report the element, and attribute can never pass. |
| Assertions.UpdateAddsNoKey | core/assertion_manager.py:203-209 | An accepted update adds no key except updated_at, so an attribute assertion never gains attribute_name. |
| Assertions.CodeHeader | core/assertion_manager.py:391-397 | The locating block is four lines opening with `try:`. |
| Assertions.CodeBranch | core/assertion_manager.py:400-427 | Each assertion type adds its fixed number of lines. |
| Assertions.CodeFooter | core/assertion_manager.py:430-437 | The handlers are six lines, ending with the generic handler. |
| Assertions.AssertionCodeCarries | core/assertion_manager.py:390-437 | The generated code waits with the assertion's timeout (the configured one when it has none), locates by `AppiumBy.` and the upper-cased locator type with the locator value, compares a text assertion's expected text and an attribute assertion's name and value, and on a timeout raises AssertionError naming the locator type and value. |
| Assertions.AssertionCodeLines | core/assertion_manager.py:378-443 | Code exists iff the assertion is valid, the locator type is a string, the configured timeout exists, and an attribute assertion names its attribute and value. It is 4 + branch + 6 lines. |
| Assertions.GenerateAssertionCode | core/assertion_manager.py:378-443 | "" exactly for an assertion that cannot be generated; otherwise the code starts with the indented `try:`. |
| Assertions.GeneratedLines | core/assertion_manager.py:439 | Split back at line breaks, the code has one line per generated line, each starting with four spaces. |
| Recording.DeviceConfig | core/recorder.py:64 | Without a devices key there are no overrides. |
| Recording.Override | core/recorder.py:66-73 | A capability is overridden only when its key is configured, and no other key changes. |
| Recording.AndroidBaseIdentity | core/recorder.py:35-39 | The base Android capabilities name the platform, version and device. |
| Recording.AndroidBaseNoReset | core/recorder.py:40 | noReset is true by default. |
| Recording.AndroidBasePort | core/recorder.py:48 | systemPort is 8201 by default. |
| Recording.AndroidBaseNoApp | core/recorder.py:35-61 | The base sets no appPackage and no appActivity. |
| Recording.AndroidOverrides | core/recorder.py:65-73 | Package, activity, system port and no-reset come from the device entry only where it has them. |
| Recording.WithDefaultApp | core/recorder.py:76-78 | Without a package the settings app is used, replacing any activity. |
| Recording.AndroidCapsDefined | core/recorder.py:30-80 | The capabilities build iff the device has a version and an id and its configuration entry can be read. |
| Recording.AndroidCapsSpec | core/recorder.py:30-80 | The capabilities override only configured keys. Without a configured package they use com.android.settings/.Settings, whatever activity was configured. |
| Recording.OverriddenSettings | core/recorder.py:70-73 | The system port and no-reset flag are overridden exactly when configured. |
| Recording.OverriddenApp | core/recorder.py:66-78 | The package and activity are the configured ones, or the settings app when no package is configured. |
| Recording.IosBase | core/recorder.py:87-96 | The iOS base names the platform, version and device, sets noReset, and has no bundle id or WebDriverAgent port. |
| Recording.IosOverrides | core/recorder.py:99-106 | The bundle id, WebDriverAgent port and no-reset come from the device entry only where it has them. |
| Recording.IosCapsDefined | core/recorder.py:82-108 | The capabilities build iff the device has a version and an id and its entry can be read. |
| Recording.IosCapsSpec | core/recorder.py:82-108 | The iOS capabilities override only configured keys. |
| Recording.NewAction | core/recorder.py:253-269 | The action has each key once. |
| Recording.NewActionFixed | core/recorder.py:253-258 | The action holds its type, time, gap and context. |
| Recording.NewActionOptional | core/recorder.py:260-269 | Each optional argument is stored exactly when it is truthy. |
| Recording.Recorder.constructor | core/recorder.py:14-28 | Not recording, no actions, no times. |
| Recording.Recorder.StartRecording | core/recorder.py:110-189 | Succeeds iff a device is set, its platform is android or ios, its capabilities build, the server is configured and the driver connects. It then starts a fresh session now; otherwise nothing changes. |
| Recording.Recorder.RecordAction | core/recorder.py:223-277 | Outside a session nothing happens. Inside one, exactly one action is appended with the gap since the previous one, and now becomes the last action time. |
| Recording.Recorder.StopRecording | core/recorder.py:191-221 | The session ends and every recorded action is returned. |
| Recording.LocateLines | core/recorder.py:407-416 | Locating an element takes three lines. |
| Recording.SwipeLines | core/recorder.py:437-452 | A swipe takes five lines. |
| Recording.LongPressLines | core/recorder.py:454-479 | A long press takes six lines on an element and three at coordinates. |
| Recording.TouchLines | core/recorder.py:490-496 | One touch takes four lines. |
| Recording.TouchesLines | core/recorder.py:490-496 | The touches take four lines each. |
| Recording.MultiTouchLines | core/recorder.py:481-501 | A multi-touch takes four lines per touch plus one line performing them together. |
| Recording.ActionLineCounts | core/recorder.py:356-370 | click 4 (with an element), input 5, swipe 5, long press 6 or 3, multi-touch 4·n + 1. Any other type, or one missing what it needs, gives none. |
| Recording.SleepLines | core/recorder.py:373-374 | A wait line exists exactly when the gap exceeds half a second, and it is indented into the test body. |
| Recording.ContextCheckLines | core/recorder.py:503-527 | Four lines for a recorded activity and four for a recorded window. |
| Recording.StepLines | core/recorder.py:351-378 | A step is its comment, its action lines, its wait line and its context check. It fails exactly when one of them raises. |
| Recording.StepBodyIndented | core/recorder.py:346-378 | With the intended indentation, every line of a step after its comment is inside the `try:` body. |
| Recording.StepAsWrittenLeavesTry | core/recorder.py:356-358 | As written, a recorded click's first code line starts at the left margin, outside the `try:` body. |
| Recording.FooterAsWrittenLeavesTry | core/recorder.py:381-395 | As written, the four-space shift lands before the line break of the first closing entry, so the success log line stays at column 8, the column of the shifted `try:`. |
| Recording.IntendedFooterInsideTry | core/recorder.py:381-395 | With the blank line as its own entry, the success line and `return True` are at column 12, inside the `try:` body, and the handlers at the column of the `try:`. |
| Recording.ShiftedCode | core/recorder.py:395-399 | "" exactly when generation raised or produced nothing; otherwise every line is shifted by four spaces. |
| Recording.HeaderLines | core/recorder.py:337-348 | The header is ten lines, the ninth being `try:`. |
| Recording.TestCodeShape | core/recorder.py:329-399 | The code has its ten opening lines, the steps and the closing lines. It is produced exactly when no step raises. |
| Recording.StepsShape | core/recorder.py:351-378 | The steps are produced exactly when each step is, and their length is the sum of the steps' lengths. |
| Recording.RecordedStep | core/recorder.py:253-258 | A recorded action's step waits exactly when the gap exceeds half a second, and checks the context the driver reported. |
| Recording.ClickStepLocates | core/recorder.py:401-416 | A click step on an element has action lines iff the element's locator type is a string. It waits for `AppiumBy.` with that type upper-cased and the element's locator value, then clicks. |
| Recording.RecordedClickLocates | core/recorder.py:253-269 | A recorded click on a non-empty element gives a step iff its locator type is missing or a string, and the step locates that element and clicks it. |
| StepEditing.NewStep | gui/dialogs/step_editor.py:372-383 | The default step has the ten keys of the source. |
| StepEditing.NewStepSpec | gui/dialogs/step_editor.py:372-383 | The default step is a click waiting 1000 ms, with timeout 10000, retry 3 and continue_on_failure false, each key once. |
| StepEditing.Swap | gui/dialogs/step_editor.py:444-445 | Swaps the two positions, changes nothing else, and is a permutation. |
| StepEditing.SwapTwice | gui/dialogs/step_editor.py:442-445 | Swapping twice restores the list, so a move up undoes a move down. |
| StepEditing.Pop | gui/dialogs/step_editor.py:423 | `list.pop(i)` shifts the later elements left by one. |
| StepEditing.PopEach | gui/dialogs/step_editor.py:420-423 | Popping the selected rows one by one as written removes one element per row when nothing raises. |
| StepEditing.CountBelow | gui/dialogs/step_editor.py:420-423 | At most n selected rows lie below n. |
| StepEditing.WithoutRowsLength | gui/dialogs/step_editor.py:420-423 | Deleting the selected rows removes one element per selected position. |
| StepEditing.WithoutRowsAt | gui/dialogs/step_editor.py:420-423 | Every unselected step survives, moved up by the number of selected rows above it. |
| StepEditing.WithoutNoRows | gui/dialogs/step_editor.py:420-423 | Deleting no existing row changes nothing. |
| StepEditing.WithoutOneRow | gui/dialogs/step_editor.py:420-423 | Deleting one selected row is exactly `pop(i)`. |
| StepEditing.DeleteSingle | gui/dialogs/step_editor.py:420-423 | With one row selected, the source's pop loop removes exactly that row. |
| StepEditing.DeleteStaleRows | gui/dialogs/step_editor.py:420-423 | With rows 1 and 2 selected, the pop loop removes b and d instead of b and c. With rows 2 and 3 selected, it raises after removing c. |
| StepEditing.StepEditor.constructor | gui/dialogs/step_editor.py:110-117 | The editor starts from its own copy of the steps. |
| StepEditing.StepEditor.AddStep | gui/dialogs/step_editor.py:368-386 | Exactly one default step is appended. |
| StepEditing.StepEditor.MoveUp | gui/dialogs/step_editor.py:433-452 | The first selected step swaps with the one above iff it is not first; otherwise nothing changes. |
| StepEditing.StepEditor.MoveDown | gui/dialogs/step_editor.py:461-480 | The first selected step swaps with the one below iff it is not last; otherwise nothing changes. |
| StepEditing.StepEditor.DeleteAsWritten | gui/dialogs/step_editor.py:404-428 | As written: once confirmed, the rows are popped one by one with stale indices, and the method reports when a pop raised. |
| StepEditing.StepEditor.DeleteSteps | gui/dialogs/step_editor.py:404-428 | Once confirmed, exactly the selected steps are removed and the others keep their order. With nothing selected, or no confirmation, nothing changes. |
| StepEditing.StepEditor.LoadTemplate | gui/dialogs/step_editor.py:654-663 | Inserts the template steps in order at the first selected row (or at the top), giving prefix ++ template ++ suffix. |
| StepEditing.StepEditor.ScriptSteps | gui/dialogs/step_editor.py:1021-1049 | The step loop of the script generator yields the step block of every step in order. |
| StepEditing.Repeat | gui/dialogs/step_editor.py:1030 | `indent * level` has level times the indent's length. |
| StepEditing.StepIndentShape | gui/dialogs/step_editor.py:1021-1025 | Step lines are indented three levels with error handling and two without, by four spaces or by a tab per level. |
| StepEditing.Fraction | gui/dialogs/step_editor.py:1046 | The fractional digits of a seconds value have no trailing zero and read back as the milliseconds. |
| StepEditing.Unsigned | gui/dialogs/step_editor.py:1046 | A rendered non-negative seconds value starts with a digit. |
| StepEditing.UnsignedReadBack | gui/dialogs/step_editor.py:1046 | Reading a rendered non-negative number of seconds back gives the milliseconds. |
| StepEditing.SecondsReadBack | gui/dialogs/step_editor.py:1046 | The seconds printed in `time.sleep(...)` read back as exactly the step's milliseconds, negative ones included. |
| StepEditing.StepCode | gui/dialogs/step_editor.py:1065-1110 | Code exists iff the step's type is a string (and its fields render). It has click 4, input 5, swipe 7, wait 1, assert 4 or 0 lines, all at the step indentation. |
| StepEditing.SleepLine | gui/dialogs/step_editor.py:1043-1047 | There is one sleep line exactly when the step's wait is truthy, at the step indentation. |
| StepEditing.StepBlock | gui/dialogs/step_editor.py:1028-1049 | A step block is its comment, optional log line, code and optional sleep, then an empty line. All lines but the last are at the step indentation. |
| StepEditing.StepsBlockDefined | gui/dialogs/step_editor.py:1028-1049 | The step lines exist iff every step's code and sleep can be generated. |
| StepEditing.StepsBlockLines | gui/dialogs/step_editor.py:1028-1049 | Every step line is empty or indented. There are at least two lines per step, three with logging. |
| StepEditing.NewStepCode | gui/dialogs/step_editor.py:1070-1076 | The default step gives a four-line click and `time.sleep(1.0)`. |

## Left out

- File and JSON persistence is not modelled: loading, saving and the backup renames of records, reports and templates, the directory scans, and `save_recording`. Whether a record's file is found, the parsed files and the report files are parameters.
- Subprocesses, HTTP and sockets are parameters: adb, tidevice, idevice_id and ideviceinfo output, the appium spawn, health polls, port-in-use and bind checks, and kill attempts. So are the clock and sleeps, as integer ticks or counts.
- Concurrency is left out: the device tab's lock, the managers' thread pools and UI timers.
- The Appium driver is left out. Element lookup, the current activity or window, and connecting are parameters.
- UI code (dialogs, tables, message boxes, progress bars) is left out. Only the state changes behind `connect_device`, `disconnect_device`, `stop_all_appium_servers`, `toggle_device_connection`, `refresh_devices` and `refresh_appium_status` are modelled. So is the running-time label, in whole seconds. `set_platform` and `init_device_manager` of the tab only forward to the device manager, whose `set_platform` is modelled.
- DeviceTabModel.DeviceTab.Connect: the generic exception handler of `connect_device` is not modelled, because nothing modelled raises there.
- DeviceManagement.DeviceManager.StopAllServers: per-process termination failures are not modelled. The order processes are told to stop in is recorded, but not the wait/kill escalation.
- Records.ListingSpec: the model sorts only when every considered record has a string `updated_at`, and otherwise returns an empty listing. Python also returns an empty listing when a record lacks the key or two keys cannot be compared (a string and a number, two nulls). But it does list a single record whatever its `updated_at`, and sorts keys that are all numbers. Records the managers create or update always carry a string time.
- Records.Store.Find: the `lru_cache` on `get_test_case`/`get_assertion` is not modelled. The cache is cleared after a create, a delete and an update whose file is found, but not after an update whose file is missing. In that case the cached lookup under the old name still returns the record mutated in place, even when the update renamed it, while the model's Find searches by the current names.
- Configuration.Config.constructor: a dict that fails validation, or a missing or unreadable configuration file, makes `load_config` raise ConfigError. The constructor requires a dict that validates and does not model the raise. The directory creation at the end of `_supplement_config` is not modelled.
- TestCases.Summarize: durations are integers in the model (`bool` counts as a number, as in Python). Float durations, and the report's timestamp and file, are not modelled.
- Text.Lower: only ASCII letters are lowered. Python's `str.lower` also maps letters of other scripts, so test names outside ASCII are not case-mapped as Python would map them.
- Text.Upper: only ASCII letters are raised. Python's `str.upper` also maps letters of other scripts, so locator types outside ASCII are not case-mapped as Python would map them.
- DeviceTabModel.DeviceTab.RefreshAppiumStatus: the refresh uses the corrected listing over a snapshot of the ports. As written, a probe that raises stops only the first failing server before the RuntimeError of the Findings table, which `refresh_appium_status` catches and logs. One probe function answers every refresh within one call of a tab method. The table widgets, colours and running-time cells are not modelled beyond the label.
- Python `in` and `.get` applied to values of unexpected types are modelled as failures (`None`) where Python raises, not as the rare cases where it would succeed.
- Recording.DeviceConfig: a truthy first device entry that is not a dict counts as unreadable. It is not given Python's behaviour for a list or string entry.
- Json.Render: containers interpolated into generated code are rendered by their element count, not by Python's `repr`.
- Recording.SleepLines: gaps are whole milliseconds, and `:.1f` is rounded half up. Python formats the float gap with round-half-even on its binary value.
- StepEditing: every selection is taken as rows of a tree that shows one row per step. After `_delete_step` raises IndexError (`DeleteAsWritten` with `raised`), `load_steps` is skipped, so the tree still shows rows of removed steps. The model then assumes the tree was reloaded before the next selection.
- Helpers.FormatTime: takes whole non-negative seconds. `format_time` takes a float, whose fractional part each field truncates away, so the string is the one for the whole seconds; negative times are not modelled.
- StepEditing.Seconds: `wait / 1000` is a float in Python. The model prints the exact decimal, which is what `repr` prints for |wait| < 10^15 ms. Float waits are not modelled.
- `_generate_script` is modelled only for its step loop and indentation level. Imports, class and method headers, docstrings and the closing except block are left out.
- `_load_template`: only the insertion is modelled. Template files that are not a list of dicts, and the template file listing, are left out.
- The input step of `_generate_step_code` emits five lines, following the code.
- The selection of the step editor is given as row indices in selection order. Qt's item-to-row mapping is not modelled.
- Test-case `generate_test_code` is left out: it only fills a fixed template with the case's fields.
- Aliasing is not modelled: the records returned by lookups are values, while in Python they are shared with the stores.

## Findings

| source | as written | input that shows it | evidently intended | confidence | as-written member | corrected member |
|---|---|---|---|---|---|---|
| core/device_manager.py:382-391 | `get_appium_servers` iterates over `appium_ports` and calls `stop_appium_server(port)` when a probe raises. That deletes from the dict being iterated, so the next step of the loop raises RuntimeError, which escapes the method. | Ports 4723 and 4724 registered; the probe of 4723 raises. | Iterate over a snapshot of the ports: stop 4723 and still list 4724. | not executed | DeviceManagement.ListServersAsWrittenCounterexample, DeviceManagement.ListServersAsWrittenRaises | DeviceManagement.DeviceManager.GetAppiumServers |
| core/recorder.py:356-395 | `generate_test_code` adds each action's lines and context-check lines without indentation. After the four-space shift they sit at column 4, while the `try:` body sits at column 12. The first closing entry also starts with a line break, so the shift lands before it and the success log line stays at column 8, the column of the `try:`, which closes the body before its handlers. The generated test does not parse, even with no recorded action. | One recorded click on an element; or no action at all. | Indent the action and context lines into the `try:` body, like the comment and sleep lines, and put the blank line before the success line in an entry of its own. | not executed | Recording.StepAsWrittenLeavesTry, Recording.FooterAsWrittenLeavesTry, Recording.GenerateTestCodeAsWritten | Recording.StepBodyIndented, Recording.IntendedFooterInsideTry, Recording.GenerateTestCode |
| gui/dialogs/step_editor.py:420-423 | `_delete_step` pops the selected rows one by one with indices computed before any pop. Every earlier pop shifts the later rows. | Steps [a, b, c, d] with rows 1 and 2 selected leave [a, c]. With rows 2 and 3 selected, the loop raises IndexError after removing c. | Remove exactly the selected rows. | not executed | StepEditing.DeleteStaleRows, StepEditing.StepEditor.DeleteAsWritten | StepEditing.StepEditor.DeleteSteps, StepEditing.WithoutRowsAt |

A related observation, which follows from the code rather than a fault in
it: `create_assertion` stores neither `attribute_name` nor
`expected_value`, and an update cannot add keys. So an attribute assertion
made through the manager can never pass (Assertions.CreatedVerdict,
Assertions.UpdateAddsNoKey).
