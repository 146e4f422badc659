/** `core/device_manager.py`: the platform switch, the retry wrapper, device
    discovery from the output of adb / idevice_id / tidevice, and the
    registry of Appium servers, kept in two dicts keyed by port (the
    processes and the port records). The outside world is given as
    parameters: what a command printed, what a health poll answered, the
    process id a spawn produced, the clock reading at registration. */
module DeviceManagement {
  import opened Wrappers
  import opened Text
  import Helpers
  import opened Seqs

  /* ---------------------------------------------------------- retrying */

  /** What one call of the wrapped operation did. */
  datatype Attempt<T> = Returned(value: T) | Raised

  /** How `_retry_operation` ended: with the first value returned, by
      re-raising the last exception, or (with no attempts allowed) with
      `None`. */
  datatype Retried<T> = Done(value: T) | Reraised | NoAttempt

  /** `_retry_operation`: up to `maxRetries` calls, stopping at the first
      that returns; a sleep separates a failed call from the next one. */
  method RetryOperation<T>(maxRetries: int, attempt: nat -> Attempt<T>)
    returns (r: Retried<T>, calls: nat, sleeps: nat)
    ensures forall i :: 0 <= i < calls - 1 ==> attempt(i).Raised?
    ensures r.Done? <==> exists i :: 0 <= i < maxRetries && attempt(i).Returned?
    ensures r.Done? ==> 1 <= calls <= maxRetries && attempt(calls - 1) == Returned(r.value) && sleeps == calls - 1
    ensures r.Reraised? <==> maxRetries > 0 && forall i :: 0 <= i < maxRetries ==> attempt(i).Raised?
    ensures r.Reraised? ==> calls == maxRetries && sleeps == maxRetries - 1
    ensures r.NoAttempt? <==> maxRetries <= 0
  {
    calls, sleeps := 0, 0;
    while calls < maxRetries
      invariant 0 <= calls && (maxRetries > 0 ==> calls < maxRetries)
      invariant forall i :: 0 <= i < calls ==> attempt(i).Raised?
      invariant sleeps == calls
    {
      var a := attempt(calls);
      calls := calls + 1;
      if a.Returned? {
        return Done(a.value), calls, calls - 1;
      }
      if calls - 1 < maxRetries - 1 {
        sleeps := sleeps + 1;
      } else {
        return Reraised, calls, sleeps;
      }
    }
    return NoAttempt, calls, sleeps;
  }

  /* --------------------------------------------------------- discovery */

  /** The four properties read from an Android device, as adbutils
      returned them. */
  datatype AndroidProps = AndroidProps(model: string, brand: string, version: string, sdk: string)

  /** A device of `adb devices`; `props` is `None` when reading them raised. */
  datatype AdbDevice = AdbDevice(serial: string, props: Option<AndroidProps>)

  /** What the discovery commands printed. An `Option` is `None` when the
      command failed; `info` is the `ideviceinfo -u` / `tidevice info -u`
      output for a device id. */
  datatype DeviceEnv = DeviceEnv(
    adbDevices: Option<seq<AdbDevice>>,
    hostSystem: string,
    ideviceIds: Option<string>,
    tideviceList: Option<string>,
    info: string -> Option<string>)

  /** A device dict of `self.devices`; the constructor gives its `platform`
      and every one has status `device`. */
  datatype DeviceRecord =
    | AndroidDevice(id: string, platformVersion: string, model: string, sdkVersion: string)
    | IosDevice(id: string, platformVersion: string, model: string, name: string)

  /** The record of a readable Android device: the model shown is the brand
      and the model joined by a space. */
  function AndroidRecord(serial: string, p: AndroidProps): DeviceRecord {
    AndroidDevice(serial, p.version, p.brand + " " + p.model, p.sdk)
  }

  /** One record per device whose properties could be read, in adb's order. */
  function AndroidRecords(devs: seq<AdbDevice>): (r: seq<DeviceRecord>)
    ensures |r| <= |devs|
    ensures forall k :: 0 <= k < |r| ==> r[k].AndroidDevice?
    ensures (forall i :: 0 <= i < |devs| ==> devs[i].props.Some?) ==>
      |r| == |devs| && forall i :: 0 <= i < |devs| ==> r[i] == AndroidRecord(devs[i].serial, devs[i].props.value)
  {
    if devs == [] then []
    else
      var rest := AndroidRecords(devs[1..]);
      match devs[0].props
      case None => rest
      case Some(p) => [AndroidRecord(devs[0].serial, p)] + rest
  }

  /** The record of an iOS device from its parsed info listing;
      `fallbackName` is the name used when the listing has no `DeviceName`. */
  function IosRecord(id: string, props: map<string, string>, fallbackName: string): DeviceRecord {
    IosDevice(id, Helpers.PropOr(props, "ProductVersion"), Helpers.PropOr(props, "ProductType"),
              if "DeviceName" in props then props["DeviceName"] else fallbackName)
  }

  /** The info listing of every device id, parsed into a dict (`None` when
      the info command failed). */
  function ParsedInfo(info: string -> Option<string>): string -> Option<map<string, string>> {
    (id: string) => match info(id) case None => None case Some(text) => Some(Helpers.ParseDeviceInfo(text))
  }

  /** The non-blank lines of the stripped `idevice_id -l` output; the ids
      themselves are not stripped. */
  function NonBlank(lines: seq<string>): (r: seq<string>)
    ensures |r| <= |lines|
    ensures forall k :: 0 <= k < |r| ==> r[k] in lines && Strip(r[k]) != []
  {
    if lines == [] then []
    else (if Strip(lines[0]) != [] then [lines[0]] else []) + NonBlank(lines[1..])
  }

  /** One record per id whose info command succeeded, in the listed order. */
  function IdeviceRecords(ids: seq<string>, info: string -> Option<map<string, string>>): (r: seq<DeviceRecord>)
    ensures |r| <= |ids|
    ensures forall k :: 0 <= k < |r| ==> r[k].IosDevice? && r[k].id in ids && info(r[k].id).Some?
  {
    if ids == [] then []
    else
      var rest := IdeviceRecords(ids[1..], info);
      match info(ids[0])
      case None => rest
      case Some(props) => [IosRecord(ids[0], props, "Unknown")] + rest
  }

  /** A `tidevice list` line names device `id` when `id` is its first
      whitespace-separated word. */
  predicate ListsId(line: string, id: string) {
    var parts := Words(Strip(line));
    parts != [] && parts[0] == id
  }

  /** The record a `tidevice list` line gives, if any: none for a blank
      line or a failed info command; otherwise the id is the line's first
      word and the second word, when there is one, stands in for a
      missing `DeviceName`. */
  function TideviceLine(line: string, info: string -> Option<map<string, string>>): (r: Option<DeviceRecord>)
    ensures r.Some? ==> r.value.IosDevice? && ListsId(line, r.value.id)
  {
    var parts := Words(Strip(line));
    if Strip(line) == [] || |parts| < 1 then None
    else match info(parts[0])
      case None => None
      case Some(props) => Some(IosRecord(parts[0], props, if |parts| > 1 then parts[1] else "Unknown"))
  }

  /** One record per line that gives one, in the listed order. */
  function TideviceRecords(lines: seq<string>, info: string -> Option<map<string, string>>): (r: seq<DeviceRecord>)
    ensures |r| <= |lines|
    ensures forall k :: 0 <= k < |r| ==>
      r[k].IosDevice? && exists line :: line in lines && ListsId(line, r[k].id)
  {
    if lines == [] then []
    else
      var rest := TideviceRecords(lines[1..], info);
      assert forall line :: line in lines[1..] ==> line in lines;
      match TideviceLine(lines[0], info)
      case None => rest
      case Some(d) => [d] + rest
  }

  /** The record a device of `adb devices` gives: none when reading its
      properties raised. */
  function AndroidOf(d: AdbDevice): Option<DeviceRecord> {
    match d.props
    case None => None
    case Some(p) => Some(AndroidRecord(d.serial, p))
  }

  lemma {:induction false} AndroidRecordsFilter(devs: seq<AdbDevice>)
    ensures AndroidRecords(devs) == FilterMap(devs, AndroidOf)
  {
    if devs != [] {
      AndroidRecordsFilter(devs[1..]);
    }
  }

  /** The Android records are exactly those of the readable devices, one
      per device and in adb's order. */
  lemma AndroidRecordsExact(devs: seq<AdbDevice>)
    ensures exists idx :: PicksAll(AndroidRecords(devs), devs, AndroidOf, idx)
  {
    AndroidRecordsFilter(devs);
    FilterMapPicks(devs, AndroidOf);
  }

  /** A line of the `idevice_id -l` listing is kept when it is not blank. */
  function NonBlankLine(line: string): Option<string> {
    if Strip(line) != [] then Some(line) else None
  }

  lemma {:induction false} NonBlankFilter(lines: seq<string>)
    ensures NonBlank(lines) == FilterMap(lines, NonBlankLine)
  {
    if lines != [] {
      NonBlankFilter(lines[1..]);
    }
  }

  /** The ids are exactly the non-blank lines, in order. */
  lemma NonBlankExact(lines: seq<string>)
    ensures exists idx :: PicksAll(NonBlank(lines), lines, NonBlankLine, idx)
  {
    NonBlankFilter(lines);
    FilterMapPicks(lines, NonBlankLine);
  }

  /** The record an id of `idevice_id -l` gives: none when its info
      command failed. */
  function IdeviceOf(info: string -> Option<map<string, string>>): string -> Option<DeviceRecord> {
    (id: string) => match info(id) case None => None case Some(props) => Some(IosRecord(id, props, "Unknown"))
  }

  lemma {:induction false} IdeviceRecordsFilter(ids: seq<string>, info: string -> Option<map<string, string>>)
    ensures IdeviceRecords(ids, info) == FilterMap(ids, IdeviceOf(info))
  {
    if ids != [] {
      IdeviceRecordsFilter(ids[1..], info);
    }
  }

  /** The iOS records are exactly those of the ids whose info command
      succeeded, one per id and in the listed order. */
  lemma IdeviceRecordsExact(ids: seq<string>, info: string -> Option<map<string, string>>)
    ensures exists idx :: PicksAll(IdeviceRecords(ids, info), ids, IdeviceOf(info), idx)
  {
    IdeviceRecordsFilter(ids, info);
    FilterMapPicks(ids, IdeviceOf(info));
  }

  function TideviceOf(info: string -> Option<map<string, string>>): string -> Option<DeviceRecord> {
    (line: string) => TideviceLine(line, info)
  }

  lemma {:induction false} TideviceRecordsFilter(lines: seq<string>, info: string -> Option<map<string, string>>)
    ensures TideviceRecords(lines, info) == FilterMap(lines, TideviceOf(info))
  {
    if lines != [] {
      TideviceRecordsFilter(lines[1..], info);
    }
  }

  /** The tidevice records are exactly those of the lines that give one,
      one per line and in the listed order. */
  lemma TideviceRecordsExact(lines: seq<string>, info: string -> Option<map<string, string>>)
    ensures exists idx :: PicksAll(TideviceRecords(lines, info), lines, TideviceOf(info), idx)
  {
    TideviceRecordsFilter(lines, info);
    FilterMapPicks(lines, TideviceOf(info));
  }

  /** `_get_devices_internal`: the devices of the current platform; a
      failed device listing gives no devices. */
  function Discover(platformType: string, env: DeviceEnv): (r: seq<DeviceRecord>)
    ensures platformType == "android" ==> forall k :: 0 <= k < |r| ==> r[k].AndroidDevice?
    ensures platformType != "android" ==> forall k :: 0 <= k < |r| ==> r[k].IosDevice?
    ensures platformType != "android" && platformType != "ios" ==> r == []
    ensures platformType == "android" && env.adbDevices.None? ==> r == []
    ensures platformType == "ios" && env.hostSystem == "Darwin" && env.ideviceIds.None? ==> r == []
    ensures platformType == "ios" && env.hostSystem != "Darwin" && env.tideviceList.None? ==> r == []
  {
    if platformType == "android" then
      match env.adbDevices
      case None => []
      case Some(devs) => AndroidRecords(devs)
    else if platformType == "ios" then
      if env.hostSystem == "Darwin" then
        match env.ideviceIds
        case None => []
        case Some(out) => IdeviceRecords(NonBlank(Split(Strip(out), '\n')), ParsedInfo(env.info))
      else
        match env.tideviceList
        case None => []
        case Some(out) => TideviceRecords(Split(out, '\n'), ParsedInfo(env.info))
    else []
  }

  /* ---------------------------------------------------- the registries */

  /** A process id: the handle of a spawned Appium server. */
  type Pid = int

  /** The record `appium_ports` keeps for a port. */
  datatype ServerInfo = ServerInfo(host: string, status: string, startTime: int)

  /** What one health poll during start-up saw: a status code, a refused
      connection or timeout (retried after a sleep), or any other
      exception (which ends the start). */
  datatype Poll = Answer(code: int) | NoConnection | PollRaised

  /** Some poll answered 200 before any poll raised. */
  predicate BecomesHealthy(polls: seq<Poll>) {
    exists i :: 0 <= i < |polls| && polls[i] == Answer(200) && forall j :: 0 <= j < i ==> polls[j] != PollRaised
  }

  /** Every poll before the deadline was unanswered or not 200. */
  predicate TimesOut(polls: seq<Poll>) {
    forall i :: 0 <= i < |polls| ==> polls[i] != Answer(200) && polls[i] != PollRaised
  }

  /** A start-up either becomes healthy, times out, or is cut short by a
      poll that raised before any 200. */
  lemma PollOutcomes(polls: seq<Poll>)
    ensures !(BecomesHealthy(polls) && TimesOut(polls))
    ensures !BecomesHealthy(polls) && !TimesOut(polls) ==>
      exists i :: 0 <= i < |polls| && polls[i] == PollRaised && forall j :: 0 <= j < i ==> polls[j] != Answer(200)
  {
    if !BecomesHealthy(polls) && !TimesOut(polls) {
      var i :| 0 <= i < |polls| && (polls[i] == Answer(200) || polls[i] == PollRaised);
      FirstStop(polls, i);
    }
  }

  /** The earliest poll that answered 200 or raised, given one at `i`. */
  lemma {:induction false} FirstStop(polls: seq<Poll>, i: int)
    requires 0 <= i < |polls| && (polls[i] == Answer(200) || polls[i] == PollRaised)
    requires !BecomesHealthy(polls)
    ensures exists m :: 0 <= m < |polls| && polls[m] == PollRaised && forall j :: 0 <= j < m ==> polls[j] != Answer(200)
    decreases i
  {
    if exists j :: 0 <= j < i && (polls[j] == Answer(200) || polls[j] == PollRaised) {
      var j :| 0 <= j < i && (polls[j] == Answer(200) || polls[j] == PollRaised);
      FirstStop(polls, j);
    } else if polls[i] == Answer(200) {
      assert false;
    } else {
      assert forall j :: 0 <= j < i ==> polls[j] != Answer(200);
    }
  }

  /** The process ids of the ports in `s`, in that order (a port without a
      process, which the registry invariant rules out, has none). */
  function PidsOf(s: seq<int>, processes: map<int, Pid>): seq<Pid> {
    if s == [] then []
    else
      var q := s[|s| - 1];
      PidsOf(s[..|s| - 1], processes) + (if q in processes then [processes[q]] else [])
  }

  /** The process of every listed port with one is among their ids. */
  lemma {:induction false} PidsOfMember(s: seq<int>, processes: map<int, Pid>, q: int)
    requires q in s && q in processes
    ensures processes[q] in PidsOf(s, processes)
  {
    var last := s[|s| - 1];
    if q != last {
      assert q in s[..|s| - 1] by {
        assert s == s[..|s| - 1] + [last];
      }
      PidsOfMember(s[..|s| - 1], processes, q);
    }
  }

  /** An entry of the list `get_appium_servers` returns. */
  datatype Server = Server(host: string, port: int, status: string, startTime: int)

  /** The ports in `s` whose probe did (`failed`) or did not raise. */
  function ByProbe(s: seq<int>, probe: int -> Helpers.Probe, failed: bool): seq<int> {
    if s == [] then []
    else
      var q := s[|s| - 1];
      ByProbe(s[..|s| - 1], probe, failed) + (if probe(q).Failed? == failed then [q] else [])
  }

  /** The ports kept are exactly those of `s` whose probe did (`failed`)
      or did not raise. */
  lemma {:induction false} ByProbeMembers(s: seq<int>, probe: int -> Helpers.Probe, failed: bool)
    ensures forall q :: q in ByProbe(s, probe, failed) <==> q in s && probe(q).Failed? == failed
  {
    if s != [] {
      ByProbeMembers(s[..|s| - 1], probe, failed);
      assert s == s[..|s| - 1] + [s[|s| - 1]];
    }
  }

  function FailedSet(s: seq<int>, probe: int -> Helpers.Probe): set<int> {
    set q | q in s && probe(q).Failed?
  }

  /** The entry the listing shows for port `q` registered as `info`, after
      its probe answered `p`: one, shown as running, on a 200 answer. */
  function Entry(q: int, info: ServerInfo, p: Helpers.Probe): seq<Server> {
    if p == Helpers.Responded(200) then [Server(info.host, q, "running", info.startTime)] else []
  }

  /** The entries of the ports in `s` whose probe answered 200, in order. */
  function Running(s: seq<int>, ports: map<int, ServerInfo>, probe: int -> Helpers.Probe): seq<Server>
    requires forall q :: q in s ==> q in ports
  {
    if s == [] then []
    else
      var q := s[|s| - 1];
      assert forall p :: p in s[..|s| - 1] ==> p in s;
      Running(s[..|s| - 1], ports, probe) + Entry(q, ports[q], probe(q))
  }

  /** Every entry of the listing is a port of `s` whose probe answered 200,
      shown as running with the host and start time it was registered with. */
  lemma {:induction false} RunningSound(s: seq<int>, ports: map<int, ServerInfo>, probe: int -> Helpers.Probe)
    requires forall q :: q in s ==> q in ports
    ensures forall e :: e in Running(s, ports, probe) ==>
      && e.port in s && probe(e.port) == Helpers.Responded(200) && e.status == "running"
      && e.host == ports[e.port].host && e.startTime == ports[e.port].startTime
  {
    if s != [] {
      var init, last := s[..|s| - 1], s[|s| - 1];
      assert forall p :: p in init ==> p in s;
      RunningSound(init, ports, probe);
      assert Running(s, ports, probe) == Running(init, ports, probe) + Entry(last, ports[last], probe(last));
    }
  }

  /** Every healthy port of `s` has an entry in the listing. */
  lemma {:induction false} RunningComplete(s: seq<int>, ports: map<int, ServerInfo>, probe: int -> Helpers.Probe, q: int)
    requires forall p :: p in s ==> p in ports
    requires q in s && probe(q) == Helpers.Responded(200)
    ensures exists k :: 0 <= k < |Running(s, ports, probe)| && Running(s, ports, probe)[k].port == q
  {
    var init := s[..|s| - 1];
    if s[|s| - 1] != q {
      assert q in init by {
        var i :| 0 <= i < |s| && s[i] == q;
        assert init[i] == q;
      }
      assert forall p :: p in init ==> p in s;
      RunningComplete(init, ports, probe, q);
      var k :| 0 <= k < |Running(init, ports, probe)| && Running(init, ports, probe)[k].port == q;
      assert Running(s, ports, probe)[k] == Running(init, ports, probe)[k];
    } else {
      assert Running(s, ports, probe)[|Running(s, ports, probe)| - 1].port == q;
    }
  }

  /** One more port of the snapshot: how the listing, the surviving and
      failed ports and the failed set grow. */
  lemma ListingStep(s: seq<int>, i: int, ports: map<int, ServerInfo>, probe: int -> Helpers.Probe)
    requires 0 <= i < |s| && forall q :: q in s ==> q in ports
    ensures forall q :: q in s[..i] ==> q in ports
    ensures Running(s[..i + 1], ports, probe) == Running(s[..i], ports, probe) + Entry(s[i], ports[s[i]], probe(s[i]))
  {
    assert s[..i + 1][..i] == s[..i];
    assert forall q :: q in s[..i] ==> q in s;
  }

  /** `m` without the ports of `s` whose probe raised, removed one at a
      time in the order of `s`. */
  function DropFailed<V>(s: seq<int>, m: map<int, V>, probe: int -> Helpers.Probe): map<int, V> {
    if s == [] then m
    else
      var q := s[|s| - 1];
      var before := DropFailed(s[..|s| - 1], m, probe);
      if probe(q).Failed? then before - {q} else before
  }

  /** Removing the failed ports one at a time removes exactly them. */
  lemma {:induction false} DropFailedIs<V>(s: seq<int>, m: map<int, V>, probe: int -> Helpers.Probe)
    ensures DropFailed(s, m, probe) == m - FailedSet(s, probe)
  {
    if s != [] {
      var init := s[..|s| - 1];
      DropFailedIs(init, m, probe);
      assert s == init + [s[|s| - 1]];
      assert FailedSet(s, probe) == FailedSet(init, probe) + (if probe(s[|s| - 1]).Failed? then {s[|s| - 1]} else {});
    }
  }

  /** One more port of the snapshot: the registration order left after
      it, when the ports before it have already been handled. */
  lemma OrderStep(s: seq<int>, i: int, probe: int -> Helpers.Probe)
    requires Distinct(s) && 0 <= i < |s|
    ensures var q, o := s[i], ByProbe(s[..i], probe, false) + s[i..];
      && (probe(q).Failed? ==> Without(o, q) == ByProbe(s[..i + 1], probe, false) + s[i + 1..])
      && (!probe(q).Failed? ==> o == ByProbe(s[..i + 1], probe, false) + s[i + 1..])
  {
    var q := s[i];
    var kept := ByProbe(s[..i], probe, false);
    ListingStepOrder(s, i, probe);
    DistinctAt(s, i);
    SuffixAt(s, i);
    AppendAssoc(kept, [q], s[i + 1..]);
    if probe(q).Failed? {
      ByProbeMembers(s[..i], probe, false);
      WithoutOnce(kept, s[i + 1..], q);
    }
  }

  lemma ListingStepOrder(s: seq<int>, i: int, probe: int -> Helpers.Probe)
    requires 0 <= i < |s|
    ensures ByProbe(s[..i + 1], probe, false) ==
      (if probe(s[i]).Failed? then ByProbe(s[..i], probe, false) else ByProbe(s[..i], probe, false) + [s[i]])
    ensures ByProbe(s[..i + 1], probe, true) ==
      (if probe(s[i]).Failed? then ByProbe(s[..i], probe, true) + [s[i]] else ByProbe(s[..i], probe, true))
  {
    assert s[..i + 1][..i] == s[..i];
    assert ByProbe(s[..i], probe, false) + [] == ByProbe(s[..i], probe, false);
    assert ByProbe(s[..i], probe, true) + [] == ByProbe(s[..i], probe, true);
  }

  /** One more port of the snapshot: the process ids stopped so far. */
  lemma StoppedStep(s: seq<int>, i: int, pids: map<int, Pid>, probe: int -> Helpers.Probe)
    requires 0 <= i < |s| && s[i] in pids
    ensures PidsOf(ByProbe(s[..i + 1], probe, true), pids) ==
      if probe(s[i]).Failed? then PidsOf(ByProbe(s[..i], probe, true), pids) + [pids[s[i]]]
      else PidsOf(ByProbe(s[..i], probe, true), pids)
  {
    ListingStepOrder(s, i, probe);
    if probe(s[i]).Failed? {
      PidsOfSnoc(ByProbe(s[..i], probe, true), s[i], pids);
    }
  }

  /** A port not yet reached keeps its entry. */
  lemma {:induction false} DropFailedKeeps<V>(s: seq<int>, m: map<int, V>, probe: int -> Helpers.Probe, q: int)
    requires q !in s && q in m
    ensures q in DropFailed(s, m, probe) && DropFailed(s, m, probe)[q] == m[q]
  {
    if s != [] {
      assert forall p :: p in s[..|s| - 1] ==> p in s;
      DropFailedKeeps(s[..|s| - 1], m, probe, q);
    }
  }

  lemma SuffixAt(s: seq<int>, i: int)
    requires 0 <= i < |s|
    ensures s[i..] == [s[i]] + s[i + 1..]
  {
  }

  lemma DropFailedStep<V>(s: seq<int>, i: int, m: map<int, V>, probe: int -> Helpers.Probe)
    requires 0 <= i < |s|
    ensures DropFailed(s[..i + 1], m, probe) ==
      if probe(s[i]).Failed? then DropFailed(s[..i], m, probe) - {s[i]} else DropFailed(s[..i], m, probe)
  {
    assert s[..i + 1][..i] == s[..i];
  }

  lemma PidsOfSnoc(s: seq<int>, q: int, processes: map<int, Pid>)
    requires q in processes
    ensures PidsOf(s + [q], processes) == PidsOf(s, processes) + [processes[q]]
  {
    assert (s + [q])[..|s|] == s;
  }

  /** Why the listing as written ends: a probe raised, its port was
      stopped, and the next step of the iteration over `appium_ports`
      raised RuntimeError, the dict having changed size. */
  datatype ListingError = DictChangedSize(stoppedPort: int)

  /** `get_appium_servers` as written: it iterates over `appium_ports`
      itself and stops a port whose probe raised, which deletes from the
      dict being iterated. */
  function ListServersAsWritten(s: seq<int>, ports: map<int, ServerInfo>, probe: int -> Helpers.Probe)
    : Result<seq<Server>, ListingError>
    requires forall q :: q in s ==> q in ports
  {
    if s == [] then Ok([])
    else
      var q := s[|s| - 1];
      match ListServersAsWritten(s[..|s| - 1], ports, probe)
      case Err(e) => Err(e)
      case Ok(before) =>
        if probe(q).Failed? then Err(DictChangedSize(q))
        else Ok(before + (if probe(q) == Helpers.Responded(200) then [Server(ports[q].host, q, "running", ports[q].startTime)] else []))
  }

  /** As written, the listing raises exactly when some registered port's
      probe raised; otherwise it is the intended listing. */
  lemma {:induction false} ListServersAsWrittenRaises(s: seq<int>, ports: map<int, ServerInfo>, probe: int -> Helpers.Probe)
    requires forall q :: q in s ==> q in ports
    ensures ListServersAsWritten(s, ports, probe).Err? <==> exists q :: q in s && probe(q).Failed?
    ensures ListServersAsWritten(s, ports, probe).Ok? ==> ListServersAsWritten(s, ports, probe).value == Running(s, ports, probe)
  {
    if s != [] {
      var init := s[..|s| - 1];
      assert forall q :: q in init ==> q in s;
      ListServersAsWrittenRaises(init, ports, probe);
      assert forall q :: q in s ==> q in init || q == s[|s| - 1] by {
        assert s == init + [s[|s| - 1]];
      }
    }
  }

  /** Two healthy-looking servers, the first of which does not answer: the
      listing as written raises instead of listing the second. */
  lemma ListServersAsWrittenCounterexample()
    ensures var ports := map[4723 := ServerInfo("127.0.0.1", "running", 0), 4724 := ServerInfo("127.0.0.1", "running", 0)];
      var probe := (q: int) => if q == 4723 then Helpers.Failed else Helpers.Responded(200);
      && ListServersAsWritten([4723, 4724], ports, probe) == Err(DictChangedSize(4723))
      && Running([4723, 4724], ports, probe) == [Server("127.0.0.1", 4724, "running", 0)]
  {
    var ports := map[4723 := ServerInfo("127.0.0.1", "running", 0), 4724 := ServerInfo("127.0.0.1", "running", 0)];
    var probe := (q: int) => if q == 4723 then Helpers.Failed else Helpers.Responded(200);
    assert [4723, 4724][..1] == [4723];
    assert [4723][..0] == [];
  }

  class DeviceManager {
    var platformType: string
    var devices: seq<DeviceRecord>
    /** `appium_processes`: the server process of every registered port. */
    var processes: map<int, Pid>
    /** `appium_ports`: the record of every registered port. */
    var ports: map<int, ServerInfo>
    /** The insertion order the two dicts share. */
    var order: seq<int>
    /** Every process that was told to terminate, in order. */
    var stopped: seq<Pid>
    const maxRetries: int

    ghost predicate Valid()
      reads this
    {
      && processes.Keys == ports.Keys
      && Distinct(order)
      && (forall q :: q in order <==> q in ports)
      && (platformType == "android" || platformType == "ios")
    }

    constructor ()
      ensures Valid()
      ensures platformType == "android" && devices == [] && maxRetries == 3
      ensures processes == map[] && ports == map[] && order == [] && stopped == []
    {
      platformType := "android";
      devices := [];
      processes := map[];
      ports := map[];
      order := [];
      stopped := [];
      maxRetries := 3;
    }

    /** `set_platform`: false where the source raises ValueError. */
    method SetPlatform(platform: string) returns (ok: bool)
      requires Valid()
      modifies this
      ensures Valid()
      ensures ok <==> platform == "android" || platform == "ios"
      ensures ok ==> platformType == platform && devices == []
      ensures !ok ==> platformType == old(platformType) && devices == old(devices)
      ensures processes == old(processes) && ports == old(ports) && order == old(order) && stopped == old(stopped)
    {
      if platform != "android" && platform != "ios" {
        return false;
      }
      platformType := platform;
      devices := [];
      return true;
    }

    /** `get_devices`: discovery never raises, so the retry wrapper makes
        exactly one call. */
    method GetDevices(env: DeviceEnv) returns (r: seq<DeviceRecord>, calls: nat)
      requires Valid() && maxRetries > 0
      modifies this
      ensures Valid()
      ensures r == devices && devices == Discover(platformType, env)
      ensures calls == 1
      ensures platformType == old(platformType) && processes == old(processes) && ports == old(ports)
      ensures order == old(order) && stopped == old(stopped)
    {
      var found := Discover(platformType, env);
      var attempt := (i: nat) => Returned(found);
      assert attempt(0).Returned?;
      var res, n, sleeps := RetryOperation(maxRetries, attempt);
      devices := res.value;
      r, calls := devices, n;
    }

    /** `_start_appium_server_internal` on `port`. `inUse` is what the
        port check said, `release` what each attempt of
        `kill_process_by_port` saw, `spawned` the process id (`None` when
        the spawn raised), `polls` the health polls made before the
        deadline and `now` the clock at registration. Registers the port
        exactly when a poll answered 200 before any poll raised; on a
        timeout the process is terminated. */
    method StartServerInternal(host: string, port: int, inUse: bool, release: nat -> Helpers.KillAttempt,
                               spawned: Option<Pid>, polls: seq<Poll>, now: int) returns (ok: bool)
      requires Valid()
      modifies this
      ensures Valid()
      ensures ok <==>
        (!inUse || exists i :: 0 <= i < 3 && Helpers.Releases(release(i))) && spawned.Some? && BecomesHealthy(polls)
      ensures ok ==> (
        && processes == old(processes)[port := spawned.value]
        && ports == old(ports)[port := ServerInfo(host, "running", now)]
        && order == (if port in old(order) then old(order) else old(order) + [port]))
      ensures !ok ==> processes == old(processes) && ports == old(ports) && order == old(order)
      ensures stopped == old(stopped) +
        (if (!inUse || exists i :: 0 <= i < 3 && Helpers.Releases(release(i))) && spawned.Some? && TimesOut(polls)
         then [spawned.value] else [])
      ensures platformType == old(platformType) && devices == old(devices)
    {
      if inUse {
        var released, _, _ := Helpers.KillProcessByPort(3, release);
        if !released {
          return false;
        }
      }
      if spawned.None? {
        return false;
      }
      var pid := spawned.value;
      var i := 0;
      while i < |polls|
        invariant 0 <= i <= |polls|
        invariant forall j :: 0 <= j < i ==> polls[j] != Answer(200) && polls[j] != PollRaised
      {
        if polls[i] == PollRaised {
          // caught by the outer handler: the process is left running
          assert !TimesOut(polls);
          assert !BecomesHealthy(polls) by {
            forall k | 0 <= k < |polls| && polls[k] == Answer(200)
              ensures !(forall j :: 0 <= j < k ==> polls[j] != PollRaised)
            {
              assert k > i;
            }
          }
          return false;
        }
        if polls[i] == Answer(200) {
          processes := processes[port := pid];
          ports := ports[port := ServerInfo(host, "running", now)];
          if port !in order {
            DistinctSnoc(order, port);
            order := order + [port];
          }
          return true;
        }
        i := i + 1;
      }
      stopped := stopped + [pid];
      return false;
    }

    /** `start_appium_server`: the internal start never raises, so the
        retry wrapper calls it once. */
    method StartAppiumServer(host: string, port: int, inUse: bool, release: nat -> Helpers.KillAttempt,
                             spawned: Option<Pid>, polls: seq<Poll>, now: int) returns (ok: bool)
      requires Valid()
      modifies this
      ensures Valid()
      ensures ok <==>
        (!inUse || exists i :: 0 <= i < 3 && Helpers.Releases(release(i))) && spawned.Some? && BecomesHealthy(polls)
      ensures ok ==> (
        && processes == old(processes)[port := spawned.value]
        && ports == old(ports)[port := ServerInfo(host, "running", now)]
        && order == (if port in old(order) then old(order) else old(order) + [port]))
      ensures !ok ==> processes == old(processes) && ports == old(ports) && order == old(order)
      ensures stopped == old(stopped) +
        (if (!inUse || exists i :: 0 <= i < 3 && Helpers.Releases(release(i))) && spawned.Some? && TimesOut(polls)
         then [spawned.value] else [])
      ensures platformType == old(platformType) && devices == old(devices)
    {
      ok := StartServerInternal(host, port, inUse, release, spawned, polls, now);
    }

    /** `stop_appium_server(port)`: stops and forgets a registered port; an
        unknown port is left alone. */
    method StopServer(port: int)
      requires Valid()
      modifies this
      ensures Valid()
      ensures port in old(processes) ==>
        && processes == old(processes) - {port} && ports == old(ports) - {port}
        && order == Without(old(order), port) && stopped == old(stopped) + [old(processes)[port]]
      ensures port !in old(processes) ==>
        processes == old(processes) && ports == old(ports) && order == old(order) && stopped == old(stopped)
      ensures platformType == old(platformType) && devices == old(devices)
    {
      if port in processes {
        stopped := stopped + [processes[port]];
        processes := processes - {port};
        ports := ports - {port};
        order := Without(order, port);
      }
    }

    /** `stop_appium_server(None)`: terminates every registered process in
        registration order and empties both registries. */
    method StopAllServers()
      requires Valid()
      modifies this
      ensures Valid()
      ensures processes == map[] && ports == map[] && order == []
      ensures stopped == old(stopped) + PidsOf(old(order), old(processes))
      ensures platformType == old(platformType) && devices == old(devices)
    {
      var snapshot := order;
      var i := 0;
      while i < |snapshot|
        invariant 0 <= i <= |snapshot|
        invariant Valid() && order == snapshot && processes == old(processes) && ports == old(ports)
        invariant platformType == old(platformType) && devices == old(devices)
        invariant stopped == old(stopped) + PidsOf(snapshot[..i], processes)
      {
        var q := snapshot[i];
        assert q in order && q in ports && q in processes.Keys;
        assert snapshot[..i + 1] == snapshot[..i] + [q];
        PidsOfSnoc(snapshot[..i], q, processes);
        AppendAssoc(old(stopped), PidsOf(snapshot[..i], processes), [processes[q]]);
        stopped := stopped + [processes[q]];
        i := i + 1;
      }
      assert snapshot[..i] == snapshot;
      processes := map[];
      ports := map[];
      order := [];
    }

    /** One port of `get_appium_servers`: after its probe answered `p`, a
        200 answer lists the port as running, and a probe that raised stops
        its server. */
    method CheckPort(q: int, p: Helpers.Probe) returns (entry: seq<Server>)
      requires Valid() && q in ports
      modifies this
      ensures Valid()
      ensures entry == Entry(q, old(ports)[q], p)
      ensures p.Failed? ==>
        && processes == old(processes) - {q} && ports == old(ports) - {q}
        && order == Without(old(order), q) && stopped == old(stopped) + [old(processes)[q]]
      ensures !p.Failed? ==>
        processes == old(processes) && ports == old(ports) && order == old(order) && stopped == old(stopped)
      ensures platformType == old(platformType) && devices == old(devices)
    {
      entry := [];
      if p.Failed? {
        StopServer(q);
      } else if p == Helpers.Responded(200) {
        entry := [Server(ports[q].host, q, "running", ports[q].startTime)];
      }
    }

    /** `get_appium_servers`, iterating over a snapshot of the registered
        ports: lists, in registration order, the ports whose probe
        answered 200, and stops the ports whose probe raised. */
    method GetAppiumServers(probe: int -> Helpers.Probe) returns (servers: seq<Server>)
      requires Valid()
      modifies this
      ensures Valid()
      ensures servers == Running(old(order), old(ports), probe)
      ensures ports == old(ports) - FailedSet(old(order), probe)
      ensures processes == old(processes) - FailedSet(old(order), probe)
      ensures order == ByProbe(old(order), probe, false)
      ensures stopped == old(stopped) + PidsOf(ByProbe(old(order), probe, true), old(processes))
      ensures platformType == old(platformType) && devices == old(devices)
    {
      var snapshot, info := order, ports;
      ghost var pids := processes;
      servers := [];
      var i := 0;
      while i < |snapshot|
        invariant 0 <= i <= |snapshot|
        invariant snapshot == old(order) && info == old(ports) && pids == old(processes)
        invariant pids.Keys == info.Keys
        invariant Distinct(snapshot) && forall q :: q in snapshot ==> q in info
        invariant Valid()
        invariant servers == Running(snapshot[..i], info, probe)
        invariant ports == DropFailed(snapshot[..i], info, probe)
        invariant processes == DropFailed(snapshot[..i], pids, probe)
        invariant order == ByProbe(snapshot[..i], probe, false) + snapshot[i..]
        invariant stopped == old(stopped) + PidsOf(ByProbe(snapshot[..i], probe, true), pids)
        invariant platformType == old(platformType) && devices == old(devices)
      {
        var q := snapshot[i];
        ListingStep(snapshot, i, info, probe);
        DropFailedStep(snapshot, i, info, probe);
        DropFailedStep(snapshot, i, pids, probe);
        OrderStep(snapshot, i, probe);
        StoppedStep(snapshot, i, pids, probe);
        DistinctAt(snapshot, i);
        DropFailedKeeps(snapshot[..i], info, probe, q);
        DropFailedKeeps(snapshot[..i], pids, probe, q);
        var entry := CheckPort(q, probe(q));
        servers := servers + entry;
        if probe(q).Failed? {
          AppendAssoc(old(stopped), PidsOf(ByProbe(snapshot[..i], probe, true), pids), [pids[q]]);
        }
        i := i + 1;
      }
      assert snapshot[..i] == snapshot;
      DropFailedIs(snapshot, info, probe);
      DropFailedIs(snapshot, pids, probe);
    }
  }
}
