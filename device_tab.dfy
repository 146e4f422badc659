/** The device tab of `gui/device_tab.py`: the `connected_devices` table
    that binds a device id to the port of the Appium server started for it,
    kept in step with the server registry of the device manager, and the
    running-time label of the server table, and the refreshes of the
    device list and the server table that follow each change. Dialogs,
    table widgets and the thread lock are not modelled; the answers of the
    outside world (ports in use, binds, the spawned process, the health
    polls and probes, device discovery, the clock) are parameters. */
module DeviceTabModel {
  import opened Wrappers
  import Helpers
  import opened DeviceManagement
  import opened Seqs

  /** The first port `get_free_port` tries, and the last. */
  const FirstPort := 4723
  const LastPort := 4823

  /** A value of `connected_devices`: the server port, the status text and
      the time of connection. */
  datatype Connection = Connection(port: int, status: string, connectTime: int)

  /** The running-time column of the server table, for a running time in
      whole seconds. */
  datatype RunningLabel = Seconds(n: int) | Minutes(n: int) | HoursMinutes(h: int, m: int)

  /** Under a minute shows seconds, under an hour whole minutes, otherwise
      whole hours and the minutes left over. */
  function RunningTimeLabel(running: int): (l: RunningLabel)
    ensures l.Seconds? <==> running < 60
    ensures l.Seconds? ==> l.n == running
    ensures l.Minutes? <==> 60 <= running < 3600
    ensures l.Minutes? ==> 1 <= l.n < 60 && l.n * 60 <= running < l.n * 60 + 60
    ensures l.HoursMinutes? <==> 3600 <= running
    ensures l.HoursMinutes? ==>
      && 1 <= l.h && 0 <= l.m < 60
      && l.h * 3600 + l.m * 60 <= running < l.h * 3600 + l.m * 60 + 60
  {
    if running < 60 then Seconds(running)
    else if running < 3600 then Minutes(running / 60)
    else HoursMinutes(running / 3600, (running % 3600) / 60)
  }

  /** Some port of the scanned range is free. */
  ghost predicate SomePortFree(inUse: int -> bool, canBind: int -> bool) {
    exists p :: FirstPort <= p <= LastPort && Helpers.Eligible(p, [], inUse, canBind)
  }

  /** The first free port of the scanned range. */
  ghost predicate FirstFree(p: int, inUse: int -> bool, canBind: int -> bool) {
    && FirstPort <= p <= LastPort && Helpers.Eligible(p, [], inUse, canBind)
    && forall p' :: FirstPort <= p' < p ==> !Helpers.Eligible(p', [], inUse, canBind)
  }

  /** The ports the connections in `c` were given. */
  ghost function PortsOf(c: map<string, Connection>): set<int> {
    set d | d in c :: c[d].port
  }

  /** `m` without the ports whose health probe raised: what a refresh of
      the server table leaves of a registry, since `get_appium_servers`
      stops those servers. */
  function Pruned<V>(m: map<int, V>, probe: int -> Helpers.Probe): map<int, V> {
    map q | q in m && !probe(q).Failed? :: m[q]
  }

  /** Every connection's port is among `ports`, and no two connections
      share a port. */
  ghost predicate Bound(c: map<string, Connection>, ports: set<int>) {
    && (forall d :: d in c ==> c[d].port in ports)
    && (forall d, e :: d in c && e in c && d != e ==> c[d].port != c[e].port)
  }

  /** Binding a new device to a port that was not registered, and is now,
      keeps the table and the registry in agreement. */
  lemma BindKeepsBound(c: map<string, Connection>, ports: set<int>, id: string, conn: Connection, ports': set<int>)
    requires Bound(c, ports) && id !in c && conn.port !in ports && ports + {conn.port} <= ports'
    ensures Bound(c[id := conn], ports')
  {
  }

  class DeviceTab {
    var manager: DeviceManager
    /** `connected_devices`: the connection of every connected device. */
    var connected: map<string, Connection>
    /** The insertion order of `connected_devices`. */
    var ids: seq<string>
    /** `self.devices`: the device list shown, as the last refresh found it. */
    var devices: seq<DeviceRecord>

    ghost predicate Valid()
      reads this, manager
    {
      && manager.Valid() && manager.maxRetries > 0
      && Distinct(ids)
      && (forall d :: d in ids <==> d in connected)
    }

    /** The table and the registry agree: every connected device's port is
        registered, and no two devices share a port. */
    ghost predicate Coupled()
      reads this, manager
    {
      Bound(connected, manager.ports.Keys)
    }

    constructor (m: DeviceManager)
      requires m.Valid() && m.maxRetries > 0
      ensures Valid() && Coupled()
      ensures manager == m && connected == map[] && ids == [] && devices == []
    {
      manager := m;
      connected := map[];
      ids := [];
      devices := [];
    }

    /** `refresh_devices`: the tab's device list, and the manager's, become
        what discovery finds. */
    method RefreshDevices(env: DeviceEnv)
      requires Valid()
      modifies this, manager
      ensures Valid() && manager == old(manager)
      ensures devices == Discover(manager.platformType, env) && manager.devices == devices
      ensures connected == old(connected) && ids == old(ids)
      ensures manager.platformType == old(manager.platformType)
      ensures manager.ports == old(manager.ports) && manager.processes == old(manager.processes)
      ensures manager.order == old(manager.order) && manager.stopped == old(manager.stopped)
    {
      var found, _ := manager.GetDevices(env);
      devices := found;
    }

    /** `refresh_appium_status`: the server table is the listing, and every
        registered server whose probe raised is stopped. */
    method RefreshAppiumStatus(probe: int -> Helpers.Probe) returns (servers: seq<Server>)
      requires Valid()
      modifies manager
      ensures Valid()
      ensures servers == Running(old(manager.order), old(manager.ports), probe)
      ensures manager.ports == Pruned(old(manager.ports), probe)
      ensures manager.processes == Pruned(old(manager.processes), probe)
      ensures manager.stopped == old(manager.stopped) + PidsOf(ByProbe(old(manager.order), probe, true), old(manager.processes))
      ensures manager.platformType == old(manager.platformType)
    {
      ghost var order, ports, processes := manager.order, manager.ports, manager.processes;
      servers := manager.GetAppiumServers(probe);
      PrunedIs(order, ports, probe);
      PrunedIs(order, processes, probe);
    }

    /** `connect_device`: an id already connected, a range without a free
        port and a server that does not start each leave the table and the
        registries as they were; a server that timed out has its process
        terminated. Otherwise the device is bound to the first free port,
        on which a healthy server now runs, and both lists are refreshed:
        the device list is rediscovered and every server whose probe raised
        is stopped. */
    method Connect(id: string, inUse: int -> bool, canBind: int -> bool, release: nat -> Helpers.KillAttempt,
                   spawned: Option<Pid>, polls: seq<Poll>, now: int, env: DeviceEnv, probe: int -> Helpers.Probe)
      returns (ok: bool)
      requires Valid()
      modifies this, manager
      ensures Valid() && manager == old(manager) && manager.platformType == old(manager.platformType)
      ensures ok <==>
        id !in old(connected) && SomePortFree(inUse, canBind) && spawned.Some? && BecomesHealthy(polls)
      ensures ok ==>
        && id in connected && FirstFree(connected[id].port, inUse, canBind)
        && connected == old(connected)[id := Connection(connected[id].port, "connected", now)]
        && ids == old(ids) + [id]
        && manager.ports == Pruned(old(manager.ports)[connected[id].port := ServerInfo("127.0.0.1", "running", now)], probe)
        && manager.processes == Pruned(old(manager.processes)[connected[id].port := spawned.value], probe)
        && devices == Discover(manager.platformType, env)
      ensures !ok ==> connected == old(connected) && ids == old(ids) && devices == old(devices)
      ensures !ok ==> manager.ports == old(manager.ports) && manager.processes == old(manager.processes)
      ensures !ok ==>
        manager.stopped == old(manager.stopped) +
          (if id !in old(connected) && SomePortFree(inUse, canBind) && spawned.Some? && TimesOut(polls)
           then [spawned.value] else [])
      ensures ok ==>
        var p := connected[id].port;
        manager.stopped == old(manager.stopped) +
          PidsOf(ByProbe(if p in old(manager.order) then old(manager.order) else old(manager.order) + [p], probe, true),
                 old(manager.processes)[p := spawned.value])
      ensures old(Coupled()) && (forall q :: q in old(manager.ports) ==> inUse(q)) && (forall q :: !probe(q).Failed?)
        ==> Coupled()
    {
      ghost var wasCoupled, ports0, c0 := Coupled(), manager.ports, connected;
      ghost var stopped0 := manager.stopped;
      if id in connected {
        return false;
      }
      var port := Helpers.GetFreePort(FirstPort, LastPort, [], inUse, canBind);
      if port.None? {
        return false;
      }
      ok := manager.StartServerInternal("127.0.0.1", port.value, inUse(port.value), release, spawned, polls, now);
      if !ok {
        assert !inUse(port.value);
        return false;
      }
      PollOutcomes(polls);
      assert manager.stopped == stopped0;
      DistinctSnoc(ids, id);
      connected := connected[id := Connection(port.value, "connected", now)];
      ids := ids + [id];
      ghost var ports1 := manager.ports;
      RefreshDevices(env);
      var _ := RefreshAppiumStatus(probe);
      if wasCoupled && (forall q :: q in ports0 ==> inUse(q)) && (forall q :: !probe(q).Failed?) {
        PrunedNone(ports1, probe);
        assert port.value !in ports0;
        BindKeepsBound(c0, ports0.Keys, id, connected[id], ports1.Keys);
      }
    }

    /** `disconnect_device`: an unknown id is left alone. A connected one
        has the server on its port stopped and is forgotten, and both lists
        are refreshed. */
    method Disconnect(id: string, env: DeviceEnv, probe: int -> Helpers.Probe)
      requires Valid()
      modifies this, manager
      ensures Valid() && manager == old(manager) && manager.platformType == old(manager.platformType)
      ensures id !in old(connected) ==>
        && connected == old(connected) && ids == old(ids) && devices == old(devices)
        && manager.ports == old(manager.ports) && manager.processes == old(manager.processes)
        && manager.stopped == old(manager.stopped)
      ensures id in old(connected) ==>
        && connected == old(connected) - {id} && ids == Without(old(ids), id)
        && manager.ports == Pruned(old(manager.ports) - {old(connected)[id].port}, probe)
        && manager.processes == Pruned(old(manager.processes) - {old(connected)[id].port}, probe)
        && devices == Discover(manager.platformType, env)
      ensures id in old(connected) ==>
        var p := old(connected)[id].port;
        manager.stopped == old(manager.stopped) +
          (if p in old(manager.processes) then [old(manager.processes)[p]] else []) +
          PidsOf(ByProbe(Without(old(manager.order), p), probe, true), old(manager.processes) - {p})
      ensures old(Coupled()) && (forall q :: !probe(q).Failed?) ==> Coupled()
    {
      ghost var wasCoupled, c0 := Coupled(), connected;
      if id !in connected {
        return;
      }
      var port := connected[id].port;
      if port !in manager.processes {
        WithoutAbsent(manager.order, port);
        assert manager.processes - {port} == manager.processes;
      }
      manager.StopServer(port);
      connected := connected - {id};
      ids := Without(ids, id);
      ghost var ports1 := manager.ports;
      RefreshDevices(env);
      var _ := RefreshAppiumStatus(probe);
      if wasCoupled && (forall q :: !probe(q).Failed?) {
        PrunedNone(ports1, probe);
        forall d | d in connected
          ensures connected[d].port in manager.ports
        {
          assert d in c0 && d != id;
        }
      }
    }

    /** `stop_all_appium_servers`: with devices connected and the user
        confirming, disconnects every device connected at the start, then
        refreshes the device list; with none connected, or without
        confirmation, changes nothing. */
    method StopAll(confirm: bool, env: DeviceEnv, probe: int -> Helpers.Probe)
      requires Valid()
      modifies this, manager
      ensures Valid() && manager == old(manager)
      ensures confirm && old(connected) != map[] ==>
        && connected == map[] && ids == []
        && manager.ports == Pruned(old(manager.ports) - PortsOf(old(connected)), probe)
        && manager.processes == Pruned(old(manager.processes) - PortsOf(old(connected)), probe)
        && devices == Discover(manager.platformType, env)
      ensures confirm && old(connected) != map[] ==>
        && old(manager.stopped) <= manager.stopped
        && (old(Coupled()) ==>
              forall d :: d in old(connected) ==> old(manager.processes)[old(connected)[d].port] in manager.stopped)
      ensures !confirm || old(connected) == map[] ==>
        && connected == old(connected) && ids == old(ids) && devices == old(devices)
        && manager.ports == old(manager.ports) && manager.processes == old(manager.processes)
        && manager.stopped == old(manager.stopped)
    {
      if connected == map[] {
        // nothing is running: the source only says so
        return;
      }
      if confirm {
        DisconnectAll(env, probe);
        RefreshDevices(env);
      }
    }

    /** The loop of `stop_all_appium_servers`: disconnects every id of a
        snapshot of the table, in connection order. That stops the server
        of every one of their ports, and each disconnection's refresh stops
        the servers whose probe raised. */
    method DisconnectAll(env: DeviceEnv, probe: int -> Helpers.Probe)
      requires Valid() && connected != map[]
      modifies this, manager
      ensures Valid() && manager == old(manager) && manager.platformType == old(manager.platformType)
      ensures connected == map[] && ids == []
      ensures manager.ports == Pruned(old(manager.ports) - PortsOf(old(connected)), probe)
      ensures manager.processes == Pruned(old(manager.processes) - PortsOf(old(connected)), probe)
      ensures old(manager.stopped) <= manager.stopped
      ensures old(Coupled()) ==>
        forall d :: d in old(connected) ==> old(manager.processes)[old(connected)[d].port] in manager.stopped
    {
      var snapshot := ids;
      ghost var c0, ports0, processes0 := connected, manager.ports, manager.processes;
      ghost var wasCoupled := Coupled();
      var i := 0;
      while i < |snapshot|
        invariant 0 <= i <= |snapshot|
        invariant Valid() && manager == old(manager) && manager.platformType == old(manager.platformType)
        invariant Distinct(snapshot) && forall d :: d in snapshot <==> d in c0
        invariant connected == Drop(c0, snapshot[..i])
        invariant manager.ports == Remaining(ports0, c0, snapshot[..i], probe)
        invariant manager.processes == Remaining(processes0, c0, snapshot[..i], probe)
        invariant Logged(c0, processes0, old(manager.stopped), manager.processes, manager.stopped, wasCoupled)
      {
        DisconnectNext(snapshot, i, env, probe, c0, ports0, processes0, old(manager.stopped), wasCoupled);
        i := i + 1;
      }
      DisconnectDone(snapshot, c0);
      NoIds(ids, connected);
      ghost var d0 :| d0 in c0;
      assert d0 in snapshot;
      forall d | wasCoupled && d in c0
        ensures processes0[c0[d].port] in manager.stopped
      {
        assert c0[d].port in PortsOf(c0);
      }
    }

    /** One turn of the loop of `stop_all_appium_servers`: disconnects the
        `i`-th id of the snapshot. */
    method DisconnectNext(snapshot: seq<string>, i: int, env: DeviceEnv, probe: int -> Helpers.Probe,
                          ghost c0: map<string, Connection>, ghost ports0: map<int, ServerInfo>,
                          ghost processes0: map<int, Pid>, ghost stopped0: seq<Pid>, ghost coupled: bool)
      requires Valid() && 0 <= i < |snapshot|
      requires Distinct(snapshot) && forall d :: d in snapshot <==> d in c0
      requires connected == Drop(c0, snapshot[..i])
      requires manager.ports == Remaining(ports0, c0, snapshot[..i], probe)
      requires manager.processes == Remaining(processes0, c0, snapshot[..i], probe)
      requires Logged(c0, processes0, stopped0, manager.processes, manager.stopped, coupled)
      modifies this, manager
      ensures Valid() && manager == old(manager) && manager.platformType == old(manager.platformType)
      ensures connected == Drop(c0, snapshot[..i + 1])
      ensures manager.ports == Remaining(ports0, c0, snapshot[..i + 1], probe)
      ensures manager.processes == Remaining(processes0, c0, snapshot[..i + 1], probe)
      ensures Logged(c0, processes0, stopped0, manager.processes, manager.stopped, coupled)
    {
      var d := snapshot[i];
      DisconnectStep(snapshot, i, c0);
      ghost var pids, order, stopped := manager.processes, manager.order, manager.stopped;
      Disconnect(d, env, probe);
      assert manager.ports == Remaining(ports0, c0, snapshot[..i + 1], probe) by {
        RemainingStep(ports0, c0, snapshot, i, probe);
      }
      assert manager.processes == Remaining(processes0, c0, snapshot[..i + 1], probe) by {
        RemainingStep(processes0, c0, snapshot, i, probe);
      }
      assert Logged(c0, processes0, stopped0, manager.processes, manager.stopped, coupled) by {
        StopLogStep(c0, processes0, stopped0, pids, order, stopped, c0[d].port, probe,
                    manager.processes, manager.stopped, coupled, snapshot[..i]);
      }
    }

    /** `toggle_device_connection`: disconnects a connected device and
        connects any other, with the effect `Disconnect` and `Connect`
        state, then refreshes the device list. */
    method Toggle(id: string, inUse: int -> bool, canBind: int -> bool, release: nat -> Helpers.KillAttempt,
                  spawned: Option<Pid>, polls: seq<Poll>, now: int, env: DeviceEnv, probe: int -> Helpers.Probe)
      requires Valid()
      modifies this, manager
      ensures Valid() && manager == old(manager) && manager.platformType == old(manager.platformType)
      ensures id in old(connected) ==>
        && connected == old(connected) - {id} && ids == Without(old(ids), id)
        && manager.ports == Pruned(old(manager.ports) - {old(connected)[id].port}, probe)
        && manager.processes == Pruned(old(manager.processes) - {old(connected)[id].port}, probe)
      ensures id in old(connected) ==>
        var p := old(connected)[id].port;
        manager.stopped == old(manager.stopped) +
          (if p in old(manager.processes) then [old(manager.processes)[p]] else []) +
          PidsOf(ByProbe(Without(old(manager.order), p), probe, true), old(manager.processes) - {p})
      ensures id !in old(connected) ==>
        (id in connected <==> SomePortFree(inUse, canBind) && spawned.Some? && BecomesHealthy(polls))
      ensures id !in old(connected) && id in connected ==>
        && FirstFree(connected[id].port, inUse, canBind)
        && connected == old(connected)[id := Connection(connected[id].port, "connected", now)]
        && ids == old(ids) + [id]
        && manager.ports == Pruned(old(manager.ports)[connected[id].port := ServerInfo("127.0.0.1", "running", now)], probe)
        && manager.processes == Pruned(old(manager.processes)[connected[id].port := spawned.value], probe)
      ensures id !in old(connected) && id in connected ==>
        var p := connected[id].port;
        manager.stopped == old(manager.stopped) +
          PidsOf(ByProbe(if p in old(manager.order) then old(manager.order) else old(manager.order) + [p], probe, true),
                 old(manager.processes)[p := spawned.value])
      ensures id !in old(connected) && id !in connected ==>
        && connected == old(connected) && ids == old(ids)
        && manager.ports == old(manager.ports) && manager.processes == old(manager.processes)
        && manager.stopped == old(manager.stopped) +
             (if SomePortFree(inUse, canBind) && spawned.Some? && TimesOut(polls) then [spawned.value] else [])
      ensures devices == Discover(manager.platformType, env)
      ensures old(Coupled()) && (forall q :: !probe(q).Failed?)
        && (id !in old(connected) ==> forall q :: q in old(manager.ports) ==> inUse(q))
        ==> Coupled()
    {
      if id in connected {
        Disconnect(id, env, probe);
      } else {
        var _ := Connect(id, inUse, canBind, release, spawned, polls, now, env, probe);
      }
      RefreshDevices(env);
    }
  }

  /** The registry `m` after the ids `done` of the table `c0` were
      disconnected one by one: their ports are gone, and, once any was,
      so is every port whose probe raised. */
  ghost function Remaining<V>(m: map<int, V>, c0: map<string, Connection>, done: seq<string>,
                              probe: int -> Helpers.Probe): map<int, V> {
    if done == [] then m else Pruned(m - PortsOf(Keep(c0, done)), probe)
  }

  /** One more id of the snapshot: its port goes, and the registry is
      pruned again. */
  lemma RemainingStep<V>(m: map<int, V>, c0: map<string, Connection>, snapshot: seq<string>, i: int,
                         probe: int -> Helpers.Probe)
    requires 0 <= i < |snapshot| && Distinct(snapshot) && forall d :: d in snapshot <==> d in c0
    ensures Pruned(Remaining(m, c0, snapshot[..i], probe) - {c0[snapshot[i]].port}, probe) ==
      Remaining(m, c0, snapshot[..i + 1], probe)
  {
    var k := PortsOf(Keep(c0, snapshot[..i]));
    DisconnectStep(snapshot, i, c0);
    if i == 0 {
      assert k == {} by {
        assert Keep(c0, snapshot[..0]) == map[];
      }
    }
    PrunedRemove(m, k, c0[snapshot[i]].port, probe, i > 0);
  }

  /** What the disconnections of `stop_all_appium_servers` have done so
      far to the stop log, started as `stopped0`: it only grew and, when
      the table `c0` was coupled to the registry `processes0` they started
      from, every port of `c0` is still registered in `pids` or its process
      was terminated. */
  ghost predicate Logged(c0: map<string, Connection>, processes0: map<int, Pid>, stopped0: seq<Pid>,
                         pids: map<int, Pid>, stopped: seq<Pid>, coupled: bool) {
    && stopped0 <= stopped
    && (coupled ==> forall e :: e in c0 ==>
          c0[e].port in processes0 && (c0[e].port in pids || processes0[c0[e].port] in stopped))
  }

  /** One disconnection, on the registry `pids` listed in `order`, keeps
      `Logged`. */
  lemma StopLogStep(c0: map<string, Connection>, processes0: map<int, Pid>, stopped0: seq<Pid>, pids: map<int, Pid>,
                    order: seq<int>, stopped: seq<Pid>, p: int, probe: int -> Helpers.Probe,
                    pids': map<int, Pid>, stopped': seq<Pid>, coupled: bool, done: seq<string>)
    requires forall x :: x in order <==> x in pids
    requires pids == Remaining(processes0, c0, done, probe)
    requires Logged(c0, processes0, stopped0, pids, stopped, coupled)
    requires pids' == Pruned(pids - {p}, probe)
    requires stopped' == stopped + (if p in pids then [pids[p]] else []) +
      PidsOf(ByProbe(Without(order, p), probe, true), pids - {p})
    ensures Logged(c0, processes0, stopped0, pids', stopped', coupled)
  {
    var logged := (if p in pids then [pids[p]] else []) + PidsOf(ByProbe(Without(order, p), probe, true), pids - {p});
    assert stopped' == stopped + logged;
    if coupled {
      forall e | e in c0
        ensures c0[e].port in pids' || processes0[c0[e].port] in stopped'
      {
        var q := c0[e].port;
        if q in pids && q !in pids' {
          StopLogCovers(pids, order, p, probe, q);
          assert pids[q] in logged;
        }
      }
    }
  }

  /** A process of the registry `m`, listed in `order`, that is gone once
      the port `p` is stopped and the registry pruned, was terminated: it
      is the process of `p`, or among the pruned ones. */
  lemma StopLogCovers(m: map<int, Pid>, order: seq<int>, p: int, probe: int -> Helpers.Probe, q: int)
    requires forall x :: x in order <==> x in m
    requires q in m && q !in Pruned(m - {p}, probe)
    ensures m[q] in (if p in m then [m[p]] else []) + PidsOf(ByProbe(Without(order, p), probe, true), m - {p})
  {
    if q != p {
      ByProbeMembers(Without(order, p), probe, true);
      PidsOfMember(ByProbe(Without(order, p), probe, true), m - {p}, q);
    }
  }

  /** The ports of a registry kept in registration order `order`, less
      those whose probe raised, are what pruning keeps. */
  lemma PrunedIs<V>(order: seq<int>, m: map<int, V>, probe: int -> Helpers.Probe)
    requires forall q :: q in order <==> q in m
    ensures m - FailedSet(order, probe) == Pruned(m, probe)
  {
    assert forall q :: q in m - FailedSet(order, probe) <==> q in Pruned(m, probe);
  }

  /** With no probe raising, pruning keeps everything. */
  lemma PrunedNone<V>(m: map<int, V>, probe: int -> Helpers.Probe)
    requires forall q :: !probe(q).Failed?
    ensures Pruned(m, probe) == m
  {
    assert forall q :: q in Pruned(m, probe) <==> q in m;
  }

  /** Removing one more port after pruning is pruning after removing it
      (and, with `pruned` false, the first removal). */
  lemma PrunedRemove<V>(m: map<int, V>, k: set<int>, x: int, probe: int -> Helpers.Probe, pruned: bool)
    ensures Pruned((if pruned then Pruned(m - k, probe) else m - k) - {x}, probe) == Pruned(m - (k + {x}), probe)
  {
  }

  /** The connections of `c` whose id is (`Keep`) or is not (`Drop`) in
      `keys`. */
  ghost function Keep(c: map<string, Connection>, keys: seq<string>): map<string, Connection> {
    map d | d in c && d in keys :: c[d]
  }

  ghost function Drop(c: map<string, Connection>, keys: seq<string>): map<string, Connection> {
    map d | d in c && d !in keys :: c[d]
  }

  /** An order that lists exactly the ids of an empty table is empty. */
  lemma NoIds(ids: seq<string>, c: map<string, Connection>)
    requires (forall d :: d in ids <==> d in c) && c == map[]
    ensures ids == []
  {
    if ids != [] {
      HeadIn(ids);
      assert false;
    }
  }

  lemma HeadIn(s: seq<string>)
    requires s != []
    ensures s[0] in s
  {
  }

  /** The whole snapshot: nothing is left, and every port was stopped. */
  lemma DisconnectDone(snapshot: seq<string>, c0: map<string, Connection>)
    requires forall d :: d in snapshot <==> d in c0
    ensures Drop(c0, snapshot[..|snapshot|]) == map[] && Keep(c0, snapshot[..|snapshot|]) == c0
  {
    assert snapshot[..|snapshot|] == snapshot;
  }

  /** One more id of the snapshot: the table and the stopped ports grow by
      that id alone. */
  lemma DisconnectStep(snapshot: seq<string>, i: int, c0: map<string, Connection>)
    requires 0 <= i < |snapshot| && Distinct(snapshot) && forall d :: d in snapshot <==> d in c0
    ensures var d := snapshot[i];
      && d in c0 && d in Drop(c0, snapshot[..i]) && Drop(c0, snapshot[..i])[d] == c0[d]
      && Drop(c0, snapshot[..i + 1]) == Drop(c0, snapshot[..i]) - {d}
      && PortsOf(Keep(c0, snapshot[..i + 1])) == PortsOf(Keep(c0, snapshot[..i])) + {c0[d].port}
  {
    var d := snapshot[i];
    DistinctAt(snapshot, i);
    assert snapshot[..i + 1] == snapshot[..i] + [d];
    assert d in c0;
    DropStep(snapshot[..i], d, c0);
    KeepStep(snapshot[..i], d, c0);
  }

  lemma DropStep(done: seq<string>, d: string, c0: map<string, Connection>)
    requires d in c0 && d !in done
    ensures d in Drop(c0, done) && Drop(c0, done)[d] == c0[d]
    ensures Drop(c0, done + [d]) == Drop(c0, done) - {d}
  {
  }

  lemma KeepStep(done: seq<string>, d: string, c0: map<string, Connection>)
    requires d in c0
    ensures PortsOf(Keep(c0, done + [d])) == PortsOf(Keep(c0, done)) + {c0[d].port}
  {
    var before, after := Keep(c0, done), Keep(c0, done + [d]);
    assert after == before[d := c0[d]];
    forall p | p in PortsOf(after) ensures p in PortsOf(before) + {c0[d].port} {
      var e :| e in after && after[e].port == p;
      if e != d {
        assert e in before;
      }
    }
    forall p | p in PortsOf(before) ensures p in PortsOf(after) {
      var e :| e in before && before[e].port == p;
      assert e in after;
    }
    assert d in after;
  }
}
