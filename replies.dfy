/**
 * The reply handlers of the polled REST requests (connector/syncthingconnection.cpp,
 * readConfig, readDirs, readDevs, readStatus, readConnections, readErrors and
 * readEvents), as functions on the connection state, and the building of request paths.
 */
module Replies {
  import opened Types
  import opened Store
  import opened Engine
  import opened Lifecycle
  import opened Events

  // ---- request paths ----------------------------------------------------------

  /**
   * The path of a request: REST requests go below "/rest/" of the configured URL's
   * path, other requests are appended to it directly.
   */
  function RequestPath(basePath: string, path: string, rest: bool): (r: string)
    ensures rest ==> basePath + "/rest/" <= r && r[|basePath| + 6..] == path
    ensures !rest ==> basePath <= r && r[|basePath|..] == path
  {
    if rest then basePath + "/rest/" + path else basePath + path
  }

  /** Different endpoints of the same kind never share a path. */
  lemma RequestPathInjective(basePath: string, p1: string, p2: string, rest: bool)
    requires RequestPath(basePath, p1, rest) == RequestPath(basePath, p2, rest)
    ensures p1 == p2
  {
    if rest {
      assert p1 == RequestPath(basePath, p1, rest)[|basePath| + 6..];
    } else {
      assert p1 == RequestPath(basePath, p1, rest)[|basePath|..];
    }
  }

  // ---- configuration ----------------------------------------------------------

  /** The five requests of steady-state polling, the event request from cursor 0 last. */
  const SteadyRequests: seq<NetAction> :=
    [Get(SystemConnections, 0), Get(StatsFolder, 0), Get(StatsDevice, 0), Get(SystemError, 0), Get(Events(0), 0)]

  /** The directories of a configuration replace the cached ones, recycling by id. */
  function ReadDirs(s: ConnState, folders: seq<DirEntry>): (r: ConnState)
    ensures r == s.(dirs := MergeDirs(s.dirs, folders), signals := s.signals + [NewDirs])
  {
    Emit(s.(dirs := MergeDirs(s.dirs, folders)), NewDirs)
  }

  /** The devices of a configuration replace the cached ones, recycling by id. */
  function ReadDevs(s: ConnState, devices: seq<DevEntry>): (r: ConnState)
    ensures r == s.(devs := MergeDevs(s.devs, devices, s.info.myId), signals := s.signals + [NewDevices])
  {
    Emit(s.(devs := MergeDevs(s.devs, devices, s.info.myId)), NewDevices)
  }

  /**
   * A configuration reply. A parsed configuration is announced, replaces directories
   * and devices and marks the configuration as present; while not connected the
   * connection then tries to continue connecting. A parse error is reported; a
   * cancellation is intended and ignored; any other failure is reported, disconnects
   * and arms the reconnect timer.
   */
  function ReadConfig(s: ConnState, reply: Reply<ConfigReply>): (r: ConnState)
    ensures reply.Canceled? ==> r == s
    ensures reply.ParseError? ==>
      r == s.(signals := s.signals + [Error("Unable to parse Syncthing config: ", Parsing)])
    ensures reply.Ok? ==>
      r.signals == s.signals + [NewConfig(false), NewDirs, NewDevices] &&
      r.dirs == MergeDirs(s.dirs, reply.data.folders) &&
      r.devs == MergeDevs(s.devs, reply.data.devices, s.info.myId) && r.status == s.status &&
      var continues := !IsConnected(s.status) && s.flags.keepPolling && s.flags.hasStatus;
      r.flags == (if continues then s.flags.(hasConfig := true, lastEventId := 0) else s.flags.(hasConfig := true)) &&
      r.net == (if continues then s.net + SteadyRequests else s.net)
    ensures (reply.Timeout? || reply.Other?) ==>
      r.status == (if s.status == Status.BeingDestroyed then s.status else Status.Disconnected) &&
      s.signals + [Error("Unable to request Syncthing config: ", OverallConnection)] <= r.signals &&
      r.flags.reconnectTimerActive == (s.flags.reconnectTimerActive || s.settings.autoReconnectInterval != 0) &&
      r.dirs == s.dirs && r.net == s.net
  {
    match reply
    case Ok(config) =>
      var s1 := ReadDevs(ReadDirs(Emit(s, NewConfig(false)), config.folders), config.devices);
      var s2 := s1.(flags := s1.flags.(hasConfig := true));
      if !IsConnected(s2.status) then ContinueConnecting(s2) else s2
    case ParseError => Emit(s, Error("Unable to parse Syncthing config: ", Parsing))
    case Canceled => s
    case _ =>
      ArmReconnectTimer(SetStatus(Emit(s, Error("Unable to request Syncthing config: ", OverallConnection)), Status.Disconnected))
  }

  /**
   * After a configuration reply every device is OwnDevice exactly when its id is the
   * own id, and Unknown otherwise.
   */
  lemma ReadConfigMarksOwnDevice(s: ConnState, config: ConfigReply)
    ensures var r := ReadConfig(s, Ok(config));
      forall k :: 0 <= k < |r.devs| ==>
        r.devs[k].state.status == (if r.devs[k].id == s.info.myId then DevStatus.OwnDevice else DevStatus.Unknown)
  {
    MergeDevsShape(s.devs, config.devices, s.info.myId);
  }

  // ---- status -----------------------------------------------------------------

  /** The first device with id `id`, if any, becomes the own device and is announced. */
  function MarkOwnDevice(s: ConnState, id: string): (r: ConnState)
    ensures |r.devs| == |s.devs|
    ensures var i := IndexOfDev(s.devs, id);
      i < |s.devs| ==>
        r == s.(devs := s.devs[i := s.devs[i].(state := s.devs[i].state.(status := DevStatus.OwnDevice))],
                signals := s.signals + [DevStatusChanged(i)])
    ensures IndexOfDev(s.devs, id) == |s.devs| ==> r == s
  {
    var i := IndexOfDev(s.devs, id);
    if i < |s.devs| then
      Emit(SetDev(s, i, s.devs[i].(state := s.devs[i].state.(status := DevStatus.OwnDevice))), DevStatusChanged(i))
    else s
  }

  /**
   * A status reply. A new own id is stored and announced and marks its device; in any
   * successful case the status counts as present and the connection tries to continue
   * connecting. Failures are reported (a cancellation is ignored) and change nothing else.
   */
  function ReadStatus(s: ConnState, reply: Reply<string>): (r: ConnState)
    ensures reply.Canceled? ==> r == s
    ensures reply.ParseError? ==>
      r == s.(signals := s.signals + [Error("Unable to parse Syncthing status: ", Parsing)])
    ensures reply.Timeout? || reply.Other? ==>
      r == s.(signals := s.signals + [Error("Unable to request Syncthing status: ", OverallConnection)])
    ensures reply.Ok? ==>
      r.info.myId == reply.data && r.status == s.status && r.dirs == s.dirs && |r.devs| == |s.devs| &&
      var i := IndexOfDev(s.devs, reply.data);
      r.signals == s.signals + (if reply.data == s.info.myId then []
                                else [MyIdChanged(reply.data)] + (if i < |s.devs| then [DevStatusChanged(i)] else [])) &&
      (reply.data != s.info.myId && i < |s.devs| ==> r.devs[i].state.status == DevStatus.OwnDevice) &&
      var continues := s.flags.keepPolling && s.flags.hasConfig;
      r.flags == (if continues then s.flags.(hasStatus := true, lastEventId := 0) else s.flags.(hasStatus := true)) &&
      r.net == (if continues then s.net + SteadyRequests else s.net)
  {
    match reply
    case Ok(myId) =>
      var s1 := if myId != s.info.myId
                then MarkOwnDevice(Emit(s.(info := s.info.(myId := myId)), MyIdChanged(myId)), myId)
                else s;
      ContinueConnecting(s1.(flags := s1.flags.(hasStatus := true)))
    case ParseError => Emit(s, Error("Unable to parse Syncthing status: ", Parsing))
    case Canceled => s
    case _ => Emit(s, Error("Unable to request Syncthing status: ", OverallConnection))
  }

  /**
   * After a successful connect the configuration and the status replies may arrive in
   * either order; in both, steady-state polling starts exactly once, once both are in,
   * with the event cursor at 0.
   */
  lemma BootstrapEitherOrder(s: ConnState, config: ConfigReply, myId: string)
    requires s.flags.keepPolling && !s.flags.hasConfig && !s.flags.hasStatus && !IsConnected(s.status)
    ensures var r := ReadStatus(ReadConfig(s, Ok(config)), Ok(myId));
      r.flags.hasConfig && r.flags.hasStatus && r.flags.lastEventId == 0 && r.net == s.net + SteadyRequests
    ensures var r := ReadConfig(ReadStatus(s, Ok(myId)), Ok(config));
      r.flags.hasConfig && r.flags.hasStatus && r.flags.lastEventId == 0 && r.net == s.net + SteadyRequests
  {
    var c1 := ReadConfig(s, Ok(config));
    assert c1.net == s.net && c1.status == s.status && c1.flags == s.flags.(hasConfig := true);
    var t1 := ReadStatus(s, Ok(myId));
    assert t1.net == s.net && t1.status == s.status && t1.flags == s.flags.(hasStatus := true);
  }

  // ---- connections ------------------------------------------------------------

  /**
   * The status a connections poll gives a device: the own device keeps its status; an
   * unknown or disconnected device becomes Idle or Disconnected as reported; any other
   * becomes Disconnected when it is reported as not connected and keeps its status
   * otherwise.
   */
  function ConnectionTransition(st: DevStatus, connected: bool): (r: DevStatus)
    ensures st == DevStatus.OwnDevice ==> r == DevStatus.OwnDevice
    ensures st != DevStatus.OwnDevice && !connected ==> r == DevStatus.Disconnected
    ensures st != DevStatus.OwnDevice && connected ==>
      r == (if st == DevStatus.Unknown || st == DevStatus.Disconnected then DevStatus.Idle else st)
  {
    match st
    case OwnDevice => st
    case Disconnected => if connected then DevStatus.Idle else DevStatus.Disconnected
    case Unknown => if connected then DevStatus.Idle else DevStatus.Disconnected
    case _ => if !connected then DevStatus.Disconnected else st
  }

  /** A device updated from its connection object. */
  function ConnectedDev(d: Dev, c: ConnectionInfo): Dev
  {
    d.(state := d.state.(status := ConnectionTransition(d.state.status, c.connected), paused := c.paused,
                         totalIncomingTraffic := c.inBytesTotal, totalOutgoingTraffic := c.outBytesTotal,
                         connectionAddress := c.address, connectionType := c.connectionType,
                         clientVersion := c.clientVersion))
  }

  /** The first `n` devices updated from a connections reply, each announced in order. */
  function ApplyConnections(s: ConnState, connections: map<string, ConnectionInfo>, n: nat): (r: ConnState)
    requires n <= |s.devs|
    ensures |r.devs| == |s.devs|
    ensures r == s.(devs := r.devs, signals := r.signals)
    ensures r.signals == s.signals + ConnectionSignals(s.devs, connections, n)
    ensures forall k :: 0 <= k < |s.devs| ==>
      r.devs[k] == if k < n && s.devs[k].id in connections then ConnectedDev(s.devs[k], connections[s.devs[k].id]) else s.devs[k]
  {
    if n == 0 then s
    else
      var s1 := ApplyConnections(s, connections, n - 1);
      var d := s1.devs[n - 1];
      if d.id in connections then Emit(SetDev(s1, n - 1, ConnectedDev(d, connections[d.id])), DevStatusChanged(n - 1))
      else s1
  }

  /** The announcements of a connections poll over the first `n` devices, in device order. */
  function ConnectionSignals(devs: seq<Dev>, connections: map<string, ConnectionInfo>, n: nat): seq<Signal>
    requires n <= |devs|
  {
    if n == 0 then []
    else ConnectionSignals(devs, connections, n - 1) + (if devs[n - 1].id in connections then [DevStatusChanged(n - 1)] else [])
  }

  /**
   * A connections poll announces exactly the devices that have a connection object,
   * each once, by index.
   */
  lemma {:induction false} ConnectionSignalsExact(devs: seq<Dev>, connections: map<string, ConnectionInfo>, n: nat)
    requires n <= |devs|
    ensures forall x :: x in ConnectionSignals(devs, connections, n) ==> x.DevStatusChanged? && x.devIndex < n
    ensures forall k :: 0 <= k < n ==> (DevStatusChanged(k) in ConnectionSignals(devs, connections, n) <==> devs[k].id in connections)
    ensures NoDup(ConnectionSignals(devs, connections, n))
    decreases n
  {
    if n > 0 {
      ConnectionSignalsExact(devs, connections, n - 1);
      var prev := ConnectionSignals(devs, connections, n - 1);
      var r := ConnectionSignals(devs, connections, n);
      if devs[n - 1].id in connections {
        assert r == prev + [DevStatusChanged(n - 1)];
        assert DevStatusChanged(n - 1) !in prev;
        forall a, b | 0 <= a < b < |r|
          ensures r[a] != r[b]
        {
          if b == |prev| {
            assert r[a] == prev[a];
          }
        }
      } else {
        assert r == prev;
      }
    }
  }

  /**
   * A connections reply. A parsed reply stores the traffic totals, announces them,
   * updates every device that has a connection object, records the poll time and, while
   * polling, schedules the next poll after the traffic poll interval. Failures are
   * reported (a cancellation is ignored) and change nothing else.
   */
  function ReadConnections(s: ConnState, reply: Reply<ConnectionsReply>, now: Time): (r: ConnState)
    ensures reply.Canceled? ==> r == s
    ensures reply.ParseError? ==> r == s.(signals := s.signals + [Error("Unable to parse connections: ", Parsing)])
    ensures reply.Timeout? || reply.Other? ==>
      r == s.(signals := s.signals + [Error("Unable to request connections: ", OverallConnection)])
    ensures reply.Ok? ==>
      r.info.totalIncomingTraffic == reply.data.inBytesTotal && r.info.totalOutgoingTraffic == reply.data.outBytesTotal &&
      r.info.lastConnectionsUpdate == now && r.status == s.status && r.dirs == s.dirs &&
      s.signals + [TrafficChanged(reply.data.inBytesTotal, reply.data.outBytesTotal)] <= r.signals &&
      |r.devs| == |s.devs| &&
      (forall k :: 0 <= k < |s.devs| ==>
         r.devs[k] == if s.devs[k].id in reply.data.connections
                      then ConnectedDev(s.devs[k], reply.data.connections[s.devs[k].id]) else s.devs[k]) &&
      r.net == s.net + (if s.flags.keepPolling then [Get(SystemConnections, s.settings.trafficPollInterval)] else [])
  {
    match reply
    case Ok(c) =>
      var s1 := Emit(s.(info := s.info.(totalIncomingTraffic := c.inBytesTotal, totalOutgoingTraffic := c.outBytesTotal)),
                     TrafficChanged(c.inBytesTotal, c.outBytesTotal));
      var s2 := ApplyConnections(s1, c.connections, |s1.devs|);
      var s3 := s2.(info := s2.info.(lastConnectionsUpdate := now));
      if s3.flags.keepPolling then Request(s3, SystemConnections, s3.settings.trafficPollInterval) else s3
    case ParseError => Emit(s, Error("Unable to parse connections: ", Parsing))
    case Canceled => s
    case _ => Emit(s, Error("Unable to request connections: ", OverallConnection))
  }

  // ---- errors -----------------------------------------------------------------

  /**
   * The entries of an errors reply in order: an entry with a time strictly after the
   * last one notified raises a notification and becomes the last one; an empty entry or
   * one whose time does not parse is skipped.
   */
  function NotifyErrors(s: ConnState, entries: seq<ErrorEntry>): (r: ConnState)
    ensures r.info.lastErrorTime >= s.info.lastErrorTime
    ensures s.signals <= r.signals
    ensures r.dirs == s.dirs && r.devs == s.devs && r.net == s.net && r.settings == s.settings
    ensures r.flags == s.flags.(autoReconnectTries := r.flags.autoReconnectTries)
    decreases |entries|
  {
    if entries == [] then s else NotifyErrors(NotifyError(s, entries[0]), entries[1..])
  }

  /** One entry of an errors reply. */
  function NotifyError(s: ConnState, e: ErrorEntry): (r: ConnState)
    ensures r.info.lastErrorTime == if e.when.Some? && s.info.lastErrorTime < e.when.value then e.when.value else s.info.lastErrorTime
    ensures s.signals <= r.signals
    ensures NotificationsOf(r.signals[|s.signals|..]) ==
      if e.when.Some? && s.info.lastErrorTime < e.when.value then [e.when.value] else []
    ensures r.dirs == s.dirs && r.devs == s.devs && r.net == s.net && r.settings == s.settings
    ensures r.flags == s.flags.(autoReconnectTries := r.flags.autoReconnectTries)
  {
    if e.when.Some? && s.info.lastErrorTime < e.when.value then
      var s1 := s.(info := s.info.(lastErrorTime := e.when.value));
      EmitNotificationAdds(s1, e.when.value, e.message);
      EmitNotification(s1, e.when.value, e.message)
    else
      assert s.signals[|s.signals|..] == [];
      s
  }

  /**
   * The times an errors reply notifies, given the last error time before it: each
   * entry whose time is after the last notified one, in order.
   */
  function NewerTimes(last: Time, entries: seq<ErrorEntry>): (r: seq<Time>)
    ensures forall k :: 0 <= k < |r| ==> last < r[k]
    ensures forall a, b :: 0 <= a < b < |r| ==> r[a] < r[b]
    decreases |entries|
  {
    if entries == [] then []
    else if entries[0].when.Some? && last < entries[0].when.value
    then [entries[0].when.value] + NewerTimes(entries[0].when.value, entries[1..])
    else NewerTimes(last, entries[1..])
  }

  /** An errors reply raises a notification exactly for the newer times, in order. */
  lemma {:induction false} NotifyErrorsNotifiesNewer(s: ConnState, entries: seq<ErrorEntry>)
    ensures NotificationsOf(NotifyErrors(s, entries).signals[|s.signals|..]) == NewerTimes(s.info.lastErrorTime, entries)
    decreases |entries|
  {
    if entries != [] {
      var s1 := NotifyError(s, entries[0]);
      NotifyErrorsNotifiesNewer(s1, entries[1..]);
      var r := NotifyErrors(s1, entries[1..]);
      assert r == NotifyErrors(s, entries);
      SliceSplit(s.signals, s1.signals, r.signals);
      NotificationsOfAppend(s1.signals[|s.signals|..], r.signals[|s1.signals|..]);
    }
  }

  /** After an errors reply the last error time is the latest newer time, if there is one. */
  lemma NotifyErrorsLastTime(s: ConnState, entries: seq<ErrorEntry>)
    ensures var ts := NewerTimes(s.info.lastErrorTime, entries);
      NotifyErrors(s, entries).info.lastErrorTime == (if ts == [] then s.info.lastErrorTime else ts[|ts| - 1])
  {
    NotifyErrorsLatest(s, entries);
    LatestIsLastNewer(s.info.lastErrorTime, entries);
  }

  /** The last error time after the entries, starting from `last`. */
  function LatestAfter(last: Time, entries: seq<ErrorEntry>): (r: Time)
    ensures r >= last
    decreases |entries|
  {
    if entries == [] then last
    else LatestAfter(if entries[0].when.Some? && last < entries[0].when.value then entries[0].when.value else last, entries[1..])
  }

  lemma {:induction false} NotifyErrorsLatest(s: ConnState, entries: seq<ErrorEntry>)
    ensures NotifyErrors(s, entries).info.lastErrorTime == LatestAfter(s.info.lastErrorTime, entries)
    decreases |entries|
  {
    if entries != [] {
      NotifyErrorsLatest(NotifyError(s, entries[0]), entries[1..]);
    }
  }

  lemma {:induction false} LatestIsLastNewer(last: Time, entries: seq<ErrorEntry>)
    ensures var ts := NewerTimes(last, entries);
      LatestAfter(last, entries) == (if ts == [] then last else ts[|ts| - 1])
    decreases |entries|
  {
    if entries != [] {
      var e := entries[0];
      var last1 := if e.when.Some? && last < e.when.value then e.when.value else last;
      LatestIsLastNewer(last1, entries[1..]);
      if e.when.Some? && last < e.when.value {
        assert NewerTimes(last, entries) == [e.when.value] + NewerTimes(last1, entries[1..]);
      }
    }
  }

  /** The times of the notifications among `signals`, in order. */
  function NotificationsOf(signals: seq<Signal>): (r: seq<Time>)
    ensures |r| <= |signals|
  {
    if signals == [] then []
    else (if signals[0].NewNotification? then [signals[0].time] else []) + NotificationsOf(signals[1..])
  }

  lemma {:induction false} NotificationsOfAppend(a: seq<Signal>, b: seq<Signal>)
    ensures NotificationsOf(a + b) == NotificationsOf(a) + NotificationsOf(b)
    decreases |a|
  {
    if a != [] {
      assert (a + b)[1..] == a[1..] + b && (a + b)[0] == a[0];
      NotificationsOfAppend(a[1..], b);
      var h := if a[0].NewNotification? then [a[0].time] else [];
      assert NotificationsOf(a + b) == h + NotificationsOf(a[1..] + b);
      assert NotificationsOf(a) == h + NotificationsOf(a[1..]);
      assert h + (NotificationsOf(a[1..]) + NotificationsOf(b)) == (h + NotificationsOf(a[1..])) + NotificationsOf(b);
    } else {
      assert a + b == b;
    }
  }

  /** A raised notification adds exactly one notification signal: its own. */
  lemma EmitNotificationAdds(s: ConnState, when: Time, message: string)
    ensures NotificationsOf(EmitNotification(s, when, message).signals[|s.signals|..]) == [when]
  {
    var r := EmitNotification(s, when, message);
    var added := r.signals[|s.signals|..];
    var s1 := SetStatus(s.(unreadNotifications := true), s.status);
    if s1.status != s.status {
      assert added == [StatusChanged(s1.status), NewNotification(when, message)];
      assert added[1..] == [NewNotification(when, message)];
      assert added[1..][1..] == [];
    } else {
      assert added == [NewNotification(when, message)];
      assert added[1..] == [];
    }
  }

  /** Schedules the next errors poll after 30 seconds while polling. */
  function RescheduleErrors(s: ConnState): ConnState
  {
    if s.flags.keepPolling then Request(s, SystemError, 30000) else s
  }

  /**
   * An errors reply. A null last error time first becomes the current time, so errors
   * from before connecting are ignored. A parsed reply notifies the newer errors; both a
   * parsed reply and a parse error (which is reported) schedule the next poll while
   * polling. A cancellation is ignored and any other failure reported.
   */
  function ReadErrors(s: ConnState, reply: Reply<seq<ErrorEntry>>, now: Time): (r: ConnState)
    ensures var t0 := if IsNull(s.info.lastErrorTime) then now else s.info.lastErrorTime;
      var s0 := s.(info := s.info.(lastErrorTime := t0));
      (reply.Canceled? ==> r == s0) &&
      (reply.Timeout? || reply.Other? ==>
         r == s0.(signals := s.signals + [Error("Unable to request errors: ", OverallConnection)])) &&
      (reply.ParseError? ==>
         r == RescheduleErrors(s0.(signals := s.signals + [Error("Unable to parse errors: ", Parsing)]))) &&
      (reply.Ok? ==>
         r.info.lastErrorTime >= t0 && r.dirs == s.dirs && r.devs == s.devs &&
         r.net == s.net + (if s.flags.keepPolling then [Get(SystemError, 30000)] else []))
  {
    var s0 := if IsNull(s.info.lastErrorTime) then s.(info := s.info.(lastErrorTime := now)) else s;
    match reply
    case Ok(entries) => RescheduleErrors(NotifyErrors(s0, entries))
    case ParseError => RescheduleErrors(Emit(s0, Error("Unable to parse errors: ", Parsing)))
    case Canceled => s0
    case _ => Emit(s0, Error("Unable to request errors: ", OverallConnection))
  }

  // ---- events -----------------------------------------------------------------

  /**
   * The end of a handled event reply: while polling the next events are requested and
   * the status is re-derived, otherwise the connection becomes disconnected.
   */
  function ContinuePolling(s: ConnState): (r: ConnState)
    ensures r.dirs == s.dirs && r.devs == s.devs && r.flags.lastEventId == s.flags.lastEventId
    ensures s.flags.keepPolling ==> r.net == s.net + [Get(Events(s.flags.lastEventId), 0)]
    ensures !s.flags.keepPolling ==> r.net == s.net
    ensures s.status != Status.BeingDestroyed ==>
      (s.flags.keepPolling ==> IsConnected(r.status)) && (!s.flags.keepPolling ==> r.status == Status.Disconnected)
  {
    if s.flags.keepPolling then SetStatus(RequestEvents(s), Status.Idle) else SetStatus(s, Status.Disconnected)
  }

  /** A failed event request: reported, disconnected, and the reconnect timer armed. */
  function FailEvents(s: ConnState, message: string, category: ErrorCategory): (r: ConnState)
    ensures s.signals + [Error(message, category)] <= r.signals
    ensures r.net == s.net && r.dirs == s.dirs && r.devs == s.devs
    ensures s.status != Status.BeingDestroyed ==> r.status == Status.Disconnected
    ensures r.flags.reconnectTimerActive == (s.flags.reconnectTimerActive || s.settings.autoReconnectInterval != 0)
  {
    ArmReconnectTimer(SetStatus(Emit(s, Error(message, category)), Status.Disconnected))
  }

  /**
   * An event reply. Parsed events are announced and applied in order, then polling
   * continues; a timeout only means there were no new events. A cancellation continues
   * a pending reconnection or else leaves the connection disconnected. A parse error or
   * any other failure is reported and disconnects.
   */
  function ReadEvents(s: ConnState, reply: Reply<seq<Event>>): (r: ConnState)
    ensures r.settings == s.settings && s.signals <= r.signals && s.net <= r.net
    ensures reply.Canceled? && !s.flags.reconnecting ==> r.net == s.net && r.dirs == s.dirs
  {
    match reply
    case Ok(events) => ContinuePolling(ApplyEvents(Emit(s, NewEvents(|events|)), events))
    case Timeout => ContinuePolling(s)
    case Canceled => if s.flags.reconnecting then ContinueReconnecting(s) else SetStatus(s, Status.Disconnected)
    case ParseError => FailEvents(s, "Unable to parse Syncthing events: ", Parsing)
    case Other => FailEvents(s, "Unable to request Syncthing events: ", OverallConnection)
  }

  /**
   * A timeout keeps polling: while polling, the events are requested again from the
   * same cursor and the status is re-derived, with nothing else requested or cleared.
   */
  lemma ReadEventsTimeout(s: ConnState)
    requires s.status != Status.BeingDestroyed
    ensures var r := ReadEvents(s, Timeout);
      r.dirs == s.dirs && r.devs == s.devs && r.flags.lastEventId == s.flags.lastEventId &&
      (s.flags.keepPolling ==>
         r.net == s.net + [Get(Events(s.flags.lastEventId), 0)] && IsConnected(r.status)) &&
      (!s.flags.keepPolling ==> r.net == s.net && r.status == Status.Disconnected)
  {
  }

  /**
   * A cancellation is intended: it never reports an error. With a pending
   * reconnection the connection restarts (Reconnecting, cache cleared, bootstrap
   * requested); otherwise it becomes Disconnected and nothing is requested.
   */
  lemma ReadEventsCanceled(s: ConnState)
    requires s.status != Status.BeingDestroyed
    ensures var r := ReadEvents(s, Canceled);
      (!s.flags.reconnecting || !Insufficient(s) ==> forall k :: |s.signals| <= k < |r.signals| ==> !r.signals[k].Error?) &&
      (s.flags.reconnecting ==> r.status == Status.Reconnecting && r.dirs == [] && !r.flags.reconnecting) &&
      (!s.flags.reconnecting ==> r.status == Status.Disconnected && r.net == s.net && r.dirs == s.dirs)
  {
  }

  /**
   * A parse error or other failure reports the error, leaves the connection
   * Disconnected and arms the reconnect timer exactly when its interval is non-zero.
   */
  lemma ReadEventsFailure(s: ConnState, reply: Reply<seq<Event>>)
    requires s.status != Status.BeingDestroyed && (reply.ParseError? || reply.Other?)
    ensures var r := ReadEvents(s, reply);
      r.status == Status.Disconnected && r.net == s.net && r.dirs == s.dirs &&
      s.signals + [if reply.ParseError? then Error("Unable to parse Syncthing events: ", Parsing)
                   else Error("Unable to request Syncthing events: ", OverallConnection)] <= r.signals &&
      r.flags.reconnectTimerActive == (s.flags.reconnectTimerActive || s.settings.autoReconnectInterval != 0)
  {
  }

  /**
   * A parsed batch is announced with its size and leaves the cursor at the id of the
   * last event that carries one; while polling the next request asks for the events
   * after it.
   */
  lemma ReadEventsOk(s: ConnState, events: seq<Event>)
    ensures var r := ReadEvents(s, Ok(events));
      r.flags.lastEventId == LastCarriedId(events, s.flags.lastEventId) &&
      s.signals + [NewEvents(|events|)] <= r.signals && s.net <= r.net &&
      (s.flags.keepPolling ==> |r.net| > 0 && r.net[|r.net| - 1] == Get(Events(LastCarriedId(events, s.flags.lastEventId)), 0))
  {
    var s1 := Emit(s, NewEvents(|events|));
    ApplyEventsCursor(s1, events);
  }

  /**
   * A disconnect is completed by the canceled event reply: the pending requests are
   * aborted and the connection ends Disconnected without an error being reported.
   */
  lemma DisconnectThenCanceled(s: ConnState)
    requires s.status != Status.BeingDestroyed
    ensures var r := ReadEvents(Disconnect(s), Canceled);
      r.status == Status.Disconnected && r.net == s.net + [AbortAll] &&
      (forall k :: |s.signals| <= k < |r.signals| ==> r.signals[k] == StatusChanged(Status.Disconnected))
  {
  }

  /**
   * A reconnection while connected is completed by the canceled event reply: the
   * connection ends Reconnecting with the cache cleared, the abort followed by the
   * bootstrap requests, and no error reported.
   */
  lemma ReconnectThenCanceled(s: ConnState)
    requires IsConnected(s.status) && s.status != Status.BeingDestroyed && !Insufficient(s)
    ensures var r := ReadEvents(Reconnect(s), Canceled);
      r.status == Status.Reconnecting && r.dirs == [] && !r.flags.reconnecting &&
      r.net == s.net + [AbortAll, Get(SystemConfig, 0), Get(SystemStatus, 0)] &&
      (forall k :: |Reconnect(s).signals| <= k < |r.signals| ==> !r.signals[k].Error?)
  {
    ReconnectWhileConnected(s);
    ReadEventsCanceled(Reconnect(s));
  }
}
