/**
 * The connection object itself (connector/syncthingconnection.cpp): its members are
 * fields that the handlers update in place, and every handler is proved to leave the
 * object in the state the corresponding function of Engine, Lifecycle, Replies, Events
 * or Configuration computes. The emitted signals and issued requests are ghost logs.
 */
module Connection {
  import opened Types
  import opened Store
  import opened Aggregate
  import opened Engine
  import opened Lifecycle
  import opened Events
  import opened Replies
  import opened Configuration

  class SyncthingConnection {
    /** URL, API key, credentials, expected SSL errors and the poll and reconnect intervals. */
    var settings: Settings
    /** Polling and reconnecting flags, the event cursor, the try counter and the reconnect timer. */
    var flags: Flags
    /** Configuration directory, own id, traffic totals and the last update, error and file. */
    var info: DaemonInfo
    var status: Status
    var unreadNotifications: bool
    var dirs: seq<Dir>
    var devs: seq<Dev>
    var syncedDirs: seq<string>
    var completedDirs: seq<string>
    /** What the object has emitted and requested so far. */
    ghost var signals: seq<Signal>
    ghost var net: seq<NetAction>

    /** The object's members as one value. */
    ghost function State(): ConnState
      reads this
    {
      ConnState(settings, flags, info, status, unreadNotifications, dirs, devs, syncedDirs, completedDirs, signals, net)
    }

    /** A connection to the daemon at `url` with `key`, not yet connected. */
    constructor (url: string, key: string)
      ensures State() == InitialState(url, key)
    {
      settings := Settings(url, key, [], [], [], 2000, 60000, 0);
      flags := Flags(false, false, false, false, 0, 0, false);
      info := EmptyInfo;
      status, unreadNotifications := Status.Disconnected, false;
      dirs, devs, syncedDirs, completedDirs := [], [], [], [];
      signals, net := [], [];
    }

    // ---- queries --------------------------------------------------------------

    /** Whether some directory is out of sync. */
    method HasOutOfSyncDirs() returns (r: bool)
      ensures r <==> HasDirWithStatus(dirs, DirStatus.OutOfSync)
    {
      for i := 0 to |dirs|
        invariant !HasDirWithStatus(dirs[..i], DirStatus.OutOfSync)
      {
        if dirs[i].state.status == DirStatus.OutOfSync {
          return true;
        }
        HasDirWithStatusStep(dirs, i, DirStatus.OutOfSync);
      }
      assert dirs[..|dirs|] == dirs;
      return false;
    }

    /** The row of the first directory with id `id`; the number of directories if there is none. */
    method FindDirInfo(id: string) returns (row: nat)
      ensures row == IndexOfDir(dirs, id)
      ensures row < |dirs| <==> exists k :: 0 <= k < |dirs| && dirs[k].id == id
    {
      row := 0;
      while row < |dirs| && dirs[row].id != id
        invariant row <= |dirs|
        invariant forall j :: 0 <= j < row ==> dirs[j].id != id
      {
        row := row + 1;
      }
      IndexOfDirFirst(dirs, id, row);
    }

    /** The row of the first device with id `id`; the number of devices if there is none. */
    method FindDevInfo(id: string) returns (row: nat)
      ensures row == IndexOfDev(devs, id)
      ensures row < |devs| <==> exists k :: 0 <= k < |devs| && devs[k].id == id
    {
      row := 0;
      while row < |devs| && devs[row].id != id
        invariant row <= |devs|
        invariant forall j :: 0 <= j < row ==> devs[j].id != id
      {
        row := row + 1;
      }
      IndexOfDevFirst(devs, id, row);
    }

    // ---- status ---------------------------------------------------------------

    /**
     * The status update, scanning the directories for synchronizing and scanning ones
     * and the devices for a paused one.
     */
    method SetStatus(requested: Status)
      modifies this
      ensures State() == Engine.SetStatus(old(State()), requested)
    {
      if status == Status.BeingDestroyed {
        return;
      }
      if requested == Status.Disconnected || requested == Status.Reconnecting {
        syncedDirs := [];
        ChangeStatusTo(requested);
      } else {
        var st, synced, completed := DeriveStatus(dirs, devs, syncedDirs, completedDirs);
        flags, syncedDirs, completedDirs := flags.(autoReconnectTries := 0), synced, completed;
        assert State() == old(State()).(flags := old(flags).(autoReconnectTries := 0), syncedDirs := synced, completedDirs := completed);
        ChangeStatusTo(st);
      }
    }

    /** Stores the status, announcing it when it changed. */
    method ChangeStatusTo(st: Status)
      modifies this
      ensures State() == ChangeStatus(old(State()), st)
    {
      if status != st {
        status := st;
        signals := signals + [StatusChanged(st)];
      }
    }

    /** Raises a notification: marks it unread, re-derives the status and announces it. */
    method EmitNotification(when: Time, message: string)
      modifies this
      ensures State() == Engine.EmitNotification(old(State()), when, message)
    {
      unreadNotifications := true;
      SetStatus(status);
      signals := signals + [NewNotification(when, message)];
    }

    // ---- connecting -----------------------------------------------------------

    /** Connects unless connected; reports an insufficient configuration. */
    method Connect()
      modifies this
      ensures State() == Lifecycle.Connect(old(State()))
    {
      flags := flags.(reconnectTimerActive := false, autoReconnectTries := 0);
      if !IsConnected(status) {
        flags := flags.(reconnecting := false, hasConfig := false, hasStatus := false);
        var requested := RequestConfigAndStatus();
        if requested {
          flags := flags.(keepPolling := true);
        }
      }
    }

    /** Disconnects by aborting every pending request. */
    method Disconnect()
      modifies this
      ensures State() == Lifecycle.Disconnect(old(State()))
    {
      flags := flags.(reconnecting := false, hasConfig := false, hasStatus := false, autoReconnectTries := 0);
      net := net + [AbortAll];
    }

    /** Reconnects: through the abort when connected, right away otherwise. */
    method Reconnect()
      modifies this
      ensures State() == Lifecycle.Reconnect(old(State()))
    {
      flags := flags.(reconnectTimerActive := false, autoReconnectTries := 0);
      if IsConnected(status) {
        flags := flags.(reconnecting := true, hasConfig := false, hasStatus := false);
        net := net + [AbortAll];
      } else {
        ContinueReconnecting();
      }
    }

    /** Invalidates the configuration, clears the cache and requests configuration and status. */
    method ContinueReconnecting()
      modifies this
      ensures State() == Lifecycle.ContinueReconnecting(old(State()))
    {
      signals := signals + [NewConfig(true)];
      SetStatus(Status.Reconnecting);
      ClearCache();
      var requested := RequestConfigAndStatus();
    }

    /** Forgets everything learned from the daemon and enables polling from event 0 again. */
    method ClearCache()
      modifies this
      ensures State() == old(State()).(
        flags := old(flags).(keepPolling := true, reconnecting := false, lastEventId := 0, hasConfig := false, hasStatus := false),
        info := EmptyInfo, unreadNotifications := false, dirs := [], devs := [])
    {
      flags, info, unreadNotifications, dirs, devs :=
        flags.(keepPolling := true, reconnecting := false, lastEventId := 0, hasConfig := false, hasStatus := false),
        EmptyInfo, false, [], [];
    }

    /**
     * Requests configuration and status, or reports that URL or API key is missing; the
     * result says whether the requests were issued.
     */
    method RequestConfigAndStatus() returns (requested: bool)
      modifies this
      ensures requested <==> !Insufficient(old(State()))
      ensures State() == if requested then RequestBootstrap(old(State()))
                         else Emit(old(State()), Error(InsufficientMessage, OverallConnection))
    {
      if settings.apiKey == [] || settings.syncthingUrl == [] {
        signals := signals + [Error(InsufficientMessage, OverallConnection)];
        return false;
      }
      net := net + [Get(SystemConfig, 0), Get(SystemStatus, 0)];
      return true;
    }

    /** A reconnect-timer timeout: connects and counts the attempt. */
    method AutoReconnect()
      modifies this
      ensures State() == Lifecycle.AutoReconnect(old(State()))
    {
      var tries := flags.autoReconnectTries;
      Connect();
      flags := flags.(autoReconnectTries := tries + 1);
    }

    /** Starts steady-state polling once configuration and status are in. */
    method ContinueConnecting()
      modifies this
      ensures State() == Lifecycle.ContinueConnecting(old(State()))
    {
      if flags.keepPolling && flags.hasConfig && flags.hasStatus {
        net := net + [Get(SystemConnections, 0), Get(StatsFolder, 0), Get(StatsDevice, 0), Get(SystemError, 0)];
        flags := flags.(lastEventId := 0);
        net := net + [Get(Events(flags.lastEventId), 0)];
      }
    }

    /** The destructor's part: the status becomes BeingDestroyed and the connection disconnects. */
    method Destroy()
      modifies this
      ensures State() == Lifecycle.Destroy(old(State()))
    {
      status := Status.BeingDestroyed;
      Disconnect();
    }

    // ---- settings -------------------------------------------------------------

    /** Loads the daemon's self-signed certificate; the result says whether one was loaded. */
    method LoadSelfSignedCertificate(lookup: CertificateLookup) returns (loaded: bool)
      modifies this
      ensures (State(), loaded) == Configuration.LoadSelfSignedCertificate(old(State()), lookup)
    {
      settings := settings.(expectedSslErrors := []);
      match lookup
      case NotSecure => return false;
      case NotLocal => return false;
      case NotLocated =>
        signals := signals + [Error("Unable to locate certificate used by Syncthing GUI.", OverallConnection)];
        return false;
      case NotLoaded =>
        signals := signals + [Error("Unable to load certificate used by Syncthing GUI.", OverallConnection)];
        return false;
      case Loaded(c) =>
        settings := settings.(expectedSslErrors := ExpectedErrorsFor(c));
        return true;
    }

    /**
     * Applies connection settings; returns them as written back and whether a
     * reconnect is required.
     */
    method ApplySettings(cs: ConnectionSettings, lookup: CertificateLookup) returns (cs': ConnectionSettings, reconnectRequired: bool)
      modifies this
      ensures (State(), cs', reconnectRequired) == Configuration.ApplySettings(old(State()), cs, lookup)
    {
      var addressChanged := TakeAddress(cs);
      var sslChanged;
      cs', sslChanged := ApplyExpectedErrors(cs, lookup);
      settings := settings.(trafficPollInterval := cs.trafficPollInterval, devStatsPollInterval := cs.devStatsPollInterval,
                            autoReconnectInterval := cs.reconnectInterval);
      reconnectRequired := addressChanged || sslChanged;
    }

    /**
     * Takes over URL, API key and credentials; the result says whether any of them
     * differed.
     */
    method TakeAddress(cs: ConnectionSettings) returns (changed: bool)
      modifies this
      ensures State() == old(State()).(settings := WithCredentials(old(settings).(syncthingUrl := cs.syncthingUrl, apiKey := cs.apiKey), cs))
      ensures changed <==> old(settings).syncthingUrl != cs.syncthingUrl || old(settings).apiKey != cs.apiKey ||
                           CredentialsDiffer(old(settings), cs)
    {
      changed := false;
      if settings.syncthingUrl != cs.syncthingUrl {
        settings := settings.(syncthingUrl := cs.syncthingUrl);
        changed := true;
      }
      if settings.apiKey != cs.apiKey {
        settings := settings.(apiKey := cs.apiKey);
        changed := true;
      }
      if CredentialsDiffer(settings, cs) {
        if cs.authEnabled {
          settings := settings.(user := cs.userName, password := cs.password);
        } else {
          settings := settings.(user := [], password := []);
        }
        changed := true;
      }
    }

    /**
     * The expected SSL errors part of applying settings; returns the settings as written
     * back and whether the expected errors changed.
     */
    method ApplyExpectedErrors(cs: ConnectionSettings, lookup: CertificateLookup) returns (cs': ConnectionSettings, changed: bool)
      modifies this
      ensures (State(), cs', changed) == Configuration.ApplyExpectedErrors(old(State()), cs, lookup)
    {
      cs', changed := cs, false;
      if cs.expectedSslErrors == [] {
        var previouslyExpected := settings.expectedSslErrors != [];
        var loaded := LoadSelfSignedCertificate(lookup);
        changed := loaded || previouslyExpected;
        cs' := cs.(expectedSslErrors := settings.expectedSslErrors);
      } else if settings.expectedSslErrors != cs.expectedSslErrors {
        settings := settings.(expectedSslErrors := cs.expectedSslErrors);
        changed := true;
      }
    }

    /** Connects with settings: applies them and reconnects if that is required. */
    method ConnectWith(cs: ConnectionSettings, lookup: CertificateLookup) returns (cs': ConnectionSettings)
      modifies this
      ensures (State(), cs') == Configuration.ConnectWith(old(State()), cs, lookup)
    {
      var required;
      cs', required := ApplySettings(cs, lookup);
      if required {
        Reconnect();
      }
    }

    /** Reconnects with settings: applies them and reconnects in any case. */
    method ReconnectWith(cs: ConnectionSettings, lookup: CertificateLookup) returns (cs': ConnectionSettings)
      modifies this
      ensures (State(), cs') == Configuration.ReconnectWith(old(State()), cs, lookup)
    {
      var required;
      cs', required := ApplySettings(cs, lookup);
      Reconnect();
    }

    // ---- configuration and status replies ------------------------------------

    /**
     * Appends the cached directory with id `dirId` to `newDirs`, moving it out of the
     * cache, or a new directory if none is cached; an empty id appends nothing.
     */
    method AddDirInfo(newDirs: seq<Dir>, dirId: string) returns (newDirs': seq<Dir>)
      modifies this
      ensures dirId == [] ==> newDirs' == newDirs && State() == old(State())
      ensures dirId != [] ==>
        var i := IndexOfDir(old(dirs), dirId);
        newDirs' == newDirs + [if i < |old(dirs)| then old(dirs)[i] else NewDir(dirId)] &&
        State() == old(State()).(dirs := if i < |old(dirs)| then old(dirs)[i := MovedFromDir(old(dirs)[i])] else old(dirs))
    {
      if dirId == [] {
        return newDirs;
      }
      var row := FindDirInfo(dirId);
      if row < |dirs| {
        newDirs' := newDirs + [dirs[row]];
        dirs := dirs[row := MovedFromDir(dirs[row])];
      } else {
        newDirs' := newDirs + [NewDir(dirId)];
      }
    }

    /** The device counterpart of AddDirInfo. */
    method AddDevInfo(newDevs: seq<Dev>, devId: string) returns (newDevs': seq<Dev>)
      modifies this
      ensures devId == [] ==> newDevs' == newDevs && State() == old(State())
      ensures devId != [] ==>
        var i := IndexOfDev(old(devs), devId);
        newDevs' == newDevs + [if i < |old(devs)| then old(devs)[i] else NewDev(devId)] &&
        State() == old(State()).(devs := if i < |old(devs)| then old(devs)[i := MovedFromDev(old(devs)[i])] else old(devs))
    {
      if devId == [] {
        return newDevs;
      }
      var row := FindDevInfo(devId);
      if row < |devs| {
        newDevs' := newDevs + [devs[row]];
        devs := devs[row := MovedFromDev(devs[row])];
      } else {
        newDevs' := newDevs + [NewDev(devId)];
      }
    }

    /** Replaces the directories by those of a configuration, recycling cached ones by id. */
    method ReadDirs(folders: seq<DirEntry>)
      modifies this
      ensures State() == Replies.ReadDirs(old(State()), folders)
    {
      ghost var s0 := State();
      var newDirs: seq<Dir> := [];
      for j := 0 to |folders|
        invariant newDirs + MergeDirs(dirs, folders[j..]) == MergeDirs(s0.dirs, folders)
        invariant State() == s0.(dirs := dirs)
      {
        newDirs := ReadDirEntry(newDirs, folders, j);
      }
      assert folders[|folders|..] == [];
      dirs := newDirs;
      signals := signals + [NewDirs];
    }

    /** One entry of a configuration's folders: its directory is appended to `newDirs`. */
    method ReadDirEntry(newDirs: seq<Dir>, folders: seq<DirEntry>, j: nat) returns (newDirs': seq<Dir>)
      requires j < |folders|
      modifies this
      ensures newDirs' + MergeDirs(dirs, folders[j + 1..]) == newDirs + MergeDirs(old(dirs), folders[j..])
      ensures State() == old(State()).(dirs := dirs)
    {
      var e := folders[j];
      MergeDirsUnfold(dirs, folders, j);
      newDirs' := AddDirInfo(newDirs, e.id);
      if e.id != [] {
        newDirs' := newDirs'[|newDirs'| - 1 := ApplyDirEntry(newDirs'[|newDirs'| - 1], e)];
      }
    }

    /** Replaces the devices by those of a configuration, recycling cached ones by id. */
    method ReadDevs(devices: seq<DevEntry>)
      modifies this
      ensures State() == Replies.ReadDevs(old(State()), devices)
    {
      ghost var s0 := State();
      var newDevs: seq<Dev> := [];
      for j := 0 to |devices|
        invariant newDevs + MergeDevs(devs, devices[j..], s0.info.myId) == MergeDevs(s0.devs, devices, s0.info.myId)
        invariant State() == s0.(devs := devs)
      {
        newDevs := ReadDevEntry(newDevs, devices, j);
      }
      assert devices[|devices|..] == [];
      devs := newDevs;
      signals := signals + [NewDevices];
    }

    /** One entry of a configuration's devices: its device is appended to `newDevs`. */
    method ReadDevEntry(newDevs: seq<Dev>, devices: seq<DevEntry>, j: nat) returns (newDevs': seq<Dev>)
      requires j < |devices|
      modifies this
      ensures newDevs' + MergeDevs(devs, devices[j + 1..], info.myId) == newDevs + MergeDevs(old(devs), devices[j..], info.myId)
      ensures State() == old(State()).(devs := devs)
    {
      var e := devices[j];
      MergeDevsUnfold(devs, devices, j, info.myId);
      newDevs' := AddDevInfo(newDevs, e.id);
      if e.id != [] {
        newDevs' := newDevs'[|newDevs'| - 1 := ApplyDevEntry(newDevs'[|newDevs'| - 1], e, info.myId)];
      }
    }

    /** The configuration reply. */
    method ReadConfig(reply: Reply<ConfigReply>)
      modifies this
      ensures State() == Replies.ReadConfig(old(State()), reply)
    {
      match reply
      case Ok(config) =>
        signals := signals + [NewConfig(false)];
        ReadDirs(config.folders);
        ReadDevs(config.devices);
        flags := flags.(hasConfig := true);
        if !IsConnected(status) {
          ContinueConnecting();
        }
      case ParseError =>
        signals := signals + [Error("Unable to parse Syncthing config: ", Parsing)];
      case Canceled =>
        return;
      case _ =>
        signals := signals + [Error("Unable to request Syncthing config: ", OverallConnection)];
        SetStatus(Status.Disconnected);
        ArmReconnectTimer();
    }

    /** Starts the reconnect timer if its interval is non-zero. */
    method ArmReconnectTimer()
      modifies this
      ensures State() == Engine.ArmReconnectTimer(old(State()))
    {
      if settings.autoReconnectInterval != 0 {
        flags := flags.(reconnectTimerActive := true);
      }
    }

    /** The status reply: a new own id is stored, announced and marks its device. */
    method ReadStatus(reply: Reply<string>)
      modifies this
      ensures State() == Replies.ReadStatus(old(State()), reply)
    {
      match reply
      case Ok(id) =>
        StoreOwnId(id);
        flags := flags.(hasStatus := true);
        ContinueConnecting();
      case ParseError =>
        signals := signals + [Error("Unable to parse Syncthing status: ", Parsing)];
      case Canceled =>
        return;
      case _ =>
        signals := signals + [Error("Unable to request Syncthing status: ", OverallConnection)];
    }

    /** A new own id is stored and announced and marks its device. */
    method StoreOwnId(id: string)
      modifies this
      ensures State() == if id == old(info.myId) then old(State())
                         else Replies.MarkOwnDevice(Emit(old(State()).(info := old(info).(myId := id)), MyIdChanged(id)), id)
    {
      if id != info.myId {
        info := info.(myId := id);
        signals := signals + [MyIdChanged(id)];
        MarkOwnDevice(id);
      }
    }

    /** The first device with id `id`, if any, becomes the own device and is announced. */
    method MarkOwnDevice(id: string)
      modifies this
      ensures State() == Replies.MarkOwnDevice(old(State()), id)
    {
      var row := FindDevInfo(id);
      if row < |devs| {
        devs := devs[row := devs[row].(state := devs[row].state.(status := DevStatus.OwnDevice))];
        signals := signals + [DevStatusChanged(row)];
      }
    }

    // ---- polled replies -------------------------------------------------------

    /** The connections reply, at time `now`. */
    method ReadConnections(reply: Reply<ConnectionsReply>, now: Time)
      modifies this
      ensures State() == Replies.ReadConnections(old(State()), reply, now)
    {
      match reply
      case Ok(c) =>
        info := info.(totalIncomingTraffic := c.inBytesTotal, totalOutgoingTraffic := c.outBytesTotal);
        signals := signals + [TrafficChanged(c.inBytesTotal, c.outBytesTotal)];
        UpdateDevsFromConnections(c.connections);
        info := info.(lastConnectionsUpdate := now);
        if flags.keepPolling {
          net := net + [Get(SystemConnections, settings.trafficPollInterval)];
        }
      case ParseError =>
        signals := signals + [Error("Unable to parse connections: ", Parsing)];
      case Canceled =>
        return;
      case _ =>
        signals := signals + [Error("Unable to request connections: ", OverallConnection)];
    }

    /** Updates, in order, every device that has a connection object, and announces it. */
    method UpdateDevsFromConnections(connections: map<string, ConnectionInfo>)
      modifies this
      ensures State() == ApplyConnections(old(State()), connections, |old(devs)|)
    {
      ghost var s0 := State();
      for index := 0 to |devs|
        invariant |devs| == |s0.devs|
        invariant State() == ApplyConnections(s0, connections, index)
      {
        var d := devs[index];
        if d.id in connections {
          devs := devs[index := ConnectedDev(d, connections[d.id])];
          signals := signals + [DevStatusChanged(index)];
        }
      }
    }

    /** The errors reply, at time `now`: newer errors are notified. */
    method ReadErrors(reply: Reply<seq<ErrorEntry>>, now: Time)
      modifies this
      ensures State() == Replies.ReadErrors(old(State()), reply, now)
    {
      if IsNull(info.lastErrorTime) {
        info := info.(lastErrorTime := now);
      }
      match reply
      case Ok(entries) =>
        NotifyNewErrors(entries);
        RescheduleErrors();
      case ParseError =>
        signals := signals + [Error("Unable to parse errors: ", Parsing)];
        RescheduleErrors();
      case Canceled =>
        return;
      case _ =>
        signals := signals + [Error("Unable to request errors: ", OverallConnection)];
    }

    /** Notifies each entry whose time is after the last error time, in order. */
    method NotifyNewErrors(entries: seq<ErrorEntry>)
      modifies this
      ensures State() == NotifyErrors(old(State()), entries)
    {
      ghost var s0 := State();
      for j := 0 to |entries|
        invariant NotifyErrors(State(), entries[j..]) == NotifyErrors(s0, entries)
      {
        var e := entries[j];
        assert entries[j..][0] == e && entries[j..][1..] == entries[j + 1..];
        if e.when.Some? && info.lastErrorTime < e.when.value {
          info := info.(lastErrorTime := e.when.value);
          EmitNotification(e.when.value, e.message);
        }
      }
      assert entries[|entries|..] == [];
    }

    /** Schedules the next errors poll while polling. */
    method RescheduleErrors()
      modifies this
      ensures State() == Replies.RescheduleErrors(old(State()))
    {
      if flags.keepPolling {
        net := net + [Get(SystemError, 30000)];
      }
    }

    // ---- events ---------------------------------------------------------------

    /** The event reply: events are applied in order, then polling continues. */
    method ReadEvents(reply: Reply<seq<Event>>)
      modifies this
      ensures State() == Replies.ReadEvents(old(State()), reply)
    {
      match reply
      case Ok(events) =>
        signals := signals + [NewEvents(|events|)];
        ghost var s1 := State();
        for j := 0 to |events|
          invariant ApplyEvents(State(), events[j..]) == ApplyEvents(s1, events)
        {
          var e := events[j];
          assert events[j..][0] == e && events[j..][1..] == events[j + 1..];
          if e.id.Some? {
            flags := flags.(lastEventId := e.id.value);
          }
          DispatchEvent(e);
        }
        assert events[|events|..] == [];
        ContinuePolling();
      case Timeout =>
        ContinuePolling();
      case Canceled =>
        if flags.reconnecting {
          ContinueReconnecting();
        } else {
          SetStatus(Status.Disconnected);
        }
      case ParseError =>
        signals := signals + [Error("Unable to parse Syncthing events: ", Parsing)];
        SetStatus(Status.Disconnected);
        ArmReconnectTimer();
      case Other =>
        signals := signals + [Error("Unable to request Syncthing events: ", OverallConnection)];
        SetStatus(Status.Disconnected);
        ArmReconnectTimer();
    }

    /** Requests the next events and re-derives the status while polling; disconnects otherwise. */
    method ContinuePolling()
      modifies this
      ensures State() == Replies.ContinuePolling(old(State()))
    {
      if flags.keepPolling {
        net := net + [Get(Events(flags.lastEventId), 0)];
        SetStatus(Status.Idle);
      } else {
        SetStatus(Status.Disconnected);
      }
    }

    /** Hands an event to the handler for its type. */
    method DispatchEvent(e: Event)
      modifies this
      ensures State() == Dispatch(old(State()), e)
    {
      var t := e.eventType;
      if t == "Starting" {
        ReadStartingEvent(e.data);
      } else if t == "StateChanged" {
        ReadStatusChangedEvent(e.time, e.data);
      } else if t == "DownloadProgress" {
        ReadDownloadProgressEvent(e.data);
      } else if StartsWith(t, "Folder") {
        ReadDirEvent(e.time, t, e.data);
      } else if StartsWith(t, "Device") {
        ReadDeviceEvent(e.time, t, e.data);
      } else if t == "ItemStarted" {
      } else if t == "ItemFinished" {
        ReadItemFinished(e.time, e.data);
      } else if t == "ConfigSaved" {
        net := net + [Get(SystemConfig, 0)];
      }
    }

    /** A Starting event. */
    method ReadStartingEvent(data: EventData)
      modifies this
      ensures State() == StartingEvent(old(State()), data)
    {
      if data.home != info.configDir {
        info := info.(configDir := data.home);
        signals := signals + [ConfigDirChanged(data.home)];
      }
      if data.myId != info.myId {
        info := info.(myId := data.myId);
        signals := signals + [ConfigDirChanged(data.myId)];
      }
    }

    /** A StateChanged event. */
    method ReadStatusChangedEvent(time: Time, data: EventData)
      modifies this
      ensures State() == StateChangedEvent(old(State()), time, data)
    {
      if data.folder != [] {
        var row := FindDirInfo(data.folder);
        if row < |dirs| {
          var (d, changed) := AssignStatus(dirs[row], data.to, time);
          dirs := dirs[row := d];
          if changed {
            signals := signals + [DirStatusChanged(row)];
          }
        } else {
          dirs := dirs + [AssignStatus(NewDir(data.folder), data.to, time).0];
          net := net + [Get(SystemConfig, 0)];
        }
      }
    }

    /** A DownloadProgress event: every directory's download fields are recomputed. */
    method ReadDownloadProgressEvent(data: EventData)
      modifies this
      ensures State() == DownloadProgressEvent(old(State()), data)
    {
      ghost var s0 := State();
      for i := 0 to |dirs|
        invariant |dirs| == |s0.dirs|
        invariant forall k :: 0 <= k < i ==> dirs[k] == WithDownloadProgress(s0.dirs[k], data.progress)
        invariant forall k :: i <= k < |dirs| ==> dirs[k] == s0.dirs[k]
        invariant State() == s0.(dirs := dirs)
      {
        var d := DirDownloadProgress(dirs[i], data.progress);
        dirs := dirs[i := d];
      }
      assert dirs == DirsWithProgress(s0.dirs, data.progress);
      signals := signals + [DownloadProgressChanged];
    }

    /** A Folder* event. */
    method ReadDirEvent(time: Time, eventType: string, data: EventData)
      modifies this
      ensures State() == DirEvent(old(State()), time, eventType, data)
    {
      if data.folder == [] {
        return;
      }
      var row := FindDirInfo(data.folder);
      if row == |dirs| {
        return;
      }
      if eventType == "FolderErrors" {
        if data.errors != [] {
          AddFolderErrorsAt(row, time, data.errors);
          signals := signals + [DirStatusChanged(row)];
        }
      } else if eventType == "FolderSummary" {
        if |data.summary| != 0 {
          dirs := dirs[row := dirs[row].(state := dirs[row].state.(summary := SummaryFromAsWritten(data.summary)))];
          signals := signals + [DirStatusChanged(row)];
        }
      } else if eventType == "FolderCompletion" {
        var p := data.completion;
        if p > 0 && p < 100 && (dirs[row].state.progressPercentage <= 0 || p < dirs[row].state.progressPercentage) {
          dirs := dirs[row := dirs[row].(state := dirs[row].state.(progressPercentage := p))];
        }
      } else if eventType == "FolderScanProgress" {
        if data.current > 0 && data.total > 0 {
          var d := dirs[row].(state := dirs[row].state.(progressPercentage := data.current * 100 / data.total,
                                                         progressRate := data.rate));
          dirs := dirs[row := AssignStatus(d, DirStatus.Scanning, time).0];
          signals := signals + [DirStatusChanged(row)];
        }
      }
    }

    /** The errors of a FolderErrors event for the directory at `i`, one after the other. */
    method AddFolderErrorsAt(i: nat, time: Time, errs: seq<Option<DirError>>)
      requires i < |dirs|
      modifies this
      ensures State() == AddFolderErrors(old(State()), i, time, errs)
    {
      ghost var s0 := State();
      for j := 0 to |errs|
        invariant i < |dirs|
        invariant AddFolderErrors(State(), i, time, errs[j..]) == AddFolderErrors(s0, i, time, errs)
      {
        assert errs[j..][0] == errs[j] && errs[j..][1..] == errs[j + 1..];
        AddFolderErrorAt(i, time, errs[j]);
      }
      assert errs[|errs|..] == [];
    }

    /** One error of a FolderErrors event. */
    method AddFolderErrorAt(i: nat, time: Time, e: Option<DirError>)
      requires i < |dirs|
      modifies this
      ensures State() == AddFolderError(old(State()), i, time, e)
    {
      if e.None? || e.value in dirs[i].state.errors {
        return;
      }
      var d := dirs[i].(state := dirs[i].state.(errors := dirs[i].state.errors + [e.value]));
      d := AssignStatus(d, DirStatus.OutOfSync, time).0;
      dirs := dirs[i := d];
      if e.value !in d.state.previousErrors {
        EmitNotification(time, e.value.message);
      }
    }

    /** A Device* event. */
    method ReadDeviceEvent(time: Time, eventType: string, data: EventData)
      modifies this
      ensures State() == DeviceEvent(old(State()), time, eventType, data)
    {
      if IsNull(time) && IsNull(info.lastConnectionsUpdate) && time < info.lastConnectionsUpdate {
        return;
      }
      if data.device == [] {
        return;
      }
      var row := FindDevInfo(data.device);
      if row == |devs| {
        return;
      }
      var d := devs[row];
      var st, paused, handled := NextDeviceState(eventType, d.state.status, d.state.paused);
      if !handled {
        return;
      }
      UpdateDevStatus(row, st, paused);
    }

    /**
     * Stores a device's new status and paused flag and announces the device, when either
     * differs; the own device keeps its status.
     */
    method UpdateDevStatus(row: nat, st: DevStatus, paused: bool)
      requires row < |devs|
      modifies this
      ensures var d := old(devs)[row];
        State() == if d.state.status == st && d.state.paused == paused then old(State())
                   else Emit(SetDev(old(State()), row, d.(state := d.state.(
                          status := if d.state.status != DevStatus.OwnDevice then st else d.state.status,
                          paused := paused))), DevStatusChanged(row))
    {
      var d := devs[row];
      if d.state.status != st || d.state.paused != paused {
        var st' := if d.state.status != DevStatus.OwnDevice then st else d.state.status;
        devs := devs[row := d.(state := d.state.(status := st', paused := paused))];
        signals := signals + [DevStatusChanged(row)];
      }
    }

    /** An ItemFinished event. */
    method ReadItemFinished(time: Time, data: EventData)
      modifies this
      ensures State() == ItemFinished(old(State()), time, data)
    {
      if data.folder == [] {
        return;
      }
      var row := FindDirInfo(data.folder);
      if row == |dirs| {
        return;
      }
      var d := dirs[row];
      if data.error == [] {
        if IsNull(d.state.lastFileTime) || time < d.state.lastFileTime {
          var deleted := data.action != "delete";
          dirs := dirs[row := d.(state := d.state.(lastFileTime := time, lastFileName := data.item, lastFileDeleted := deleted))];
          if time > info.lastFileTime {
            info := info.(lastFileTime := time, lastFileName := data.item, lastFileDeleted := deleted);
          }
          signals := signals + [DirStatusChanged(row)];
        }
      } else if d.state.status == DirStatus.OutOfSync {
        dirs := dirs[row := d.(state := d.state.(errors := d.state.errors + [DirError(data.error, data.item)],
                                                 status := DirStatus.OutOfSync))];
        signals := signals + [DirStatusChanged(row)];
        EmitNotification(time, data.error);
      }
    }
  }

  /**
   * The status and paused flag a Device* event asks for, given the current ones;
   * `handled` is false for a subtype the handler does not know.
   */
  method NextDeviceState(eventType: string, st: DevStatus, paused: bool) returns (st': DevStatus, paused': bool, handled: bool)
    ensures (st', paused', handled) == DeviceTransition(eventType, st, paused)
  {
    st', paused', handled := st, paused, true;
    if eventType == "DeviceConnected" {
      st' := DevStatus.Idle;
    } else if eventType == "DeviceDisconnected" {
      st' := DevStatus.Disconnected;
    } else if eventType == "DevicePaused" {
      paused' := true;
    } else if eventType == "DeviceRejected" {
      st' := DevStatus.Rejected;
    } else if eventType == "DeviceResumed" {
      paused' := false;
      st' := DevStatus.Disconnected;
    } else if eventType == "DeviceDiscovered" {
      if st == DevStatus.Unknown {
        st' := DevStatus.Disconnected;
      }
    } else {
      handled := false;
    }
  }

  /**
   * The download fields of one directory after a DownloadProgress event: its items are
   * those listed under its id, and the block counts are summed over them.
   */
  method DirDownloadProgress(d: Dir, progress: map<string, seq<ItemProgress>>) returns (d': Dir)
    ensures d' == WithDownloadProgress(d, progress)
  {
    var items: seq<ItemProgress> := [];
    if d.id in progress {
      items := progress[d.id];
    }
    var done, total := 0, 0;
    for k := 0 to |items|
      invariant done == SumDone(items[..k]) && total == SumTotal(items[..k])
    {
      assert items[..k + 1][..k] == items[..k];
      done := done + items[k].blocksAlreadyDownloaded;
      total := total + items[k].totalNumberOfBlocks;
    }
    assert items[..|items|] == items;
    d' := d.(state := d.state.(downloadingItems := items, blocksAlreadyDownloaded := done,
                               blocksToBeDownloaded := total, downloadPercentage := DownloadPercentageAsWritten(done, total)));
  }

  /**
   * The directory scan of a status update: the synchronizing directories not yet
   * listed are appended to `synced`, and whether any directory synchronizes or scans.
   */
  method ScanDirs(dirs: seq<Dir>, synced: seq<string>) returns (collected: seq<string>, synchronizing: bool, scanning: bool)
    ensures collected == CollectSynced(synced, dirs)
    ensures synchronizing <==> HasDirWithStatus(dirs, DirStatus.Synchronizing)
    ensures scanning <==> HasDirWithStatus(dirs, DirStatus.Scanning)
  {
    collected, synchronizing, scanning := synced, false, false;
    for i := 0 to |dirs|
      invariant CollectSynced(collected, dirs[i..]) == CollectSynced(synced, dirs)
      invariant synchronizing <==> HasDirWithStatus(dirs[..i], DirStatus.Synchronizing)
      invariant scanning <==> HasDirWithStatus(dirs[..i], DirStatus.Scanning)
    {
      assert dirs[i..][0] == dirs[i] && dirs[i..][1..] == dirs[i + 1..];
      HasDirWithStatusStep(dirs, i, DirStatus.Synchronizing);
      HasDirWithStatusStep(dirs, i, DirStatus.Scanning);
      if dirs[i].state.status == DirStatus.Synchronizing {
        if dirs[i].id !in collected {
          collected := collected + [dirs[i].id];
        }
        synchronizing := true;
      } else if dirs[i].state.status == DirStatus.Scanning {
        scanning := true;
      }
    }
    assert dirs[..|dirs|] == dirs;
    assert dirs[|dirs|..] == [];
  }

  /**
   * The connected part of a status update: the status the directories and devices
   * determine, and the synchronizing and completed lists after the hand-off.
   */
  method DeriveStatus(dirs: seq<Dir>, devs: seq<Dev>, synced: seq<string>, completed: seq<string>)
    returns (st: Status, synced': seq<string>, completed': seq<string>)
    ensures st == AggregateStatus(dirs, devs)
    ensures (synced', completed') == HandOff(synced, completed, dirs, st)
  {
    var synchronizing, scanning;
    synced', synchronizing, scanning := ScanDirs(dirs, synced);
    completed' := completed;
    if synchronizing {
      st := Status.Synchronizing;
    } else if scanning {
      st := Status.Scanning;
    } else {
      var paused := AnyPausedDev(devs);
      if paused {
        st := Status.Paused;
        synced' := [];
      } else {
        st := Status.Idle;
      }
    }
    if st != Status.Synchronizing {
      completed' := synced';
      synced' := [];
    }
  }

  /** Whether some device is paused, stopping at the first. */
  method AnyPausedDev(devs: seq<Dev>) returns (paused: bool)
    ensures paused <==> HasPausedDev(devs)
  {
    paused := false;
    var j := 0;
    while j < |devs| && !paused
      invariant j <= |devs|
      invariant paused <==> HasPausedDev(devs[..j])
    {
      assert devs[..j + 1] == devs[..j] + [devs[j]];
      if devs[j].state.paused {
        paused := true;
      }
      j := j + 1;
    }
    PausedPrefix(devs, j);
  }

  lemma {:induction false} IndexOfDirFirst(dirs: seq<Dir>, id: string, row: nat)
    requires row <= |dirs| && (row < |dirs| ==> dirs[row].id == id)
    requires forall j :: 0 <= j < row ==> dirs[j].id != id
    ensures row == IndexOfDir(dirs, id)
    ensures row < |dirs| <==> exists k :: 0 <= k < |dirs| && dirs[k].id == id
    decreases |dirs|
  {
    if dirs != [] && row > 0 {
      forall j | 0 <= j < row - 1
        ensures dirs[1..][j].id != id
      {
        assert dirs[1..][j] == dirs[j + 1];
      }
      IndexOfDirFirst(dirs[1..], id, row - 1);
      if row - 1 < |dirs| - 1 {
        assert dirs[1..][row - 1] == dirs[row];
      } else {
        forall k | 0 <= k < |dirs|
          ensures dirs[k].id != id
        {
        }
      }
    }
  }

  /** A linear search that stopped at `row` found what IndexOfDev finds. */
  lemma {:induction false} IndexOfDevFirst(devs: seq<Dev>, id: string, row: nat)
    requires row <= |devs| && (row < |devs| ==> devs[row].id == id)
    requires forall j :: 0 <= j < row ==> devs[j].id != id
    ensures row == IndexOfDev(devs, id)
    ensures row < |devs| <==> exists k :: 0 <= k < |devs| && devs[k].id == id
    decreases |devs|
  {
    if devs != [] && row > 0 {
      forall j | 0 <= j < row - 1
        ensures devs[1..][j].id != id
      {
        assert devs[1..][j] == devs[j + 1];
      }
      IndexOfDevFirst(devs[1..], id, row - 1);
      if row - 1 < |devs| - 1 {
        assert devs[1..][row - 1] == devs[row];
      } else {
        forall k | 0 <= k < |devs|
          ensures devs[k].id != id
        {
        }
      }
    }
  }

  /** Extending the scanned prefix by one directory adds that directory's status. */
  lemma HasDirWithStatusStep(dirs: seq<Dir>, i: nat, st: DirStatus)
    requires i < |dirs|
    ensures HasDirWithStatus(dirs[..i + 1], st) <==> HasDirWithStatus(dirs[..i], st) || dirs[i].state.status == st
  {
    if HasDirWithStatus(dirs[..i + 1], st) && dirs[i].state.status != st {
      var k :| 0 <= k < i + 1 && dirs[..i + 1][k].state.status == st;
      assert dirs[..i][k] == dirs[k];
    }
    if HasDirWithStatus(dirs[..i], st) {
      var k :| 0 <= k < i && dirs[..i][k].state.status == st;
      assert dirs[..i + 1][k] == dirs[k];
    }
    if dirs[i].state.status == st {
      assert dirs[..i + 1][i] == dirs[i];
    }
  }

  /** A scan for a paused device that stopped at `j` has the answer for the whole list. */
  lemma PausedPrefix(devs: seq<Dev>, j: nat)
    requires j <= |devs|
    requires j < |devs| ==> HasPausedDev(devs[..j])
    ensures HasPausedDev(devs[..j]) <==> HasPausedDev(devs)
  {
    if HasPausedDev(devs[..j]) {
      var k :| 0 <= k < j && devs[..j][k].state.paused;
      assert devs[k].state.paused;
    } else {
      assert devs[..j] == devs;
    }
  }

  /** One step of MergeDirs: the entry at `j` and the pool it leaves behind. */
  lemma MergeDirsUnfold(pool: seq<Dir>, entries: seq<DirEntry>, j: nat)
    requires j < |entries|
    ensures var e := entries[j];
      var i := IndexOfDir(pool, e.id);
      MergeDirs(pool, entries[j..]) ==
        if e.id == [] then MergeDirs(pool, entries[j + 1..])
        else if i < |pool| then [ApplyDirEntry(pool[i], e)] + MergeDirs(pool[i := MovedFromDir(pool[i])], entries[j + 1..])
        else [ApplyDirEntry(NewDir(e.id), e)] + MergeDirs(pool, entries[j + 1..])
  {
    assert entries[j..][0] == entries[j] && entries[j..][1..] == entries[j + 1..];
  }

  /** One step of MergeDevs. */
  lemma MergeDevsUnfold(pool: seq<Dev>, entries: seq<DevEntry>, j: nat, myId: string)
    requires j < |entries|
    ensures var e := entries[j];
      var i := IndexOfDev(pool, e.id);
      MergeDevs(pool, entries[j..], myId) ==
        if e.id == [] then MergeDevs(pool, entries[j + 1..], myId)
        else if i < |pool| then [ApplyDevEntry(pool[i], e, myId)] + MergeDevs(pool[i := MovedFromDev(pool[i])], entries[j + 1..], myId)
        else [ApplyDevEntry(NewDev(e.id), e, myId)] + MergeDevs(pool, entries[j + 1..], myId)
  {
    assert entries[j..][0] == entries[j] && entries[j..][1..] == entries[j + 1..];
  }
}
