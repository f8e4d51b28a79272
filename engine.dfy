/**
 * The state of a connection to a Syncthing daemon as one value, and the rule that
 * sets its overall status (connector/syncthingconnection.cpp, setStatus and
 * emitNotification). Every other handler of the connection is a function from one
 * such value to the next; the class in connection.dfy is proved to follow them.
 */
module Engine {
  import opened Types
  import opened Aggregate

  /** What the connection is told to connect to and how often to poll. */
  datatype Settings = Settings(
    syncthingUrl: string, apiKey: string, user: string, password: string,
    expectedSslErrors: seq<SslError>,
    trafficPollInterval: int, devStatsPollInterval: int, autoReconnectInterval: int)

  /**
   * The flags that drive connecting and polling, the event cursor, the try counter
   * and whether the auto-reconnect timer runs.
   */
  datatype Flags = Flags(
    keepPolling: bool, reconnecting: bool, hasConfig: bool, hasStatus: bool,
    lastEventId: int, autoReconnectTries: nat, reconnectTimerActive: bool)

  /** What is known about the daemon beyond its directories and devices. */
  datatype DaemonInfo = DaemonInfo(
    configDir: string, myId: string,
    totalIncomingTraffic: nat, totalOutgoingTraffic: nat,
    lastConnectionsUpdate: Time, lastErrorTime: Time,
    lastFileTime: Time, lastFileName: string, lastFileDeleted: bool)

  /**
   * Everything a connection object holds; `signals` and `net` are the logs of emitted
   * signals and of issued (or aborted) requests.
   */
  datatype ConnState = ConnState(
    settings: Settings, flags: Flags, info: DaemonInfo,
    status: Status, unreadNotifications: bool,
    dirs: seq<Dir>, devs: seq<Dev>,
    syncedDirs: seq<string>, completedDirs: seq<string>,
    signals: seq<Signal>, net: seq<NetAction>)

  const EmptyInfo := DaemonInfo([], [], 0, 0, 0, 0, 0, [], false)

  /** A freshly constructed connection: disconnected, nothing cached, default poll intervals. */
  function InitialState(syncthingUrl: string, apiKey: string): (r: ConnState)
    ensures r.status == Status.Disconnected && !r.flags.keepPolling && !r.flags.reconnecting
    ensures !r.flags.hasConfig && !r.flags.hasStatus && r.flags.lastEventId == 0 && r.flags.autoReconnectTries == 0
    ensures r.settings.trafficPollInterval == 2000 && r.settings.devStatsPollInterval == 60000
    ensures r.dirs == [] && r.devs == [] && r.signals == [] && r.net == []
  {
    ConnState(Settings(syncthingUrl, apiKey, [], [], [], 2000, 60000, 0),
              Flags(false, false, false, false, 0, 0, false), EmptyInfo,
              Status.Disconnected, false, [], [], [], [], [], [])
  }

  /** Whether a status counts as connected: anything but Disconnected and Reconnecting. */
  predicate IsConnected(st: Status)
  {
    st != Status.Disconnected && st != Status.Reconnecting
  }

  /** Connecting needs both a URL and an API key. */
  predicate Insufficient(s: ConnState)
  {
    s.settings.apiKey == [] || s.settings.syncthingUrl == []
  }

  const InsufficientMessage: string := "Connection configuration is insufficient."

  function Emit(s: ConnState, sig: Signal): ConnState
  {
    s.(signals := s.signals + [sig])
  }

  function Request(s: ConnState, ep: Endpoint, delayMs: int): ConnState
  {
    s.(net := s.net + [Get(ep, delayMs)])
  }

  /** Replaces the directory at `i`. */
  function SetDir(s: ConnState, i: nat, d: Dir): ConnState
    requires i < |s.dirs|
  {
    s.(dirs := s.dirs[i := d])
  }

  /** Replaces the device at `i`. */
  function SetDev(s: ConnState, i: nat, d: Dev): ConnState
    requires i < |s.devs|
  {
    s.(devs := s.devs[i := d])
  }

  /** The event request; a zero cursor omits the "since" query item. */
  function RequestEvents(s: ConnState): ConnState
  {
    Request(s, Events(s.flags.lastEventId), 0)
  }

  /** Starts the reconnect timer if it has a non-zero interval. */
  function ArmReconnectTimer(s: ConnState): ConnState
  {
    if s.settings.autoReconnectInterval != 0 then s.(flags := s.flags.(reconnectTimerActive := true)) else s
  }

  /** Stores `st`, announcing it only when it differs from the current status. */
  function ChangeStatus(s: ConnState, st: Status): (r: ConnState)
    ensures r.status == st
    ensures r.signals == if s.status != st then s.signals + [StatusChanged(st)] else s.signals
  {
    if s.status != st then Emit(s.(status := st), StatusChanged(st)) else s
  }

  /**
   * The status update. Once being destroyed nothing changes. Disconnected and
   * Reconnecting are stored as requested and discard the synchronizing list. Any
   * other request resets the try counter and derives the status from the directories
   * and devices; synchronizing directories are collected, and when the result is not
   * Synchronizing the collected list becomes the completed list (Paused empties it
   * first).
   */
  function SetStatus(s: ConnState, requested: Status): (r: ConnState)
    ensures s.status == Status.BeingDestroyed ==> r == s
    ensures r == s.(status := r.status, syncedDirs := r.syncedDirs, completedDirs := r.completedDirs,
                    flags := s.flags.(autoReconnectTries := r.flags.autoReconnectTries), signals := r.signals)
    ensures r.status != s.status ==> r.signals == s.signals + [StatusChanged(r.status)]
    ensures r.status == s.status ==> r.signals == s.signals
  {
    if s.status == Status.BeingDestroyed then s
    else if requested == Status.Disconnected || requested == Status.Reconnecting then
      ChangeStatus(s.(syncedDirs := []), requested)
    else
      var st := AggregateStatus(s.dirs, s.devs);
      var lists := HandOff(s.syncedDirs, s.completedDirs, s.dirs, st);
      ChangeStatus(s.(flags := s.flags.(autoReconnectTries := 0), syncedDirs := lists.0, completedDirs := lists.1), st)
  }

  /**
   * The synchronizing and completed lists after a connected status update with result
   * `st`: synchronizing directories are collected, Paused discards them, and any result
   * other than Synchronizing turns the collected list into the completed one.
   */
  function HandOff(synced: seq<string>, completed: seq<string>, dirs: seq<Dir>, st: Status): (seq<string>, seq<string>)
  {
    var collected := CollectSynced(synced, dirs);
    if st == Status.Synchronizing then (collected, completed)
    else if st == Status.Paused then ([], [])
    else ([], collected)
  }

  /** Which status SetStatus stores, and what happens to the try counter. */
  lemma SetStatusPriority(s: ConnState, requested: Status)
    requires s.status != Status.BeingDestroyed
    ensures !IsConnected(requested) ==>
      SetStatus(s, requested).status == requested &&
      SetStatus(s, requested).flags.autoReconnectTries == s.flags.autoReconnectTries
    ensures IsConnected(requested) ==>
      SetStatus(s, requested).flags.autoReconnectTries == 0 &&
      SetStatus(s, requested).status ==
        (if HasDirWithStatus(s.dirs, DirStatus.Synchronizing) then Status.Synchronizing
         else if HasDirWithStatus(s.dirs, DirStatus.Scanning) then Status.Scanning
         else if HasPausedDev(s.devs) then Status.Paused
         else Status.Idle)
  {
  }

  /**
   * The synchronized/completed hand-off: each synchronizing directory is listed once;
   * a request for Disconnected or Reconnecting discards the list; a connected result
   * other than Synchronizing moves the list into the completed list (or discards it when
   * Paused) and empties it; while Synchronizing the list only grows.
   */
  lemma SetStatusHandOff(s: ConnState, requested: Status)
    requires s.status != Status.BeingDestroyed
    requires NoDup(s.syncedDirs) && NoDup(s.completedDirs)
    ensures NoDup(SetStatus(s, requested).syncedDirs) && NoDup(SetStatus(s, requested).completedDirs)
    ensures !IsConnected(requested) ==>
      SetStatus(s, requested).syncedDirs == [] && SetStatus(s, requested).completedDirs == s.completedDirs
    ensures IsConnected(requested) && SetStatus(s, requested).status == Status.Synchronizing ==>
      s.syncedDirs <= SetStatus(s, requested).syncedDirs &&
      SetStatus(s, requested).completedDirs == s.completedDirs &&
      (forall x :: x in SetStatus(s, requested).syncedDirs <==> x in s.syncedDirs || IsSyncingId(s.dirs, x))
    ensures IsConnected(requested) && SetStatus(s, requested).status != Status.Synchronizing ==>
      SetStatus(s, requested).syncedDirs == [] &&
      SetStatus(s, requested).completedDirs ==
        (if SetStatus(s, requested).status == Status.Paused then [] else s.syncedDirs)
  {
    if IsConnected(requested) {
      HandOffSpec(s.syncedDirs, s.completedDirs, s.dirs, s.devs);
    }
  }

  /** The list part of SetStatusHandOff, for the status the directories and devices determine. */
  lemma HandOffSpec(synced: seq<string>, completed: seq<string>, dirs: seq<Dir>, devs: seq<Dev>)
    requires NoDup(synced) && NoDup(completed)
    ensures var st := AggregateStatus(dirs, devs);
            var lists := HandOff(synced, completed, dirs, st);
            NoDup(lists.0) && NoDup(lists.1) &&
            (st == Status.Synchronizing ==>
               synced <= lists.0 && lists.1 == completed &&
               (forall x :: x in lists.0 <==> x in synced || IsSyncingId(dirs, x))) &&
            (st != Status.Synchronizing ==>
               lists.0 == [] && lists.1 == (if st == Status.Paused then [] else synced))
  {
    CollectSyncedSpec(synced, dirs);
    if !HasDirWithStatus(dirs, DirStatus.Synchronizing) {
      CollectSyncedNoneSyncing(synced, dirs);
    }
  }

  /**
   * A directory that was seen synchronizing counts as completed as soon as no directory
   * synchronizes any more: two status updates, the first while it synchronizes and the
   * second after it went idle, leave exactly its id in the completed list (provided no
   * device is paused, which would discard it).
   */
  lemma SyncThenIdleCompletes(s: ConnState, d: Dir)
    requires s.status != Status.BeingDestroyed && s.syncedDirs == []
    requires s.dirs == [d] && d.state.status == DirStatus.Synchronizing && !HasPausedDev(s.devs)
    ensures SetStatus(s, Status.Idle).status == Status.Synchronizing
    ensures SetStatus(s, Status.Idle).syncedDirs == [d.id]
    ensures var s1 := SetStatus(s, Status.Idle);
            var s2 := s1.(dirs := [d.(state := d.state.(status := DirStatus.Idle))]);
            SetStatus(s2, Status.Idle).completedDirs == [d.id] &&
            SetStatus(s2, Status.Idle).status == Status.Idle &&
            SetStatus(s2, Status.Idle).syncedDirs == []
  {
    assert HasDirWithStatus(s.dirs, DirStatus.Synchronizing) by {
      assert s.dirs[0].state.status == DirStatus.Synchronizing;
    }
    assert CollectSynced([], [d]) == [d.id] by {
      assert [d][1..] == [];
    }
    var s1 := SetStatus(s, Status.Idle);
    var d' := d.(state := d.state.(status := DirStatus.Idle));
    var s2 := s1.(dirs := [d']);
    assert !HasDirWithStatus(s2.dirs, DirStatus.Synchronizing);
    assert !HasDirWithStatus(s2.dirs, DirStatus.Scanning);
    assert CollectSynced([d.id], [d']) == [d.id] by {
      assert [d'][1..] == [];
    }
  }

  /** The status cannot leave BeingDestroyed through SetStatus. */
  lemma SetStatusKeepsDestroyed(s: ConnState, requested: Status)
    requires s.status == Status.BeingDestroyed
    ensures SetStatus(s, requested).status == Status.BeingDestroyed
    ensures SetStatus(s, requested).signals == s.signals
  {
  }

  /**
   * Raising a notification: the unread flag is set, the status is re-derived (so that
   * the tray can show the notification state) and the notification is announced last.
   */
  function EmitNotification(s: ConnState, when: Time, message: string): (r: ConnState)
    ensures r.unreadNotifications
    ensures |r.signals| > 0 && r.signals[|r.signals| - 1] == NewNotification(when, message)
    ensures s.signals <= r.signals
    ensures r == s.(unreadNotifications := true, status := r.status, syncedDirs := r.syncedDirs,
                    completedDirs := r.completedDirs,
                    flags := s.flags.(autoReconnectTries := r.flags.autoReconnectTries), signals := r.signals)
  {
    var s1 := SetStatus(s.(unreadNotifications := true), s.status);
    Emit(s1, NewNotification(when, message))
  }

  /** Text shown for a status; Scanning falls into the default case. */
  function StatusText(st: Status): (r: string)
    ensures st == Status.Scanning || st == Status.BeingDestroyed <==> r == "unknown"
    ensures r == "connected" <==> st == Status.Idle
  {
    match st
    case Disconnected => "disconnected"
    case Reconnecting => "reconnecting"
    case Idle => "connected"
    case Paused => "connected, paused"
    case Synchronizing => "connected, synchronizing"
    case _ => "unknown"
  }
}
