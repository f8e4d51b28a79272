/**
 * Connecting, disconnecting and reconnecting (connector/syncthingconnection.cpp,
 * connect, disconnect, reconnect, continueReconnecting, autoReconnect,
 * continueConnecting and the destructor), as functions on the connection state.
 */
module Lifecycle {
  import opened Types
  import opened Engine

  /** The two requests every (re)connection starts with. */
  function RequestBootstrap(s: ConnState): ConnState
  {
    Request(Request(s, SystemConfig, 0), SystemStatus, 0)
  }

  /**
   * Connect: stops the reconnect timer and zeroes the try counter; when not connected,
   * clears the reconnecting and bootstrap flags and either reports an insufficient
   * configuration or requests the configuration and the status and starts polling.
   */
  function Connect(s: ConnState): (r: ConnState)
    ensures !r.flags.reconnectTimerActive && r.flags.autoReconnectTries == 0
    ensures r.status == s.status && r.dirs == s.dirs && r.devs == s.devs && r.info == s.info
    ensures r.settings == s.settings && r.unreadNotifications == s.unreadNotifications &&
            r.syncedDirs == s.syncedDirs && r.completedDirs == s.completedDirs &&
            r.flags.lastEventId == s.flags.lastEventId
    ensures IsConnected(s.status) ==>
      r == s.(flags := s.flags.(reconnectTimerActive := false, autoReconnectTries := 0))
    ensures !IsConnected(s.status) ==> !r.flags.reconnecting && !r.flags.hasConfig && !r.flags.hasStatus
    ensures !IsConnected(s.status) && Insufficient(s) ==>
      r.net == s.net && r.signals == s.signals + [Error(InsufficientMessage, OverallConnection)] &&
      r.flags.keepPolling == s.flags.keepPolling
    ensures !IsConnected(s.status) && !Insufficient(s) ==>
      r.net == s.net + [Get(SystemConfig, 0), Get(SystemStatus, 0)] && r.signals == s.signals &&
      r.flags.keepPolling
  {
    var s1 := s.(flags := s.flags.(reconnectTimerActive := false, autoReconnectTries := 0));
    if IsConnected(s1.status) then s1
    else
      var s2 := s1.(flags := s1.flags.(reconnecting := false, hasConfig := false, hasStatus := false));
      if Insufficient(s2) then Emit(s2, Error(InsufficientMessage, OverallConnection))
      else
        var s3 := RequestBootstrap(s2);
        s3.(flags := s3.flags.(keepPolling := true))
  }

  /**
   * Disconnect: clears the reconnecting and bootstrap flags and the try counter and
   * aborts the pending requests; the status changes only when the aborted replies come
   * back as canceled.
   */
  function Disconnect(s: ConnState): (r: ConnState)
    ensures r.status == s.status && r.dirs == s.dirs && r.devs == s.devs && r.signals == s.signals
    ensures !r.flags.reconnecting && !r.flags.hasConfig && !r.flags.hasStatus && r.flags.autoReconnectTries == 0
    ensures r.flags.keepPolling == s.flags.keepPolling
    ensures r.net == s.net + [AbortAll]
  {
    s.(flags := s.flags.(reconnecting := false, hasConfig := false, hasStatus := false, autoReconnectTries := 0),
       net := s.net + [AbortAll])
  }

  /**
   * The restart of a connection: the configuration is announced as invalidated, the
   * status becomes Reconnecting, every cached value is cleared, polling is enabled and
   * the bootstrap requests are issued (or the insufficient configuration reported).
   */
  function ContinueReconnecting(s: ConnState): (r: ConnState)
    ensures r.dirs == [] && r.devs == [] && r.info == EmptyInfo && !r.unreadNotifications
    ensures r.flags.keepPolling && !r.flags.reconnecting && !r.flags.hasConfig && !r.flags.hasStatus
    ensures r.flags.lastEventId == 0
    ensures r.status == (if s.status == Status.BeingDestroyed then s.status else Status.Reconnecting)
    ensures s.signals + [NewConfig(true)] <= r.signals
    ensures !Insufficient(s) ==> forall k :: |s.signals| <= k < |r.signals| ==> !r.signals[k].Error?
    ensures Insufficient(s) ==> r.net == s.net
    ensures Insufficient(s) ==> r.signals[|r.signals| - 1] == Error(InsufficientMessage, OverallConnection)
    ensures !Insufficient(s) ==> r.net == s.net + [Get(SystemConfig, 0), Get(SystemStatus, 0)]
  {
    var s1 := SetStatus(Emit(s, NewConfig(true)), Status.Reconnecting);
    var s2 := s1.(flags := s1.flags.(keepPolling := true, reconnecting := false, lastEventId := 0,
                                     hasConfig := false, hasStatus := false),
                  info := EmptyInfo, unreadNotifications := false, dirs := [], devs := []);
    if Insufficient(s2) then Emit(s2, Error(InsufficientMessage, OverallConnection))
    else RequestBootstrap(s2)
  }

  /**
   * Reconnect: stops the timer and zeroes the try counter; a connected connection
   * marks itself as reconnecting and aborts its requests (the canceled event reply then
   * continues the reconnection), any other restarts right away.
   */
  function Reconnect(s: ConnState): (r: ConnState)
    ensures !r.flags.reconnectTimerActive && r.flags.autoReconnectTries == 0
    ensures IsConnected(s.status) ==>
      r.flags.reconnecting && !r.flags.hasConfig && !r.flags.hasStatus &&
      r.net == s.net + [AbortAll] && r.status == s.status && r.dirs == s.dirs && r.signals == s.signals
    ensures !IsConnected(s.status) ==>
      r.status == Status.Reconnecting && r.dirs == [] && r.flags.keepPolling
    ensures !IsConnected(s.status) ==>
      r == ContinueReconnecting(s.(flags := s.flags.(reconnectTimerActive := false, autoReconnectTries := 0)))
    ensures !IsConnected(s.status) ==>
      r.devs == [] && r.info == EmptyInfo && !r.unreadNotifications && r.flags.lastEventId == 0 &&
      !r.flags.reconnecting && !r.flags.hasConfig && !r.flags.hasStatus &&
      s.signals + [NewConfig(true)] <= r.signals &&
      (Insufficient(s) ==> r.net == s.net && r.signals[|r.signals| - 1] == Error(InsufficientMessage, OverallConnection)) &&
      (!Insufficient(s) ==> r.net == s.net + [Get(SystemConfig, 0), Get(SystemStatus, 0)])
  {
    var s1 := s.(flags := s.flags.(reconnectTimerActive := false, autoReconnectTries := 0));
    if IsConnected(s1.status) then
      s1.(flags := s1.flags.(reconnecting := true, hasConfig := false, hasStatus := false),
          net := s1.net + [AbortAll])
    else ContinueReconnecting(s1)
  }

  /** A reconnect-timer timeout: connect, keeping count of the attempts. */
  function AutoReconnect(s: ConnState): (r: ConnState)
    ensures r.flags.autoReconnectTries == s.flags.autoReconnectTries + 1
    ensures !r.flags.reconnectTimerActive
    ensures r.net == Connect(s).net && r.signals == Connect(s).signals && r.status == s.status
  {
    var tries := s.flags.autoReconnectTries;
    var s1 := Connect(s);
    s1.(flags := s1.flags.(autoReconnectTries := tries + 1))
  }

  /**
   * Once polling is enabled and both the configuration and the status have been read,
   * the steady-state requests are issued and the event loop starts from cursor 0;
   * otherwise nothing happens.
   */
  function ContinueConnecting(s: ConnState): (r: ConnState)
    ensures !(s.flags.keepPolling && s.flags.hasConfig && s.flags.hasStatus) ==> r == s
    ensures s.flags.keepPolling && s.flags.hasConfig && s.flags.hasStatus ==>
      r == s.(flags := s.flags.(lastEventId := 0),
              net := s.net + [Get(SystemConnections, 0), Get(StatsFolder, 0), Get(StatsDevice, 0),
                              Get(SystemError, 0), Get(Events(0), 0)])
  {
    if s.flags.keepPolling && s.flags.hasConfig && s.flags.hasStatus then
      var s1 := Request(Request(Request(Request(s, SystemConnections, 0), StatsFolder, 0), StatsDevice, 0), SystemError, 0);
      RequestEvents(s1.(flags := s1.flags.(lastEventId := 0)))
    else s
  }

  /** The destructor: the status becomes BeingDestroyed, then the connection disconnects. */
  function Destroy(s: ConnState): (r: ConnState)
    ensures r.status == Status.BeingDestroyed && r.net == s.net + [AbortAll] && r.signals == s.signals
  {
    Disconnect(s.(status := Status.BeingDestroyed))
  }

  /**
   * BeingDestroyed is terminal: none of the connection operations leaves it and none of
   * them announces a status change.
   */
  lemma DestroyedIsTerminal(s: ConnState, requested: Status)
    requires s.status == Status.BeingDestroyed
    ensures Connect(s).status == Status.BeingDestroyed
    ensures Disconnect(s).status == Status.BeingDestroyed
    ensures Reconnect(s).status == Status.BeingDestroyed
    ensures ContinueReconnecting(s).status == Status.BeingDestroyed
    ensures AutoReconnect(s).status == Status.BeingDestroyed
    ensures ContinueConnecting(s).status == Status.BeingDestroyed
    ensures SetStatus(s, requested).status == Status.BeingDestroyed
    ensures forall x :: x in ContinueReconnecting(s).signals ==> x in s.signals || !x.StatusChanged?
  {
    var s0 := Emit(s, NewConfig(true));
    assert SetStatus(s0, Status.Reconnecting) == s0;
  }

  /**
   * A reconnection while connected goes through the abort: the connection keeps its
   * status until the canceled event reply continues the reconnection, which leaves it
   * Reconnecting with the cache cleared and the bootstrap requests issued.
   */
  lemma ReconnectWhileConnected(s: ConnState)
    requires IsConnected(s.status) && s.status != Status.BeingDestroyed && !Insufficient(s)
    ensures Reconnect(s).flags.reconnecting
    ensures var r := ContinueReconnecting(Reconnect(s));
            r.status == Status.Reconnecting && r.dirs == [] && !r.flags.reconnecting &&
            r.net == s.net + [AbortAll, Get(SystemConfig, 0), Get(SystemStatus, 0)]
  {
    var s1 := Reconnect(s);
    assert s1.net == s.net + [AbortAll];
    assert s.net + [AbortAll] + [Get(SystemConfig, 0), Get(SystemStatus, 0)]
        == s.net + [AbortAll, Get(SystemConfig, 0), Get(SystemStatus, 0)];
  }
}
