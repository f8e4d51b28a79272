/**
 * The tray icon (tray/gui/trayicon.cpp): the clamp that keeps the menu on screen
 * (moveInside) and the icon, tool tip and notification rule applied on every status
 * change (updateStatusIconAndText).
 */
module TrayIcon {
  import opened Types

  // ---- moveInside -------------------------------------------------------------

  /** A rectangle by its inclusive edges. */
  datatype Rect = Rect(left: int, top: int, right: int, bottom: int)

  predicate NonEmpty(r: Rect)
  {
    r.left <= r.right && r.top <= r.bottom
  }

  /** A point, moved in place. */
  class Point {
    var x: int
    var y: int

    constructor (x0: int, y0: int)
      ensures x == x0 && y == y0
    {
      x := x0;
      y := y0;
    }
  }

  /** One coordinate brought between `lo` and `hi`: below `lo` becomes `lo`, above `hi` becomes `hi`. */
  function Clamp(v: int, lo: int, hi: int): (r: int)
    ensures lo <= hi ==> lo <= r <= hi
    ensures lo <= v <= hi ==> r == v
    ensures r == v || r == lo || r == hi
  {
    if v < lo then lo else if v > hi then hi else v
  }

  /** Clamping twice is clamping once, for a non-empty range. */
  lemma ClampIdempotent(v: int, lo: int, hi: int)
    requires lo <= hi
    ensures Clamp(Clamp(v, lo, hi), lo, hi) == Clamp(v, lo, hi)
  {
  }

  /** Of all values in a non-empty range, the clamped one is nearest to the input. */
  lemma ClampNearest(v: int, lo: int, hi: int, w: int)
    requires lo <= w <= hi
    ensures Dist(v, Clamp(v, lo, hi)) <= Dist(v, w)
  {
  }

  function Dist(a: int, b: int): int
  {
    if a <= b then b - a else a - b
  }

  /** Moves the point into the rectangle, the vertical coordinate first. */
  method MoveInside(p: Point, rect: Rect)
    modifies p
    ensures p.y == Clamp(old(p.y), rect.top, rect.bottom)
    ensures p.x == Clamp(old(p.x), rect.left, rect.right)
  {
    if p.y < rect.top {
      p.y := rect.top;
    } else if p.y > rect.bottom {
      p.y := rect.bottom;
    }
    if p.x < rect.left {
      p.x := rect.left;
    } else if p.x > rect.right {
      p.x := rect.right;
    }
  }

  /**
   * In a non-empty rectangle the moved point lies inside, a point already inside stays
   * where it is, and moving twice is moving once.
   */
  lemma MoveInsideSpec(x: int, y: int, rect: Rect)
    requires NonEmpty(rect)
    ensures rect.left <= Clamp(x, rect.left, rect.right) <= rect.right
    ensures rect.top <= Clamp(y, rect.top, rect.bottom) <= rect.bottom
    ensures rect.left <= x <= rect.right && rect.top <= y <= rect.bottom ==>
      Clamp(x, rect.left, rect.right) == x && Clamp(y, rect.top, rect.bottom) == y
    ensures Clamp(Clamp(x, rect.left, rect.right), rect.left, rect.right) == Clamp(x, rect.left, rect.right)
  {
    ClampIdempotent(x, rect.left, rect.right);
  }

  // ---- status icon and text ---------------------------------------------------

  datatype Icon = DisconnectedIcon | ErrorSyncIcon | ErrorIcon | NotifyIcon | IdlingIcon | ScanningIcon | PauseIcon | SyncIcon

  /** The tool tips; the text of each is fixed, the retry one names the interval in milliseconds. */
  datatype ToolTip =
    | NotConnectedRetrying(intervalMs: int) | NotConnected | ReconnectingTip
    | OutOfSyncWhileSynchronizing | SomeOutOfSync | NotificationsAvailable
    | Idling | ScanningTip | DevicePaused | SynchronizationOngoing

  /**
   * The icon and tool tip for a status, or None when they stay as they are (a status
   * without an icon of its own while nothing is out of sync and nothing unread).
   * Disconnected and Reconnecting show the disconnected icon; otherwise an out-of-sync
   * directory comes first, then unread notifications, then the status itself.
   */
  function IconFor(status: Status, hasOutOfSyncDirs: bool, hasUnreadNotifications: bool, reconnectInterval: int): (r: Option<(Icon, ToolTip)>)
    ensures status == Status.Disconnected || status == Status.Reconnecting ==> r.Some? && r.value.0 == DisconnectedIcon
    ensures status == Status.Disconnected ==>
      r.value.1 == if reconnectInterval > 0 then NotConnectedRetrying(reconnectInterval) else NotConnected
    ensures IsConnectedStatus(status) && hasOutOfSyncDirs ==>
      r == Some(if status == Status.Synchronizing then (ErrorSyncIcon, OutOfSyncWhileSynchronizing) else (ErrorIcon, SomeOutOfSync))
    ensures IsConnectedStatus(status) && !hasOutOfSyncDirs && hasUnreadNotifications ==>
      r == Some((NotifyIcon, NotificationsAvailable))
    ensures r.None? <==>
      IsConnectedStatus(status) && !hasOutOfSyncDirs && !hasUnreadNotifications && status == Status.BeingDestroyed
  {
    match status
    case Disconnected =>
      Some((DisconnectedIcon, if reconnectInterval > 0 then NotConnectedRetrying(reconnectInterval) else NotConnected))
    case Reconnecting => Some((DisconnectedIcon, ReconnectingTip))
    case _ =>
      if hasOutOfSyncDirs then
        Some(if status == Status.Synchronizing then (ErrorSyncIcon, OutOfSyncWhileSynchronizing) else (ErrorIcon, SomeOutOfSync))
      else if hasUnreadNotifications then Some((NotifyIcon, NotificationsAvailable))
      else match status
        case Idle => Some((IdlingIcon, Idling))
        case Scanning => Some((ScanningIcon, ScanningTip))
        case Paused => Some((PauseIcon, DevicePaused))
        case Synchronizing => Some((SyncIcon, SynchronizationOngoing))
        case _ => None
  }

  /** Every status but Disconnected and Reconnecting. */
  predicate IsConnectedStatus(st: Status)
  {
    st != Status.Disconnected && st != Status.Reconnecting
  }

  /** The names joined with ", ". */
  function Join(names: seq<string>): (r: string)
    ensures names == [] ==> r == []
    ensures |names| == 1 ==> r == names[0]
  {
    if names == [] then []
    else if |names| == 1 then names[0]
    else names[0] + ", " + Join(names[1..])
  }

  const SyncCompletePrefix: string := "Synchronization of the following devices complete:\n"

  /**
   * The message announcing completed directories, by display name: singular for one
   * directory, a list for several, none for none.
   */
  function SyncCompleteMessage(names: seq<string>): (r: Option<string>)
    ensures r.None? <==> names == []
    ensures |names| == 1 ==> r == Some("Synchronization of " + names[0] + " complete")
    ensures |names| > 1 ==> r.Some? && SyncCompletePrefix <= r.value && r.value[|SyncCompletePrefix|..] == Join(names)
  {
    if names == [] then None
    else if |names| == 1 then Some("Synchronization of " + names[0] + " complete")
    else Some(SyncCompletePrefix + Join(names))
  }

  /**
   * Whether a status change from `previous` to `status` announces completed
   * directories: only when leaving Synchronizing for a connected status other than
   * Synchronizing, with the option enabled and something completed.
   */
  predicate AnnouncesSyncComplete(previous: Status, status: Status, notifyOnSyncComplete: bool, completed: seq<string>)
  {
    IsConnectedStatus(status) && status != Status.Synchronizing &&
    previous == Status.Synchronizing && notifyOnSyncComplete && completed != []
  }

  /**
   * The sync-complete message is shown exactly in the announcing case, with the
   * wording for the number of completed directories.
   */
  lemma SyncCompleteOnlyAfterSynchronizing(previous: Status, status: Status, notify: bool, completed: seq<string>)
    ensures AnnouncesSyncComplete(previous, status, notify, completed) ==> SyncCompleteMessage(completed).Some?
    ensures previous != Status.Synchronizing || status == Status.Synchronizing || !IsConnectedStatus(status) ==>
      !AnnouncesSyncComplete(previous, status, notify, completed)
  {
  }

  /** The connection's view the tray reads when updating. */
  datatype ConnectionView = ConnectionView(
    hasOutOfSyncDirs: bool, hasUnreadNotifications: bool, autoReconnectInterval: int,
    completedDirNames: seq<string>)

  /** The options that switch tray messages on. */
  datatype NotifyOptions = NotifyOptions(disconnect: bool, syncComplete: bool)

  const DisconnectedMessage: string := "Disconnected from Syncthing"

  /** The tray icon: the shown status, icon and tool tip and the messages shown so far. */
  class Tray {
    var initialized: bool
    var status: Status
    var icon: Icon
    var toolTip: ToolTip
    var messages: seq<string>

    /**
     * A new tray icon: it starts Disconnected and not initialized, so the update to
     * Disconnected that sets the initial status always applies, and shows no message;
     * connecting to the connection's signals then marks it initialized.
     */
    constructor (conn: ConnectionView, notify: NotifyOptions)
      ensures initialized && status == Status.Disconnected && messages == []
      ensures var choice := IconFor(Status.Disconnected, conn.hasOutOfSyncDirs, conn.hasUnreadNotifications,
                                    conn.autoReconnectInterval);
        (choice.Some? ==> icon == choice.value.0 && toolTip == choice.value.1) &&
        (choice.None? ==> icon == DisconnectedIcon && toolTip == NotConnected)
    {
      initialized := false;
      status := Status.Disconnected;
      icon := DisconnectedIcon;
      toolTip := NotConnected;
      messages := [];
      new;
      UpdateStatusIconAndText(Status.Disconnected, conn, notify);
      initialized := true;
    }

    /**
     * The update on a status change. Once initialized, the same status again does
     * nothing. Otherwise icon and tool tip follow IconFor; Disconnected shows a message
     * when initialized and enabled; leaving Synchronizing shows the sync-complete
     * message; the status is recorded last.
     */
    method UpdateStatusIconAndText(st: Status, conn: ConnectionView, notify: NotifyOptions)
      modifies this
      ensures old(initialized) && old(status) == st ==>
        status == old(status) && icon == old(icon) && toolTip == old(toolTip) && messages == old(messages)
      ensures !(old(initialized) && old(status) == st) ==>
        status == st &&
        var choice := IconFor(st, conn.hasOutOfSyncDirs, conn.hasUnreadNotifications, conn.autoReconnectInterval);
        (choice.Some? ==> icon == choice.value.0 && toolTip == choice.value.1) &&
        (choice.None? ==> icon == old(icon) && toolTip == old(toolTip)) &&
        messages == old(messages)
          + (if st == Status.Disconnected && old(initialized) && notify.disconnect then [DisconnectedMessage] else [])
          + (if AnnouncesSyncComplete(old(status), st, notify.syncComplete, conn.completedDirNames)
             then [SyncCompleteMessage(conn.completedDirNames).value] else [])
      ensures initialized == old(initialized)
    {
      if initialized && status == st {
        return;
      }
      var choice := IconFor(st, conn.hasOutOfSyncDirs, conn.hasUnreadNotifications, conn.autoReconnectInterval);
      if choice.Some? {
        icon := choice.value.0;
        toolTip := choice.value.1;
      }
      if st == Status.Disconnected && initialized && notify.disconnect {
        messages := messages + [DisconnectedMessage];
      }
      if AnnouncesSyncComplete(status, st, notify.syncComplete, conn.completedDirNames) {
        messages := messages + [SyncCompleteMessage(conn.completedDirNames).value];
      }
      status := st;
    }
  }
}
