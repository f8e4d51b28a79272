# Syncthing Tray connection core in Dafny

Syncthing Tray is a tray application for the Syncthing file synchronisation daemon.
Its core is the connection object, `SyncthingConnection`. It talks to the daemon's REST
API. First it reads the configuration (directories and devices) and the daemon's status
(its own device id). Then it polls connections and errors and long-polls the event
stream. From all of this it keeps a cache of directories and devices. It derives one
overall status from them: Disconnected, Reconnecting, Idle, Scanning, Paused,
Synchronizing or BeingDestroyed. It also raises notifications. Around it, the tray icon
turns the status into an icon, a tool tip and messages. The embedded web view keeps
navigation on the daemon's own page.

The project models these parts in three layers.

- Value-level definitions. The whole connection is one value, `Engine.ConnState`, and
  every handler is a function from one such value to the next:
  - `Aggregate`: the status priority rule and the list of synchronizing directories.
  - `Store`: looking up directories and devices, and the merge a configuration refresh
    performs.
  - `Engine`: `setStatus` and `emitNotification`.
  - `Lifecycle`: connecting, disconnecting and reconnecting.
  - `Replies`: the replies to the polled requests.
  - `Events`: the event handlers.
  - `Configuration`: applying settings and loading the self-signed certificate.
- `Connection.SyncthingConnection`: a class whose fields the handlers update in place,
  with loops where the source loops. Each method is proved to leave the object in the
  state the corresponding function computes (`State() == F(old(State()), ...)`).
  Emitted signals and issued requests are ghost logs (`signals`, `net`).
- `TrayIcon` and `WebPage`: the tray's status display and the web view's navigation
  rule.

`Types` holds the shared vocabulary:
- statuses of the connection, of directories and of devices;
- directories and devices, each split into a configuration part and a run-time part;
- events, replies, signals and network actions.

Time is an integer tick count in which 0 stands for a null date-time.

## Model

| member | source | states |
|---|---|---|
| Aggregate.CollectSyncedSpec | connector/syncthingconnection.cpp:1505-1509 | The scan of a status update keeps the listed ids in order. It adds exactly the ids of the synchronizing directories. It lists no id twice. |
| Aggregate.CollectSyncedNoneSyncing | connector/syncthingconnection.cpp:1505-1515 | When no directory synchronizes, the scan adds nothing. |
| Store.IndexOfDir | connector/syncthingconnection.cpp:374-384 | The result is the position of the first directory with the id, or the list length when there is none. |
| Store.IndexOfDev | connector/syncthingconnection.cpp:413-423 | The same as IndexOfDir, for devices. |
| Store.NonEmptyIds | connector/syncthingconnection.cpp:773-778 | Keeps exactly the non-empty device ids of a folder entry. |
| Store.MergeDirs | connector/syncthingconnection.cpp:763-789 | A refresh produces at most one directory per entry, and every directory has a non-empty id. |
| Store.MergeDirsLength | connector/syncthingconnection.cpp:767-785 | A refresh yields exactly one directory per entry with a non-empty id. |
| Store.MergeDirsAt | connector/syncthingconnection.cpp:769-783 | Row k carries the id and the configuration fields of the k-th usable entry. |
| Store.MergeDirsShape | connector/syncthingconnection.cpp:763-789 | The refreshed list follows the configuration's order: one row per usable entry, with that entry's id and fields. |
| Store.RecycledDirStateAfterMove | connector/syncthingconnection.cpp:400-401 | Moving one directory out of the old list does not change what any other id finds there. |
| Store.MergeDirsRecyclesAt | connector/syncthingconnection.cpp:394-406 | When entry ids are distinct, row k keeps the run-time fields of the old directory with its id. Without one it starts fresh. |
| Store.MergeDirsRecycles | connector/syncthingconnection.cpp:394-406 | The same for every row of the refresh. |
| Store.RepeatedDirIdStartsFresh | connector/syncthingconnection.cpp:400-403 | The moved-from object is left with an empty id. So a second entry with the same id starts from a fresh directory. |
| Store.MergeDevs | connector/syncthingconnection.cpp:794-814 | A device refresh produces at most one device per entry, all with non-empty ids. |
| Store.MergeDevsLength | connector/syncthingconnection.cpp:798-811 | Exactly one device per entry with a non-empty id. |
| Store.MergeDevsAt | connector/syncthingconnection.cpp:800-809 | Row k has the k-th usable entry's id and configuration. Its status is OwnDevice for the own id and Unknown otherwise. |
| Store.MergeDevsShape | connector/syncthingconnection.cpp:794-814 | The shape of a device refresh, including the OwnDevice/Unknown status rule, for every row. |
| Store.RecycledDevStateAfterMove | connector/syncthingconnection.cpp:456-457 | Moving one device out of the old list does not change what any other id finds. |
| Store.MergeDevsRecyclesAt | connector/syncthingconnection.cpp:450-462 | When ids are distinct, row k keeps the run-time fields of the old device with its id, except for the recomputed status. |
| Store.MergeDevsRecycles | connector/syncthingconnection.cpp:450-462 | The same for every row of the device refresh. |
| Engine.InitialState | connector/syncthingconnection.cpp:49-77 | A new connection is Disconnected, not polling, with nothing cached, cursor 0, no tries, and poll intervals of 2000 ms and 60000 ms. |
| Engine.ChangeStatus | connector/syncthingconnection.cpp:1541-1543 | The status is stored, and the change is announced only when it differs. |
| Engine.SetStatus | connector/syncthingconnection.cpp:1487-1544 | BeingDestroyed freezes everything. Otherwise only the status, the two lists and the try counter change. Exactly one StatusChanged is emitted when the status changes, and none otherwise. |
| Engine.SetStatusPriority | connector/syncthingconnection.cpp:1492-1535 | Disconnected and Reconnecting are stored as requested. Any other request resets the tries. It yields Synchronizing over Scanning over a paused device over Idle. |
| Engine.SetStatusHandOff | connector/syncthingconnection.cpp:1493-1539 | The synchronizing and completed lists stay free of duplicates. Disconnected and Reconnecting discard the synchronizing list. While Synchronizing the list only grows, by the synchronizing ids. Any other connected result moves the list into the completed one, or drops it when Paused. |
| Engine.HandOffSpec | connector/syncthingconnection.cpp:1505-1539 | The list part of SetStatusHandOff, for the status the directories and devices determine. |
| Engine.SyncThenIdleCompletes | connector/syncthingconnection.cpp:1505-1539 | A directory seen synchronizing is in the completed list after it goes idle and the status is updated again. |
| Engine.SetStatusKeepsDestroyed | connector/syncthingconnection.cpp:1489-1491 | SetStatus never leaves BeingDestroyed and announces nothing then. |
| Engine.EmitNotification | connector/syncthingconnection.cpp:1550-1555 | Sets the unread flag, re-derives the status, and ends with the notification signal. |
| Engine.StatusText | connector/syncthingconnection.cpp:91-107 | "unknown" exactly for Scanning and BeingDestroyed. "connected" exactly for Idle. |
| Lifecycle.Connect | connector/syncthingconnection.cpp:125-139 | Always stops the timer and zeroes the tries, keeping the settings, status, cache, unread flag, synchronizing and completed lists and cursor. Connected: nothing else changes. Otherwise it clears the flags and then either reports an insufficient configuration or requests configuration and status and starts polling. |
| Lifecycle.Disconnect | connector/syncthingconnection.cpp:156-161 | Clears the reconnecting, configuration and status flags and the tries. It aborts all requests and leaves the status to the canceled replies. |
| Lifecycle.ContinueReconnecting | connector/syncthingconnection.cpp:195-224 | Announces an invalidated configuration and becomes Reconnecting (unless being destroyed). It clears the whole cache and enables polling from cursor 0. A sufficient configuration issues the two bootstrap requests and reports no error. An insufficient one requests nothing, and its last signal is the insufficient-configuration error. |
| Lifecycle.Reconnect | connector/syncthingconnection.cpp:169-180 | The timer stops and the tries reset. Connected: marks itself reconnecting and aborts, keeping status and cache. Otherwise it is exactly ContinueReconnecting after the timer reset. It is Reconnecting with the whole cache cleared, polling from cursor 0, and an invalidated configuration announced. It issues the bootstrap requests, or with an insufficient configuration requests nothing and reports the error. |
| Lifecycle.AutoReconnect | connector/syncthingconnection.cpp:226-231 | Behaves as Connect, but the try count goes up by one from its value before the call. |
| Lifecycle.ContinueConnecting | connector/syncthingconnection.cpp:467-478 | Only with polling on and both configuration and status in: it issues the connections, statistics, errors and events requests, with the cursor reset to 0. Otherwise nothing changes. |
| Lifecycle.Destroy | connector/syncthingconnection.cpp:82-86 | The status becomes BeingDestroyed and every request is aborted, without a signal. |
| Lifecycle.DestroyedIsTerminal | connector/syncthingconnection.cpp:1489-1491 | No connection operation leaves BeingDestroyed or announces a status change from it. |
| Lifecycle.ReconnectWhileConnected | connector/syncthingconnection.cpp:169-224 | Reconnecting while connected goes through the abort. The canceled reply then leaves the connection Reconnecting with an empty cache, and the bootstrap requests come after the abort. |
| Replies.RequestPath | connector/syncthingconnection.cpp:339 | A REST path is the base path, then "/rest/", then the endpoint. Other paths append the endpoint directly. |
| Replies.RequestPathInjective | connector/syncthingconnection.cpp:339 | Distinct endpoints never share a request path. |
| Replies.ReadDirs | connector/syncthingconnection.cpp:763-789 | The directories become the merge of the old list with the folder entries, and NewDirs is announced. |
| Replies.ReadDevs | connector/syncthingconnection.cpp:794-814 | The devices become the merge with the device entries, using the own id, and NewDevices is announced. |
| Replies.ReadConfig | connector/syncthingconnection.cpp:724-758 | Canceled: nothing changes. Parse error: reported only. Parsed: announced, directories and devices merged, configuration marked present, and connecting continued when not connected. Other failures: reported, Disconnected, timer armed. |
| Replies.ReadConfigMarksOwnDevice | connector/syncthingconnection.cpp:809 | After a configuration reply, a device is OwnDevice if and only if its id is the own id. |
| Replies.MarkOwnDevice | connector/syncthingconnection.cpp:836-844 | Only the first device with the id becomes OwnDevice and is announced. Without one, nothing changes. |
| Replies.ReadStatus | connector/syncthingconnection.cpp:819-858 | A new own id is stored, announced and marks its device. Success marks the status present and continues connecting. Failures are reported, except a cancellation, and change nothing else. |
| Replies.BootstrapEitherOrder | connector/syncthingconnection.cpp:741-743 | Configuration then status, or status then configuration: both start steady polling exactly once, from cursor 0. |
| Replies.ConnectionTransition | connector/syncthingconnection.cpp:897-912 | The own device keeps its status. A device reported as not connected becomes Disconnected. Unknown or Disconnected devices that are connected become Idle, and others keep their status. |
| Replies.ApplyConnections | connector/syncthingconnection.cpp:894-922 | Exactly the devices with a connection object are updated. The others stay as they are. One DevStatusChanged is emitted per updated device, in order. |
| Replies.ConnectionSignalsExact | connector/syncthingconnection.cpp:894-922 | A connections poll announces device k if and only if it has a connection object, and announces each at most once. |
| Replies.ReadConnections | connector/syncthingconnection.cpp:863-939 | Parsed: traffic totals stored and announced, devices updated, poll time recorded, next poll scheduled while polling. Failures are reported, except a cancellation, and change nothing else. |
| Replies.NotifyError | connector/syncthingconnection.cpp:1066-1071 | An entry newer than the last error time raises exactly one notification and becomes the last time. Any other entry changes nothing. |
| Replies.NotifyErrors | connector/syncthingconnection.cpp:1064-1075 | The last error time never decreases. Only signals, notifications and the status can change. |
| Replies.NewerTimes | connector/syncthingconnection.cpp:1069 | The times to notify are all after the starting time and strictly increasing. |
| Replies.NotifyErrorsNotifiesNewer | connector/syncthingconnection.cpp:1064-1075 | An errors reply notifies exactly the newer times, in order. |
| Replies.NotifyErrorsLastTime | connector/syncthingconnection.cpp:1069-1070 | Afterwards the last error time is the latest notified time. If nothing was notified, it is unchanged. |
| Replies.LatestAfter | connector/syncthingconnection.cpp:1069-1070 | The last error time after the entries is never below the starting one. |
| Replies.NotifyErrorsLatest | connector/syncthingconnection.cpp:1064-1075 | The errors handler ends with the last error time LatestAfter gives. |
| Replies.LatestIsLastNewer | connector/syncthingconnection.cpp:1069-1070 | LatestAfter is the last of the newer times, or the start when there are none. |
| Replies.EmitNotificationAdds | connector/syncthingconnection.cpp:1550-1555 | Raising a notification adds exactly one notification signal, with its own time. |
| Replies.ReadErrors | connector/syncthingconnection.cpp:1046-1090 | A null last error time first becomes now. Parsed: the newer errors are notified. Parsed replies and parse errors (reported) reschedule the poll while polling. Other failures are reported. |
| Replies.ReadEvents | connector/syncthingconnection.cpp:1095-1177 | The settings stay and the signal and request logs only grow. A cancellation without a pending reconnection requests nothing and keeps the directories. ReadEventsTimeout, ReadEventsCanceled, ReadEventsFailure and ReadEventsOk state each case. |
| Replies.ContinuePolling | connector/syncthingconnection.cpp:1171-1176 | While polling, the events are requested again from the unchanged cursor and the connection is connected; otherwise nothing is requested and it is Disconnected. The cache stays. |
| Replies.FailEvents | connector/syncthingconnection.cpp:1141-1168 | The error is reported and the connection is Disconnected (unless being destroyed), with nothing requested. The reconnect timer is running afterwards exactly when it was, or the interval is non-zero. |
| Replies.ReadEventsTimeout | connector/syncthingconnection.cpp:1149-1151 | A timeout while polling requests events again from the same cursor and re-derives the status, and nothing else. |
| Replies.ReadEventsCanceled | connector/syncthingconnection.cpp:1152-1161 | A cancellation reports no error. With a pending reconnection it restarts; otherwise it becomes Disconnected and requests nothing. |
| Replies.ReadEventsFailure | connector/syncthingconnection.cpp:1140-1168 | A parse error or other failure is reported and leaves the connection Disconnected. The timer is armed exactly when its interval is non-zero. |
| Replies.ReadEventsOk | connector/syncthingconnection.cpp:1104-1176 | A batch is announced with its size. The cursor ends at the last id carried, and the next request asks for events after it. |
| Replies.DisconnectThenCanceled | connector/syncthingconnection.cpp:156-161 | A disconnect followed by the canceled event reply ends Disconnected, without an error. |
| Replies.ReconnectThenCanceled | connector/syncthingconnection.cpp:169-224 | A reconnect while connected followed by the canceled event reply ends Reconnecting, with an empty cache and the bootstrap requests after the abort, and no error. |
| Events.StartingEvent | connector/syncthingconnection.cpp:1182-1192 | Stores home directory and own id. Each change is announced, both as a configuration directory change. |
| Events.StartingEventNeverAnnouncesMyId | connector/syncthingconnection.cpp:1189-1190 | As written, a Starting event never emits the own-id signal. |
| Events.StateChangedEvent | connector/syncthingconnection.cpp:1197-1217 | Empty folder id: no change. Known directory: it takes the status and time, and is announced exactly when its status differed. The other directories, the devices and the requests stay. Unknown: appended with the status, and the configuration is requested again. |
| Events.DownloadPercentageAsWritten | connector/syncthingconnection.cpp:1240-1242 | The computation as written, with each count reduced modulo 2^32 as the unsigned cast does. It is 0 when a count is not positive, and always lies in [0, 2^32). |
| Events.DownloadPercentage | connector/syncthingconnection.cpp:1240-1242 | The floor of done·100/total for positive counts, else 0. At most 100 when done ≤ total, and 100 when they are equal. |
| Events.PercentageBounds | connector/syncthingconnection.cpp:1240-1242 | The quotient bounds the percentage rests on. |
| Events.DownloadPercentageWraps | connector/syncthingconnection.cpp:1241 | 42949673 of 42949673 blocks gives 0 as written, against 100 intended. |
| Events.DownloadPercentageAgreesBelowWrap | connector/syncthingconnection.cpp:1240-1242 | When done·100 and the total fit in 32 bits, the as-written computation equals the floor of done·100/total. |
| Events.DirsWithProgress | connector/syncthingconnection.cpp:1225-1248 | Every directory, and only those, is recomputed from the event. |
| Events.DownloadProgressEvent | connector/syncthingconnection.cpp:1222-1250 | Only the directories change, and DownloadProgressChanged is emitted once. |
| Events.DownloadProgressSpec | connector/syncthingconnection.cpp:1225-1243 | Ids, configurations and statuses are kept. A directory takes the items the event lists under its id; one absent from the event is cleared. The stored percentage is the as-written value in [0, 2^32). Below the wrap-around it is the floor of done·100/total, so at most 100 when done ≤ total. |
| Events.AddFolderError | connector/syncthingconnection.cpp:1267-1280 | One error keeps the directory count and touches only the event handler's parts of the state. |
| Events.AddFolderErrors | connector/syncthingconnection.cpp:1265-1281 | The errors of one event keep the directory count. |
| Events.AddFolderErrorSpec | connector/syncthingconnection.cpp:1267-1280 | A new error is appended and makes the directory OutOfSync. Anything else leaves the errors and status alone. Other directories and devices are unchanged. |
| Events.AddFolderErrorsSpec | connector/syncthingconnection.cpp:1261-1283 | Errors only accumulate, at the end and without duplicates, by exactly the new ones. If any were added, the directory is OutOfSync. Everything else in the directory list stays the same. |
| Events.AddFolderErrorsNoNewsNoNotification | connector/syncthingconnection.cpp:1276-1277 | When every error is already known, no notification is raised. |
| Events.AddFolderErrorsKeepUnread | connector/syncthingconnection.cpp:1276-1277 | The unread flag, once set, stays set. |
| Events.AddFolderErrorNotifies | connector/syncthingconnection.cpp:1270-1277 | One error new to both lists adds signals, the last being the notification with its message. |
| Events.AddFolderErrorsNewsNotify | connector/syncthingconnection.cpp:1270-1277 | An error new to both the current and the previous list raises a notification with its message and the event time, and sets the unread flag. |
| Events.FolderErrors | connector/syncthingconnection.cpp:1261-1283 | An empty array changes nothing. Otherwise the directory's change is announced last. |
| Events.SummaryRoundTrip | connector/syncthingconnection.cpp:1288-1295 | Each field read from its own key gives back the summary the daemon sent. |
| Events.SummaryAsWrittenLosesNeededBytes | connector/syncthingconnection.cpp:1294 | As written, the needed bytes always read as 0. |
| Events.FolderSummary | connector/syncthingconnection.cpp:1284-1298 | An empty summary changes nothing. Otherwise the summary, read as written (needed bytes from "needByted"), is replaced and the directory announced. |
| Events.FolderSummaryOfDaemon | connector/syncthingconnection.cpp:1288-1295 | For the summary the daemon sends, the directory takes every field except the needed bytes, which read as 0. |
| Events.CompletionAfterIsMinimum | connector/syncthingconnection.cpp:1303-1307 | The kept completion is the minimum over the reported values strictly between 0 and 100. A positive value is never reset. |
| Events.FolderCompletion | connector/syncthingconnection.cpp:1299-1307 | Only that directory's completion changes, and nothing is announced. |
| Events.FolderScanProgress | connector/syncthingconnection.cpp:1308-1318 | With positive counts, the directory stores percentage and rate, becomes Scanning and is announced. Otherwise nothing changes. |
| Events.DirEvent | connector/syncthingconnection.cpp:1255-1322 | An empty or unknown folder, or a subtype without a handler, changes nothing. |
| Events.DeviceTransition | connector/syncthingconnection.cpp:1339-1358 | Handled exactly for the six Device* subtypes. An unhandled one asks for no change. |
| Events.DeviceEventNeverIgnored | connector/syncthingconnection.cpp:1329-1331 | The early-return guard can never hold. |
| Events.DeviceEvent | connector/syncthingconnection.cpp:1327-1368 | The device count is kept. A device changes at most its status and paused flag, and the own device keeps its status. An unknown subtype changes nothing. |
| Events.DeviceEventSpec | connector/syncthingconnection.cpp:1338-1365 | A known subtype for a known device stores the transition's paused flag and status; the own device keeps its status. The device is announced exactly when its status or paused flag differed from the transition's, and nothing else changes. |
| Events.ItemFinished | connector/syncthingconnection.cpp:1383-1412 | An empty or unknown folder changes nothing. |
| Events.ItemFinishedAsWritten | connector/syncthingconnection.cpp:1391-1408 | As written, a recorded last file is replaced only by an older event. An error for a directory that is not OutOfSync is dropped. |
| Events.ItemFinishedRecordsLastFile | connector/syncthingconnection.cpp:1391-1400 | Without an error, for a directory with no last file or a newer one, the last file becomes the event's time and item, deleted exactly when the action is not "delete". The connection-wide last file follows when the event is newer than it. The directory is announced, and nothing else changes. |
| Events.ItemFinishedRecordsError | connector/syncthingconnection.cpp:1401-1407 | With an error, for an OutOfSync directory, the error is appended and the directory announced. Then a notification with the error message and event time is raised; other directories, devices and counters stay. |
| Events.ApplyEvent | connector/syncthingconnection.cpp:1113 | The cursor takes the event's id when it carries one and otherwise stays. |
| Events.Dispatch | connector/syncthingconnection.cpp:1122-1138 | ItemStarted, and any type that is none of the handled names and starts with neither "Folder" nor "Device", change nothing. ConfigSaved requests the configuration again. |
| Events.ApplyEvents | connector/syncthingconnection.cpp:1111-1139 | Handling a batch changes neither the settings nor any flag other than the cursor and the try counter, and signals and requests only grow. |
| Events.ApplyEventsCursor | connector/syncthingconnection.cpp:1113 | After a batch, the cursor is the id of the last event that carries one. |
| Events.CursorTakesLastNotLargest | connector/syncthingconnection.cpp:1113 | Ids 5 then 3 leave the cursor at 3. |
| Configuration.ExpectedErrorsFor | connector/syncthingconnection.cpp:667-670 | Four expected errors, all for the loaded certificate. |
| Configuration.LoadSelfSignedCertificate | connector/syncthingconnection.cpp:637-672 | The expected errors are cleared first. The result is true exactly when a certificate loads, and then its four errors are expected. A missing or unreadable certificate is reported. |
| Configuration.WithCredentials | connector/syncthingconnection.cpp:693-701 | Credentials are those of the settings when authentication is enabled, and empty otherwise. Afterwards they no longer differ. |
| Configuration.ApplyExpectedErrors | connector/syncthingconnection.cpp:702-712 | The expected errors given are taken over, or the loaded certificate's when none are given. A reconnect is required exactly in the source's cases. |
| Configuration.ApplySettings | connector/syncthingconnection.cpp:682-719 | Writes the expected errors back. Cache, status, flags and requests stay. |
| Configuration.ApplySettingsAdopts | connector/syncthingconnection.cpp:682-719 | Every setting is adopted: URL, key, credentials, intervals and expected errors. |
| Configuration.ApplySettingsReconnectRequired | connector/syncthingconnection.cpp:684-712 | A reconnect is required if and only if the URL, key, credentials or expected errors change. A loaded certificate, or errors expected before, count as a change. |
| Configuration.ApplySettingsIdempotent | connector/syncthingconnection.cpp:682-719 | Applying the written-back settings again requires no reconnect and changes nothing. |
| Configuration.ConnectWith | connector/syncthingconnection.cpp:146-151 | Applies the settings and reconnects exactly when that is required. |
| Configuration.ReconnectWith | connector/syncthingconnection.cpp:186-190 | Applies the settings and always reconnects: tries zeroed, timer stopped, new address in place. |
| Configuration.ConnectWithSameSettingsKeepsConnection | connector/syncthingconnection.cpp:146-151 | Connecting again with unchanged settings leaves the connection alone. |
| Connection.SyncthingConnection.constructor | connector/syncthingconnection.cpp:49-77 | The new object is the initial state. |
| Connection.SyncthingConnection.HasOutOfSyncDirs | connector/syncthingconnection.cpp:112-120 | True if and only if some directory is OutOfSync. |
| Connection.SyncthingConnection.FindDirInfo | connector/syncthingconnection.cpp:374-384 | The row of the first directory with the id. A row inside the list exactly when one exists. |
| Connection.SyncthingConnection.FindDevInfo | connector/syncthingconnection.cpp:413-423 | The same, for devices. |
| Connection.SyncthingConnection.SetStatus | connector/syncthingconnection.cpp:1487-1544 | The loops leave the object in Engine.SetStatus's state. |
| Connection.SyncthingConnection.ChangeStatusTo | connector/syncthingconnection.cpp:1541-1543 | Follows Engine.ChangeStatus. |
| Connection.SyncthingConnection.EmitNotification | connector/syncthingconnection.cpp:1550-1555 | Follows Engine.EmitNotification. |
| Connection.SyncthingConnection.Connect | connector/syncthingconnection.cpp:125-139 | Follows Lifecycle.Connect. |
| Connection.SyncthingConnection.Disconnect | connector/syncthingconnection.cpp:156-161 | Follows Lifecycle.Disconnect. |
| Connection.SyncthingConnection.Reconnect | connector/syncthingconnection.cpp:169-180 | Follows Lifecycle.Reconnect. |
| Connection.SyncthingConnection.ContinueReconnecting | connector/syncthingconnection.cpp:195-224 | Follows Lifecycle.ContinueReconnecting. |
| Connection.SyncthingConnection.ClearCache | connector/syncthingconnection.cpp:199-217 | Everything learned from the daemon is forgotten and polling restarts from cursor 0. |
| Connection.SyncthingConnection.RequestConfigAndStatus | connector/syncthingconnection.cpp:218-223 | Issues the two bootstrap requests if and only if URL and key are present. Otherwise it reports the insufficient configuration. |
| Connection.SyncthingConnection.AutoReconnect | connector/syncthingconnection.cpp:226-231 | Follows Lifecycle.AutoReconnect. |
| Connection.SyncthingConnection.ContinueConnecting | connector/syncthingconnection.cpp:467-478 | Follows Lifecycle.ContinueConnecting. |
| Connection.SyncthingConnection.Destroy | connector/syncthingconnection.cpp:82-86 | Follows Lifecycle.Destroy. |
| Connection.SyncthingConnection.LoadSelfSignedCertificate | connector/syncthingconnection.cpp:637-672 | Follows Configuration.LoadSelfSignedCertificate, including the result. |
| Connection.SyncthingConnection.ApplySettings | connector/syncthingconnection.cpp:682-719 | Follows Configuration.ApplySettings: new state, written-back settings, reconnect flag. |
| Connection.SyncthingConnection.TakeAddress | connector/syncthingconnection.cpp:685-701 | Takes over URL, key and credentials. Reports a change exactly when one of them differed. |
| Connection.SyncthingConnection.ApplyExpectedErrors | connector/syncthingconnection.cpp:702-712 | Follows Configuration.ApplyExpectedErrors. |
| Connection.SyncthingConnection.ConnectWith | connector/syncthingconnection.cpp:146-151 | Follows Configuration.ConnectWith. |
| Connection.SyncthingConnection.ReconnectWith | connector/syncthingconnection.cpp:186-190 | Follows Configuration.ReconnectWith. |
| Connection.SyncthingConnection.AddDirInfo | connector/syncthingconnection.cpp:394-406 | An empty id appends nothing. Otherwise it appends the cached directory with that id, leaving its slot with an empty id, or a fresh one. |
| Connection.SyncthingConnection.AddDevInfo | connector/syncthingconnection.cpp:450-462 | The same, for devices. |
| Connection.SyncthingConnection.ReadDirs | connector/syncthingconnection.cpp:763-789 | The loop leaves the object in Replies.ReadDirs's state. |
| Connection.SyncthingConnection.ReadDirEntry | connector/syncthingconnection.cpp:768-784 | One entry advances the merge by one step. |
| Connection.SyncthingConnection.ReadDevs | connector/syncthingconnection.cpp:794-814 | The loop leaves the object in Replies.ReadDevs's state. |
| Connection.SyncthingConnection.ReadDevEntry | connector/syncthingconnection.cpp:799-810 | One entry advances the device merge by one step. |
| Connection.SyncthingConnection.ReadConfig | connector/syncthingconnection.cpp:724-758 | Follows Replies.ReadConfig. |
| Connection.SyncthingConnection.ArmReconnectTimer | connector/syncthingconnection.cpp:754-756 | Starts the timer exactly when its interval is non-zero. |
| Connection.SyncthingConnection.ReadStatus | connector/syncthingconnection.cpp:819-858 | Follows Replies.ReadStatus. |
| Connection.SyncthingConnection.StoreOwnId | connector/syncthingconnection.cpp:834-845 | A different id is stored, announced, and marks its device. The same id changes nothing. |
| Connection.SyncthingConnection.MarkOwnDevice | connector/syncthingconnection.cpp:836-844 | The loop follows Replies.MarkOwnDevice. |
| Connection.SyncthingConnection.ReadConnections | connector/syncthingconnection.cpp:863-939 | Follows Replies.ReadConnections. |
| Connection.SyncthingConnection.UpdateDevsFromConnections | connector/syncthingconnection.cpp:893-922 | The loop follows Replies.ApplyConnections over every device. |
| Connection.SyncthingConnection.ReadErrors | connector/syncthingconnection.cpp:1046-1090 | Follows Replies.ReadErrors. |
| Connection.SyncthingConnection.NotifyNewErrors | connector/syncthingconnection.cpp:1064-1075 | The loop follows Replies.NotifyErrors. |
| Connection.SyncthingConnection.RescheduleErrors | connector/syncthingconnection.cpp:1081-1083 | Schedules the next errors poll after 30 s exactly while polling. |
| Connection.SyncthingConnection.ReadEvents | connector/syncthingconnection.cpp:1095-1177 | Follows Replies.ReadEvents. |
| Connection.SyncthingConnection.ContinuePolling | connector/syncthingconnection.cpp:1171-1176 | Polling: requests events and re-derives the status. Otherwise: becomes Disconnected. |
| Connection.SyncthingConnection.DispatchEvent | connector/syncthingconnection.cpp:1122-1138 | Follows Events.Dispatch. |
| Connection.SyncthingConnection.ReadStartingEvent | connector/syncthingconnection.cpp:1182-1192 | Follows Events.StartingEvent. |
| Connection.SyncthingConnection.ReadStatusChangedEvent | connector/syncthingconnection.cpp:1197-1217 | Follows Events.StateChangedEvent. |
| Connection.SyncthingConnection.ReadDownloadProgressEvent | connector/syncthingconnection.cpp:1222-1250 | The loop follows Events.DownloadProgressEvent. |
| Connection.SyncthingConnection.ReadDirEvent | connector/syncthingconnection.cpp:1255-1322 | Follows Events.DirEvent. |
| Connection.SyncthingConnection.AddFolderErrorsAt | connector/syncthingconnection.cpp:1265-1281 | The loop follows Events.AddFolderErrors. |
| Connection.SyncthingConnection.AddFolderErrorAt | connector/syncthingconnection.cpp:1266-1280 | Follows Events.AddFolderError. |
| Connection.SyncthingConnection.ReadDeviceEvent | connector/syncthingconnection.cpp:1327-1368 | Follows Events.DeviceEvent. |
| Connection.SyncthingConnection.UpdateDevStatus | connector/syncthingconnection.cpp:1359-1365 | A device whose status or paused flag differs stores them and is announced. The own device keeps its status. |
| Connection.SyncthingConnection.ReadItemFinished | connector/syncthingconnection.cpp:1383-1412 | Follows Events.ItemFinished. |
| Connection.NextDeviceState | connector/syncthingconnection.cpp:1339-1358 | Agrees with Events.DeviceTransition. |
| Connection.DirDownloadProgress | connector/syncthingconnection.cpp:1226-1242 | The loop over a directory's items gives the directory that Events.WithDownloadProgress defines. |
| Connection.ScanDirs | connector/syncthingconnection.cpp:1503-1514 | The loop yields the collected list, and whether some directory synchronizes or scans. |
| Connection.DeriveStatus | connector/syncthingconnection.cpp:1498-1539 | The derived status is the priority rule's, and the lists are the hand-off's. |
| Connection.AnyPausedDev | connector/syncthingconnection.cpp:1521-1527 | The early-exit loop answers whether some device is paused. |
| TrayIcon.Clamp | tray/gui/trayicon.cpp:86-98 | The result lies in a non-empty range, equals the input when inside, and is otherwise a bound. |
| TrayIcon.ClampIdempotent | tray/gui/trayicon.cpp:86-98 | Clamping twice is clamping once. |
| TrayIcon.ClampNearest | tray/gui/trayicon.cpp:86-98 | The clamped value is the point of the range nearest to the input. |
| TrayIcon.MoveInside | tray/gui/trayicon.cpp:86-98 | Each coordinate of the point is clamped into the rectangle. |
| TrayIcon.MoveInsideSpec | tray/gui/trayicon.cpp:86-98 | The moved point lies inside. A point already inside stays, and moving twice is moving once. |
| TrayIcon.IconFor | tray/gui/trayicon.cpp:169-229 | Disconnected and Reconnecting: the disconnected icon. Otherwise an out-of-sync directory comes first, then unread notifications, then the status. Nothing is set exactly when being destroyed with nothing to show. |
| TrayIcon.Join | tray/gui/trayicon.cpp:245-249 | No names give the empty string, and one name gives itself. |
| TrayIcon.SyncCompleteMessage | tray/gui/trayicon.cpp:238-250 | No message for no names. A singular message for one name. Otherwise the list text follows the fixed prefix. |
| TrayIcon.SyncCompleteOnlyAfterSynchronizing | tray/gui/trayicon.cpp:231-261 | The completion message is shown only when leaving Synchronizing for a connected status, and then always exists. |
| TrayIcon.Tray.constructor | tray/gui/trayicon.cpp:27-80 | Construction sets the initial Disconnected status through the update, which always applies before initialization and so shows no message, then marks the tray initialized. Icon and tool tip are IconFor's choice for Disconnected. |
| TrayIcon.Tray.UpdateStatusIconAndText | tray/gui/trayicon.cpp:161-263 | The same status again once initialized does nothing. Otherwise icon and tool tip follow IconFor, the disconnect and completion messages are shown in their cases, and the status is recorded. |
| WebPage.TrimTrailingSlashes | tray/gui/webpage.cpp:64-72 | The result is a prefix without a trailing '/'. Only '/' characters were removed. |
| WebPage.TrimTrailingSlashesUnique | tray/gui/webpage.cpp:64-72 | Those properties determine the trimmed path uniquely. |
| WebPage.TrimTrailingSlashesIdempotent | tray/gui/webpage.cpp:64-72 | Trimming twice is trimming once. |
| WebPage.IsSamePage | tray/gui/webpage.cpp:60-78 | True exactly for the same scheme, host and port and equal trimmed paths. |
| WebPage.DifferentOriginNeverSamePage | tray/gui/webpage.cpp:62 | A different scheme, host or port is never the same page. |
| WebPage.TrailingSlashesIgnored | tray/gui/webpage.cpp:64-76 | "/a", "/a/" and "/a//" are the same page, but "/a" and "/b" are not. |
| WebPage.AppendedSlashesSamePage | tray/gui/webpage.cpp:64-76 | Appending slashes never leaves the page. |
| WebPage.SamePageEquivalence | tray/gui/webpage.cpp:60-78 | Same-page is reflexive, symmetric and transitive. |
| WebPage.HandleNavigationRequest | tray/gui/webpage.cpp:144-157 | Allowed while nothing is loaded or on the same page. Otherwise refused, and the target goes to the external browser. |

## Left out

- Rates and labels: the traffic rates (floating point, from the wall clock) and the per-directory download label text.
- Statistics: the directory and device statistics replies (readDirStatistics, readDeviceStatistics). Their requests are issued.
- Other requests: the POST commands (pause, resume, rescan, restart, shutdown), the log and QR-code requests, and findDevInfoByName. None of them changes the polled state.
- Parsing: JSON parsing, date-time parsing and QUrl handling are abstracted. Replies arrive already parsed (`Reply<T>`), and error strings carry only their fixed prefix, without the `errorString()` suffix.
- Timing: QTimer and the clock become the ghost request log (delays as numbers), the `reconnectTimerActive` flag, and a `now` parameter.
- Aborting: abortAllRequests is one `AbortAll` entry in the request log. The replies it cancels arrive later as `Canceled`.
- Certificate lookup: the check for a secure, local URL and the search for and loading of the certificate file become the `CertificateLookup` parameter.
- Time values: time is an integer tick count with 0 as the null date-time. Time zones are not modelled.
- Integer widths: summary values and block counts are unbounded integers, where the source keeps them in `int`; overflow of the block sums is not modelled. The download percentage's unsigned 32-bit cast and multiplication are written out (`Events.DownloadPercentageAsWritten`), and that value is stored. Whether it fits the field that holds it (declared in syncthingdir.h, which is not part of this model) is not modelled. `Events.SummaryFromAsWritten` does not model `toInt()`'s 32-bit range.
- Events.FolderScanProgress: the source reads the current and total counts with `toInt()` and computes `current * 100 / total` in 32-bit signed `int` (connector/syncthingconnection.cpp:1310-1314). The product overflows once the current count exceeds 21474836, which is undefined behaviour and in practice usually wraps to a negative percentage. The model computes the product on unbounded integers, so its floor bound holds only where the product fits in 32 bits. The overflow, and the later completion report it would let through the "not yet positive" test at line 1303, are not modelled.
- Events.AssignStatus: stores the new directory status and its time. It never updates the previous-errors snapshot, which `Events.AddFolderError` compares against before notifying. That snapshot starts empty and stays empty, so the dedupe against earlier errors is never exercised in this model. The status assignment in syncthingdir.cpp, which rotates that snapshot and interprets status strings, is not part of this model, and neither is syncthingconnection.h.
- Engine.SetStatus: the synchronizing and completed lists hold directory ids, not object addresses as in the source. Two rows with the same id are therefore listed once. After a refresh of the directories an entry refers to whatever row carries that id. In the source, `readDirs` swaps in a new vector (connector/syncthingconnection.cpp:786), so a pointer left in those lists dangles. It can later be moved into the completed list and read by the tray (tray/gui/trayicon.cpp:246-247). The model does not capture that dangling pointer.
- Connected status: `isConnected()` is modelled as the statuses other than Disconnected and Reconnecting.
- Sub-records: the connection's members are grouped into `Settings`, `Flags` and `DaemonInfo` records. The signals and requests are ghost logs.
- Events.StartingEvent: as written, the own id is announced as a configuration directory change. The intended own-id signal is not modelled.
- Events.ItemFinished: as written, the last file is replaced only by an older event, and the deleted flag is inverted. The intended behaviour is not modelled.
- Events.ApplyEventsCursor: as written, the cursor takes the last id carried, not the largest.
- Events.DeviceEvent: the early-return guard is modelled as written; it never applies.
- TrayIcon.Tray.UpdateStatusIconAndText: tool tips are an enumeration rather than translated text. Desktop notifications, D-Bus, the context menu and the tray widget are not part of this model.
- WebPage.IsSamePage: URLs are records of scheme, host, port and path. The QUrl emptiness test is approximated by all parts being empty. Credentials, SSL handling and window creation in webpage.cpp are not part of this model.
- connector/syncthingservice.cpp (systemd integration) is not part of this model.

## Findings

| source | as written | input that shows it | evidently intended | confidence | as-written member | corrected member |
|---|---|---|---|---|---|---|
| connector/syncthingconnection.cpp:1240-1242 | Both block counts are cast to 32-bit unsigned before multiplying by 100, so the product wraps around | 42949673 blocks done of 42949673 gives 0 % | 100 % (floor of done·100/total) | not executed | Events.DownloadPercentageWraps | Events.DownloadPercentage |
| connector/syncthingconnection.cpp:1294 | The needed bytes are read from the key "needByted" | A summary whose "needBytes" is 5 leaves the needed bytes at 0 | Read "needBytes", the key the daemon sends | not executed | Events.SummaryAsWrittenLosesNeededBytes | Events.SummaryRoundTrip |
