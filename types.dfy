/**
 * Values shared by the connection model: statuses, directories and devices, the
 * already-parsed replies of the REST API and the log of emitted signals and issued
 * requests.
 */
module Types {

  datatype Option<+T> = None | Some(value: T)

  /**
   * A point in time as a tick count. As with the date-time type of the original
   * program, the null time (never set, or a timestamp that failed to parse) is 0 ticks,
   * so it compares below every real time.
   */
  type Time = nat

  predicate IsNull(t: Time) { t == 0 }

  /** Overall status of a connection. */
  datatype Status = Disconnected | Reconnecting | Idle | Scanning | Paused | Synchronizing | BeingDestroyed

  /** Status of one directory (folder). */
  datatype DirStatus = Unknown | Idle | Scanning | Synchronizing | OutOfSync

  /** Status of one device. */
  datatype DevStatus = Unknown | Disconnected | Idle | Synchronizing | Paused | Rejected | OwnDevice

  datatype DirError = DirError(message: string, path: string)

  /** Progress of one file being downloaded, as reported by a DownloadProgress event. */
  datatype ItemProgress = ItemProgress(fileName: string, blocksAlreadyDownloaded: int, totalNumberOfBlocks: int)

  datatype Summary = Summary(
    globalBytes: int, globalDeleted: int, globalFiles: int,
    localBytes: int, localDeleted: int, localFiles: int,
    neededBytes: int, neededFiles: int)

  /** Fields of a directory that come from the daemon's configuration. */
  datatype DirConfig = DirConfig(
    dirLabel: string, path: string, devices: seq<string>, readOnly: bool,
    rescanInterval: int, ignorePermissions: bool, autoNormalize: bool,
    minDiskFreePercentage: int)

  /** Fields of a directory that are known only at run time (events and statistics). */
  datatype DirState = DirState(
    status: DirStatus, lastStatusUpdate: Time,
    errors: seq<DirError>, previousErrors: seq<DirError>,
    downloadingItems: seq<ItemProgress>,
    blocksAlreadyDownloaded: int, blocksToBeDownloaded: int, downloadPercentage: int,
    progressPercentage: int, progressRate: int,
    summary: Summary, lastScanTime: Time,
    lastFileName: string, lastFileTime: Time, lastFileDeleted: bool)

  datatype Dir = Dir(id: string, config: DirConfig, state: DirState)

  /** Fields of a device that come from the daemon's configuration. */
  datatype DevConfig = DevConfig(
    name: string, addresses: seq<string>, compression: string, certName: string,
    introducer: bool)

  /** Fields of a device that are known only at run time. */
  datatype DevState = DevState(
    status: DevStatus, paused: bool,
    totalIncomingTraffic: nat, totalOutgoingTraffic: nat,
    connectionAddress: string, connectionType: string, clientVersion: string,
    lastSeen: Time)

  datatype Dev = Dev(id: string, config: DevConfig, state: DevState)

  const EmptySummary := Summary(0, 0, 0, 0, 0, 0, 0, 0)

  /** A directory created for an id seen for the first time. */
  function NewDir(id: string): Dir
  {
    Dir(id, DirConfig([], [], [], false, -1, false, false, -1),
        DirState(DirStatus.Unknown, 0, [], [], [], 0, 0, 0, 0, 0, EmptySummary, 0, [], 0, false))
  }

  /** A device created for an id seen for the first time. */
  function NewDev(id: string): Dev
  {
    Dev(id, DevConfig([], [], [], [], false),
        DevState(DevStatus.Unknown, false, 0, 0, [], [], [], 0))
  }

  // ---- already-parsed replies -------------------------------------------------

  /**
   * How a request completed. The JSON parser is a black box: a body it accepts is
   * given as `Ok` with the values the handler reads, one it rejects as `ParseError`.
   */
  datatype Reply<+T> = Ok(data: T) | Canceled | Timeout | ParseError | Other

  /** One entry of the "folders" array of the configuration (defaults already applied). */
  datatype DirEntry = DirEntry(id: string, config: DirConfig)

  /** One entry of the "devices" array of the configuration (defaults already applied). */
  datatype DevEntry = DevEntry(id: string, config: DevConfig)

  datatype ConfigReply = ConfigReply(folders: seq<DirEntry>, devices: seq<DevEntry>)

  /** The connection object for one device in a connections reply. */
  datatype ConnectionInfo = ConnectionInfo(
    connected: bool, paused: bool, inBytesTotal: nat, outBytesTotal: nat,
    address: string, connectionType: string, clientVersion: string)

  /** A connections reply; a device without a (non-empty) object is absent from the map. */
  datatype ConnectionsReply = ConnectionsReply(
    inBytesTotal: nat, outBytesTotal: nat, connections: map<string, ConnectionInfo>)

  /** One entry of an errors reply; `when` is None for an empty object or an unparsable date. */
  datatype ErrorEntry = ErrorEntry(when: Option<Time>, message: string)

  /**
   * The "data" object of an event, as the values the handlers read from it; a key
   * that is missing reads as the empty string, 0, an empty list or an empty map.
   * `errors` holds None for an empty error object; `summary` maps the keys of the
   * summary object to their integer values; `progress` maps a directory id to the
   * progress of its files in key order.
   */
  datatype EventData = EventData(
    folder: string, to: DirStatus, device: string,
    errors: seq<Option<DirError>>, summary: map<string, int>,
    completion: int, current: int, total: int, rate: int,
    home: string, myId: string,
    item: string, error: string, action: string,
    progress: map<string, seq<ItemProgress>>)

  /** One event of the event stream; `id` is None when the event carries no integer id. */
  datatype Event = Event(id: Option<int>, time: Time, eventType: string, data: EventData)

  // ---- settings ---------------------------------------------------------------

  datatype SslErrorKind =
    | UnableToGetLocalIssuerCertificate | UnableToVerifyFirstCertificate
    | SelfSignedCertificate | HostNameMismatch | OtherSslError(code: int)

  datatype SslError = SslError(kind: SslErrorKind, certificate: string)

  datatype ConnectionSettings = ConnectionSettings(
    syncthingUrl: string, apiKey: string,
    authEnabled: bool, userName: string, password: string,
    expectedSslErrors: seq<SslError>,
    trafficPollInterval: int, devStatsPollInterval: int, reconnectInterval: int)

  /**
   * What locating and loading the daemon's self-signed certificate found (the file
   * system and the locality test are outside the model).
   */
  datatype CertificateLookup = NotSecure | NotLocal | NotLocated | NotLoaded | Loaded(certificate: string)

  // ---- signals and requests ---------------------------------------------------

  datatype ErrorCategory = OverallConnection | SpecificRequest | Parsing

  datatype Signal =
    | StatusChanged(status: Status)
    | Error(message: string, category: ErrorCategory)
    | NewNotification(time: Time, message: string)
    | NewConfig(invalidated: bool)
    | NewDirs
    | NewDevices
    | NewEvents(count: nat)
    | DirStatusChanged(dirIndex: nat)
    | DevStatusChanged(devIndex: nat)
    | MyIdChanged(myId: string)
    | ConfigDirChanged(value: string)
    | DownloadProgressChanged
    | TrafficChanged(incoming: nat, outgoing: nat)

  /** REST endpoints polled by the connection; `since` 0 means the query item is omitted. */
  datatype Endpoint =
    | SystemConfig | SystemStatus | SystemConnections | SystemError
    | StatsFolder | StatsDevice | Events(since: int)

  /** A request issued (after `delayMs` milliseconds), or the abortion of all pending ones. */
  datatype NetAction = Get(endpoint: Endpoint, delayMs: int) | AbortAll

  // ---- helpers ----------------------------------------------------------------

  predicate NoDup<T(==)>(s: seq<T>)
  {
    forall i, j :: 0 <= i < j < |s| ==> s[i] != s[j]
  }

  /** Dropping the head of a list without duplicates leaves one without duplicates, without the head. */
  lemma NoDupCons<T>(x: T, s: seq<T>)
    requires NoDup([x] + s)
    ensures NoDup(s) && x !in s
  {
    forall i, j | 0 <= i < j < |s|
      ensures s[i] != s[j]
    {
      assert ([x] + s)[i + 1] == s[i] && ([x] + s)[j + 1] == s[j];
    }
    forall k | 0 <= k < |s|
      ensures s[k] != x
    {
      assert ([x] + s)[k + 1] == s[k] && ([x] + s)[0] == x;
    }
  }

  /** Appending an element not yet present keeps a list free of duplicates. */
  lemma NoDupSnoc<T>(s: seq<T>, x: T)
    requires NoDup(s) && x !in s
    ensures NoDup(s + [x])
  {
    forall i, j | 0 <= i < j < |s + [x]|
      ensures (s + [x])[i] != (s + [x])[j]
    {
      assert (s + [x])[i] == s[i];
    }
  }

  /** The part of `c` after `a` is the part of `b` after `a` followed by the part of `c` after `b`. */
  lemma SliceSplit<T>(a: seq<T>, b: seq<T>, c: seq<T>)
    requires a <= b <= c
    ensures c[|a|..] == b[|a|..] + c[|b|..]
  {
    assert c == b + c[|b|..];
  }

  predicate StartsWith(s: string, prefix: string)
  {
    prefix <= s
  }
}
