/**
 * The event processor: the handlers that the event loop dispatches to
 * (connector/syncthingconnection.cpp, readEvents and the read*Event handlers and
 * readItemFinished), as functions on the connection state.
 */
module Events {
  import opened Types
  import opened Store
  import opened Engine

  /**
   * What every event handler leaves alone: the settings and the flags except the try
   * counter (a notification re-derives the status); signals and requests only grow.
   */
  predicate Follows(s: ConnState, r: ConnState)
  {
    r.settings == s.settings && r.flags == s.flags.(autoReconnectTries := r.flags.autoReconnectTries) &&
    s.signals <= r.signals && s.net <= r.net
  }

  // ---- directory status -----------------------------------------------------------

  /**
   * A directory takes a new status at `time`; the result says whether the status
   * changed. The interpreting setter of the directory class (syncthingdir.cpp) is not
   * part of this model: the status and its timestamp are simply stored.
   */
  function AssignStatus(d: Dir, st: DirStatus, time: Time): (Dir, bool)
  {
    (d.(state := d.state.(status := st, lastStatusUpdate := time)), d.state.status != st)
  }

  // ---- Starting -------------------------------------------------------------------

  /**
   * A Starting event stores the daemon's home directory and own id; each change is
   * announced, and as written both are announced as a configuration directory change.
   */
  function StartingEvent(s: ConnState, data: EventData): (r: ConnState)
    ensures Follows(s, r)
    ensures r.info == s.info.(configDir := data.home, myId := data.myId)
    ensures r == s.(info := r.info, signals := r.signals)
    ensures r.signals == s.signals
                         + (if data.home != s.info.configDir then [ConfigDirChanged(data.home)] else [])
                         + (if data.myId != s.info.myId then [ConfigDirChanged(data.myId)] else [])
  {
    var s1 := if data.home != s.info.configDir
              then Emit(s.(info := s.info.(configDir := data.home)), ConfigDirChanged(data.home)) else s;
    if data.myId != s1.info.myId
    then Emit(s1.(info := s1.info.(myId := data.myId)), ConfigDirChanged(data.myId)) else s1
  }

  /** As written, a Starting event never announces the own id on its own signal. */
  lemma StartingEventNeverAnnouncesMyId(s: ConnState, data: EventData)
    ensures forall k :: |s.signals| <= k < |StartingEvent(s, data).signals| ==>
      !StartingEvent(s, data).signals[k].MyIdChanged?
  {
  }

  // ---- StateChanged ---------------------------------------------------------------

  lemma {:induction false} IndexOfDirAppend(dirs: seq<Dir>, d: Dir, id: string)
    requires IndexOfDir(dirs, id) == |dirs| && d.id == id
    ensures IndexOfDir(dirs + [d], id) == |dirs|
    decreases |dirs|
  {
    if dirs != [] {
      assert (dirs + [d])[1..] == dirs[1..] + [d];
      IndexOfDirAppend(dirs[1..], d, id);
    }
  }

  lemma IndexOfDirUpdate(dirs: seq<Dir>, i: nat, d: Dir, id: string)
    requires i < |dirs| && IndexOfDir(dirs, id) == i && d.id == id
    ensures IndexOfDir(dirs[i := d], id) == i
  {
    var dirs' := dirs[i := d];
    forall j | 0 <= j < i
      ensures dirs'[j].id != id
    {
    }
    assert dirs'[i].id == id;
  }

  /**
   * A StateChanged event: a known directory takes the new status (announced if it
   * changed); an unknown one is appended with that status and the configuration is
   * requested again to learn the rest of it.
   */
  function StateChangedEvent(s: ConnState, time: Time, data: EventData): (r: ConnState)
    ensures Follows(s, r)
    ensures r.flags == s.flags && r.status == s.status && r.devs == s.devs
    ensures data.folder == [] ==> r == s
    ensures data.folder != [] ==>
      var i := IndexOfDir(r.dirs, data.folder);
      i < |r.dirs| && r.dirs[i].state.status == data.to && r.dirs[i].state.lastStatusUpdate == time &&
      i == IndexOfDir(s.dirs, data.folder)
    ensures data.folder != [] && IndexOfDir(s.dirs, data.folder) < |s.dirs| ==>
      |r.dirs| == |s.dirs| && r.net == s.net
    ensures data.folder != [] && IndexOfDir(s.dirs, data.folder) < |s.dirs| ==>
      var i := IndexOfDir(s.dirs, data.folder);
      r.signals == s.signals + (if s.dirs[i].state.status != data.to then [DirStatusChanged(i)] else []) &&
      (forall k :: 0 <= k < |s.dirs| && k != i ==> r.dirs[k] == s.dirs[k])
    ensures data.folder != [] && IndexOfDir(s.dirs, data.folder) == |s.dirs| ==>
      |r.dirs| == |s.dirs| + 1 && r.dirs[..|s.dirs|] == s.dirs && r.signals == s.signals &&
      r.net == s.net + [Get(SystemConfig, 0)]
  {
    if data.folder == [] then s
    else
      var i := IndexOfDir(s.dirs, data.folder);
      if i < |s.dirs| then
        var (d, changed) := AssignStatus(s.dirs[i], data.to, time);
        var s1 := SetDir(s, i, d);
        IndexOfDirUpdate(s.dirs, i, d, data.folder);
        if changed then Emit(s1, DirStatusChanged(i)) else s1
      else
        var d := AssignStatus(NewDir(data.folder), data.to, time).0;
        IndexOfDirAppend(s.dirs, d, data.folder);
        assert (s.dirs + [d])[..|s.dirs|] == s.dirs;
        Request(s.(dirs := s.dirs + [d]), SystemConfig, 0)
  }

  // ---- DownloadProgress -----------------------------------------------------------

  /** Blocks already downloaded over a list of items. */
  function SumDone(items: seq<ItemProgress>): int
  {
    if items == [] then 0 else SumDone(items[..|items| - 1]) + items[|items| - 1].blocksAlreadyDownloaded
  }

  /** Blocks to download over a list of items. */
  function SumTotal(items: seq<ItemProgress>): int
  {
    if items == [] then 0 else SumTotal(items[..|items| - 1]) + items[|items| - 1].totalNumberOfBlocks
  }

  const UnsignedRange: int := 0x1_0000_0000

  /**
   * The download percentage as written: both block counts are cast to 32-bit unsigned
   * integers before the multiplication by 100, so the product wraps around. The sums
   * are kept unbounded here and reduced modulo 2^32 as the cast does; a total that is
   * a multiple of 2^32 (which a positive 32-bit count never is) gives 0.
   */
  function DownloadPercentageAsWritten(done: int, total: int): (r: int)
    ensures done <= 0 || total <= 0 ==> r == 0
    ensures 0 <= r < UnsignedRange
  {
    if done > 0 && total > 0 && total % UnsignedRange != 0 then
      (done % UnsignedRange * 100 % UnsignedRange) / (total % UnsignedRange)
    else 0
  }

  /**
   * The download percentage: the floor of done * 100 / total when both counts are
   * positive, 0 otherwise.
   */
  function DownloadPercentage(done: int, total: int): (r: int)
    ensures r >= 0
    ensures done <= 0 || total <= 0 ==> r == 0
    ensures done > 0 && total > 0 ==> r * total <= done * 100 < (r + 1) * total
    ensures 0 < done <= total ==> r <= 100
    ensures 0 < done == total ==> r == 100
  {
    if done > 0 && total > 0 then
      var r := done * 100 / total;
      PercentageBounds(done, total, r);
      r
    else 0
  }

  lemma PercentageBounds(done: int, total: int, r: int)
    requires done > 0 && total > 0 && r == done * 100 / total
    ensures r >= 0 && r * total <= done * 100 < (r + 1) * total
    ensures done <= total ==> r <= 100
    ensures done == total ==> r == 100
  {
    DivBounds(done * 100, total, r);
    if done <= total {
      MulLeCancel(r, 100, total);
    }
  }

  lemma DivBounds(x: int, y: int, q: int)
    requires x >= 0 && y > 0 && q == x / y
    ensures q >= 0 && q * y <= x < (q + 1) * y
  {
    assert x == q * y + x % y;
    assert (q + 1) * y == q * y + y;
  }

  lemma MulLeCancel(a: int, b: int, c: int)
    requires c > 0 && a * c <= b * c
    ensures a <= b
  {
  }

  /** With 42949673 of 42949673 blocks done the wrapped product gives 0 instead of 100. */
  lemma DownloadPercentageWraps()
    ensures DownloadPercentageAsWritten(42949673, 42949673) == 0
    ensures DownloadPercentage(42949673, 42949673) == 100
  {
  }

  /** Below the wrap-around the two agree. */
  lemma DownloadPercentageAgreesBelowWrap(done: int, total: int)
    requires done * 100 < UnsignedRange && total < UnsignedRange
    ensures DownloadPercentageAsWritten(done, total) == DownloadPercentage(done, total)
  {
    if done > 0 && total > 0 {
      assert done % UnsignedRange == done && total % UnsignedRange == total;
      assert done * 100 % UnsignedRange == done * 100;
    }
  }

  /**
   * A directory after a DownloadProgress event: its items are those the event lists
   * under its id (none if absent), with the block sums and the percentage as written.
   */
  function WithDownloadProgress(d: Dir, progress: map<string, seq<ItemProgress>>): Dir
  {
    var items := if d.id in progress then progress[d.id] else [];
    var done := SumDone(items);
    var total := SumTotal(items);
    d.(state := d.state.(downloadingItems := items, blocksAlreadyDownloaded := done,
                         blocksToBeDownloaded := total, downloadPercentage := DownloadPercentageAsWritten(done, total)))
  }

  function DirsWithProgress(dirs: seq<Dir>, progress: map<string, seq<ItemProgress>>): (r: seq<Dir>)
    ensures |r| == |dirs|
    ensures forall k :: 0 <= k < |dirs| ==> r[k] == WithDownloadProgress(dirs[k], progress)
  {
    seq(|dirs|, k requires 0 <= k < |dirs| => WithDownloadProgress(dirs[k], progress))
  }

  /** A DownloadProgress event recomputes the download fields of every directory. */
  function DownloadProgressEvent(s: ConnState, data: EventData): (r: ConnState)
    ensures Follows(s, r)
    ensures r == s.(dirs := r.dirs, signals := s.signals + [DownloadProgressChanged])
  {
    Emit(s.(dirs := DirsWithProgress(s.dirs, data.progress)), DownloadProgressChanged)
  }

  /**
   * After a DownloadProgress event every directory keeps its id, configuration and
   * status; its downloading items are those the event lists under its id; one the event
   * does not mention has no downloading items and zero counts. The percentage is an
   * unsigned 32-bit value; while the done count times 100 and the total stay below 2^32
   * it is the floor of done * 100 / total, so at most 100 when no more blocks are done
   * than needed.
   */
  lemma DownloadProgressSpec(s: ConnState, data: EventData)
    ensures var r := DownloadProgressEvent(s, data);
      |r.dirs| == |s.dirs| &&
      forall k :: 0 <= k < |s.dirs| ==>
        r.dirs[k].id == s.dirs[k].id && r.dirs[k].config == s.dirs[k].config &&
        r.dirs[k].state.status == s.dirs[k].state.status &&
        (s.dirs[k].id in data.progress ==> r.dirs[k].state.downloadingItems == data.progress[s.dirs[k].id]) &&
        (s.dirs[k].id !in data.progress ==>
           r.dirs[k].state.downloadingItems == [] && r.dirs[k].state.blocksAlreadyDownloaded == 0 &&
           r.dirs[k].state.blocksToBeDownloaded == 0 && r.dirs[k].state.downloadPercentage == 0) &&
        0 <= r.dirs[k].state.downloadPercentage < UnsignedRange &&
        (r.dirs[k].state.blocksAlreadyDownloaded * 100 < UnsignedRange &&
         r.dirs[k].state.blocksToBeDownloaded < UnsignedRange ==>
           r.dirs[k].state.downloadPercentage ==
             DownloadPercentage(r.dirs[k].state.blocksAlreadyDownloaded, r.dirs[k].state.blocksToBeDownloaded) &&
           (r.dirs[k].state.blocksAlreadyDownloaded <= r.dirs[k].state.blocksToBeDownloaded ==>
              r.dirs[k].state.downloadPercentage <= 100))
  {
    var r := DownloadProgressEvent(s, data);
    forall k | 0 <= k < |s.dirs|
      ensures r.dirs[k].state.blocksAlreadyDownloaded * 100 < UnsignedRange &&
              r.dirs[k].state.blocksToBeDownloaded < UnsignedRange ==>
                r.dirs[k].state.downloadPercentage ==
                  DownloadPercentage(r.dirs[k].state.blocksAlreadyDownloaded, r.dirs[k].state.blocksToBeDownloaded)
    {
      var st := r.dirs[k].state;
      if st.blocksAlreadyDownloaded * 100 < UnsignedRange && st.blocksToBeDownloaded < UnsignedRange {
        DownloadPercentageAgreesBelowWrap(st.blocksAlreadyDownloaded, st.blocksToBeDownloaded);
      }
    }
  }

  // ---- Folder* events -------------------------------------------------------------

  /**
   * One error of a FolderErrors event for the directory at `i`: an empty object or an
   * error already listed is skipped; a new one is appended, sets the directory
   * OutOfSync and raises a notification unless it was already among the previous errors.
   */
  function AddFolderError(s: ConnState, i: nat, time: Time, e: Option<DirError>): (r: ConnState)
    requires i < |s.dirs|
    ensures |r.dirs| == |s.dirs|
    ensures Follows(s, r)
  {
    if e.None? then s
    else
      var d := s.dirs[i];
      if e.value in d.state.errors then s
      else
        var d' := AssignStatus(d.(state := d.state.(errors := d.state.errors + [e.value])), DirStatus.OutOfSync, time).0;
        var s1 := SetDir(s, i, d');
        if e.value !in d'.state.previousErrors then EmitNotification(s1, time, e.value.message) else s1
  }

  /** The errors of a FolderErrors event, one after the other. */
  function AddFolderErrors(s: ConnState, i: nat, time: Time, errs: seq<Option<DirError>>): (r: ConnState)
    requires i < |s.dirs|
    ensures |r.dirs| == |s.dirs|
    ensures Follows(s, r)
    decreases |errs|
  {
    if errs == [] then s
    else AddFolderErrors(AddFolderError(s, i, time, errs[0]), i, time, errs[1..])
  }

  /**
   * One error: a new one is appended and sets the directory OutOfSync; otherwise the
   * directory keeps its errors and status; the other directories and the devices stay.
   */
  lemma AddFolderErrorSpec(s: ConnState, i: nat, time: Time, e: Option<DirError>)
    requires i < |s.dirs|
    ensures var r := AddFolderError(s, i, time, e);
      var added := e.Some? && e.value !in s.dirs[i].state.errors;
      r.dirs[i].state.errors == s.dirs[i].state.errors + (if added then [e.value] else []) &&
      r.dirs[i].state.status == (if added then DirStatus.OutOfSync else s.dirs[i].state.status) &&
      r.dirs[i].id == s.dirs[i].id && r.dirs[i].state.previousErrors == s.dirs[i].state.previousErrors &&
      (forall k :: 0 <= k < |s.dirs| && k != i ==> r.dirs[k] == s.dirs[k]) &&
      r.devs == s.devs
  {
  }

  /**
   * Errors only accumulate: the list grows at its end, without duplicates, by exactly
   * the reported errors not yet listed; if it grew the directory is OutOfSync; the
   * other directories, the ids and the previous errors stay as they were.
   */
  lemma {:induction false} AddFolderErrorsSpec(s: ConnState, i: nat, time: Time, errs: seq<Option<DirError>>)
    requires i < |s.dirs|
    ensures var r := AddFolderErrors(s, i, time, errs);
      s.dirs[i].state.errors <= r.dirs[i].state.errors &&
      (NoDup(s.dirs[i].state.errors) ==> NoDup(r.dirs[i].state.errors)) &&
      (forall x :: x in r.dirs[i].state.errors <==> x in s.dirs[i].state.errors || Some(x) in errs) &&
      (r.dirs[i].state.errors != s.dirs[i].state.errors ==> r.dirs[i].state.status == DirStatus.OutOfSync) &&
      (r.dirs[i].state.errors == s.dirs[i].state.errors ==> r.dirs[i].state.status == s.dirs[i].state.status) &&
      r.dirs[i].id == s.dirs[i].id && r.dirs[i].state.previousErrors == s.dirs[i].state.previousErrors &&
      (forall k :: 0 <= k < |s.dirs| && k != i ==> r.dirs[k] == s.dirs[k]) &&
      r.devs == s.devs
    decreases |errs|
  {
    if errs != [] {
      var s1 := AddFolderError(s, i, time, errs[0]);
      AddFolderErrorSpec(s, i, time, errs[0]);
      AddFolderErrorsSpec(s1, i, time, errs[1..]);
      assert errs == [errs[0]] + errs[1..];
      if errs[0].Some? && errs[0].value !in s.dirs[i].state.errors && NoDup(s.dirs[i].state.errors) {
        NoDupSnoc(s.dirs[i].state.errors, errs[0].value);
      }
    }
  }

  /**
   * Notifications are raised only for errors that are new to both lists: when every
   * reported error is already listed or was listed before the last status update, the
   * unread flag and the signals stay as they were.
   */
  lemma {:induction false} AddFolderErrorsNoNewsNoNotification(s: ConnState, i: nat, time: Time, errs: seq<Option<DirError>>)
    requires i < |s.dirs|
    requires forall k :: 0 <= k < |errs| && errs[k].Some? ==>
      errs[k].value in s.dirs[i].state.errors || errs[k].value in s.dirs[i].state.previousErrors
    ensures AddFolderErrors(s, i, time, errs).unreadNotifications == s.unreadNotifications
    ensures AddFolderErrors(s, i, time, errs).signals == s.signals
    decreases |errs|
  {
    if errs != [] {
      var s1 := AddFolderError(s, i, time, errs[0]);
      assert s1.dirs[i].state.errors == s.dirs[i].state.errors || s1 == SetDir(s, i, s1.dirs[i]);
      assert s1.unreadNotifications == s.unreadNotifications && s1.signals == s.signals;
      assert s.dirs[i].state.errors <= s1.dirs[i].state.errors;
      assert s1.dirs[i].state.previousErrors == s.dirs[i].state.previousErrors;
      forall k | 0 <= k < |errs[1..]| && errs[1..][k].Some?
        ensures errs[1..][k].value in s1.dirs[i].state.errors || errs[1..][k].value in s1.dirs[i].state.previousErrors
      {
        assert errs[1..][k] == errs[k + 1];
      }
      AddFolderErrorsNoNewsNoNotification(s1, i, time, errs[1..]);
    }
  }

  /** Once set, the unread flag stays set while errors are added. */
  lemma {:induction false} AddFolderErrorsKeepUnread(s: ConnState, i: nat, time: Time, errs: seq<Option<DirError>>)
    requires i < |s.dirs| && s.unreadNotifications
    ensures AddFolderErrors(s, i, time, errs).unreadNotifications
    decreases |errs|
  {
    if errs != [] {
      AddFolderErrorsKeepUnread(AddFolderError(s, i, time, errs[0]), i, time, errs[1..]);
    }
  }

  /** One error new to both lists ends in a notification with its message. */
  lemma AddFolderErrorNotifies(s: ConnState, i: nat, time: Time, x: DirError)
    requires i < |s.dirs| && x !in s.dirs[i].state.errors && x !in s.dirs[i].state.previousErrors
    ensures var r := AddFolderError(s, i, time, Some(x));
      |r.signals| > |s.signals| && r.signals[|r.signals| - 1] == NewNotification(time, x.message)
  {
  }

  /** A signal appended after a prefix stays after it once more signals follow. */
  lemma SignalKept(a: seq<Signal>, b: seq<Signal>, c: seq<Signal>, x: Signal)
    requires a <= b <= c && (x in b[|a|..] || x in c[|b|..])
    ensures x in c[|a|..]
  {
    if x in b[|a|..] {
      var j :| 0 <= j < |b| - |a| && b[|a|..][j] == x;
      assert c[|a|..][j] == x;
    } else {
      var j :| 0 <= j < |c| - |b| && c[|b|..][j] == x;
      assert c[|a|..][j + |b| - |a|] == x;
    }
  }

  /**
   * An error new to both lists raises a notification with its message and the event
   * time, which sets the unread flag.
   */
  lemma {:induction false} AddFolderErrorsNewsNotify(s: ConnState, i: nat, time: Time, errs: seq<Option<DirError>>, x: DirError)
    requires i < |s.dirs|
    requires Some(x) in errs && x !in s.dirs[i].state.errors && x !in s.dirs[i].state.previousErrors
    ensures AddFolderErrors(s, i, time, errs).unreadNotifications
    ensures NewNotification(time, x.message) in AddFolderErrors(s, i, time, errs).signals[|s.signals|..]
    decreases |errs|
  {
    var s1 := AddFolderError(s, i, time, errs[0]);
    var r := AddFolderErrors(s1, i, time, errs[1..]);
    assert AddFolderErrors(s, i, time, errs) == r;
    if errs[0] == Some(x) {
      AddFolderErrorsKeepUnread(s1, i, time, errs[1..]);
      AddFolderErrorNotifies(s, i, time, x);
      assert s1.signals[|s1.signals| - 1] in s1.signals[|s.signals|..];
      SignalKept(s.signals, s1.signals, r.signals, NewNotification(time, x.message));
    } else {
      var m :| 0 <= m < |errs| && errs[m] == Some(x);
      assert errs[1..][m - 1] == errs[m];
      assert s1.dirs[i].state.errors == s.dirs[i].state.errors ||
             s1.dirs[i].state.errors == s.dirs[i].state.errors + [errs[0].value];
      AddFolderErrorsNewsNotify(s1, i, time, errs[1..], x);
      SignalKept(s.signals, s1.signals, r.signals, NewNotification(time, x.message));
    }
  }

  /** A FolderErrors event; the directory's change is announced when the array is non-empty. */
  function FolderErrors(s: ConnState, i: nat, time: Time, errs: seq<Option<DirError>>): (r: ConnState)
    requires i < |s.dirs|
    ensures |r.dirs| == |s.dirs| && Follows(s, r)
    ensures errs == [] ==> r == s
    ensures errs != [] ==> |r.signals| > 0 && r.signals[|r.signals| - 1] == DirStatusChanged(i)
  {
    if errs == [] then s else Emit(AddFolderErrors(s, i, time, errs), DirStatusChanged(i))
  }

  function Lookup(m: map<string, int>, key: string): int
  {
    if key in m then m[key] else 0
  }

  /**
   * The summary fields read from a FolderSummary event as written: the needed bytes are
   * read from the key "needByted", which the daemon does not send.
   */
  function SummaryFromAsWritten(m: map<string, int>): Summary
  {
    Summary(Lookup(m, "globalBytes"), Lookup(m, "globalDeleted"), Lookup(m, "globalFiles"),
            Lookup(m, "localBytes"), Lookup(m, "localDeleted"), Lookup(m, "localFiles"),
            Lookup(m, "needByted"), Lookup(m, "needFiles"))
  }

  /** The summary fields read from a FolderSummary event, each from the key the daemon sends. */
  function SummaryFrom(m: map<string, int>): Summary
  {
    Summary(Lookup(m, "globalBytes"), Lookup(m, "globalDeleted"), Lookup(m, "globalFiles"),
            Lookup(m, "localBytes"), Lookup(m, "localDeleted"), Lookup(m, "localFiles"),
            Lookup(m, "needBytes"), Lookup(m, "needFiles"))
  }

  /** The summary object as the daemon sends it. */
  function DaemonSummary(x: Summary): map<string, int>
  {
    map["globalBytes" := x.globalBytes, "globalDeleted" := x.globalDeleted, "globalFiles" := x.globalFiles,
        "localBytes" := x.localBytes, "localDeleted" := x.localDeleted, "localFiles" := x.localFiles,
        "needBytes" := x.neededBytes, "needFiles" := x.neededFiles]
  }

  /** Reading back what the daemon sends gives every field of the summary. */
  lemma SummaryRoundTrip(x: Summary)
    ensures SummaryFrom(DaemonSummary(x)) == x
  {
  }

  /** As written, the needed bytes always read as 0, whatever the daemon sends. */
  lemma SummaryAsWrittenLosesNeededBytes(x: Summary)
    ensures SummaryFromAsWritten(DaemonSummary(x)) == x.(neededBytes := 0)
  {
    assert "needByted" !in DaemonSummary(x);
  }

  /**
   * A FolderSummary event with a non-empty summary replaces the summary, read as
   * written, and announces the directory.
   */
  function FolderSummary(s: ConnState, i: nat, summary: map<string, int>): (r: ConnState)
    requires i < |s.dirs|
    ensures Follows(s, r)
    ensures |summary| == 0 ==> r == s
    ensures |summary| != 0 ==>
      r == s.(dirs := s.dirs[i := s.dirs[i].(state := s.dirs[i].state.(summary := SummaryFromAsWritten(summary)))],
              signals := s.signals + [DirStatusChanged(i)])
  {
    if |summary| == 0 then s
    else Emit(SetDir(s, i, s.dirs[i].(state := s.dirs[i].state.(summary := SummaryFromAsWritten(summary)))), DirStatusChanged(i))
  }
  /**
   * Given the summary the daemon sends, the directory takes every field of it except
   * the needed bytes, which read as 0.
   */
  lemma FolderSummaryOfDaemon(s: ConnState, i: nat, x: Summary)
    requires i < |s.dirs|
    ensures FolderSummary(s, i, DaemonSummary(x)).dirs[i].state.summary == x.(neededBytes := 0)
  {
    assert "globalBytes" in DaemonSummary(x);
    SummaryAsWrittenLosesNeededBytes(x);
  }


  /**
   * The completion kept for a directory after a reported percentage `p`: a value
   * strictly between 0 and 100 replaces an unset (non-positive) value or a larger one.
   */
  function NextCompletion(current: int, p: int): int
  {
    if p > 0 && p < 100 && (current <= 0 || p < current) then p else current
  }

  /** The completion after a series of reported percentages. */
  function CompletionAfter(current: int, ps: seq<int>): int
    decreases |ps|
  {
    if ps == [] then current else CompletionAfter(NextCompletion(current, ps[0]), ps[1..])
  }

  /**
   * The kept completion is the minimum: it is at most every reported percentage strictly
   * between 0 and 100, it is either the starting value or one of those, and a positive
   * value is never reset.
   */
  lemma {:induction false} CompletionAfterIsMinimum(current: int, ps: seq<int>)
    ensures forall k :: 0 <= k < |ps| && 0 < ps[k] < 100 ==> CompletionAfter(current, ps) <= ps[k]
    ensures CompletionAfter(current, ps) == current ||
            exists k :: 0 <= k < |ps| && 0 < ps[k] < 100 && CompletionAfter(current, ps) == ps[k]
    ensures current > 0 ==> 0 < CompletionAfter(current, ps) <= current
    ensures CompletionAfter(current, ps) > 0 ==> current > 0 || exists k :: 0 <= k < |ps| && 0 < ps[k] < 100
    decreases |ps|
  {
    if ps != [] {
      var next := NextCompletion(current, ps[0]);
      CompletionAfterIsMinimum(next, ps[1..]);
      var r := CompletionAfter(current, ps);
      forall k | 0 <= k < |ps| && 0 < ps[k] < 100
        ensures r <= ps[k]
      {
        if k > 0 {
          assert ps[1..][k - 1] == ps[k];
        }
      }
      if r != current && r != next {
        var k :| 0 <= k < |ps[1..]| && 0 < ps[1..][k] < 100 && r == ps[1..][k];
        assert ps[k + 1] == ps[1..][k];
      }
      if r > 0 && current <= 0 && next > 0 {
        assert 0 < ps[0] < 100;
      }
      if r > 0 && current <= 0 && next <= 0 {
        var k :| 0 <= k < |ps[1..]| && 0 < ps[1..][k] < 100;
        assert ps[k + 1] == ps[1..][k];
      }
    }
  }

  /** A FolderCompletion event; nothing is announced. */
  function FolderCompletion(s: ConnState, i: nat, p: int): (r: ConnState)
    requires i < |s.dirs|
    ensures Follows(s, r)
    ensures r == s.(dirs := s.dirs[i := s.dirs[i].(state := s.dirs[i].state.(
              progressPercentage := CompletionAfter(s.dirs[i].state.progressPercentage, [p])))])
  {
    SetDir(s, i, s.dirs[i].(state := s.dirs[i].state.(progressPercentage := NextCompletion(s.dirs[i].state.progressPercentage, p))))
  }

  /**
   * A FolderScanProgress event with positive counts stores the percentage and rate,
   * forces the directory to Scanning and announces it; otherwise nothing happens.
   */
  function FolderScanProgress(s: ConnState, i: nat, time: Time, current: int, total: int, rate: int): (r: ConnState)
    requires i < |s.dirs|
    ensures Follows(s, r)
    ensures !(current > 0 && total > 0) ==> r == s
    ensures current > 0 && total > 0 ==>
      |r.dirs| == |s.dirs| && r.dirs[i].state.status == DirStatus.Scanning &&
      r.dirs[i].state.progressPercentage * total <= current * 100 < (r.dirs[i].state.progressPercentage + 1) * total &&
      r.dirs[i].state.progressRate == rate && r.signals == s.signals + [DirStatusChanged(i)] &&
      (forall k :: 0 <= k < |s.dirs| && k != i ==> r.dirs[k] == s.dirs[k])
  {
    if current > 0 && total > 0 then
      var d := s.dirs[i].(state := s.dirs[i].state.(progressPercentage := current * 100 / total, progressRate := rate));
      Emit(SetDir(s, i, AssignStatus(d, DirStatus.Scanning, time).0), DirStatusChanged(i))
    else s
  }

  /** A Folder* event for a known directory, by subtype; other subtypes change nothing. */
  function DirEvent(s: ConnState, time: Time, eventType: string, data: EventData): (r: ConnState)
    ensures Follows(s, r)
    ensures data.folder == [] || IndexOfDir(s.dirs, data.folder) == |s.dirs| ==> r == s
    ensures eventType !in {"FolderErrors", "FolderSummary", "FolderCompletion", "FolderScanProgress"} ==> r == s
  {
    if data.folder == [] then s
    else
      var i := IndexOfDir(s.dirs, data.folder);
      if i == |s.dirs| then s
      else if eventType == "FolderErrors" then FolderErrors(s, i, time, data.errors)
      else if eventType == "FolderSummary" then FolderSummary(s, i, data.summary)
      else if eventType == "FolderCompletion" then FolderCompletion(s, i, data.completion)
      else if eventType == "FolderScanProgress" then FolderScanProgress(s, i, time, data.current, data.total, data.rate)
      else s
  }

  // ---- Device* events -------------------------------------------------------------

  /**
   * The status and paused flag a Device* event asks for, given the current ones;
   * `handled` is false for a subtype the processor does not know.
   */
  function DeviceTransition(eventType: string, st: DevStatus, paused: bool): (r: (DevStatus, bool, bool))
    ensures !r.2 ==> r.0 == st && r.1 == paused
    ensures r.2 <==> eventType in {"DeviceConnected", "DeviceDisconnected", "DevicePaused",
                                   "DeviceRejected", "DeviceResumed", "DeviceDiscovered"}
  {
    if eventType == "DeviceConnected" then (DevStatus.Idle, paused, true)
    else if eventType == "DeviceDisconnected" then (DevStatus.Disconnected, paused, true)
    else if eventType == "DevicePaused" then (st, true, true)
    else if eventType == "DeviceRejected" then (DevStatus.Rejected, paused, true)
    else if eventType == "DeviceResumed" then (DevStatus.Disconnected, false, true)
    else if eventType == "DeviceDiscovered" then (if st == DevStatus.Unknown then DevStatus.Disconnected else st, paused, true)
    else (st, paused, false)
  }

  /**
   * The early-return test of the device handler as written: the event time is null,
   * the last connections update is null and the event time lies before it.
   */
  predicate DeviceEventIgnored(time: Time, lastConnectionsUpdate: Time)
  {
    IsNull(time) && IsNull(lastConnectionsUpdate) && time < lastConnectionsUpdate
  }

  /** The early return can never be taken: two null times are equal. */
  lemma DeviceEventNeverIgnored(time: Time, lastConnectionsUpdate: Time)
    ensures !DeviceEventIgnored(time, lastConnectionsUpdate)
  {
  }

  /**
   * A Device* event for a known device: a known subtype that changes the status or the
   * paused flag stores them and announces the device, except that the own device keeps
   * its status.
   */
  function DeviceEvent(s: ConnState, time: Time, eventType: string, data: EventData): (r: ConnState)
    ensures Follows(s, r)
    ensures |r.devs| == |s.devs|
    ensures forall k :: 0 <= k < |s.devs| && s.devs[k].state.status == DevStatus.OwnDevice ==>
      r.devs[k].state.status == DevStatus.OwnDevice
    ensures forall k :: 0 <= k < |s.devs| ==>
      r.devs[k] == s.devs[k].(state := s.devs[k].state.(status := r.devs[k].state.status, paused := r.devs[k].state.paused))
    ensures !DeviceTransition(eventType, DevStatus.Unknown, false).2 ==> r == s
  {
    if DeviceEventIgnored(time, s.info.lastConnectionsUpdate) then s
    else if data.device == [] then s
    else
      var i := IndexOfDev(s.devs, data.device);
      if i == |s.devs| then s
      else
        var d := s.devs[i];
        var (st, paused, handled) := DeviceTransition(eventType, d.state.status, d.state.paused);
        if !handled then s
        else if d.state.status != st || d.state.paused != paused then
          var st' := if d.state.status != DevStatus.OwnDevice then st else d.state.status;
          Emit(SetDev(s, i, d.(state := d.state.(status := st', paused := paused))), DevStatusChanged(i))
        else s
  }

  /**
   * A Device* event of a known subtype for a known device: the device takes the paused
   * flag and, unless it is the own device, the status the transition gives; it is
   * announced exactly when the status or the paused flag it had differs from them; the
   * other devices and everything else stay.
   */
  lemma DeviceEventSpec(s: ConnState, time: Time, eventType: string, data: EventData)
    requires data.device != [] && IndexOfDev(s.devs, data.device) < |s.devs|
    requires DeviceTransition(eventType, DevStatus.Unknown, false).2
    ensures var i := IndexOfDev(s.devs, data.device);
      var d := s.devs[i];
      var t := DeviceTransition(eventType, d.state.status, d.state.paused);
      var r := DeviceEvent(s, time, eventType, data);
      |r.devs| == |s.devs| &&
      r.devs[i].state.paused == t.1 &&
      r.devs[i].state.status == (if d.state.status == DevStatus.OwnDevice then DevStatus.OwnDevice else t.0) &&
      (forall k :: 0 <= k < |s.devs| && k != i ==> r.devs[k] == s.devs[k]) &&
      r.signals == s.signals + (if d.state.status != t.0 || d.state.paused != t.1 then [DevStatusChanged(i)] else []) &&
      r == s.(devs := r.devs, signals := r.signals)
  {
    DeviceEventNeverIgnored(time, s.info.lastConnectionsUpdate);
  }

  // ---- ItemFinished ---------------------------------------------------------------

  /**
   * An ItemFinished event for a known directory. Without an error, as written, the
   * last file is replaced only when none is recorded yet or the event is OLDER than the
   * recorded one, and its deleted flag is true when the action is NOT "delete"; the
   * connection-wide last file follows when the event is newer than it. With an error,
   * the error is appended and notified only if the directory is already OutOfSync.
   */
  function ItemFinished(s: ConnState, time: Time, data: EventData): (r: ConnState)
    ensures Follows(s, r)
    ensures data.folder == [] || IndexOfDir(s.dirs, data.folder) == |s.dirs| ==> r == s
  {
    if data.folder == [] then s
    else
      var i := IndexOfDir(s.dirs, data.folder);
      if i == |s.dirs| then s
      else
        var d := s.dirs[i];
        if data.error == [] then
          if IsNull(d.state.lastFileTime) || time < d.state.lastFileTime then
            var deleted := data.action != "delete";
            var s1 := SetDir(s, i, d.(state := d.state.(lastFileTime := time, lastFileName := data.item,
                                                        lastFileDeleted := deleted)));
            var s2 := if time > s.info.lastFileTime
                      then s1.(info := s1.info.(lastFileTime := time, lastFileName := data.item, lastFileDeleted := deleted))
                      else s1;
            Emit(s2, DirStatusChanged(i))
          else s
        else if d.state.status == DirStatus.OutOfSync then
          var s1 := SetDir(s, i, d.(state := d.state.(errors := d.state.errors + [DirError(data.error, data.item)],
                                                      status := DirStatus.OutOfSync)));
          EmitNotification(Emit(s1, DirStatusChanged(i)), time, data.error)
        else s
  }

  /**
   * As written, once a directory has a last file a later successful event leaves it
   * alone, and an error for a directory that is not OutOfSync is dropped.
   */
  lemma ItemFinishedAsWritten(s: ConnState, time: Time, data: EventData)
    requires data.folder != [] && IndexOfDir(s.dirs, data.folder) < |s.dirs|
    ensures var d := s.dirs[IndexOfDir(s.dirs, data.folder)];
      (data.error == [] && !IsNull(d.state.lastFileTime) && time >= d.state.lastFileTime ==>
         ItemFinished(s, time, data) == s) &&
      (data.error != [] && d.state.status != DirStatus.OutOfSync ==> ItemFinished(s, time, data) == s) &&
      (data.error == [] && (IsNull(d.state.lastFileTime) || time < d.state.lastFileTime) ==>
         ItemFinished(s, time, data).dirs[IndexOfDir(s.dirs, data.folder)].state.lastFileDeleted ==
           (data.action != "delete"))
  {
  }
  /**
   * A successful ItemFinished event for a known directory whose last file is unset or
   * newer than the event: the directory's last file becomes the event's item, marked
   * deleted exactly when the action is not "delete"; the connection-wide last file
   * follows when the event is newer than it; the directory is announced and nothing
   * else changes.
   */
  lemma ItemFinishedRecordsLastFile(s: ConnState, time: Time, data: EventData)
    requires data.folder != [] && IndexOfDir(s.dirs, data.folder) < |s.dirs| && data.error == []
    requires var d := s.dirs[IndexOfDir(s.dirs, data.folder)];
      IsNull(d.state.lastFileTime) || time < d.state.lastFileTime
    ensures var i := IndexOfDir(s.dirs, data.folder);
      var r := ItemFinished(s, time, data);
      var deleted := data.action != "delete";
      |r.dirs| == |s.dirs| &&
      r.dirs[i] == s.dirs[i].(state := s.dirs[i].state.(lastFileTime := time, lastFileName := data.item,
                                                           lastFileDeleted := deleted)) &&
      (forall k :: 0 <= k < |s.dirs| && k != i ==> r.dirs[k] == s.dirs[k]) &&
      r.info == (if time > s.info.lastFileTime
                 then s.info.(lastFileTime := time, lastFileName := data.item, lastFileDeleted := deleted)
                 else s.info) &&
      r.signals == s.signals + [DirStatusChanged(i)] &&
      r == s.(dirs := r.dirs, info := r.info, signals := r.signals)
  {
  }

  /**
   * A failed ItemFinished event for a known directory that is OutOfSync: the error is
   * appended to its errors, the directory is announced and then a notification with the
   * error message and the event time is raised; the other directories stay.
   */
  lemma ItemFinishedRecordsError(s: ConnState, time: Time, data: EventData)
    requires data.folder != [] && IndexOfDir(s.dirs, data.folder) < |s.dirs| && data.error != []
    requires s.dirs[IndexOfDir(s.dirs, data.folder)].state.status == DirStatus.OutOfSync
    ensures var i := IndexOfDir(s.dirs, data.folder);
      var r := ItemFinished(s, time, data);
      |r.dirs| == |s.dirs| &&
      r.dirs[i] == s.dirs[i].(state := s.dirs[i].state.(errors := s.dirs[i].state.errors + [DirError(data.error, data.item)])) &&
      (forall k :: 0 <= k < |s.dirs| && k != i ==> r.dirs[k] == s.dirs[k]) &&
      r.unreadNotifications &&
      |r.signals| > |s.signals| + 1 && r.signals[|s.signals|] == DirStatusChanged(i) &&
      r.signals[|r.signals| - 1] == NewNotification(time, data.error) &&
      r.info == s.info && r.devs == s.devs
  {
    var i := IndexOfDir(s.dirs, data.folder);
    var d := s.dirs[i];
    var s1 := SetDir(s, i, d.(state := d.state.(errors := d.state.errors + [DirError(data.error, data.item)],
                                                status := DirStatus.OutOfSync)));
    var s2 := Emit(s1, DirStatusChanged(i));
    assert ItemFinished(s, time, data) == EmitNotification(s2, time, data.error);
    assert s2.signals <= EmitNotification(s2, time, data.error).signals;
  }


  // ---- dispatch -------------------------------------------------------------------

  /**
   * One event: the cursor takes the event's id if it carries one, then the event is
   * dispatched by its type.
   */
  function ApplyEvent(s: ConnState, e: Event): (r: ConnState)
    ensures r.flags.lastEventId == if e.id.Some? then e.id.value else s.flags.lastEventId
    ensures Follows(s.(flags := s.flags.(lastEventId := r.flags.lastEventId)), r)
  {
    Dispatch(s.(flags := s.flags.(lastEventId := if e.id.Some? then e.id.value else s.flags.lastEventId)), e)
  }

  /**
   * The handler for an event's type; a ConfigSaved event asks for the configuration
   * again, and types without a handler change nothing.
   */
  function Dispatch(s: ConnState, e: Event): (r: ConnState)
    ensures Follows(s, r)
    ensures e.eventType == "ItemStarted" ==> r == s
    ensures e.eventType == "ConfigSaved" ==> r == Request(s, SystemConfig, 0)
    ensures (e.eventType !in {"Starting", "StateChanged", "DownloadProgress", "ItemStarted", "ItemFinished", "ConfigSaved"} &&
             !StartsWith(e.eventType, "Folder") && !StartsWith(e.eventType, "Device")) ==> r == s
  {
    var t := e.eventType;
    assert t == "ConfigSaved" ==> t[0] == 'C';
    if t == "Starting" then StartingEvent(s, e.data)
    else if t == "StateChanged" then StateChangedEvent(s, e.time, e.data)
    else if t == "DownloadProgress" then DownloadProgressEvent(s, e.data)
    else if StartsWith(t, "Folder") then DirEvent(s, e.time, t, e.data)
    else if StartsWith(t, "Device") then DeviceEvent(s, e.time, t, e.data)
    else if t == "ItemStarted" then s
    else if t == "ItemFinished" then ItemFinished(s, e.time, e.data)
    else if t == "ConfigSaved" then Request(s, SystemConfig, 0)
    else s
  }

  /** The events of a reply, in order. */
  function ApplyEvents(s: ConnState, events: seq<Event>): (r: ConnState)
    ensures Follows(s.(flags := s.flags.(lastEventId := r.flags.lastEventId)), r)
    decreases |events|
  {
    if events == [] then s else ApplyEvents(ApplyEvent(s, events[0]), events[1..])
  }

  /** The id of the last event of `events` that carries one, or `otherwise` if none does. */
  function LastCarriedId(events: seq<Event>, otherwise: int): int
  {
    if events == [] then otherwise
    else if events[|events| - 1].id.Some? then events[|events| - 1].id.value
    else LastCarriedId(events[..|events| - 1], otherwise)
  }

  lemma {:induction false} LastCarriedIdCons(events: seq<Event>, otherwise: int)
    requires events != []
    ensures LastCarriedId(events, otherwise) ==
      LastCarriedId(events[1..], if events[0].id.Some? then events[0].id.value else otherwise)
    decreases |events|
  {
    if |events| > 1 {
      var init := events[..|events| - 1];
      assert init[1..] == events[1..][..|events[1..]| - 1];
      assert init[0] == events[0];
      LastCarriedIdCons(init, otherwise);
    }
  }

  /** After a batch the cursor is the id of the last event that carries one. */
  lemma {:induction false} ApplyEventsCursor(s: ConnState, events: seq<Event>)
    ensures ApplyEvents(s, events).flags.lastEventId == LastCarriedId(events, s.flags.lastEventId)
    decreases |events|
  {
    if events != [] {
      LastCarriedIdCons(events, s.flags.lastEventId);
      ApplyEventsCursor(ApplyEvent(s, events[0]), events[1..]);
    }
  }

  /** As written, the cursor is the last id, not the largest: ids 5 then 3 leave it at 3. */
  lemma CursorTakesLastNotLargest(s: ConnState, e1: Event, e2: Event)
    requires e1.id == Some(5) && e2.id == Some(3)
    ensures ApplyEvents(s, [e1, e2]).flags.lastEventId == 3
  {
    ApplyEventsCursor(s, [e1, e2]);
  }
}
