/**
 * The directory and device lists of a connection: lookup by id and the merge that a
 * configuration refresh performs (connector/syncthingconnection.cpp, findDirInfo,
 * addDirInfo, readDirs and their device counterparts).
 */
module Store {
  import opened Types

  /** Position of the first directory with id `id`, or `|dirs|` when there is none. */
  function IndexOfDir(dirs: seq<Dir>, id: string): (r: nat)
    ensures r <= |dirs|
    ensures r < |dirs| ==> dirs[r].id == id
    ensures forall j :: 0 <= j < r ==> dirs[j].id != id
    decreases |dirs|
  {
    if dirs == [] then 0
    else if dirs[0].id == id then 0
    else 1 + IndexOfDir(dirs[1..], id)
  }

  /** Position of the first device with id `id`, or `|devs|` when there is none. */
  function IndexOfDev(devs: seq<Dev>, id: string): (r: nat)
    ensures r <= |devs|
    ensures r < |devs| ==> devs[r].id == id
    ensures forall j :: 0 <= j < r ==> devs[j].id != id
    decreases |devs|
  {
    if devs == [] then 0
    else if devs[0].id == id then 0
    else 1 + IndexOfDev(devs[1..], id)
  }

  /** The ids of a list in order; only the lemmas use it. */
  ghost function DirIds(dirs: seq<Dir>): seq<string>
  {
    seq(|dirs|, i requires 0 <= i < |dirs| => dirs[i].id)
  }

  ghost function DevIds(devs: seq<Dev>): seq<string>
  {
    seq(|devs|, i requires 0 <= i < |devs| => devs[i].id)
  }

  /** The non-empty strings of `ids`, in order. */
  function NonEmptyIds(ids: seq<string>): (r: seq<string>)
    ensures forall k :: 0 <= k < |r| ==> r[k] != []
    ensures forall x :: x in r <==> x in ids && x != []
    decreases |ids|
  {
    if ids == [] then []
    else if ids[0] == [] then NonEmptyIds(ids[1..])
    else [ids[0]] + NonEmptyIds(ids[1..])
  }

  // ---- directories --------------------------------------------------------------

  /** The entries of a "folders" array that a refresh keeps: those with a non-empty id. */
  function UsableDirEntries(entries: seq<DirEntry>): seq<DirEntry>
    decreases |entries|
  {
    if entries == [] then []
    else if entries[0].id == [] then UsableDirEntries(entries[1..])
    else [entries[0]] + UsableDirEntries(entries[1..])
  }

  /** A directory object after it has been moved from: its id string is left empty. */
  function MovedFromDir(d: Dir): Dir { d.(id := []) }

  /** Overwrites the configuration fields of `d` with those of `e`, dropping empty device ids. */
  function ApplyDirEntry(d: Dir, e: DirEntry): Dir
  {
    d.(config := e.config.(devices := NonEmptyIds(e.config.devices)))
  }

  /**
   * The new directory list built by a configuration refresh from the old list `pool`:
   * an entry with an empty id is skipped; an entry whose id is found in `pool` takes the
   * found object over (which leaves the old slot with an empty id); any other entry
   * starts from a fresh directory.
   */
  function MergeDirs(pool: seq<Dir>, entries: seq<DirEntry>): (r: seq<Dir>)
    ensures |r| <= |entries|
    ensures forall k :: 0 <= k < |r| ==> r[k].id != []
    decreases |entries|
  {
    if entries == [] then []
    else
      var e := entries[0];
      if e.id == [] then MergeDirs(pool, entries[1..])
      else
        var i := IndexOfDir(pool, e.id);
        if i < |pool| then [ApplyDirEntry(pool[i], e)] + MergeDirs(pool[i := MovedFromDir(pool[i])], entries[1..])
        else [ApplyDirEntry(NewDir(e.id), e)] + MergeDirs(pool, entries[1..])
  }

  /** The run-time fields a refreshed directory with id `id` starts with. */
  function RecycledDirState(pool: seq<Dir>, id: string): DirState
  {
    var i := IndexOfDir(pool, id);
    if i < |pool| then pool[i].state else NewDir(id).state
  }

  lemma {:induction false} UsableDirEntriesIds(entries: seq<DirEntry>)
    ensures forall k :: 0 <= k < |UsableDirEntries(entries)| ==> UsableDirEntries(entries)[k].id != []
    ensures forall e :: e in UsableDirEntries(entries) <==> e in entries && e.id != []
    decreases |entries|
  {
    if entries != [] {
      UsableDirEntriesIds(entries[1..]);
    }
  }

  /** A refresh yields one directory per usable entry. */
  lemma {:induction false} MergeDirsLength(pool: seq<Dir>, entries: seq<DirEntry>)
    ensures |MergeDirs(pool, entries)| == |UsableDirEntries(entries)|
    decreases |entries|
  {
    if entries != [] {
      var e := entries[0];
      var i := IndexOfDir(pool, e.id);
      MergeDirsLength(if e.id != [] && i < |pool| then pool[i := MovedFromDir(pool[i])] else pool, entries[1..]);
    }
  }

  /** The directory at row `k` of a refresh carries the id and configuration of the `k`-th usable entry. */
  lemma {:induction false} MergeDirsAt(pool: seq<Dir>, entries: seq<DirEntry>, k: nat)
    requires k < |MergeDirs(pool, entries)|
    ensures k < |UsableDirEntries(entries)|
    ensures MergeDirs(pool, entries)[k].id == UsableDirEntries(entries)[k].id
    ensures MergeDirs(pool, entries)[k].config ==
      UsableDirEntries(entries)[k].config.(devices := NonEmptyIds(UsableDirEntries(entries)[k].config.devices))
    decreases |entries|
  {
    MergeDirsLength(pool, entries);
    var e := entries[0];
    var i := IndexOfDir(pool, e.id);
    var pool' := if e.id != [] && i < |pool| then pool[i := MovedFromDir(pool[i])] else pool;
    if e.id == [] {
      MergeDirsAt(pool, entries[1..], k);
    } else if k > 0 {
      MergeDirsAt(pool', entries[1..], k - 1);
    }
  }

  /**
   * Shape of a refresh: one directory per usable entry, in the order of the
   * configuration, with the entry's id and configuration fields.
   */
  lemma MergeDirsShape(pool: seq<Dir>, entries: seq<DirEntry>)
    ensures |MergeDirs(pool, entries)| == |UsableDirEntries(entries)|
    ensures forall k :: 0 <= k < |MergeDirs(pool, entries)| ==>
      MergeDirs(pool, entries)[k].id == UsableDirEntries(entries)[k].id &&
      MergeDirs(pool, entries)[k].config ==
        UsableDirEntries(entries)[k].config.(devices := NonEmptyIds(UsableDirEntries(entries)[k].config.devices))
  {
    MergeDirsLength(pool, entries);
    forall k | 0 <= k < |MergeDirs(pool, entries)|
      ensures MergeDirs(pool, entries)[k].id == UsableDirEntries(entries)[k].id &&
        MergeDirs(pool, entries)[k].config ==
          UsableDirEntries(entries)[k].config.(devices := NonEmptyIds(UsableDirEntries(entries)[k].config.devices))
    {
      MergeDirsAt(pool, entries, k);
    }
  }

  /** Moving one directory out of the pool does not affect lookups of any other non-empty id. */
  lemma {:induction false} RecycledDirStateAfterMove(pool: seq<Dir>, i: nat, id: string)
    requires i < |pool| && id != [] && id != pool[i].id
    ensures RecycledDirState(pool[i := MovedFromDir(pool[i])], id) == RecycledDirState(pool, id)
  {
    var pool' := pool[i := MovedFromDir(pool[i])];
    forall k | 0 <= k < |pool|
      ensures (pool'[k].id == id) == (pool[k].id == id)
    {
    }
    assert IndexOfDir(pool', id) == IndexOfDir(pool, id);
  }

  /** No two entries share a non-empty id. */
  predicate DistinctDirIds(entries: seq<DirEntry>)
  {
    forall a, b :: 0 <= a < b < |entries| && entries[a].id != [] ==> entries[a].id != entries[b].id
  }

  /** The entries after the first still have distinct ids. */
  lemma DistinctDirIdsTail(entries: seq<DirEntry>)
    requires entries != [] && DistinctDirIds(entries)
    ensures DistinctDirIds(entries[1..])
    ensures forall e :: e in entries[1..] && entries[0].id != [] ==> e.id != entries[0].id
  {
    var rest := entries[1..];
    forall a, b | 0 <= a < b < |rest| && rest[a].id != []
      ensures rest[a].id != rest[b].id
    {
      assert rest[a] == entries[a + 1] && rest[b] == entries[b + 1];
    }
    forall e | e in rest && entries[0].id != []
      ensures e.id != entries[0].id
    {
      var n :| 0 <= n < |rest| && rest[n] == e;
      assert entries[n + 1] == e;
    }
  }

  /** Recycling at row `k`: see MergeDirsRecycles. */
  lemma {:induction false} MergeDirsRecyclesAt(pool: seq<Dir>, entries: seq<DirEntry>, k: nat)
    requires DistinctDirIds(entries)
    requires k < |MergeDirs(pool, entries)|
    ensures k < |UsableDirEntries(entries)|
    ensures MergeDirs(pool, entries)[k].state == RecycledDirState(pool, UsableDirEntries(entries)[k].id)
    decreases |entries|
  {
    MergeDirsLength(pool, entries);
    var e := entries[0];
    var rest := entries[1..];
    DistinctDirIdsTail(entries);
    if e.id == [] {
      MergeDirsRecyclesAt(pool, rest, k);
    } else if k > 0 {
      var i := IndexOfDir(pool, e.id);
      var pool' := if i < |pool| then pool[i := MovedFromDir(pool[i])] else pool;
      MergeDirsRecyclesAt(pool', rest, k - 1);
      UsableDirEntriesIds(rest);
      var id := UsableDirEntries(rest)[k - 1].id;
      assert UsableDirEntries(rest)[k - 1] in UsableDirEntries(rest);
      if i < |pool| {
        RecycledDirStateAfterMove(pool, i, id);
      }
    }
  }

  /**
   * Recycling: when the usable entries have distinct ids, every refreshed directory
   * keeps the run-time fields (status, errors, progress, last file, statistics) of the
   * directory that had its id before the refresh, or starts fresh if there was none.
   */
  lemma MergeDirsRecycles(pool: seq<Dir>, entries: seq<DirEntry>)
    requires DistinctDirIds(entries)
    ensures |MergeDirs(pool, entries)| == |UsableDirEntries(entries)|
    ensures forall k :: 0 <= k < |MergeDirs(pool, entries)| ==>
      MergeDirs(pool, entries)[k].state == RecycledDirState(pool, UsableDirEntries(entries)[k].id)
  {
    MergeDirsLength(pool, entries);
    forall k | 0 <= k < |MergeDirs(pool, entries)|
      ensures MergeDirs(pool, entries)[k].state == RecycledDirState(pool, UsableDirEntries(entries)[k].id)
    {
      MergeDirsRecyclesAt(pool, entries, k);
    }
  }

  // ---- devices ------------------------------------------------------------------

  function UsableDevEntries(entries: seq<DevEntry>): seq<DevEntry>
    decreases |entries|
  {
    if entries == [] then []
    else if entries[0].id == [] then UsableDevEntries(entries[1..])
    else [entries[0]] + UsableDevEntries(entries[1..])
  }

  function MovedFromDev(d: Dev): Dev { d.(id := []) }

  /**
   * Overwrites the configuration fields of `d` with those of `e` and resets its status:
   * OwnDevice when its id is the daemon's own id, Unknown otherwise.
   */
  function ApplyDevEntry(d: Dev, e: DevEntry, myId: string): Dev
  {
    d.(config := e.config,
       state := d.state.(status := if d.id == myId then DevStatus.OwnDevice else DevStatus.Unknown))
  }

  /** The device counterpart of MergeDirs; `myId` is the daemon's own device id. */
  function MergeDevs(pool: seq<Dev>, entries: seq<DevEntry>, myId: string): (r: seq<Dev>)
    ensures |r| <= |entries|
    ensures forall k :: 0 <= k < |r| ==> r[k].id != []
    decreases |entries|
  {
    if entries == [] then []
    else
      var e := entries[0];
      if e.id == [] then MergeDevs(pool, entries[1..], myId)
      else
        var i := IndexOfDev(pool, e.id);
        if i < |pool| then [ApplyDevEntry(pool[i], e, myId)] + MergeDevs(pool[i := MovedFromDev(pool[i])], entries[1..], myId)
        else [ApplyDevEntry(NewDev(e.id), e, myId)] + MergeDevs(pool, entries[1..], myId)
  }

  function RecycledDevState(pool: seq<Dev>, id: string): DevState
  {
    var i := IndexOfDev(pool, id);
    if i < |pool| then pool[i].state else NewDev(id).state
  }

  lemma {:induction false} UsableDevEntriesIds(entries: seq<DevEntry>)
    ensures forall e :: e in UsableDevEntries(entries) <==> e in entries && e.id != []
    decreases |entries|
  {
    if entries != [] {
      UsableDevEntriesIds(entries[1..]);
    }
  }

  lemma {:induction false} MergeDevsLength(pool: seq<Dev>, entries: seq<DevEntry>, myId: string)
    ensures |MergeDevs(pool, entries, myId)| == |UsableDevEntries(entries)|
    decreases |entries|
  {
    if entries != [] {
      var e := entries[0];
      var i := IndexOfDev(pool, e.id);
      MergeDevsLength(if e.id != [] && i < |pool| then pool[i := MovedFromDev(pool[i])] else pool, entries[1..], myId);
    }
  }

  /** The device at row `k` of a refresh: see MergeDevsShape. */
  lemma {:induction false} MergeDevsAt(pool: seq<Dev>, entries: seq<DevEntry>, myId: string, k: nat)
    requires k < |MergeDevs(pool, entries, myId)|
    ensures k < |UsableDevEntries(entries)|
    ensures var d, u := MergeDevs(pool, entries, myId)[k], UsableDevEntries(entries)[k];
      d.id == u.id && d.config == u.config &&
      d.state.status == (if u.id == myId then DevStatus.OwnDevice else DevStatus.Unknown)
    decreases |entries|
  {
    MergeDevsLength(pool, entries, myId);
    var e := entries[0];
    var i := IndexOfDev(pool, e.id);
    var pool' := if e.id != [] && i < |pool| then pool[i := MovedFromDev(pool[i])] else pool;
    if e.id == [] {
      MergeDevsAt(pool, entries[1..], myId, k);
    } else if k > 0 {
      MergeDevsAt(pool', entries[1..], myId, k - 1);
    }
  }

  /**
   * Shape of a device refresh: one device per usable entry, in configuration order,
   * with the entry's id and configuration; its status is OwnDevice exactly when its id
   * is the daemon's own id, and Unknown otherwise.
   */
  lemma MergeDevsShape(pool: seq<Dev>, entries: seq<DevEntry>, myId: string)
    ensures |MergeDevs(pool, entries, myId)| == |UsableDevEntries(entries)|
    ensures forall k :: 0 <= k < |MergeDevs(pool, entries, myId)| ==>
      MergeDevs(pool, entries, myId)[k].id == UsableDevEntries(entries)[k].id &&
      MergeDevs(pool, entries, myId)[k].config == UsableDevEntries(entries)[k].config &&
      MergeDevs(pool, entries, myId)[k].state.status ==
        (if UsableDevEntries(entries)[k].id == myId then DevStatus.OwnDevice else DevStatus.Unknown)
  {
    MergeDevsLength(pool, entries, myId);
    forall k | 0 <= k < |MergeDevs(pool, entries, myId)|
      ensures MergeDevs(pool, entries, myId)[k].id == UsableDevEntries(entries)[k].id &&
        MergeDevs(pool, entries, myId)[k].config == UsableDevEntries(entries)[k].config &&
        MergeDevs(pool, entries, myId)[k].state.status ==
          (if UsableDevEntries(entries)[k].id == myId then DevStatus.OwnDevice else DevStatus.Unknown)
    {
      MergeDevsAt(pool, entries, myId, k);
    }
  }

  lemma {:induction false} RecycledDevStateAfterMove(pool: seq<Dev>, i: nat, id: string)
    requires i < |pool| && id != [] && id != pool[i].id
    ensures RecycledDevState(pool[i := MovedFromDev(pool[i])], id) == RecycledDevState(pool, id)
  {
    var pool' := pool[i := MovedFromDev(pool[i])];
    forall k | 0 <= k < |pool|
      ensures (pool'[k].id == id) == (pool[k].id == id)
    {
    }
    assert IndexOfDev(pool', id) == IndexOfDev(pool, id);
  }

  predicate DistinctDevIds(entries: seq<DevEntry>)
  {
    forall a, b :: 0 <= a < b < |entries| && entries[a].id != [] ==> entries[a].id != entries[b].id
  }

  lemma DistinctDevIdsTail(entries: seq<DevEntry>)
    requires entries != [] && DistinctDevIds(entries)
    ensures DistinctDevIds(entries[1..])
    ensures forall e :: e in entries[1..] && entries[0].id != [] ==> e.id != entries[0].id
  {
    var rest := entries[1..];
    forall a, b | 0 <= a < b < |rest| && rest[a].id != []
      ensures rest[a].id != rest[b].id
    {
      assert rest[a] == entries[a + 1] && rest[b] == entries[b + 1];
    }
    forall e | e in rest && entries[0].id != []
      ensures e.id != entries[0].id
    {
      var n :| 0 <= n < |rest| && rest[n] == e;
      assert entries[n + 1] == e;
    }
  }

  /** Recycling at row `k`: see MergeDevsRecycles. */
  lemma {:induction false} MergeDevsRecyclesAt(pool: seq<Dev>, entries: seq<DevEntry>, myId: string, k: nat)
    requires DistinctDevIds(entries)
    requires k < |MergeDevs(pool, entries, myId)|
    ensures k < |UsableDevEntries(entries)|
    ensures MergeDevs(pool, entries, myId)[k].state ==
      RecycledDevState(pool, UsableDevEntries(entries)[k].id).(status := MergeDevs(pool, entries, myId)[k].state.status)
    decreases |entries|
  {
    MergeDevsLength(pool, entries, myId);
    var e := entries[0];
    var rest := entries[1..];
    DistinctDevIdsTail(entries);
    if e.id == [] {
      MergeDevsRecyclesAt(pool, rest, myId, k);
    } else if k > 0 {
      var i := IndexOfDev(pool, e.id);
      var pool' := if i < |pool| then pool[i := MovedFromDev(pool[i])] else pool;
      MergeDevsRecyclesAt(pool', rest, myId, k - 1);
      UsableDevEntriesIds(rest);
      var id := UsableDevEntries(rest)[k - 1].id;
      assert UsableDevEntries(rest)[k - 1] in UsableDevEntries(rest);
      if i < |pool| {
        RecycledDevStateAfterMove(pool, i, id);
      }
    }
  }

  /**
   * Recycling for devices: with distinct ids, a refreshed device keeps the run-time
   * fields of the device that had its id before (traffic, connection, last seen,
   * paused), except its status, which the refresh recomputes.
   */
  lemma MergeDevsRecycles(pool: seq<Dev>, entries: seq<DevEntry>, myId: string)
    requires DistinctDevIds(entries)
    ensures |MergeDevs(pool, entries, myId)| == |UsableDevEntries(entries)|
    ensures forall k :: 0 <= k < |MergeDevs(pool, entries, myId)| ==>
      MergeDevs(pool, entries, myId)[k].state ==
        RecycledDevState(pool, UsableDevEntries(entries)[k].id).(status := MergeDevs(pool, entries, myId)[k].state.status)
  {
    MergeDevsLength(pool, entries, myId);
    forall k | 0 <= k < |MergeDevs(pool, entries, myId)|
      ensures MergeDevs(pool, entries, myId)[k].state ==
        RecycledDevState(pool, UsableDevEntries(entries)[k].id).(status := MergeDevs(pool, entries, myId)[k].state.status)
    {
      MergeDevsRecyclesAt(pool, entries, myId, k);
    }
  }

  /**
   * Because a recycled object leaves an empty id behind, a second usable entry with an
   * id already taken over in the same refresh starts from a fresh directory.
   */
  lemma RepeatedDirIdStartsFresh(pool: seq<Dir>, e: DirEntry)
    requires e.id != [] && IndexOfDir(pool, e.id) < |pool|
    requires forall j :: 0 <= j < |pool| && j != IndexOfDir(pool, e.id) ==> pool[j].id != e.id
    ensures |MergeDirs(pool, [e, e])| == 2
    ensures MergeDirs(pool, [e, e])[0].state == pool[IndexOfDir(pool, e.id)].state
    ensures MergeDirs(pool, [e, e])[1].state == NewDir(e.id).state
  {
    var i := IndexOfDir(pool, e.id);
    var pool' := pool[i := MovedFromDir(pool[i])];
    forall k | 0 <= k < |pool'|
      ensures pool'[k].id != e.id
    {
    }
    assert [e, e][1..] == [e];
    assert MergeDirs(pool', [e]) == [ApplyDirEntry(NewDir(e.id), e)] + MergeDirs(pool', []);
  }
}
