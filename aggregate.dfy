/**
 * The priority rule that derives a connection's overall status from its directories
 * and devices, and the list of directories seen synchronizing
 * (connector/syncthingconnection.cpp, setStatus and hasOutOfSyncDirs).
 */
module Aggregate {
  import opened Types

  /** Whether some directory has status `st`. */
  predicate HasDirWithStatus(dirs: seq<Dir>, st: DirStatus)
  {
    exists i :: 0 <= i < |dirs| && dirs[i].state.status == st
  }

  /** Whether some device is paused. */
  predicate HasPausedDev(devs: seq<Dev>)
  {
    exists i :: 0 <= i < |devs| && devs[i].state.paused
  }

  /**
   * Overall status of a connected connection: Synchronizing if any directory is
   * synchronizing, else Scanning if any is scanning, else Paused if any device is
   * paused, else Idle.
   */
  function AggregateStatus(dirs: seq<Dir>, devs: seq<Dev>): Status
  {
    if HasDirWithStatus(dirs, DirStatus.Synchronizing) then Status.Synchronizing
    else if HasDirWithStatus(dirs, DirStatus.Scanning) then Status.Scanning
    else if HasPausedDev(devs) then Status.Paused
    else Status.Idle
  }

  /** Whether a synchronizing directory has id `id`. */
  ghost predicate IsSyncingId(dirs: seq<Dir>, id: string)
  {
    exists i :: 0 <= i < |dirs| && dirs[i].state.status == DirStatus.Synchronizing && dirs[i].id == id
  }

  /**
   * The list of synchronizing directories after a scan of `dirs`, starting from
   * `synced`: each synchronizing directory not yet listed is appended, in list order.
   */
  function CollectSynced(synced: seq<string>, dirs: seq<Dir>): seq<string>
    decreases |dirs|
  {
    if dirs == [] then synced
    else
      var next := if dirs[0].state.status == DirStatus.Synchronizing && dirs[0].id !in synced
                  then synced + [dirs[0].id] else synced;
      CollectSynced(next, dirs[1..])
  }

  /**
   * The scan keeps what was listed and in its order, adds exactly the ids of the
   * synchronizing directories, and lists each id at most once.
   */
  lemma {:induction false} CollectSyncedSpec(synced: seq<string>, dirs: seq<Dir>)
    ensures synced <= CollectSynced(synced, dirs)
    ensures forall x :: x in CollectSynced(synced, dirs) <==> x in synced || IsSyncingId(dirs, x)
    ensures NoDup(synced) ==> NoDup(CollectSynced(synced, dirs))
    decreases |dirs|
  {
    if dirs != [] {
      var next := if dirs[0].state.status == DirStatus.Synchronizing && dirs[0].id !in synced
                  then synced + [dirs[0].id] else synced;
      CollectSyncedSpec(next, dirs[1..]);
      forall x | IsSyncingId(dirs, x)
        ensures x in next || IsSyncingId(dirs[1..], x)
      {
        var i :| 0 <= i < |dirs| && dirs[i].state.status == DirStatus.Synchronizing && dirs[i].id == x;
        if i > 0 {
          assert dirs[1..][i - 1] == dirs[i];
        }
      }
      forall x | IsSyncingId(dirs[1..], x)
        ensures IsSyncingId(dirs, x)
      {
        var i :| 0 <= i < |dirs[1..]| && dirs[1..][i].state.status == DirStatus.Synchronizing && dirs[1..][i].id == x;
        assert dirs[i + 1] == dirs[1..][i];
      }
    }
  }

  /** When no directory is synchronizing the scan lists nothing new. */
  lemma {:induction false} CollectSyncedNoneSyncing(synced: seq<string>, dirs: seq<Dir>)
    requires !HasDirWithStatus(dirs, DirStatus.Synchronizing)
    ensures CollectSynced(synced, dirs) == synced
    decreases |dirs|
  {
    if dirs != [] {
      assert dirs[0].state.status != DirStatus.Synchronizing;
      forall i | 0 <= i < |dirs[1..]|
        ensures dirs[1..][i].state.status != DirStatus.Synchronizing
      {
        assert dirs[1..][i] == dirs[i + 1];
      }
      CollectSyncedNoneSyncing(synced, dirs[1..]);
    }
  }
}
