/**
  The retention sweep: `is_older_than_days` and the selection loop of
  `delete_old_videos`. Timestamps are whole seconds on one clock; the
  ISO-8601 parsing and the wall clock itself are inputs.
*/
module Retention {

  const SecondsPerDay: int := 86400

  /** A file in the shared Drive folder, as the listing reports it. */
  datatype DriveFile = DriveFile(id: string, name: string, createdTime: int)

  /**
    A file is old when it was created strictly before `now - days`, that is
    when its age in seconds exceeds the window.
  */
  predicate IsOlderThanDays(createdTime: int, now: int, days: int)
    ensures IsOlderThanDays(createdTime, now, days) <==> now - createdTime > days * SecondsPerDay
  {
    createdTime < now - days * SecondsPerDay
  }

  /** A file created exactly `days` ago is kept; one second earlier, it is old. */
  lemma RetentionBoundary(now: int, days: int)
    ensures !IsOlderThanDays(now - days * SecondsPerDay, now, days)
    ensures IsOlderThanDays(now - days * SecondsPerDay - 1, now, days)
  {
  }

  /** Being old is preserved by going further back in time or forward in the clock. */
  lemma OlderIsMonotone(created: int, earlier: int, now: int, later: int, days: int)
    requires IsOlderThanDays(created, now, days)
    requires earlier <= created && now <= later
    ensures IsOlderThanDays(earlier, later, days)
  {
  }

  /** The files of the listing, in listing order, for which a delete is issued. */
  function Expired(files: seq<DriveFile>, now: int, days: int): seq<DriveFile>
  {
    if files == [] then []
    else (if IsOlderThanDays(files[0].createdTime, now, days) then [files[0]] else [])
         + Expired(files[1..], now, days)
  }

  /**
    The files still in the folder after the sweep: the ones not old, and the
    old ones whose delete request failed (the failure is caught and logged).
  */
  function Survivors(files: seq<DriveFile>, now: int, days: int, deleteOk: string -> bool): seq<DriveFile>
  {
    if files == [] then []
    else (if IsOlderThanDays(files[0].createdTime, now, days) && deleteOk(files[0].id) then [] else [files[0]])
         + Survivors(files[1..], now, days, deleteOk)
  }

  /** A delete is issued for a listed file if and only if it is old. */
  lemma {:induction false} ExpiredExactly(files: seq<DriveFile>, now: int, days: int, f: DriveFile)
    ensures f in Expired(files, now, days) <==> f in files && IsOlderThanDays(f.createdTime, now, days)
  {
    if files != [] {
      ExpiredExactly(files[1..], now, days, f);
      assert files == [files[0]] + files[1..];
    }
  }

  /**
    A listed file survives the sweep if and only if it is not old or its
    delete failed; in particular a file at the boundary always survives.
  */
  lemma {:induction false} SurvivorsExactly(files: seq<DriveFile>, now: int, days: int, deleteOk: string -> bool, f: DriveFile)
    ensures f in Survivors(files, now, days, deleteOk) <==>
              f in files && (!IsOlderThanDays(f.createdTime, now, days) || !deleteOk(f.id))
  {
    if files != [] {
      SurvivorsExactly(files[1..], now, days, deleteOk, f);
      assert files == [files[0]] + files[1..];
    }
  }

  /**
    The sweep of `delete_old_videos`: visits the listing in order, issues a
    delete for each old file, and keeps going when a delete fails.
  */
  method DeleteOldVideos(files: seq<DriveFile>, now: int, daysToKeep: int, deleteOk: string -> bool)
    returns (requested: seq<DriveFile>, remaining: seq<DriveFile>)
    ensures requested == Expired(files, now, daysToKeep)
    ensures remaining == Survivors(files, now, daysToKeep, deleteOk)
  {
    requested, remaining := [], [];
    for i := 0 to |files|
      invariant requested + Expired(files[i..], now, daysToKeep) == Expired(files, now, daysToKeep)
      invariant remaining + Survivors(files[i..], now, daysToKeep, deleteOk) == Survivors(files, now, daysToKeep, deleteOk)
    {
      var item := files[i];
      assert files[i..] == [item] + files[i + 1..];
      assert Expired(files[i..], now, daysToKeep)
          == (if IsOlderThanDays(item.createdTime, now, daysToKeep) then [item] else [])
             + Expired(files[i + 1..], now, daysToKeep);
      assert Survivors(files[i..], now, daysToKeep, deleteOk)
          == (if IsOlderThanDays(item.createdTime, now, daysToKeep) && deleteOk(item.id) then [] else [item])
             + Survivors(files[i + 1..], now, daysToKeep, deleteOk);
      if IsOlderThanDays(item.createdTime, now, daysToKeep) {
        requested := requested + [item];
        if !deleteOk(item.id) {
          remaining := remaining + [item];
        }
      } else {
        remaining := remaining + [item];
      }
    }
  }
}
