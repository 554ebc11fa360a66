/** The upload requests above the repository: read, check storage, commit, and the loop that empties the queue. */
module MediaService {
  import opened Basics
  import opened EpochEnvelope
  import opened Schema
  import opened ObjectStore
  import opened Database
  import opened World
  import MediaRepository
  import Runs
  import ReservationRuns
  import T = Transactions

  // ---------- ConfirmUpload: what the reads decide ----------

  // HeadObject: nothing there, or a size and perhaps a checksum
  datatype Head = Missing | Object(size: int, sha: Option<bytes>)

  datatype Decision = NotFound | Forbidden | Already(number: Option<nat>) | NotUploaded | Drop | Commit

  ghost predicate Stored(head: Head, size: int, sha: bytes) {
    head.Object? && head.size == size && (head.sha.None? || head.sha.value == sha)
  }

  // The objects the row claims are in storage with the claimed sizes and hashes
  ghost predicate ObjectsMatch(row: Media, blob: Head, thumb: Head) {
    && Stored(blob, row.size, row.sha)
    && (row.thumbKey.Some? ==> row.thumbSize.Some? && Stored(thumb, row.thumbSize.value, row.thumbSha))
  }

  // row is what GetByID found; blob and thumb are what HeadObject answers for its keys
  method CheckUpload(row: Option<Media>, uploader: Token, blob: Head, thumb: Head) returns (d: Decision)
    ensures d.NotFound? <==> row.None?
    ensures d.Forbidden? <==> row.Some? && row.value.uploader != uploader
    ensures d.Already? <==> row.Some? && row.value.uploader == uploader && row.value.confirmed
    ensures d.Already? ==> d.number == row.value.albumSeq
    ensures d.Commit? <==> row.Some? && row.value.uploader == uploader && !row.value.confirmed && ObjectsMatch(row.value, blob, thumb)
    ensures d.NotUploaded? <==> row.Some? && row.value.uploader == uploader && !row.value.confirmed && blob.Missing?
  {
    if row.None? {
      return NotFound;
    }
    var m := row.value;
    if m.uploader != uploader {
      return Forbidden;
    }
    if m.confirmed {
      return Already(m.albumSeq);
    }
    if blob.Missing? {
      return NotUploaded;
    }
    if blob.size != m.size {
      return Drop;
    }
    if blob.sha.Some? && blob.sha.value != m.sha {
      return Drop;
    }
    if m.thumbKey.Some? {
      if thumb.Missing? {
        return Drop;
      }
      if m.thumbSize.None? || thumb.size != m.thumbSize.value {
        return Drop;
      }
      if thumb.sha.Some? && thumb.sha.value != m.thumbSha {
        return Drop;
      }
    }
    return Commit;
  }

  datatype Refusal = MustRewrap | ReservationReplaced | UploadAborted | Internal

  // The row as it is when the commit found no pending one, however much later that is: only a row that is already
  // confirmed makes the call a success, with its own number or, from before photos were numbered, the album's count
  method ReadAgain(repo: MediaRepository.Repository, id: MediaId, a: AlbumId) returns (n: Result<nat, Refusal>)
    requires a in repo.db.tables.albums
    ensures var media := repo.db.tables.objects.media;
            if id !in media || media[id].album != a then n == Err(UploadAborted)
            else if !media[id].confirmed then n == Err(ReservationReplaced)
            else n == Ok(if media[id].albumSeq.Some? then media[id].albumSeq.value else repo.db.tables.albums[a].generation)
  {
    var again := repo.GetByID(id, a);
    if again.None? {
      return Err(UploadAborted);
    }
    if again.value.confirmed && again.value.albumSeq.Some? {
      return Ok(again.value.albumSeq.value);
    }
    if again.value.confirmed {
      return Ok(repo.db.tables.albums[a].generation);
    }
    return Err(ReservationReplaced);
  }

  // The commit of a checked row
  method FinishConfirm(repo: MediaRepository.Repository, id: MediaId, a: AlbumId, r: ReservationId) returns (n: Result<nat, Refusal>)
    modifies repo.db
    ensures repo.db.tables == T.MarkConfirmed(old(repo.db.tables), id, a, r).db
    ensures var result, o := T.MarkConfirmed(old(repo.db.tables), id, a, r).result, old(repo.db.tables).objects;
            && (result.Ok? ==> n == Ok(result.value))
            && (n == Err(MustRewrap) <==> result == Err(PendingRotation) || result == Err(EpochMismatch))
            && (n == Err(UploadAborted) <==> result == Err(MediaNotFound) && !(id in o.media && o.media[id].album == a))
            && (n == Err(ReservationReplaced) <==>
                  result == Err(MediaNotFound) && id in o.media && o.media[id].album == a && !o.media[id].confirmed)
    ensures n.Ok? ==>
              && id in repo.db.tables.objects.media && repo.db.tables.objects.media[id].confirmed
              && repo.db.tables.objects.media[id].album == a && a in repo.db.tables.albums
              && var row := repo.db.tables.objects.media[id];
                 n.value == if row.albumSeq.Some? then row.albumSeq.value else repo.db.tables.albums[a].generation
  {
    hide Album.RotationRequired, Album.CurrentEpoch;
    var committed := repo.MarkConfirmed(id, a, r);
    if committed.Ok? {
      return Ok(committed.value);
    }
    if committed.error == PendingRotation || committed.error == EpochMismatch {
      return Err(MustRewrap);
    }
    if committed.error == MediaNotFound {
      n := ReadAgain(repo, id, a);
      return;
    }
    return Err(Internal);
  }

  // A confirm repeated after its commit, whatever ran in between, reads the row's own number as long as the row is there
  lemma RepeatedConfirmReadsOwnNumber(w: World, id: MediaId, a: AlbumId, r: ReservationId, es: seq<Event>)
    requires Runs.Reachable(w) && T.MarkConfirmed(w.db, id, a, r).result.Ok?
    requires Run(Step(w, Confirm(id, a, r)), es)
    requires var media := Exec(Step(w, Confirm(id, a, r)), es).db.objects.media; id in media && media[id].reservation == r
    ensures var row := Exec(Step(w, Confirm(id, a, r)), es).db.objects.media[id];
            row.confirmed && row.albumSeq == Some(T.MarkConfirmed(w.db, id, a, r).result.value)
  {
    var next := Step(w, Confirm(id, a, r));
    Runs.ReachableInv(w);
    Runs.InvStep(w, Confirm(id, a, r));
    ReservationRuns.ConfirmWrites(w.db, id, a, r);
    hide Runs.Inv, T.MarkConfirmed, Record, Exec, Run;
    ReservationRuns.ConfirmedRowNeverChanges(next, es, id);
  }

  // ---------- the cleanup loop ----------

  const ALERT_ATTEMPTS := 10

  // How one key fares: storage refuses (and the retry may fail to be scheduled), the acknowledgement fails, or all is well
  datatype Attempt = Undeleted(rescheduled: bool) | Unacknowledged | Cleared

  // The events one attempt commits
  function Events(key: Key, attempt: Attempt): seq<Event> {
    match attempt
    case Undeleted(rescheduled) => if rescheduled then [Reschedule(key)] else []
    case Unacknowledged => [ObjectDeleted(key)]
    case Cleared => [ObjectDeleted(key), Acknowledge(key)]
  }

  ghost function LoopEvents(keys: seq<Key>, attempts: seq<Attempt>): seq<Event>
    requires |keys| == |attempts|
  {
    if keys == [] then []
    else
      var last := |keys| - 1;
      LoopEvents(keys[..last], attempts[..last]) + Events(keys[last], attempts[last])
  }

  // The attempts among the first n that cleared their key
  ghost function ClearedBy(attempts: seq<Attempt>, n: nat): set<nat>
    requires n <= |attempts|
  {
    set i: nat | i < n && attempts[i].Cleared?
  }

  // The attempt was put off, and by then for at least the tenth time
  ghost predicate Alerts(w: World, keys: seq<Key>, attempts: seq<Attempt>, i: nat)
    requires i < |keys| == |attempts|
  {
    var queue := Exec(w, LoopEvents(keys[..i + 1], attempts[..i + 1])).db.objects.queue;
    attempts[i] == Undeleted(true) && keys[i] in queue && queue[keys[i]] >= ALERT_ATTEMPTS
  }

  ghost function AlertsBy(w: World, keys: seq<Key>, attempts: seq<Attempt>, n: nat): set<nat>
    requires n <= |keys| == |attempts|
  {
    set i: nat | i < n && Alerts(w, keys, attempts, i)
  }

  lemma OneMoreIndex(s: set<nat>, s': set<nat>, n: nat, joins: bool)
    requires forall i: nat :: i in s ==> i < n
    requires forall i: nat :: i in s' <==> i in s || (i == n && joins)
    ensures |s'| == |s| + if joins then 1 else 0
  {
    assert s' == if joins then s + {n} else s;
  }

  // The keys whose object storage confirmed deleting, acknowledged or not
  ghost function DeletedBy(keys: seq<Key>, attempts: seq<Attempt>, n: nat): set<Key>
    requires n <= |keys| == |attempts|
  {
    set i | 0 <= i < n && !attempts[i].Undeleted? :: keys[i]
  }

  lemma OneMoreDeleted(keys: seq<Key>, attempts: seq<Attempt>, n: nat)
    requires n < |keys| == |attempts|
    ensures DeletedBy(keys, attempts, n + 1) == DeletedBy(keys, attempts, n) + if attempts[n].Undeleted? then {} else {keys[n]}
  {
  }

  // Only the queue moves: keys cleared so far are off it
  ghost predicate OnlyCleared(db: Db, db': Db, keys: seq<Key>, attempts: seq<Attempt>, n: nat)
    requires n <= |keys| == |attempts|
  {
    && db' == db.(objects := db.objects.(queue := db'.objects.queue))
    && forall k :: k in db'.objects.queue <==> k in db.objects.queue && !exists i :: 0 <= i < n && keys[i] == k && attempts[i].Cleared?
  }

  lemma CleanupEvents(w: World, key: Key)
    requires key in w.hist.listed
    ensures Feasible(w, Reschedule(key)) && Step(w, Reschedule(key)).db == T.RescheduleObjectCleanupKey(w.db, key).db
    ensures Feasible(w, ObjectDeleted(key)) && Step(w, ObjectDeleted(key)).db == w.db
    ensures Feasible(Step(w, ObjectDeleted(key)), Acknowledge(key))
    ensures Step(w, Acknowledge(key)).db == T.DeleteObjectCleanupKey(w.db, key)
  {
    hide HeldAfter, CommittedAfter, ReservedAfter;
  }

  lemma ListedStays(w: World, e: Event)
    ensures w.hist.listed <= Step(w, e).hist.listed
    ensures Step(w, e).hist.deleted == if e.ObjectDeleted? then w.hist.deleted + {e.key} else w.hist.deleted
  {
    hide Apply, HeldAfter, CommittedAfter, ReservedAfter;
  }

  // One attempt's events on the queue
  lemma AttemptOnQueue(w: World, key: Key, attempt: Attempt)
    requires key in w.hist.listed
    ensures Run(w, Events(key, attempt))
    ensures Exec(w, Events(key, attempt)).db ==
            match attempt
            case Undeleted(rescheduled) => if rescheduled then T.RescheduleObjectCleanupKey(w.db, key).db else w.db
            case Unacknowledged => w.db
            case Cleared => T.DeleteObjectCleanupKey(w.db, key)
    ensures w.hist.listed <= Exec(w, Events(key, attempt)).hist.listed
    ensures Exec(w, Events(key, attempt)).hist.deleted == if attempt.Undeleted? then w.hist.deleted else w.hist.deleted + {key}
  {
    RunNothing(w);
    hide Run, Exec, Step, Feasible;
    CleanupEvents(w, key);
    OneEvent(w, Reschedule(key));
    OneEvent(w, ObjectDeleted(key));
    ListedStays(w, Reschedule(key));
    ListedStays(w, ObjectDeleted(key));
    var after := Step(w, ObjectDeleted(key));
    if attempt.Cleared? {
      CleanupEvents(after, key);
      OneEvent(after, Acknowledge(key));
      ListedStays(after, Acknowledge(key));
      RunSplits(w, [ObjectDeleted(key)], [Acknowledge(key)]);
      assert Events(key, attempt) == [ObjectDeleted(key)] + [Acknowledge(key)];
    }
  }

  // What the events of one more attempt do to the tables
  lemma AttemptClears(db: Db, now: Db, after: Db, keys: seq<Key>, attempts: seq<Attempt>, n: nat)
    requires n < |keys| == |attempts| && OnlyCleared(db, now, keys, attempts, n)
    requires match attempts[n]
             case Undeleted(rescheduled) => after == if rescheduled then T.RescheduleObjectCleanupKey(now, keys[n]).db else now
             case Unacknowledged => after == now
             case Cleared => after == T.DeleteObjectCleanupKey(now, keys[n])
    ensures OnlyCleared(db, after, keys, attempts, n + 1)
  {
    assert forall k :: k in after.objects.queue <==> k in now.objects.queue && !(keys[n] == k && attempts[n].Cleared?);
  }

  lemma AlertByAttempts(w: World, keys: seq<Key>, attempts: seq<Attempt>, i: nat, before: Db, end: World)
    requires i < |keys| == |attempts| && end == Exec(w, LoopEvents(keys[..i + 1], attempts[..i + 1]))
    requires attempts[i] == Undeleted(true) ==> end.db == T.RescheduleObjectCleanupKey(before, keys[i]).db
    ensures Alerts(w, keys, attempts, i) <==>
            attempts[i] == Undeleted(true) && T.RescheduleObjectCleanupKey(before, keys[i]).result.value >= ALERT_ATTEMPTS
  {
    hide LoopEvents, Exec;
  }

  // The loop so far: a run of the events of the first n attempts
  ghost predicate SoFar(w: World, keys: seq<Key>, attempts: seq<Attempt>, n: nat, end: World)
    requires n <= |keys| == |attempts|
  {
    && Run(w, LoopEvents(keys[..n], attempts[..n])) && end == Exec(w, LoopEvents(keys[..n], attempts[..n]))
    && w.hist.listed <= end.hist.listed
    && OnlyCleared(w.db, end.db, keys, attempts, n)
    && end.hist.deleted == w.hist.deleted + DeletedBy(keys, attempts, n)
  }

  lemma OneMoreAttempt(w: World, keys: seq<Key>, attempts: seq<Attempt>, i: nat, now: World)
    requires i < |keys| == |attempts| && Elements(keys) <= w.hist.listed && SoFar(w, keys, attempts, i, now)
    ensures var end := Exec(now, Events(keys[i], attempts[i]));
            && SoFar(w, keys, attempts, i + 1, end)
            && end.db == (match attempts[i]
                          case Undeleted(rescheduled) => if rescheduled then T.RescheduleObjectCleanupKey(now.db, keys[i]).db else now.db
                          case Unacknowledged => now.db
                          case Cleared => T.DeleteObjectCleanupKey(now.db, keys[i]))
    ensures |ClearedBy(attempts, i + 1)| == |ClearedBy(attempts, i)| + if attempts[i].Cleared? then 1 else 0
    ensures |AlertsBy(w, keys, attempts, i + 1)| == |AlertsBy(w, keys, attempts, i)| +
              if attempts[i] == Undeleted(true) && T.RescheduleObjectCleanupKey(now.db, keys[i]).result.value >= ALERT_ATTEMPTS then 1 else 0
  {
    hide Run, Exec, Elements, OnlyCleared, Alerts, DeletedBy, Events;
    InElements(keys, i);
    AttemptOnQueue(now, keys[i], attempts[i]);
    var end := Exec(now, Events(keys[i], attempts[i]));
    RunSplits(w, LoopEvents(keys[..i], attempts[..i]), Events(keys[i], attempts[i]));
    assert keys[..i + 1][..i] == keys[..i] && attempts[..i + 1][..i] == attempts[..i];
    hide LoopEvents;
    AttemptClears(w.db, now.db, end.db, keys, attempts, i);
    OneMoreDeleted(keys, attempts, i);
    OneMoreIndex(ClearedBy(attempts, i), ClearedBy(attempts, i + 1), i, attempts[i].Cleared?);
    OneMoreIndex(AlertsBy(w, keys, attempts, i), AlertsBy(w, keys, attempts, i + 1), i, Alerts(w, keys, attempts, i));
    AlertByAttempts(w, keys, attempts, i, now.db, end);
  }

  lemma NothingYet(w: World, keys: seq<Key>, attempts: seq<Attempt>)
    requires |keys| == |attempts|
    ensures SoFar(w, keys, attempts, 0, w)
  {
    RunNothing(w);
    hide Run, Exec;
    assert DeletedBy(keys, attempts, 0) == {};
  }

  // Deletes queued objects and acknowledges them; what the loop commits is a run of the events above, so stopping it
  // anywhere is a run too. Off the queue are exactly the keys whose deletion was acknowledged, and the counters say how
  // many there are, how many failed, and how many of those have failed for long
  method CleanupObjectKeys(repo: MediaRepository.Repository, keys: seq<Key>, attempts: seq<Attempt>, ghost w: World)
    returns (deleted: nat, failed: nat, stuck: nat, ghost end: World)
    requires |attempts| == |keys| && w.db == repo.db.tables && Elements(keys) <= w.hist.listed
    modifies repo.db
    ensures Run(w, LoopEvents(keys, attempts)) && end == Exec(w, LoopEvents(keys, attempts)) && repo.db.tables == end.db
    ensures OnlyCleared(w.db, repo.db.tables, keys, attempts, |keys|)
    ensures end.hist.deleted == w.hist.deleted + DeletedBy(keys, attempts, |keys|)
    ensures deleted == |ClearedBy(attempts, |keys|)| && deleted + failed == |keys| && stuck == |AlertsBy(w, keys, attempts, |keys|)|
  {
    hide Run, Exec, LoopEvents, Events, Elements, OnlyCleared, Alerts, AlertsBy, ClearedBy, DeletedBy, SoFar;
    deleted, failed, stuck, end := 0, 0, 0, w;
    NothingYet(w, keys, attempts);
    NoIndexYet(w, keys, attempts);
    for i := 0 to |keys|
      invariant SoFar(w, keys, attempts, i, end) && repo.db.tables == end.db
      invariant deleted == |ClearedBy(attempts, i)| && deleted + failed == i && stuck == |AlertsBy(w, keys, attempts, i)|
    {
      var key := keys[i];
      OneMoreAttempt(w, keys, attempts, i, end);
      end := Exec(end, Events(key, attempts[i]));
      if attempts[i].Undeleted? {
        failed := failed + 1;
        var n := 0;
        if attempts[i].rescheduled {
          n := repo.RescheduleObjectCleanupKey(key);
        }
        if n >= ALERT_ATTEMPTS {
          stuck := stuck + 1;
        }
      } else if attempts[i].Unacknowledged? {
        failed := failed + 1;
      } else {
        repo.DeleteObjectCleanupKey(key);
        deleted := deleted + 1;
      }
    }
    LoopDone(w, keys, attempts, end);
  }

  lemma NoIndexYet(w: World, keys: seq<Key>, attempts: seq<Attempt>)
    requires |keys| == |attempts|
    ensures |ClearedBy(attempts, 0)| == |AlertsBy(w, keys, attempts, 0)| == 0
  {
    assert ClearedBy(attempts, 0) == {} && AlertsBy(w, keys, attempts, 0) == {};
  }

  lemma LoopDone(w: World, keys: seq<Key>, attempts: seq<Attempt>, end: World)
    requires |keys| == |attempts| && SoFar(w, keys, attempts, |keys|, end)
    ensures Run(w, LoopEvents(keys, attempts)) && end == Exec(w, LoopEvents(keys, attempts))
    ensures OnlyCleared(w.db, end.db, keys, attempts, |keys|) && end.hist.deleted == w.hist.deleted + DeletedBy(keys, attempts, |keys|)
  {
    hide Run, Exec, LoopEvents;
    assert keys[..|keys|] == keys && attempts[..|keys|] == attempts;
  }

  lemma RunNothing(w: World)
    ensures Run(w, []) && Exec(w, []) == w
  {
  }

  lemma InElements(keys: seq<Key>, i: nat)
    requires i < |keys|
    ensures keys[i] in Elements(keys)
  {
  }
}
