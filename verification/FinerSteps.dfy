/** Transactions that do not take the album lock may fall between the statements of one that does. The guarded update
    of MarkConfirmed absorbs them. */
module FinerSteps {
  import opened Basics
  import opened EpochEnvelope
  import opened Schema
  import opened Albums
  import opened ObjectStore
  import opened World
  import opened UploadRuns
  import opened Runs
  import opened ReservationRuns
  import T = Transactions

  // Events that wait for the row lock of album a
  ghost predicate Locks(e: Event, a: AlbumId) {
    match e
    case Create(_, b, _) => b == a
    case Rotate(b, _) => b == a
    case Invite(b, _, _) => b == a
    case Revoke(b, _, _) => b == a
    case DeleteAlbum(b, _) => b == a
    case Reserve(_, row) => row.album == a
    case Confirm(_, b, _) => b == a
    case DeleteMedia(b, _, _) => b == a
    case ReserveAvatar(_, avatar) => avatar.album == a
    case ConfirmAvatar(b, _, _) => b == a
    case Leave(_, b) => b == a
    case _ => false
  }

  ghost predicate Unlocked(es: seq<Event>, a: AlbumId) {
    forall i :: 0 <= i < |es| ==> !Locks(es[i], a)
  }

  lemma OthersKeepAlbum(db: Db, e: Event, a: AlbumId)
    requires !Locks(e, a) && a in db.albums
    ensures a in Apply(db, e).albums && Apply(db, e).albums[a] == db.albums[a]
  {
    hide Retire, Albums.InsertEpoch, Deliver, Albums.Revoke, T.RemoveMembership;
    if e.Leave? {
      LeaveKeepsOthers(db, e.u, e.a, a);
    }
  }

  lemma LeaveKeepsOthers(db: Db, u: UserId, b: AlbumId, a: AlbumId)
    requires b != a && a in db.albums
    ensures a in T.RemoveMembership(db, u, b).db.albums && T.RemoveMembership(db, u, b).db.albums[a] == db.albums[a]
  {
    hide Retire, T.Leave, T.PlannedOutcome;
  }

  lemma {:induction false} AlbumHeldStill(w: World, es: seq<Event>, a: AlbumId)
    requires Unlocked(es, a) && a in w.db.albums
    ensures a in Exec(w, es).db.albums && Exec(w, es).db.albums[a] == w.db.albums[a]
    decreases |es|
  {
    if es != [] {
      OthersKeepAlbum(w.db, es[0], a);
      hide Locks, Apply, Record;
      AlbumHeldStill(Step(w, es[0]), es[1..], a);
    }
  }

  // ---------- MarkConfirmed, statement by statement ----------

  // The reads under the lock, up to the epoch check
  function ConfirmReads(db: Db, id: MediaId, a: AlbumId, r: ReservationId): Option<Error> {
    if a !in db.albums then Some(AlbumNotFound)
    else if !T.IsPending(db.objects, id, a, r) then Some(MediaNotFound)
    else if db.albums[a].RotationRequired() then Some(PendingRotation)
    else if db.objects.media[id].epochTag != db.albums[a].CurrentEpoch() then Some(EpochMismatch)
    else None
  }

  // The guarded update and the statements after it: no epoch or debt is looked at again
  function ConfirmWrite(db: Db, id: MediaId, a: AlbumId, r: ReservationId): T.Tx<nat>
    requires a in db.albums
  {
    if !T.IsPending(db.objects, id, a, r) then T.Fail(db, MediaNotFound)
    else
      var g := db.albums[a].generation + 1;
      var row := db.objects.media[id].(confirmed := true, albumSeq := Some(g));
      T.Tx(T.WithAlbum(db, a, db.albums[a].(generation := g)).(objects := db.objects.(media := db.objects.media[id := row])), Ok(g))
  }

  lemma WriteNeedsNoRecheck(db: Db, db': Db, id: MediaId, a: AlbumId, r: ReservationId)
    requires ConfirmReads(db, id, a, r).None? && a in db'.albums && db'.albums[a] == db.albums[a]
    requires T.IsPending(db'.objects, id, a, r) ==> db'.objects.media[id].epochTag == db.objects.media[id].epochTag
    ensures ConfirmWrite(db', id, a, r) == T.MarkConfirmed(db', id, a, r)
  {
    hide Album.RotationRequired, Album.CurrentEpoch;
  }

  lemma RefusalsAreConfirms(db: Db, id: MediaId, a: AlbumId, r: ReservationId)
    ensures ConfirmReads(db, id, a, r).Some? ==>
              T.MarkConfirmed(db, id, a, r) == T.Fail(db, ConfirmReads(db, id, a, r).value)
  {
    hide Album.RotationRequired, Album.CurrentEpoch;
  }

  lemma ReadsSawPending(db: Db, id: MediaId, a: AlbumId, r: ReservationId)
    requires ConfirmReads(db, id, a, r).None?
    ensures a in db.albums && T.IsPending(db.objects, id, a, r)
  {
  }

  // Whatever unlocked transactions run between the reads and the write, the outcome is that of the whole
  // transaction run at one moment: at the reads when they refuse, else at the write
  lemma ConfirmIsAtomic(w: World, es: seq<Event>, id: MediaId, a: AlbumId, r: ReservationId)
    requires Reachable(w) && Run(w, es) && Unlocked(es, a)
    ensures var refused := ConfirmReads(w.db, id, a, r);
            if refused.Some? then T.MarkConfirmed(w.db, id, a, r) == T.Fail(w.db, refused.value)
            else a in Exec(w, es).db.albums && ConfirmWrite(Exec(w, es).db, id, a, r) == T.MarkConfirmed(Exec(w, es).db, id, a, r)
  {
    hide Inv, Reachable, Exec, Run, ConfirmReads, ConfirmWrite, T.MarkConfirmed, Unlocked;
    RefusalsAreConfirms(w.db, id, a, r);
    if ConfirmReads(w.db, id, a, r).None? {
      ReadsSawPending(w.db, id, a, r);
      ReachableInv(w);
      AlbumHeldStill(w, es, a);
      if T.IsPending(Exec(w, es).db.objects, id, a, r) {
        SameRowLater(w, es, id, id);
      }
      WriteNeedsNoRecheck(w.db, Exec(w, es).db, id, a, r);
    }
  }
}
