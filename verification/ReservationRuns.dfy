/** Upload reservations and photo numbers over whole runs. */
module ReservationRuns {
  import opened Basics
  import opened EpochEnvelope
  import opened Schema
  import opened Albums
  import opened ObjectStore
  import opened World
  import opened ObjectRuns
  import opened UploadRuns
  import opened Runs
  import T = Transactions

  ghost predicate HasRow(db: Db, id: MediaId, r: ReservationId, confirmed: bool) {
    id in db.objects.media && db.objects.media[id].reservation == r && db.objects.media[id].confirmed == confirmed
  }

  ghost predicate PendingNow(db: Db, r: ReservationId) { exists id :: HasRow(db, id, r, false) }

  ghost predicate Confirms(w: World, e: Event, r: ReservationId) {
    e.Confirm? && e.r == r && T.MarkConfirmed(w.db, e.id, e.a, r).result.Ok?
  }

  // ---------- one reservation, one row, one outcome ----------

  ghost function Confirming(e: Event): Option<ReservationId> {
    if e.Confirm? then Some(e.r) else None
  }

  // Rows under a reservation made earlier were there before, and only confirming it changes them
  ghost predicate RowsOnlyConfirm(db: Db, db': Db, reserved: Reservations, confirming: Option<ReservationId>) {
    forall id | id in db'.objects.media && db'.objects.media[id].reservation in reserved ::
      id in db.objects.media &&
      (db'.objects.media[id] == db.objects.media[id]
       || (db'.objects.media[id].reservation == db.objects.media[id].reservation
           && Some(db'.objects.media[id].reservation) == confirming
           && !db.objects.media[id].confirmed && db'.objects.media[id].confirmed))
  }

  lemma FewerRows(db: Db, db': Db, reserved: Reservations, confirming: Option<ReservationId>)
    requires forall id :: id in db'.objects.media ==> id in db.objects.media && db'.objects.media[id] == db.objects.media[id]
    ensures RowsOnlyConfirm(db, db', reserved, confirming)
  {
  }

  lemma ReserveAddsOne(db: Db, reserved: Reservations, id: MediaId, row: Media)
    requires row.reservation !in reserved
    ensures RowsOnlyConfirm(db, T.ReserveUpload(db, id, row).db, reserved, None)
  {
    hide Enqueue, StaleKeys, SameThumb, SameBlob, Album.WrapDrift;
  }

  lemma ConfirmChangesOne(db: Db, reserved: Reservations, id: MediaId, a: AlbumId, r: ReservationId)
    ensures RowsOnlyConfirm(db, T.MarkConfirmed(db, id, a, r).db, reserved, Some(r))
  {
  }

  lemma OthersOnlyRetire(db: Db, e: Event, reserved: Reservations)
    requires !e.Reserve? && !e.Confirm?
    ensures RowsOnlyConfirm(db, Apply(db, e), reserved, None)
  {
    if WritesRows(e) {
      AvatarsLeaveMedia(db, e);
    } else {
      OtherEventsRetire(db, e);
    }
    hide Apply, Enqueue, MediaKeys, AvatarKeys, RetiredMedia, RetiredAvatars;
    FewerRows(db, Apply(db, e), reserved, None);
  }

  lemma ReservationStep(w: World, e: Event)
    requires Feasible(w, e)
    ensures RowsOnlyConfirm(w.db, Step(w, e).db, w.hist.reserved, Confirming(e))
    ensures forall r :: r in w.hist.reserved ==> r in Step(w, e).hist.reserved && Step(w, e).hist.reserved[r] == w.hist.reserved[r]
  {
    hide RowsOnlyConfirm, T.ReserveUpload, T.MarkConfirmed, HeldAfter, CommittedAfter;
    if e.Reserve? {
      ReserveAddsOne(w.db, w.hist.reserved, e.id, e.row);
    } else if e.Confirm? {
      ConfirmChangesOne(w.db, w.hist.reserved, e.id, e.a, e.r);
    } else {
      OthersOnlyRetire(w.db, e, w.hist.reserved);
    }
  }

  lemma {:induction false} ReservationsStay(w: World, es: seq<Event>, r: ReservationId)
    requires Run(w, es) && r in w.hist.reserved
    ensures r in Exec(w, es).hist.reserved && Exec(w, es).hist.reserved[r] == w.hist.reserved[r]
    decreases |es|
  {
    hide Step, Feasible, RowsOnlyConfirm;
    if es != [] {
      ReservationStep(w, es[0]);
      ReservationsStay(Step(w, es[0]), es[1..], r);
    }
  }

  lemma StillNotPending(db: Db, db': Db, reserved: Reservations, confirming: Option<ReservationId>, r: ReservationId)
    requires RowsOnlyConfirm(db, db', reserved, confirming) && r in reserved && !PendingNow(db, r)
    ensures !PendingNow(db', r)
  {
    assert forall id :: HasRow(db', id, r, false) ==> HasRow(db, id, r, false);
  }

  lemma {:induction false} NeverPendingAgain(w: World, es: seq<Event>, r: ReservationId)
    requires Run(w, es) && r in w.hist.reserved && !PendingNow(w.db, r)
    ensures !PendingNow(Exec(w, es).db, r)
    decreases |es|
  {
    hide Step, Feasible, RowsOnlyConfirm, PendingNow;
    if es != [] {
      ReservationStep(w, es[0]);
      StillNotPending(w.db, Step(w, es[0]).db, w.hist.reserved, Confirming(es[0]), r);
      NeverPendingAgain(Step(w, es[0]), es[1..], r);
    }
  }

  // The one row a reservation can have, wherever in the run it is looked at
  lemma SameRowLater(w: World, es: seq<Event>, id: MediaId, id': MediaId)
    requires Inv(w) && Run(w, es)
    requires id in w.db.objects.media && id' in Exec(w, es).db.objects.media
    requires w.db.objects.media[id].reservation == Exec(w, es).db.objects.media[id'].reservation
    ensures id == id' && T.Pending(w.db.objects.media[id]) == T.Pending(Exec(w, es).db.objects.media[id'])
  {
    var r := w.db.objects.media[id].reservation;
    ReservationOf(w, id);
    ReservationsStay(w, es, r);
    InvHolds(w, es);
    hide Inv, Step, Feasible;
    ReservationOf(Exec(w, es), id');
  }

  lemma ReservationOf(w: World, id: MediaId)
    requires Inv(w) && id in w.db.objects.media
    ensures var row := w.db.objects.media[id];
            && row.reservation in w.hist.reserved && w.hist.reserved[row.reservation] == (id, T.Pending(row))
            && (!row.confirmed ==> T.Pending(row) == row)
  {
    assert RowInv(w.db, w.hist.reserved, id, w.db.objects.media[id]);
  }

  lemma OnlyPendingConfirms(w: World, e: Event, r: ReservationId)
    requires Confirms(w, e, r)
    ensures PendingNow(w.db, r)
  {
    assert HasRow(w.db, e.id, r, false);
  }

  lemma ConfirmEndsPending(w: World, e: Event, r: ReservationId)
    requires RowsInv(w.db, w.hist.reserved) && Confirms(w, e, r)
    ensures r in w.hist.reserved && !PendingNow(T.MarkConfirmed(w.db, e.id, e.a, r).db, r)
  {
  }

  // A reservation that was confirmed, retired, replaced or erased stays so: no later event confirms it
  lemma OutcomeIsFinal(w: World, es: seq<Event>, r: ReservationId, e: Event)
    requires Reachable(w) && Run(w, es) && r in w.hist.reserved && !PendingNow(w.db, r)
    ensures !PendingNow(Exec(w, es).db, r) && !Confirms(Exec(w, es), e, r)
  {
    hide Reachable, Confirms, PendingNow;
    NeverPendingAgain(w, es, r);
    if Confirms(Exec(w, es), e, r) {
      OnlyPendingConfirms(Exec(w, es), e, r);
    }
  }

  // Confirming is such an outcome: the same reservation is not confirmed twice
  lemma ConfirmedAtMostOnce(w: World, e: Event, es: seq<Event>, e': Event, r: ReservationId)
    requires Reachable(w) && Feasible(w, e) && Confirms(w, e, r) && Run(Step(w, e), es)
    ensures !Confirms(Exec(Step(w, e), es), e', r)
  {
    var next := Step(w, e);
    ReachableInv(w);
    ConfirmEndsPending(w, e, r);
    assert next.db == T.MarkConfirmed(w.db, e.id, e.a, r).db && next.hist.reserved == w.hist.reserved;
    hide Step, Inv, Confirms, PendingNow, T.MarkConfirmed;
    NeverPendingAgain(next, es, r);
    if Confirms(Exec(next, es), e', r) {
      OnlyPendingConfirms(Exec(next, es), e', r);
    }
  }

  // ConfirmUpload reads a pending row, checks its objects, then commits under the row's reservation. Whatever runs
  // in between, a commit that succeeds confirms exactly the row that was read
  lemma ConfirmCommitsWhatWasChecked(w: World, es: seq<Event>, id: MediaId, a: AlbumId)
    requires Reachable(w) && Run(w, es)
    requires id in w.db.objects.media && !w.db.objects.media[id].confirmed
    requires T.MarkConfirmed(Exec(w, es).db, id, a, w.db.objects.media[id].reservation).result.Ok?
    ensures var read, commit := w.db.objects.media[id], T.MarkConfirmed(Exec(w, es).db, id, a, w.db.objects.media[id].reservation);
            && Exec(w, es).db.objects.media[id] == read
            && commit.db.objects.media[id] == read.(confirmed := true, albumSeq := Some(commit.result.value))
  {
    ReachableInv(w);
    InvHolds(w, es);
    ConfirmWrites(Exec(w, es).db, id, a, w.db.objects.media[id].reservation);
    hide Inv, Reachable, Feasible, Step, T.MarkConfirmed, Exec, Run;
    SameRowLater(w, es, id, id);
    ReservationOf(w, id);
    ReservationOf(Exec(w, es), id);
  }

  // AbortPendingUpload and a failed check read a row and then retire it under the row's reservation. Whatever runs in
  // between, what they retire is the row they read, never a replacement
  lemma AbortRetiresWhatWasRead(w: World, es: seq<Event>, id: MediaId, a: AlbumId, token: Token)
    requires Reachable(w) && Run(w, es) && id in w.db.objects.media && !w.db.objects.media[id].confirmed
    requires T.QueuePendingCleanup(Exec(w, es).db, id, a, token, w.db.objects.media[id].reservation).result == Ok(1)
    ensures Exec(w, es).db.objects.media[id] == w.db.objects.media[id]
    ensures T.QueuePendingCleanup(Exec(w, es).db, id, a, token, w.db.objects.media[id].reservation).db.objects
            == Retire(Exec(w, es).db.objects, {id}, {})
  {
    hide Inv, Reachable, Exec, Run, Retire;
    ReachableInv(w);
    InvHolds(w, es);
    SameRowLater(w, es, id, id);
    ReservationOf(w, id);
    ReservationOf(Exec(w, es), id);
  }

  lemma ConfirmWrites(db: Db, id: MediaId, a: AlbumId, r: ReservationId)
    ensures var tx := T.MarkConfirmed(db, id, a, r);
            tx.result.Ok? ==>
              && T.IsPending(db.objects, id, a, r) && id in tx.db.objects.media
              && tx.db.objects.media[id] == db.objects.media[id].(confirmed := true, albumSeq := Some(tx.result.value))
  {
  }

  // ---------- a confirmed row ----------

  lemma StillConfirmed(db: Db, db': Db, reserved: Reservations, confirming: Option<ReservationId>, id: MediaId)
    requires RowsOnlyConfirm(db, db', reserved, confirming) && id in db.objects.media && db.objects.media[id].confirmed
    requires db.objects.media[id].reservation in reserved
    ensures id in db'.objects.media && db'.objects.media[id].reservation == db.objects.media[id].reservation ==>
              db'.objects.media[id] == db.objects.media[id]
  {
  }

  lemma HadRow(db: Db, db': Db, reserved: Reservations, confirming: Option<ReservationId>, id: MediaId)
    requires RowsOnlyConfirm(db, db', reserved, confirming) && id in db'.objects.media
    requires db'.objects.media[id].reservation in reserved
    ensures id in db.objects.media && db.objects.media[id].reservation == db'.objects.media[id].reservation
  {
  }

  // A confirmed row never changes again: as long as it is there it keeps its number, keys and hashes
  lemma {:induction false} ConfirmedRowNeverChanges(w: World, es: seq<Event>, id: MediaId)
    requires Inv(w) && Run(w, es) && id in w.db.objects.media && w.db.objects.media[id].confirmed
    requires id in Exec(w, es).db.objects.media
    requires Exec(w, es).db.objects.media[id].reservation == w.db.objects.media[id].reservation
    ensures Exec(w, es).db.objects.media[id] == w.db.objects.media[id]
    decreases |es|
  {
    hide Inv, Step, Feasible, RowsOnlyConfirm;
    if es != [] {
      var next, r := Step(w, es[0]), w.db.objects.media[id].reservation;
      InvStep(w, es[0]);
      ReservationOf(w, id);
      ReservationStep(w, es[0]);
      RowWasThere(next, es[1..], id, r);
      StillConfirmed(w.db, next.db, w.hist.reserved, Confirming(es[0]), id);
      ConfirmedRowNeverChanges(next, es[1..], id);
    }
  }

  // A row under an old reservation has been there all along
  lemma {:induction false} RowWasThere(w: World, es: seq<Event>, id: MediaId, r: ReservationId)
    requires Run(w, es) && r in w.hist.reserved
    requires id in Exec(w, es).db.objects.media && Exec(w, es).db.objects.media[id].reservation == r
    ensures id in w.db.objects.media && w.db.objects.media[id].reservation == r
    decreases |es|
  {
    hide Step, Feasible, RowsOnlyConfirm;
    if es != [] {
      var next := Step(w, es[0]);
      ReservationStep(w, es[0]);
      RowWasThere(next, es[1..], id, r);
      HadRow(w.db, next.db, w.hist.reserved, Confirming(es[0]), id);
    }
  }

  // ---------- who removes a photo ----------

  // The event is the uploader's own deletion, the album's deletion, or the departure of an account in the album
  ghost predicate MayRemove(db: Db, e: Event, row: Media, id: MediaId) {
    || (e.DeleteMedia? && e.id == id && e.a == row.album && e.token == row.uploader)
    || (e.DeleteAlbum? && e.a == row.album)
    || (e.Leave? && e.a == row.album && T.IsMember(db, e.u, e.a)
        && (T.TokenIn(db, e.u, e.a) == row.uploader
            || T.PlannedOutcome(db, e.u, e.a).DropAlbum? || T.PlannedOutcome(db, e.u, e.a).DropShared?))
  }

  // A confirmed photo disappears in no other way: no sweep, abort, retry or revocation touches it
  lemma WhoRemovesAPhoto(w: World, e: Event, id: MediaId)
    requires Feasible(w, e) && id in w.db.objects.media && w.db.objects.media[id].confirmed
    ensures if id in Step(w, e).db.objects.media then Step(w, e).db.objects.media[id] == w.db.objects.media[id]
            else MayRemove(w.db, e, w.db.objects.media[id], id)
  {
    hide Enqueue, MediaKeys, AvatarKeys, HeldAfter, CommittedAfter, ReservedAfter;
    if !WritesRows(e) {
      OtherEventsRetire(w.db, e);
      if id in RetiredMedia(w.db, e) {
        PhotoRetired(w.db, e, id);
      }
      hide Apply, RetiredMedia, RetiredAvatars, MayRemove;
    } else if e.Reserve? {
      ReserveKeepsPhotos(w.db, e.id, e.row, id);
      hide T.ReserveUpload;
    } else if e.Confirm? {
      hide Album.RotationRequired, Album.CurrentEpoch;
    } else {
      AvatarsLeaveMedia(w.db, e);
      hide Apply;
    }
  }

  lemma PhotoRetired(db: Db, e: Event, id: MediaId)
    requires id in db.objects.media && db.objects.media[id].confirmed && id in RetiredMedia(db, e)
    ensures MayRemove(db, e, db.objects.media[id], id)
  {
    hide Retire, T.PlannedOutcome;
  }

  lemma ReserveKeepsPhotos(db: Db, id: MediaId, row: Media, photo: MediaId)
    requires photo in db.objects.media && db.objects.media[photo].confirmed
    ensures photo in T.ReserveUpload(db, id, row).db.objects.media
            && T.ReserveUpload(db, id, row).db.objects.media[photo] == db.objects.media[photo]
  {
    hide Enqueue, StaleKeys, Rekeyed, Album.RotationRequired, Album.CurrentEpoch;
  }
}
