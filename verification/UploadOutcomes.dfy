/** What each transaction on photos answers and leaves behind, said of the rows alone. */
module UploadOutcomes {
  import opened Basics
  import opened EpochEnvelope
  import opened Schema
  import opened Albums
  import opened ObjectStore
  import opened World
  import opened Runs
  import opened Frames
  import AlbumOutcomes
  import ObjectRuns
  import UploadRuns
  import T = Transactions

  // ---------- reserving ----------

  ghost predicate Newest(album: Album, epoch: int) {
    epoch in album.epochs && forall e :: e in album.epochs ==> e <= epoch
  }

  // Uploads are open: the tag is the newest epoch and no rotation is owed
  ghost predicate Open(album: Album, epoch: int) {
    Newest(album, epoch) && !album.rotationRequired
  }

  lemma GatesAreOpen(album: Album, held: Held, epoch: int)
    requires AlbumInv(album, held)
    ensures album.CurrentEpoch() < 0 <==> album.epochs == map[]
    ensures album.epochs != map[] ==> (album.CurrentEpoch() == epoch <==> Newest(album, epoch))
    ensures Newest(album, epoch) ==> album.epochs != map[]
    ensures album.RotationRequired() <==> album.rotationRequired
  {
    CurrentIsCount(album);
    DriftImpliesDebt(album, held);
  }

  // The id is the uploader's own pending row in the album
  ghost predicate OwnPending(o: Objects, id: MediaId, row: Media) {
    id in o.media && o.media[id].album == row.album && o.media[id].uploader == row.uploader && !o.media[id].confirmed
  }

  // Exactly when a reservation is accepted, and what each refusal means
  ghost predicate ReserveAnswer<X>(o: Objects, album: Album, id: MediaId, row: Media, r: Result<X, Error>) {
    var here := id in o.media && o.media[id].album == row.album;
    var open := Open(album, row.epochTag);
    && (r.Ok? <==> open && row.uploader in album.members && (id !in o.media || OwnPending(o, id, row)))
    && (Refused(r, NoEpoch) <==> album.epochs == map[])
    && (Refused(r, EpochMismatch) <==> album.epochs != map[] && !Newest(album, row.epochTag))
    && (Refused(r, PendingRotation) <==> Newest(album, row.epochTag) && album.rotationRequired)
    && (Refused(r, MediaConfirmed) <==> open && here && o.media[id].confirmed)
    && (Refused(r, MediaNotOwned) <==> open && here && !o.media[id].confirmed && o.media[id].uploader != row.uploader)
    && (Refused(r, ConstraintViolation) <==>
          open && !(here && (o.media[id].confirmed || o.media[id].uploader != row.uploader))
          && ((id in o.media && !here) || row.uploader !in album.members))
  }

  // The keys of the stored row: the old ones where the uploader's pending row claimed the same bytes, else the new ones
  ghost predicate KeysKept(o: Objects, id: MediaId, row: Media, stored: Media) {
    && stored.storageKey == (if id in o.media && o.media[id].sha == row.sha && o.media[id].size == row.size
                             then o.media[id].storageKey else row.storageKey)
    && stored.thumbKey == (if id in o.media && o.media[id].thumbKey.Some? && row.thumbKey.Some? && row.thumbSize.Some?
                              && o.media[id].thumbSha == row.thumbSha && o.media[id].thumbSize == row.thumbSize
                           then o.media[id].thumbKey else row.thumbKey)
  }

  // One row is stored, pending and unnumbered, with the columns of the request; the keys it no longer needs are queued
  ghost predicate Reserved(o: Objects, o': Objects, id: MediaId, row: Media, stored: Media) {
    && id in o'.media && o'.media[id] == stored && KeysKept(o, id, row, stored)
    && stored.(storageKey := row.storageKey, thumbKey := row.thumbKey) == row.(confirmed := false, albumSeq := None)
    && (forall i :: i != id ==> (i in o'.media <==> i in o.media) && (i in o.media ==> o'.media[i] == o.media[i]))
    && o'.avatars == o.avatars && QueueGrows(o, o') && AttemptsStay(o, o')
  }

  lemma PutMediaReserves(o: Objects, id: MediaId, row: Media, committed: set<Key>, cleared: set<Key>)
    requires ObjectInv(o, committed, cleared) && MintedFor(row, committed)
    ensures var next := T.Pending(row); Reserved(o, PutMedia(o, id, next), id, row, PutMedia(o, id, next).media[id])
  {
    PutMediaQueue(o, id, T.Pending(row), committed, cleared);
    hide ObjectInv, QueueGrows, StaleKeys;
  }

  lemma NoAlbumNoReservation(db: Db, id: MediaId, row: Media)
    requires row.album !in db.albums
    ensures T.ReserveUpload(db, id, row) == T.Fail(db, AlbumNotFound)
  {
  }

  lemma ReserveAnswers(db: Db, held: Held, id: MediaId, row: Media)
    requires row.album in db.albums && AlbumInv(db.albums[row.album], held)
    ensures var tx, o := T.ReserveUpload(db, id, row), PutMedia(db.objects, id, T.Pending(row));
            && !Refused(tx.result, AlbumNotFound) && ReserveAnswer(db.objects, db.albums[row.album], id, row, tx.result)
            && (tx.result.Err? ==> tx.db == db)
            && (tx.result.Ok? ==> tx == T.Tx(db.(objects := o), Ok(o.media[id])))
  {
    hide AlbumInv, PutMedia, Newest, Album.CurrentEpoch, Album.RotationRequired;
    GatesAreOpen(db.albums[row.album], held, row.epochTag);
  }

  lemma ReserveOutcome(w: World, id: MediaId, row: Media)
    requires Reachable(w) && MintedFor(row, w.hist.committed)
    ensures var tx := T.ReserveUpload(w.db, id, row);
            && (Refused(tx.result, AlbumNotFound) <==> row.album !in w.db.albums)
            && (row.album in w.db.albums ==> ReserveAnswer(w.db.objects, w.db.albums[row.album], id, row, tx.result))
            && (tx.result.Err? ==> tx.db == w.db)
            && (tx.result.Ok? ==>
                  && Reserved(w.db.objects, tx.db.objects, id, row, tx.result.value)
                  && tx.db.albums == w.db.albums && SameAccounts(w.db, tx.db))
  {
    hide Inv, Reachable, AlbumInv, ObjectInv, MintedFor, PutMedia, Reserved, ReserveAnswer, T.ReserveUpload;
    ReachableInv(w);
    AlbumOutcomes.InvHasObjects(w);
    InvIsAlbums(w);
    PutMediaReserves(w.db.objects, id, row, w.hist.committed, w.hist.cleared);
    if row.album in w.db.albums {
      ReserveAnswers(w.db, w.hist.held[row.album], id, row);
    } else {
      NoAlbumNoReservation(w.db, id, row);
    }
  }

  // ---------- confirming ----------

  // Exactly when a reservation is confirmed, and what each refusal means
  ghost predicate ConfirmAnswer<X>(o: Objects, album: Album, id: MediaId, a: AlbumId, r: ReservationId, answer: Result<X, Error>) {
    var pending := id in o.media && o.media[id].album == a && o.media[id].reservation == r && !o.media[id].confirmed;
    && (answer.Ok? <==> pending && Open(album, o.media[id].epochTag))
    && (Refused(answer, MediaNotFound) <==> !pending)
    && (Refused(answer, PendingRotation) <==> pending && album.rotationRequired)
    && (Refused(answer, EpochMismatch) <==> pending && !album.rotationRequired && !Newest(album, o.media[id].epochTag))
  }

  // The row becomes confirmed under the next number of its album, and nothing else happens
  ghost predicate Confirmed(db: Db, db': Db, id: MediaId, a: AlbumId, n: nat)
    requires a in db.albums
  {
    var o, o' := db.objects, db'.objects;
    && a in db'.albums && n == db.albums[a].generation + 1 && db'.albums[a] == db.albums[a].(generation := n)
    && OtherAlbumsStay(db, db', a) && SameAccounts(db, db')
    && id in o.media && id in o'.media && o'.media[id].confirmed && o'.media[id].albumSeq == Some(n)
    && o.media[id].(confirmed := true, albumSeq := Some(n)) == o'.media[id]
    && (forall i :: i != id ==> (i in o'.media <==> i in o.media) && (i in o.media ==> o'.media[i] == o.media[i]))
    && o'.avatars == o.avatars && o'.queue == o.queue
  }

  lemma NoAlbumNoConfirmation(db: Db, id: MediaId, a: AlbumId, r: ReservationId)
    requires a !in db.albums
    ensures T.MarkConfirmed(db, id, a, r) == T.Fail(db, AlbumNotFound)
  {
  }

  lemma ConfirmAnswers(db: Db, held: Held, id: MediaId, a: AlbumId, r: ReservationId)
    requires a in db.albums && AlbumInv(db.albums[a], held)
    requires id in db.objects.media && db.objects.media[id].album == a ==> db.albums[a].epochs != map[]
    ensures var tx := T.MarkConfirmed(db, id, a, r);
            !Refused(tx.result, AlbumNotFound) && ConfirmAnswer(db.objects, db.albums[a], id, a, r, tx.result)
  {
    hide AlbumInv, Newest, Album.CurrentEpoch, Album.RotationRequired;
    if id in db.objects.media {
      GatesAreOpen(db.albums[a], held, db.objects.media[id].epochTag);
    }
  }

  lemma ConfirmStores(db: Db, id: MediaId, a: AlbumId, r: ReservationId)
    requires a in db.albums
    ensures var tx := T.MarkConfirmed(db, id, a, r);
            && (tx.result.Err? ==> tx.db == db)
            && (tx.result.Ok? ==> Confirmed(db, tx.db, id, a, tx.result.value))
  {
    hide Album.CurrentEpoch, Album.RotationRequired;
  }

  lemma ConfirmOutcome(w: World, id: MediaId, a: AlbumId, r: ReservationId)
    requires Reachable(w)
    ensures var tx := T.MarkConfirmed(w.db, id, a, r);
            && (Refused(tx.result, AlbumNotFound) <==> a !in w.db.albums)
            && (a in w.db.albums ==> ConfirmAnswer(w.db.objects, w.db.albums[a], id, a, r, tx.result))
            && (tx.result.Err? ==> tx.db == w.db)
            && (tx.result.Ok? ==> Confirmed(w.db, tx.db, id, a, tx.result.value))
  {
    hide Inv, Reachable, AlbumInv, ConfirmAnswer, Confirmed, T.MarkConfirmed;
    ReachableInv(w);
    InvIsAlbums(w);
    if a in w.db.albums {
      if id in w.db.objects.media && w.db.objects.media[id].album == a {
        TagHasEpoch(w, id);
      }
      ConfirmAnswers(w.db, w.hist.held[a], id, a, r);
      ConfirmStores(w.db, id, a, r);
    } else {
      NoAlbumNoConfirmation(w.db, id, a, r);
    }
  }

  lemma TagHasEpoch(w: World, id: MediaId)
    requires Inv(w) && id in w.db.objects.media
    ensures w.db.objects.media[id].album in w.db.albums && w.db.albums[w.db.objects.media[id].album].epochs != map[]
  {
    assert UploadRuns.RowInv(w.db, w.hist.reserved, id, w.db.objects.media[id]);
  }

  // ---------- retiring ----------

  ghost predicate OnlyRowsGo(db: Db, db': Db, media: set<MediaId>, avatars: set<AvatarId>) {
    db'.albums == db.albums && SameAccounts(db, db') && RowsGo(db.objects, db'.objects, media, avatars)
  }

  lemma Retiring(w: World, media: set<MediaId>, avatars: set<AvatarId>)
    requires Reachable(w)
    ensures OnlyRowsGo(w.db, w.db.(objects := Retire(w.db.objects, media, avatars)), media, avatars)
    ensures OnlyRowsGo(w.db, w.db, {}, {})
  {
    hide Inv, Reachable, ObjectInv, Retire, RowsGo;
    ReachableInv(w);
    AlbumOutcomes.InvHasObjects(w);
    RetiringTakesRows(w.db.objects, media, avatars, w.hist.committed, w.hist.cleared);
    RetiringTakesRows(w.db.objects, {}, {}, w.hist.committed, w.hist.cleared);
    ObjectRuns.RetireNothing(w.db.objects);
  }

  // The caller's own pending row under that reservation: at most one
  ghost function OwnUnder(o: Objects, id: MediaId, a: AlbumId, token: Token, r: ReservationId): set<MediaId> {
    set i | i == id && i in o.media && o.media[i].album == a && o.media[i].uploader == token
            && o.media[i].reservation == r && !o.media[i].confirmed
  }

  // An abort takes that row or nothing
  lemma AbortOutcome(w: World, id: MediaId, a: AlbumId, token: Token, r: ReservationId)
    requires Reachable(w)
    ensures var tx, own := T.QueuePendingCleanup(w.db, id, a, token, r), OwnUnder(w.db.objects, id, a, token, r);
            tx.result == Ok(|own|) && OnlyRowsGo(w.db, tx.db, own, {})
  {
    hide Retire, Reachable, OnlyRowsGo;
    var o := w.db.objects;
    Retiring(w, {id}, {});
    assert OwnUnder(o, id, a, token, r) == if T.IsPending(o, id, a, r) && o.media[id].uploader == token then {id} else {};
  }

  // A sweep takes exactly the pending rows among those picked
  lemma SweepOutcome(w: World, ids: set<MediaId>)
    requires Reachable(w)
    ensures var tx, o := T.SweepMedia(w.db, ids), w.db.objects;
            var stale := set i | i in ids && i in o.media && !o.media[i].confirmed;
            tx.result == Ok(|stale|) && OnlyRowsGo(w.db, tx.db, stale, {})
  {
    hide Retire, Reachable, OnlyRowsGo;
    Retiring(w, T.PendingAmong(w.db.objects, ids), {});
  }

  // Exactly whose photo a deletion takes
  lemma DeletePhotoOutcome(w: World, a: AlbumId, id: MediaId, token: Token)
    requires Reachable(w)
    ensures var tx, o := T.DeleteOwnedMedia(w.db, a, id, token), w.db.objects;
            var photo := id in o.media && o.media[id].album == a && o.media[id].confirmed;
            && (tx.result.Ok? <==> photo && o.media[id].uploader == token)
            && (Refused(tx.result, AlbumNotFound) <==> a !in w.db.albums)
            && (Refused(tx.result, MediaNotFound) <==> a in w.db.albums && !photo)
            && (Refused(tx.result, MediaNotOwned) <==> photo && o.media[id].uploader != token)
            && OnlyRowsGo(w.db, tx.db, if tx.result.Ok? then {id} else {}, {})
  {
    hide Retire, Reachable, OnlyRowsGo, Inv;
    Retiring(w, {id}, {});
    ReachableInv(w);
    if id in w.db.objects.media {
      TagHasEpoch(w, id);
    }
  }

  // ---------- the cleanup queue ----------

  // Acknowledging takes one key off the queue; rescheduling counts one attempt more, or finds the key gone
  lemma CleanerOutcomes(db: Db, key: Key)
    ensures var db' := T.DeleteObjectCleanupKey(db, key);
            && db'.albums == db.albums && SameAccounts(db, db')
            && db'.objects.media == db.objects.media && db'.objects.avatars == db.objects.avatars
            && (forall k :: k in db'.objects.queue <==> k in db.objects.queue && k != key)
            && (forall k :: k in db'.objects.queue ==> db'.objects.queue[k] == db.objects.queue[k])
    ensures var tx := T.RescheduleObjectCleanupKey(db, key);
            && tx.db.albums == db.albums && SameAccounts(db, tx.db)
            && tx.db.objects.media == db.objects.media && tx.db.objects.avatars == db.objects.avatars
            && (forall k :: k in tx.db.objects.queue <==> k in db.objects.queue)
            && (forall k :: k in db.objects.queue ==> tx.db.objects.queue[k] == db.objects.queue[k] + if k == key then 1 else 0)
            && tx.result == Ok(if key in db.objects.queue then tx.db.objects.queue[key] else 0)
  {
  }
}
