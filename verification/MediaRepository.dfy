/** Upload reservations, confirmation and cleanup as the transactions that run. */
module MediaRepository {
  import opened Basics
  import opened EpochEnvelope
  import opened Schema
  import opened ObjectStore
  import opened Database
  import T = Transactions

  // The keys a retry no longer needs
  method StaleKeyList(prev: Media, next: Media) returns (kept: Media, stale: seq<Key>)
    ensures kept == Rekeyed(prev, next) && Elements(stale) == StaleKeys(prev, next)
  {
    kept, stale := next, [];
    if prev.sha == next.sha && prev.size == next.size {
      kept := kept.(storageKey := prev.storageKey);
    } else {
      stale := stale + [prev.storageKey];
    }
    var sameThumb := prev.thumbKey.Some? && next.thumbKey.Some? && prev.thumbSha == next.thumbSha
                     && prev.thumbSize.Some? && next.thumbSize.Some? && prev.thumbSize.value == next.thumbSize.value;
    if sameThumb {
      kept := kept.(thumbKey := prev.thumbKey);
    } else if prev.thumbKey.Some? && prev.thumbKey.value != "" {
      stale := stale + [prev.thumbKey.value];
    }
  }

  class Repository {
    const db: Pool

    constructor (db: Pool)
      ensures this.db == db
    {
      this.db := db;
    }

    // m carries the keys and the reservation id drawn for this request; the row is returned as stored
    method ReserveUploadRow(id: MediaId, m: Media) returns (r: Result<Media, Error>)
      modifies db
      ensures T.Tx(db.tables, r) == T.ReserveUpload(old(db.tables), id, m)
    {
      var tx := db.tables;
      if m.album !in tx.albums {
        return Err(AlbumNotFound);
      }
      var album := tx.albums[m.album];
      var cur := album.CurrentEpoch();
      if cur < 0 {
        return Err(NoEpoch);
      }
      if m.epochTag != cur {
        return Err(EpochMismatch);
      }
      if album.RotationRequired() {
        return Err(PendingRotation);
      }
      hide Enqueue, Rekeyed, StaleKeys, MaxOf, Album.WrapDrift;
      var row, objects := T.Pending(m), tx.objects;
      if id in objects.media && objects.media[id].album == m.album {
        var prev := objects.media[id];
        if prev.confirmed {
          return Err(MediaConfirmed);
        }
        if prev.uploader != m.uploader {
          return Err(MediaNotOwned);
        }
        var stale;
        row, stale := StaleKeyList(prev, row);
        objects := objects.(media := objects.media - {id});
        var queue := EnqueueObjectCleanup(objects.queue, stale);
        objects := objects.(queue := queue);
      }
      if id in objects.media || m.uploader !in album.members {
        return Err(ConstraintViolation);
      }
      objects := objects.(media := objects.media[id := row]);
      tx := tx.(objects := objects);
      db.tables := tx;
      return Ok(row);
    }

    method MarkConfirmed(id: MediaId, a: AlbumId, reservation: ReservationId) returns (r: Result<nat, Error>)
      modifies db
      ensures T.Tx(db.tables, r) == T.MarkConfirmed(old(db.tables), id, a, reservation)
    {
      var tx := db.tables;
      if a !in tx.albums {
        return Err(AlbumNotFound);
      }
      if !T.IsPending(tx.objects, id, a, reservation) {
        return Err(MediaNotFound);
      }
      var epochTag := tx.objects.media[id].epochTag;
      if tx.albums[a].RotationRequired() {
        return Err(PendingRotation);
      }
      if epochTag != tx.albums[a].CurrentEpoch() {
        return Err(EpochMismatch);
      }
      tx := tx.(objects := tx.objects.(media := tx.objects.media[id := tx.objects.media[id].(confirmed := true)]));
      var generation := tx.albums[a].generation + 1;
      tx := tx.(albums := tx.albums[a := tx.albums[a].(generation := generation)]);
      tx := tx.(objects := tx.objects.(media := tx.objects.media[id := tx.objects.media[id].(albumSeq := Some(generation))]));
      db.tables := tx;
      return Ok(generation);
    }

    method QueuePendingCleanup(id: MediaId, a: AlbumId, token: Token, reservation: ReservationId) returns (count: nat, keys: seq<Key>)
      modifies db
      ensures T.Tx(db.tables, Ok(count)) == T.QueuePendingCleanup(old(db.tables), id, a, token, reservation)
      ensures Elements(keys) == if count == 1 then MediaKeys(old(db.tables.objects.media), {id}) else {}
    {
      var tx := db.tables;
      if !(T.IsPending(tx.objects, id, a, reservation) && tx.objects.media[id].uploader == token) {
        return 0, [];
      }
      var objects;
      objects, keys := RemoveMedia(tx.objects, {id});
      tx := tx.(objects := objects);
      db.tables := tx;
      return 1, keys;
    }

    // ids are the rows old enough, within the limit, that no other transaction holds
    method QueueStalePendingCleanup(ids: set<MediaId>) returns (count: nat, keys: seq<Key>)
      modifies db
      ensures T.Tx(db.tables, Ok(count)) == T.SweepMedia(old(db.tables), ids)
      ensures Elements(keys) == MediaKeys(old(db.tables.objects.media), T.PendingAmong(old(db.tables.objects), ids))
    {
      var tx := db.tables;
      var stale := set id | id in ids && id in tx.objects.media && !tx.objects.media[id].confirmed;
      var objects;
      objects, keys := RemoveMedia(tx.objects, stale);
      tx := tx.(objects := objects);
      db.tables := tx;
      return |stale|, keys;
    }

    method DeleteOwnedMedia(a: AlbumId, id: MediaId, uploader: Token) returns (r: Result<seq<Key>, Error>)
      modifies db
      ensures db.tables == T.DeleteOwnedMedia(old(db.tables), a, id, uploader).db
      ensures r.Ok? <==> T.DeleteOwnedMedia(old(db.tables), a, id, uploader).result.Ok?
      ensures r.Err? ==> r.error == T.DeleteOwnedMedia(old(db.tables), a, id, uploader).result.error
      ensures r.Ok? ==> Elements(r.value) == MediaKeys(old(db.tables.objects.media), {id})
    {
      var tx := db.tables;
      if a !in tx.albums {
        return Err(AlbumNotFound);
      }
      if !(id in tx.objects.media && tx.objects.media[id].album == a && tx.objects.media[id].confirmed) {
        return Err(MediaNotFound);
      }
      if tx.objects.media[id].uploader != uploader {
        return Err(MediaNotOwned);
      }
      var objects, keys := RemoveMedia(tx.objects, {id});
      tx := tx.(objects := objects);
      db.tables := tx;
      return Ok(keys);
    }

    method GetByID(id: MediaId, a: AlbumId) returns (row: Option<Media>)
      ensures row == if id in db.tables.objects.media && db.tables.objects.media[id].album == a
                     then Some(db.tables.objects.media[id]) else None
    {
      if id in db.tables.objects.media && db.tables.objects.media[id].album == a {
        return Some(db.tables.objects.media[id]);
      }
      return None;
    }

    method DeleteObjectCleanupKey(key: Key)
      modifies db
      ensures db.tables == T.DeleteObjectCleanupKey(old(db.tables), key)
    {
      db.tables := db.tables.(objects := db.tables.objects.(queue := db.tables.objects.queue - {key}));
    }

    method RescheduleObjectCleanupKey(key: Key) returns (attempts: nat)
      modifies db
      ensures T.Tx(db.tables, Ok(attempts)) == T.RescheduleObjectCleanupKey(old(db.tables), key)
    {
      if key !in db.tables.objects.queue {
        return 0;
      }
      attempts := db.tables.objects.queue[key] + 1;
      db.tables := db.tables.(objects := db.tables.objects.(queue := db.tables.objects.queue[key := attempts]));
    }
  }
}
