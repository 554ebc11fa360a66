/** Avatar uploads as the transactions that run. */
module AvatarRepository {
  import opened Basics
  import opened EpochEnvelope
  import opened Schema
  import opened ObjectStore
  import opened Database
  import T = Transactions

  // A reused key is live again and must leave the cleanup queue
  method UnqueueObjectCleanup(queue: map<Key, nat>, queued: seq<Key>, keep: Key) returns (q: map<Key, nat>)
    ensures q == if keep in Elements(queued) then queue - {keep} else queue
  {
    q := queue;
    for i := 0 to |queued|
      invariant q == if keep in queued[..i] then queue - {keep} else queue
    {
      if queued[i] == keep {
        q := q - {keep};
      }
    }
  }

  class Repository {
    const db: Pool

    constructor (db: Pool)
      ensures this.db == db
    {
      this.db := db;
    }

    method LockActiveMember(a: AlbumId, token: Token) returns (refusal: Option<Error>)
      ensures refusal == if a !in db.tables.albums then Some(AlbumNotFound)
                         else if !db.tables.albums[a].IsActive(token) then Some(CallerRevoked) else None
    {
      if a !in db.tables.albums {
        return Some(AlbumNotFound);
      }
      if token !in db.tables.albums[a].members || db.tables.albums[a].members[token].revoked {
        return Some(CallerRevoked);
      }
      return None;
    }

    method Reserve(id: AvatarId, m: Avatar) returns (r: Result<Avatar, Error>)
      modifies db
      ensures T.Tx(db.tables, r) == T.ReserveAvatar(old(db.tables), id, m)
    {
      hide MediaKeys, AvatarKeys, Enqueue;
      var tx := db.tables;
      var refusal := LockActiveMember(m.album, m.member);
      if refusal.Some? {
        return Err(refusal.value);
      }
      var row := m.(confirmed := false);
      if id in tx.objects.avatars {
        var prev := tx.objects.avatars[id];
        if prev.album != m.album || prev.member != m.member {
          return Err(AvatarNotOwned);
        }
        if prev.confirmed {
          return Err(AvatarConfirmed);
        }
        if prev.size == m.size && prev.sha == m.sha {
          row := row.(storageKey := prev.storageKey);
        }
      }
      var pending := set f | f in tx.objects.avatars && tx.objects.avatars[f].album == m.album
                             && tx.objects.avatars[f].member == m.member && !tx.objects.avatars[f].confirmed;
      assert pending == PendingAvatars(tx.objects, m.album, m.member);
      var objects, stale := RemoveAvatars(tx.objects, pending);
      var queue := UnqueueObjectCleanup(objects.queue, stale, row.storageKey);
      assert objects.queue - {} == objects.queue;
      objects := objects.(queue := queue);
      objects := objects.(avatars := objects.avatars[id := row]);
      tx := tx.(objects := objects);
      db.tables := tx;
      return Ok(row);
    }

    // The replaced keys are queued already, and they are those of the member's other avatars
    method Confirm(a: AlbumId, token: Token, id: AvatarId) returns (r: Result<bool, Error>, replaced: seq<Key>)
      modifies db
      ensures T.Tx(db.tables, r) == T.ConfirmAvatar(old(db.tables), a, token, id)
      ensures Elements(replaced) <= db.tables.objects.queue.Keys
      ensures Elements(replaced) == if r != Ok(true) then {}
                                    else AvatarKeys(old(db.tables).objects.avatars, T.AvatarsOf(old(db.tables).objects, a, token) - {id})
    {
      hide MediaKeys, AvatarKeys;
      replaced := [];
      var tx := db.tables;
      var refusal := LockActiveMember(a, token);
      if refusal.Some? {
        r := Err(refusal.value);
        return;
      }
      if !(id in tx.objects.avatars && tx.objects.avatars[id].album == a && tx.objects.avatars[id].member == token) {
        r := Err(AvatarNotFound);
        return;
      }
      if tx.objects.avatars[id].confirmed {
        r := Ok(false);
        return;
      }
      var others := set f | f in tx.objects.avatars && tx.objects.avatars[f].album == a
                            && tx.objects.avatars[f].member == token && f != id;
      assert others == T.AvatarsOf(tx.objects, a, token) - {id};
      var objects;
      objects, replaced := RemoveAvatars(tx.objects, others);
      objects := objects.(avatars := objects.avatars[id := objects.avatars[id].(confirmed := true)]);
      tx := tx.(objects := objects);
      db.tables := tx;
      r := Ok(true);
    }

    method DropPending(a: AlbumId, token: Token, id: AvatarId) returns (keys: seq<Key>)
      modifies db
      ensures db.tables == T.DropPendingAvatar(old(db.tables), a, token, id).db
      ensures Elements(keys) <= db.tables.objects.queue.Keys
      ensures Elements(keys) == AvatarKeys(old(db.tables).objects.avatars, {id} * PendingAvatars(old(db.tables).objects, a, token))
    {
      keys := [];
      var tx := db.tables;
      if id in tx.objects.avatars && tx.objects.avatars[id].album == a && tx.objects.avatars[id].member == token
         && !tx.objects.avatars[id].confirmed {
        assert {id} * PendingAvatars(tx.objects, a, token) == {id};
        var objects;
        objects, keys := RemoveAvatars(tx.objects, {id});
        tx := tx.(objects := objects);
        db.tables := tx;
      }
    }

    method Remove(a: AlbumId, token: Token) returns (keys: seq<Key>)
      modifies db
      ensures db.tables == T.RemoveAvatars(old(db.tables), a, token).db
      ensures Elements(keys) <= db.tables.objects.queue.Keys
      ensures Elements(keys) == AvatarKeys(old(db.tables).objects.avatars, T.AvatarsOf(old(db.tables).objects, a, token))
    {
      var tx := db.tables;
      var faces := set f | f in tx.objects.avatars && tx.objects.avatars[f].album == a && tx.objects.avatars[f].member == token;
      var objects;
      objects, keys := RemoveAvatars(tx.objects, faces);
      tx := tx.(objects := objects);
      db.tables := tx;
    }
  }
}
