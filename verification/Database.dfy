/** The database a repository works on. A transaction reads the tables, works on a copy statement by statement, and
    commits by writing the copy back; returning early leaves the tables as they were, which is the rollback. */
module Database {
  import opened Basics
  import opened EpochEnvelope
  import opened Schema
  import opened ObjectStore
  import T = Transactions

  class Pool {
    var tables: Db

    constructor ()
      ensures tables == EMPTY
    {
      tables := EMPTY;
    }
  }

  lemma ElementsAppend<X>(xs: seq<X>, ys: seq<X>)
    ensures Elements(xs + ys) == Elements(xs) + Elements(ys)
  {
    forall x ensures x in xs + ys <==> x in xs || x in ys {
    }
  }

  method EnqueueObjectCleanup(queue: map<Key, nat>, keys: seq<Key>) returns (q: map<Key, nat>)
    ensures q == Enqueue(queue, Elements(keys))
  {
    q := queue;
    for i := 0 to |keys|
      invariant q == Enqueue(queue, Elements(keys[..i]))
    {
      ElementsAppend(keys[..i], [keys[i]]);
      assert keys[..i + 1] == keys[..i] + [keys[i]];
      if keys[i] !in q {
        q := q[keys[i] := 0];
      }
    }
    assert keys[..|keys|] == keys;
  }

  method CleanupKeyList(storageKey: Key, thumbKey: Option<Key>) returns (keys: seq<Key>)
    ensures Elements(keys) == CleanupKeys(storageKey, thumbKey)
  {
    keys := [];
    if storageKey != "" {
      keys := keys + [storageKey];
    }
    if thumbKey.Some? && thumbKey.value != "" {
      keys := keys + [thumbKey.value];
    }
  }

  lemma OneMoreRow(media: map<MediaId, Media>, ids: set<MediaId>, id: MediaId)
    requires id in media
    ensures MediaKeys(media, ids + {id}) == MediaKeys(media, ids) + CleanupKeys(media[id].storageKey, media[id].thumbKey)
  {
  }

  lemma NoRows(o: Objects)
    ensures Elements<Key>([]) == {} && MediaKeys(o.media, {}) == {} && AvatarKeys(o.avatars, {}) == {}
  {
  }

  // DELETE FROM media ... RETURNING, in whatever order the rows come back
  method RemoveMedia(o: Objects, ids: set<MediaId>) returns (o': Objects, keys: seq<Key>)
    requires ids <= o.media.Keys
    ensures o' == Retire(o, ids, {})
    ensures Elements(keys) == MediaKeys(o.media, ids)
  {
    NoRows(o);
    hide CleanupKeys, MediaKeys, AvatarKeys, Elements, Enqueue;
    var media, rest := o.media, ids;
    ghost var gone: set<MediaId> := {};
    keys := [];
    while rest != {}
      invariant gone + rest == ids && gone !! rest
      invariant media == o.media - gone && Elements(keys) == MediaKeys(o.media, gone)
    {
      var id: MediaId :| id in rest;
      var more := CleanupKeyList(media[id].storageKey, media[id].thumbKey);
      OneMoreRow(o.media, gone, id);
      ElementsAppend(keys, more);
      keys := keys + more;
      media, rest := media - {id}, rest - {id};
      gone := gone + {id};
    }
    assert gone == ids;
    var queue := EnqueueObjectCleanup(o.queue, keys);
    o' := Objects(media, o.avatars, queue);
    assert o.avatars - {} == o.avatars;
    assert MediaKeys(o.media, ids) + {} == MediaKeys(o.media, ids);
  }

  method RemoveAvatars(o: Objects, ids: set<AvatarId>) returns (o': Objects, keys: seq<Key>)
    requires ids <= o.avatars.Keys
    ensures o' == Retire(o, {}, ids)
    ensures Elements(keys) == AvatarKeys(o.avatars, ids)
  {
    var avatars, rest := o.avatars, ids;
    keys := [];
    while rest != {}
      invariant rest <= ids && avatars == o.avatars - (ids - rest)
      invariant Elements(keys) == AvatarKeys(o.avatars, ids - rest)
    {
      var id: AvatarId :| id in rest;
      ElementsAppend(keys, [avatars[id].storageKey]);
      assert ids - (rest - {id}) == (ids - rest) + {id};
      keys := keys + [avatars[id].storageKey];
      avatars := avatars - {id};
      rest := rest - {id};
    }
    assert ids - rest == ids;
    var queue := EnqueueObjectCleanup(o.queue, keys);
    o' := Objects(o.media, avatars, queue);
    assert o.media - {} == o.media && MediaKeys(o.media, {}) == {};
    assert {} + AvatarKeys(o.avatars, ids) == AvatarKeys(o.avatars, ids);
  }

  // Must run under the album lock: objects first, because the album's cascade would drop their rows silently
  method RemoveAlbum(tx: Db, a: AlbumId) returns (tx': Db, keys: seq<Key>)
    ensures tx' == T.RemoveAlbum(tx, a)
    ensures Elements(keys) == MediaKeys(tx.objects.media, T.AlbumMedia(tx.objects, a))
                            + AvatarKeys(tx.objects.avatars, T.AlbumAvatars(tx.objects, a))
  {
    var ids := set id | id in tx.objects.media && tx.objects.media[id].album == a;
    var faces := set id | id in tx.objects.avatars && tx.objects.avatars[id].album == a;
    var objects, mediaKeys := RemoveMedia(tx.objects, ids);
    RetireDrops(tx.objects, ids, {});
    assert objects.avatars == tx.objects.avatars;
    RetireTwice(tx.objects, ids, {}, {}, faces);
    assert ids + {} == ids && {} + faces == faces;
    var avatarKeys;
    objects, avatarKeys := RemoveAvatars(objects, faces);
    ElementsAppend(mediaKeys, avatarKeys);
    keys := mediaKeys + avatarKeys;
    tx' := tx.(objects := objects, albums := tx.albums - {a});
  }
}
