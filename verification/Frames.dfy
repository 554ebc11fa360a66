/** What a transaction leaves alone, and what it takes away, row by row. */
module Frames {
  import opened Basics
  import opened EpochEnvelope
  import opened Schema
  import opened ObjectStore

  ghost predicate Refused<X>(r: Result<X, Error>, e: Error) {
    r.Err? && r.error == e
  }

  ghost predicate SameAccounts(db: Db, db': Db) {
    db'.users == db.users && db'.jobs == db.jobs && db'.receipts == db.receipts
  }

  ghost predicate OtherAlbumsStay(db: Db, db': Db, a: AlbumId) {
    forall b :: b != a ==> (b in db.albums <==> b in db'.albums) && (b in db.albums ==> db'.albums[b] == db.albums[b])
  }

  // Exactly these rows are gone, every other row is as it was, and the keys that lost their row are queued
  ghost predicate RowsGo(o: Objects, o': Objects, media: set<MediaId>, avatars: set<AvatarId>) {
    && (forall id :: id in o'.media <==> id in o.media && id !in media)
    && (forall id :: id in o'.media ==> o'.media[id] == o.media[id])
    && (forall id :: id in o'.avatars <==> id in o.avatars && id !in avatars)
    && (forall id :: id in o'.avatars ==> o'.avatars[id] == o.avatars[id])
    && QueueGrows(o, o') && AttemptsStay(o, o')
  }

  // Keys that were queued keep their attempts, new ones have none
  ghost predicate AttemptsStay(o: Objects, o': Objects) {
    forall k :: k in o'.queue ==> o'.queue[k] == if k in o.queue then o.queue[k] else 0
  }

  lemma RetiringTakesRows(o: Objects, media: set<MediaId>, avatars: set<AvatarId>, committed: set<Key>, cleared: set<Key>)
    requires ObjectInv(o, committed, cleared)
    ensures RowsGo(o, Retire(o, media, avatars), media, avatars)
  {
    RetiredKeys(o, media, avatars, committed, cleared);
    hide ObjectInv, MediaKeys, AvatarKeys, Dropped;
  }
}
