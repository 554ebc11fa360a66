/** Storage keys: which row owns a key, and how keys move from rows to the cleanup queue. */
module ObjectStore {
  import opened Basics
  import opened EpochEnvelope
  import opened Schema

  // cleanupKeys: the non-empty keys of a row
  function CleanupKeys(storageKey: Key, thumbKey: Option<Key>): set<Key> {
    (if storageKey != "" then {storageKey} else {}) +
    (if thumbKey.Some? && thumbKey.value != "" then {thumbKey.value} else {})
  }

  // INSERT ... ON CONFLICT DO NOTHING for every key
  function Enqueue(queue: map<Key, nat>, keys: set<Key>): map<Key, nat> {
    map k | k in queue.Keys + keys :: if k in queue then queue[k] else 0
  }

  ghost function MediaKeys(media: map<MediaId, Media>, ids: set<MediaId>): set<Key> {
    set id, k | id in ids && id in media && k in CleanupKeys(media[id].storageKey, media[id].thumbKey) :: k
  }

  ghost function AvatarKeys(avatars: map<AvatarId, Avatar>, ids: set<AvatarId>): set<Key> {
    set id | id in ids && id in avatars :: avatars[id].storageKey
  }

  // removeMedia and removeAvatars together: drop the rows and queue their keys
  ghost function Retire(o: Objects, media: set<MediaId>, avatars: set<AvatarId>): Objects {
    Objects(o.media - media, o.avatars - avatars,
            Enqueue(o.queue, MediaKeys(o.media, media) + AvatarKeys(o.avatars, avatars)))
  }

  predicate SameBlob(prev: Media, next: Media) {
    prev.sha == next.sha && prev.size == next.size
  }

  predicate SameThumb(prev: Media, next: Media) {
    && prev.thumbKey.Some? && next.thumbKey.Some?
    && prev.thumbSha == next.thumbSha
    && prev.thumbSize.Some? && next.thumbSize.Some? && prev.thumbSize.value == next.thumbSize.value
  }

  // A retry keeps the keys whose bytes did not change
  function Rekeyed(prev: Media, next: Media): Media {
    next.(storageKey := if SameBlob(prev, next) then prev.storageKey else next.storageKey,
          thumbKey := if SameThumb(prev, next) then prev.thumbKey else next.thumbKey)
  }

  function StaleKeys(prev: Media, next: Media): set<Key> {
    (if SameBlob(prev, next) then {} else {prev.storageKey}) +
    (if !SameThumb(prev, next) && prev.thumbKey.Some? && prev.thumbKey.value != "" then {prev.thumbKey.value} else {})
  }

  // Insert a pending row, replacing the uploader's own pending row under the same id
  function PutMedia(o: Objects, id: MediaId, next: Media): Objects {
    if id in o.media then
      o.(media := o.media[id := Rekeyed(o.media[id], next)],
         queue := Enqueue(o.queue, StaleKeys(o.media[id], next)))
    else o.(media := o.media[id := next])
  }

  ghost function PendingAvatars(o: Objects, album: AlbumId, member: Token): set<AvatarId> {
    set id | id in o.avatars && o.avatars[id].album == album && o.avatars[id].member == member && !o.avatars[id].confirmed
  }

  // The key a new avatar reservation ends up with
  function AvatarKey(o: Objects, id: AvatarId, next: Avatar): Key {
    if id in o.avatars && o.avatars[id].size == next.size && o.avatars[id].sha == next.sha
    then o.avatars[id].storageKey
    else next.storageKey
  }

  // Drop the member's pending avatars, queue their keys except one that is reused, insert the new row
  ghost function PutAvatar(o: Objects, id: AvatarId, next: Avatar): Objects {
    var key := AvatarKey(o, id, next);
    var cleared := Retire(o, {}, PendingAvatars(o, next.album, next.member));
    var reused := if key in AvatarKeys(o.avatars, PendingAvatars(o, next.album, next.member)) then {key} else {};
    Objects(cleared.media, cleared.avatars[id := next.(storageKey := key)], cleared.queue - reused)
  }

  // ---------- key ownership ----------

  datatype Slot = Blob(media: MediaId) | Thumb(media: MediaId) | Face(avatar: AvatarId)

  function KeyAt(o: Objects, s: Slot): Option<Key> {
    match s
    case Blob(id) => if id in o.media then Some(o.media[id].storageKey) else None
    case Thumb(id) => if id in o.media then o.media[id].thumbKey else None
    case Face(id) => if id in o.avatars then Some(o.avatars[id].storageKey) else None
  }

  ghost predicate IsLive(o: Objects, k: Key) {
    exists s :: KeyAt(o, s) == Some(k)
  }

  ghost predicate OneOwner(o: Objects) {
    forall s, t :: KeyAt(o, s).Some? && KeyAt(o, s) == KeyAt(o, t) ==> s == t
  }

  // Every key ever committed to a row is in exactly one place
  ghost predicate ObjectInv(o: Objects, committed: set<Key>, cleared: set<Key>) {
    && OneOwner(o)
    && "" !in committed
    && (forall k :: k in committed <==> IsLive(o, k) || k in o.queue || k in cleared)
    && (forall k :: IsLive(o, k) ==> k !in o.queue && k !in cleared)
    && (forall k :: k in o.queue ==> k !in cleared)
  }

  ghost predicate Dropped(o: Objects, o': Objects, k: Key) {
    exists s :: KeyAt(o, s) == Some(k) && KeyAt(o', s) != Some(k)
  }

  // Slots keep their key, lose it, or receive a minted one
  ghost predicate SlotsMove(o: Objects, o': Objects, minted: map<Slot, Key>) {
    forall s :: if s in minted then KeyAt(o', s) == Some(minted[s]) else KeyAt(o', s) == KeyAt(o, s) || KeyAt(o', s) == None
  }

  // Lost keys, and only those, join the queue
  ghost predicate QueueGrows(o: Objects, o': Objects) {
    forall k :: k in o'.queue <==> k in o.queue || Dropped(o, o', k)
  }

  ghost predicate MovesKeys(o: Objects, o': Objects, minted: map<Slot, Key>) {
    SlotsMove(o, o', minted) && QueueGrows(o, o')
  }

  ghost predicate NewKeys(minted: map<Slot, Key>, committed: set<Key>) {
    && (forall s :: s in minted ==> minted[s] !in committed && minted[s] != "")
    && (forall s, t :: s in minted && t in minted && minted[s] == minted[t] ==> s == t)
  }

  // One lemma covers every transaction that touches keys
  lemma MovingKeysKeepsInv(o: Objects, o': Objects, minted: map<Slot, Key>, committed: set<Key>, cleared: set<Key>)
    requires ObjectInv(o, committed, cleared)
    requires MovesKeys(o, o', minted) && NewKeys(minted, committed)
    ensures ObjectInv(o', committed + minted.Values, cleared)
  {
  }

  // ---------- each transaction moves keys and nothing else ----------

  lemma RetiredKeys(o: Objects, media: set<MediaId>, avatars: set<AvatarId>, committed: set<Key>, cleared: set<Key>)
    requires ObjectInv(o, committed, cleared)
    ensures forall k :: k in MediaKeys(o.media, media) + AvatarKeys(o.avatars, avatars) <==> Dropped(o, Retire(o, media, avatars), k)
  {
    var o' := Retire(o, media, avatars);
    forall s | KeyAt(o, s).Some? ensures KeyAt(o, s).value != "" {
      assert IsLive(o, KeyAt(o, s).value);
    }
    forall k | k in MediaKeys(o.media, media) ensures Dropped(o, o', k) {
      var id :| id in media && id in o.media && k in CleanupKeys(o.media[id].storageKey, o.media[id].thumbKey);
      assert KeyAt(o, Blob(id)) == Some(k) || KeyAt(o, Thumb(id)) == Some(k);
      assert KeyAt(o', Blob(id)) == KeyAt(o', Thumb(id)) == None;
    }
    forall k | k in AvatarKeys(o.avatars, avatars) ensures Dropped(o, o', k) {
      var id :| id in avatars && id in o.avatars && k == o.avatars[id].storageKey;
      assert KeyAt(o, Face(id)) == Some(k) && KeyAt(o', Face(id)) == None;
    }
    forall k | Dropped(o, o', k) ensures k in MediaKeys(o.media, media) + AvatarKeys(o.avatars, avatars) {
      var s :| KeyAt(o, s) == Some(k) && KeyAt(o', s) != Some(k);
      match s
      case Blob(id) => assert id in media && k in CleanupKeys(o.media[id].storageKey, o.media[id].thumbKey);
      case Thumb(id) => assert id in media && k in CleanupKeys(o.media[id].storageKey, o.media[id].thumbKey);
      case Face(id) => assert id in avatars;
    }
  }

  lemma RetireInv(o: Objects, media: set<MediaId>, avatars: set<AvatarId>, committed: set<Key>, cleared: set<Key>)
    requires ObjectInv(o, committed, cleared)
    ensures ObjectInv(Retire(o, media, avatars), committed, cleared)
  {
    RetiredKeys(o, media, avatars, committed, cleared);
    var none: map<Slot, Key> := map[];
    MovingKeysKeepsInv(o, Retire(o, media, avatars), none, committed, cleared);
    assert committed + none.Values == committed;
  }

  ghost function RowKeys(row: Media): set<Key> {
    {row.storageKey} + (if row.thumbKey.Some? then {row.thumbKey.value} else {})
  }

  // The keys a request mints: non-empty, different, never used
  ghost predicate MintedFor(row: Media, committed: set<Key>) {
    && RowKeys(row) !! committed && "" !in RowKeys(row)
    && (row.thumbKey.Some? ==> row.thumbKey.value != row.storageKey)
  }

  ghost function MediaMint(o: Objects, id: MediaId, next: Media): map<Slot, Key> {
    var blob := if id in o.media && SameBlob(o.media[id], next) then map[] else map[Blob(id) := next.storageKey];
    if next.thumbKey.None? || (id in o.media && SameThumb(o.media[id], next)) then blob
    else blob[Thumb(id) := next.thumbKey.value]
  }

  lemma PutMediaSlots(o: Objects, id: MediaId, next: Media)
    ensures SlotsMove(o, PutMedia(o, id, next), MediaMint(o, id, next))
  {
  }

  lemma LiveKeysAreCommitted(o: Objects, committed: set<Key>, cleared: set<Key>)
    requires ObjectInv(o, committed, cleared)
    ensures forall s :: KeyAt(o, s).Some? ==> KeyAt(o, s).value != "" && KeyAt(o, s).value in committed
  {
  }

  lemma PutMediaQueue(o: Objects, id: MediaId, next: Media, committed: set<Key>, cleared: set<Key>)
    requires ObjectInv(o, committed, cleared) && MintedFor(next, committed)
    ensures QueueGrows(o, PutMedia(o, id, next))
  {
    var o' := PutMedia(o, id, next);
    LiveKeysAreCommitted(o, committed, cleared);
    var stale := if id in o.media then StaleKeys(o.media[id], next) else {};
    forall k | k in stale ensures Dropped(o, o', k) {
      if k == o.media[id].storageKey && !SameBlob(o.media[id], next) {
        assert KeyAt(o, Blob(id)) == Some(k) && KeyAt(o', Blob(id)) != Some(k);
      } else {
        assert KeyAt(o, Thumb(id)) == Some(k) && KeyAt(o', Thumb(id)) != Some(k);
      }
    }
    forall k | Dropped(o, o', k) ensures k in stale {
      var s :| KeyAt(o, s) == Some(k) && KeyAt(o', s) != Some(k);
      assert s == Blob(id) || s == Thumb(id);
    }
  }

  lemma PutMediaInv(o: Objects, id: MediaId, next: Media, committed: set<Key>, cleared: set<Key>)
    requires ObjectInv(o, committed, cleared) && MintedFor(next, committed)
    ensures ObjectInv(PutMedia(o, id, next), committed + MediaMint(o, id, next).Values, cleared)
  {
    PutMediaSlots(o, id, next);
    PutMediaQueue(o, id, next, committed, cleared);
    MovingKeysKeepsInv(o, PutMedia(o, id, next), MediaMint(o, id, next), committed, cleared);
  }

  ghost function AvatarMint(o: Objects, id: AvatarId, next: Avatar): map<Slot, Key> {
    if AvatarKey(o, id, next) == next.storageKey then map[Face(id) := next.storageKey] else map[]
  }

  lemma PutAvatarSlots(o: Objects, id: AvatarId, next: Avatar)
    requires id in o.avatars ==> id in PendingAvatars(o, next.album, next.member)
    ensures SlotsMove(o, PutAvatar(o, id, next), AvatarMint(o, id, next))
  {
  }

  lemma PutAvatarQueue(o: Objects, id: AvatarId, next: Avatar, committed: set<Key>, cleared: set<Key>)
    requires ObjectInv(o, committed, cleared) && next.storageKey !in committed
    requires id in o.avatars ==> id in PendingAvatars(o, next.album, next.member)
    ensures QueueGrows(o, PutAvatar(o, id, next))
  {
    var o' := PutAvatar(o, id, next);
    var pending := PendingAvatars(o, next.album, next.member);
    var key := AvatarKey(o, id, next);
    LiveKeysAreCommitted(o, committed, cleared);
    assert id in o.avatars ==> KeyAt(o, Face(id)) == Some(o.avatars[id].storageKey);
    assert KeyAt(o', Face(id)) == Some(key);
    forall k | k in AvatarKeys(o.avatars, pending) && k != key ensures Dropped(o, o', k) {
      var x :| x in pending && k == o.avatars[x].storageKey;
      assert KeyAt(o, Face(x)) == Some(k) && KeyAt(o', Face(x)) != Some(k);
    }
    forall k | Dropped(o, o', k) ensures k in AvatarKeys(o.avatars, pending) && k != key {
      var s :| KeyAt(o, s) == Some(k) && KeyAt(o', s) != Some(k);
      assert s.Face? && s.avatar in pending;
    }
    ReusedKeyIsNotQueued(o, id, next, committed, cleared);
  }

  // The kept key was live, so taking it off the queue takes nothing else off
  lemma ReusedKeyIsNotQueued(o: Objects, id: AvatarId, next: Avatar, committed: set<Key>, cleared: set<Key>)
    requires ObjectInv(o, committed, cleared) && next.storageKey !in committed
    ensures AvatarKey(o, id, next) !in o.queue
    ensures !Dropped(o, PutAvatar(o, id, next), AvatarKey(o, id, next)) || id !in o.avatars
  {
    var key := AvatarKey(o, id, next);
    if id in o.avatars {
      assert KeyAt(o, Face(id)) == Some(o.avatars[id].storageKey);
      assert IsLive(o, o.avatars[id].storageKey);
    }
    var o' := PutAvatar(o, id, next);
    assert KeyAt(o', Face(id)) == Some(key);
  }

  lemma PutAvatarInv(o: Objects, id: AvatarId, next: Avatar, committed: set<Key>, cleared: set<Key>)
    requires ObjectInv(o, committed, cleared) && next.storageKey !in committed && next.storageKey != ""
    requires id in o.avatars ==> id in PendingAvatars(o, next.album, next.member)
    ensures ObjectInv(PutAvatar(o, id, next), committed + AvatarMint(o, id, next).Values, cleared)
  {
    PutAvatarSlots(o, id, next);
    PutAvatarQueue(o, id, next, committed, cleared);
    MovingKeysKeepsInv(o, PutAvatar(o, id, next), AvatarMint(o, id, next), committed, cleared);
  }

  // Changing columns other than the keys moves nothing
  lemma SameKeysInv(o: Objects, o': Objects, committed: set<Key>, cleared: set<Key>)
    requires ObjectInv(o, committed, cleared)
    requires forall s :: KeyAt(o', s) == KeyAt(o, s)
    requires o'.queue.Keys == o.queue.Keys
    ensures ObjectInv(o', committed, cleared)
  {
  }

  // ---------- retiring in two steps ----------

  ghost predicate KeyOf(media: map<MediaId, Media>, id: MediaId, k: Key) {
    id in media && k in CleanupKeys(media[id].storageKey, media[id].thumbKey)
  }

  lemma MediaKeysOf(media: map<MediaId, Media>, ids: set<MediaId>, k: Key)
    ensures k in MediaKeys(media, ids) <==> exists id :: id in ids && KeyOf(media, id, k)
  {
  }

  lemma MediaKeysTwice(media: map<MediaId, Media>, m: set<MediaId>, m': set<MediaId>)
    ensures MediaKeys(media, m) + MediaKeys(media - m, m') == MediaKeys(media, m + m')
  {
    forall k ensures k in MediaKeys(media, m) + MediaKeys(media - m, m') <==> k in MediaKeys(media, m + m') {
      MediaKeysOf(media, m, k);
      MediaKeysOf(media - m, m', k);
      MediaKeysOf(media, m + m', k);
      hide CleanupKeys, MediaKeys;
      assert forall id :: id !in m ==> (KeyOf(media - m, id, k) <==> KeyOf(media, id, k));
    }
  }

  lemma AvatarKeysTwice(avatars: map<AvatarId, Avatar>, f: set<AvatarId>, f': set<AvatarId>)
    ensures AvatarKeys(avatars, f) + AvatarKeys(avatars - f, f') == AvatarKeys(avatars, f + f')
  {
  }

  lemma EnqueueTwice(queue: map<Key, nat>, keys: set<Key>, more: set<Key>)
    ensures Enqueue(Enqueue(queue, keys), more) == Enqueue(queue, keys + more)
  {
  }

  lemma RetireTwice(o: Objects, m: set<MediaId>, f: set<AvatarId>, m': set<MediaId>, f': set<AvatarId>)
    ensures Retire(Retire(o, m, f), m', f') == Retire(o, m + m', f + f')
  {
    hide MediaKeys, AvatarKeys, Enqueue;
    MediaKeysTwice(o.media, m, m');
    AvatarKeysTwice(o.avatars, f, f');
    var keys := MediaKeys(o.media, m) + AvatarKeys(o.avatars, f);
    var more := MediaKeys(o.media - m, m') + AvatarKeys(o.avatars - f, f');
    EnqueueTwice(o.queue, keys, more);
    assert keys + more == MediaKeys(o.media, m + m') + AvatarKeys(o.avatars, f + f');
    assert o.media - m - m' == o.media - (m + m') && o.avatars - f - f' == o.avatars - (f + f');
  }

  lemma RetireDrops(o: Objects, m: set<MediaId>, f: set<AvatarId>)
    ensures Retire(o, m, f).media == o.media - m && Retire(o, m, f).avatars == o.avatars - f
  {
  }
}
