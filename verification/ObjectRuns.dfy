/** Storage keys over whole runs: no object is lost, and no object a row still names is deleted. */
module ObjectRuns {
  import opened Basics
  import opened EpochEnvelope
  import opened Schema
  import opened ObjectStore
  import opened World
  import T = Transactions

  ghost predicate ObjectsInv(w: World) {
    var o, h := w.db.objects, w.hist;
    && ObjectInv(o, h.committed, h.cleared)
    && h.cleared <= h.deleted <= h.listed
    && h.listed == o.queue.Keys + h.cleared
  }

  // ---------- the events that only retire rows ----------

  ghost function RetiredMedia(db: Db, e: Event): set<MediaId> {
    var o := db.objects;
    match e
    case DeleteAlbum(a, caller) => if T.DeleteAlbum(db, a, caller).result.Ok? then T.AlbumMedia(o, a) else {}
    case Abort(id, a, token, r) => if T.IsPending(o, id, a, r) && o.media[id].uploader == token then {id} else {}
    case SweepMedia(ids) => T.PendingAmong(o, ids)
    case DeleteMedia(a, id, token) => if T.DeleteOwnedMedia(db, a, id, token).result.Ok? then {id} else {}
    case Leave(u, a) =>
      if !T.IsMember(db, u, a) then {}
      else if T.PlannedOutcome(db, u, a).DropAlbum? || T.PlannedOutcome(db, u, a).DropShared? then T.AlbumMedia(o, a)
      else T.MediaOf(o, a, T.TokenIn(db, u, a))
    case _ => {}
  }

  ghost function RetiredAvatars(db: Db, e: Event): set<AvatarId> {
    var o := db.objects;
    match e
    case Revoke(a, caller, target) =>
      if T.RevokeMember(db, a, caller, target).result == Ok(false) then T.AvatarsOf(o, a, target) else {}
    case DeleteAlbum(a, caller) => if T.DeleteAlbum(db, a, caller).result.Ok? then T.AlbumAvatars(o, a) else {}
    case DropAvatar(a, token, face) => if face in PendingAvatars(o, a, token) then {face} else {}
    case RemoveAvatars(a, token) => T.AvatarsOf(o, a, token)
    case SweepAvatars(faces) => set id | id in faces && id in o.avatars && !o.avatars[id].confirmed
    case Leave(u, a) =>
      if !T.IsMember(db, u, a) then {}
      else if T.PlannedOutcome(db, u, a).DropAlbum? || T.PlannedOutcome(db, u, a).DropShared? then T.AlbumAvatars(o, a)
      else T.AvatarsOf(o, a, T.TokenIn(db, u, a))
    case _ => {}
  }

  ghost predicate WritesRows(e: Event) {
    e.Reserve? || e.Confirm? || e.ReserveAvatar? || e.ConfirmAvatar? || e.Acknowledge? || e.Reschedule?
  }

  lemma RetireNothing(o: Objects)
    ensures Retire(o, {}, {}) == o
  {
  }

  // Every other event retires the rows above and does nothing else to storage keys
  lemma OtherEventsRetire(db: Db, e: Event)
    requires !WritesRows(e)
    ensures Apply(db, e).objects == Retire(db.objects, RetiredMedia(db, e), RetiredAvatars(db, e))
  {
    RetireNothing(db.objects);
    hide Retire;
  }

  // ---------- the invariant ----------

  lemma ReserveKeys(w: World, id: MediaId, row: Media)
    requires ObjectsInv(w) && Feasible(w, Reserve(id, row))
    ensures ObjectsInv(Step(w, Reserve(id, row)))
  {
    hide ObjectInv, MediaMint;
    if T.ReserveUpload(w.db, id, row).result.Ok? {
      PutMediaInv(w.db.objects, id, T.Pending(row), w.hist.committed, w.hist.cleared);
    }
    hide PutMedia;
  }

  lemma ReserveAvatarKeys(w: World, face: AvatarId, avatar: Avatar)
    requires ObjectsInv(w) && Feasible(w, ReserveAvatar(face, avatar))
    ensures ObjectsInv(Step(w, ReserveAvatar(face, avatar)))
  {
    hide ObjectInv, PutAvatar, AvatarMint;
    if T.ReserveAvatar(w.db, face, avatar).result.Ok? {
      PutAvatarInv(w.db.objects, face, avatar.(confirmed := false), w.hist.committed, w.hist.cleared);
      PutAvatarQueue(w.db.objects, face, avatar.(confirmed := false), w.hist.committed, w.hist.cleared);
    }
  }

  lemma ConfirmKeys(w: World, id: MediaId, a: AlbumId, r: ReservationId)
    requires ObjectsInv(w)
    ensures ObjectsInv(Step(w, Confirm(id, a, r)))
  {
    SameKeysInv(w.db.objects, T.MarkConfirmed(w.db, id, a, r).db.objects, w.hist.committed, w.hist.cleared);
  }

  lemma ConfirmAvatarKeys(w: World, a: AlbumId, token: Token, face: AvatarId)
    requires ObjectsInv(w)
    ensures ObjectsInv(Step(w, ConfirmAvatar(a, token, face)))
  {
    hide ObjectInv;
    var o, h := w.db.objects, w.hist;
    if T.ConfirmAvatar(w.db, a, token, face).result == Ok(true) {
      var others := T.AvatarsOf(o, a, token) - {face};
      RetireInv(o, {}, others, h.committed, h.cleared);
      SameKeysInv(Retire(o, {}, others), T.ConfirmAvatar(w.db, a, token, face).db.objects, h.committed, h.cleared);
    }
  }

  lemma AcknowledgeKeys(w: World, key: Key)
    requires ObjectsInv(w) && Feasible(w, Acknowledge(key))
    ensures ObjectsInv(Step(w, Acknowledge(key)))
  {
    var o, o' := w.db.objects, Step(w, Acknowledge(key)).db.objects;
    assert forall s :: KeyAt(o', s) == KeyAt(o, s);
    assert forall k :: IsLive(o', k) <==> IsLive(o, k);
  }

  lemma RescheduleKeys(w: World, key: Key)
    requires ObjectsInv(w)
    ensures ObjectsInv(Step(w, Reschedule(key)))
  {
    SameKeysInv(w.db.objects, T.RescheduleObjectCleanupKey(w.db, key).db.objects, w.hist.committed, w.hist.cleared);
  }

  lemma RetiredKeys(w: World, e: Event)
    requires ObjectsInv(w) && Feasible(w, e) && !WritesRows(e)
    ensures ObjectsInv(Step(w, e))
  {
    OtherEventsRetire(w.db, e);
    RetireInv(w.db.objects, RetiredMedia(w.db, e), RetiredAvatars(w.db, e), w.hist.committed, w.hist.cleared);
    hide ObjectInv, Apply, RetiredMedia, RetiredAvatars, MediaKeys, AvatarKeys, HeldAfter;
  }

  lemma ObjectsStep(w: World, e: Event)
    requires ObjectsInv(w) && Feasible(w, e)
    ensures ObjectsInv(Step(w, e))
  {
    hide ObjectsInv, Step, Feasible;
    match e
    case Reserve(id, row) => ReserveKeys(w, id, row);
    case ReserveAvatar(face, avatar) => ReserveAvatarKeys(w, face, avatar);
    case Confirm(id, a, r) => ConfirmKeys(w, id, a, r);
    case ConfirmAvatar(a, token, face) => ConfirmAvatarKeys(w, a, token, face);
    case Acknowledge(key) => AcknowledgeKeys(w, key);
    case Reschedule(key) => RescheduleKeys(w, key);
    case _ => RetiredKeys(w, e);
  }

  lemma {:induction false} ObjectsHold(w: World, es: seq<Event>)
    requires ObjectsInv(w) && Run(w, es)
    ensures ObjectsInv(Exec(w, es))
    decreases |es|
  {
    hide ObjectsInv, Step, Feasible;
    if es != [] {
      ObjectsStep(w, es[0]);
      ObjectsHold(Step(w, es[0]), es[1..]);
    }
  }

  lemma NothingStored()
    ensures ObjectsInv(START)
  {
    assert forall s :: KeyAt(START.db.objects, s) == None;
  }

  // ---------- the promises ----------

  // Where a key can be: named by a row, queued, or off the queue after storage confirmed deleting its object
  ghost predicate InOnePlace(w: World, k: Key) {
    var live, queued, cleared := IsLive(w.db.objects, k), k in w.db.objects.queue, k in w.hist.cleared;
    && (live || queued || cleared)
    && !(live && queued) && !(live && cleared) && !(queued && cleared)
    && (cleared ==> k in w.hist.deleted)
  }

  // Once a row has named a key, every later state of the run has that key in exactly one place
  lemma NoObjectIsLost(es: seq<Event>, later: seq<Event>, k: Key)
    requires Run(START, es) && Run(Exec(START, es), later)
    requires IsLive(Exec(START, es).db.objects, k)
    ensures InOnePlace(Exec(Exec(START, es), later), k)
  {
    var w := Exec(START, es);
    NothingStored();
    ObjectsHold(START, es);
    ObjectsHold(w, later);
    CommittedGrows(w, later);
  }

  lemma {:induction false} CommittedGrows(w: World, es: seq<Event>)
    ensures w.hist.committed <= Exec(w, es).hist.committed
    decreases |es|
  {
    if es != [] {
      CommittedGrows(Step(w, es[0]), es[1..]);
      hide Apply, HeldAfter, ReservedAfter, MediaMint, AvatarMint;
    }
  }

  // The object behind a key that some row names was never deleted, and no second row names it
  lemma NoLiveObjectIsDeleted(es: seq<Event>, s: Slot, k: Key)
    requires Run(START, es) && KeyAt(Exec(START, es).db.objects, s) == Some(k)
    ensures k !in Exec(START, es).hist.deleted
    ensures forall t :: KeyAt(Exec(START, es).db.objects, t) == Some(k) ==> t == s
  {
    NothingStored();
    ObjectsHold(START, es);
    assert IsLive(Exec(START, es).db.objects, k);
  }

  // From the moment a key leaves its row it is gone for good: no later run names it again
  lemma {:induction false} RetiredKeysStayDead(w: World, es: seq<Event>, k: Key)
    requires ObjectsInv(w) && Run(w, es) && k in w.hist.listed
    ensures !IsLive(Exec(w, es).db.objects, k) && k in Exec(w, es).hist.listed
    decreases |es|
  {
    hide Step, Feasible, ObjectInv;
    if es != [] {
      ObjectsStep(w, es[0]);
      assert k in Step(w, es[0]).hist.listed by { ListedGrows(w, es[0]); }
      RetiredKeysStayDead(Step(w, es[0]), es[1..], k);
    } else {
      QueuedKeysAreDead(w, k);
    }
  }

  lemma ListedGrows(w: World, e: Event)
    ensures w.hist.listed <= Step(w, e).hist.listed
  {
    hide Apply, HeldAfter, CommittedAfter, ReservedAfter;
  }

  lemma QueuedKeysAreDead(w: World, k: Key)
    requires ObjectsInv(w) && k in w.hist.listed
    ensures !IsLive(w.db.objects, k)
  {
  }

  // ---------- what a key stands for ----------

  // The hash and size a row claims for the object under one of its keys
  datatype Claim = Claim(sha: bytes, size: Option<int>)

  function ClaimAt(o: Objects, s: Slot): Option<Claim> {
    match s
    case Blob(id) => if id in o.media then Some(Claim(o.media[id].sha, Some(o.media[id].size))) else None
    case Thumb(id) => if id in o.media then Some(Claim(o.media[id].thumbSha, o.media[id].thumbSize)) else None
    case Face(id) => if id in o.avatars then Some(Claim(o.avatars[id].sha, Some(o.avatars[id].size))) else None
  }

  // Keys that stay, stay in their slot under the same claim
  ghost predicate ClaimsStay(o: Objects, o': Objects, committed: set<Key>) {
    forall s | KeyAt(o', s).Some? && KeyAt(o', s).value in committed ::
      KeyAt(o, s) == KeyAt(o', s) && ClaimAt(o, s) == ClaimAt(o', s)
  }

  lemma ReserveClaims(db: Db, id: MediaId, row: Media, committed: set<Key>)
    requires MintedFor(row, committed)
    ensures ClaimsStay(db.objects, T.ReserveUpload(db, id, row).db.objects, committed)
  {
    hide Enqueue, StaleKeys, Album.RotationRequired, Album.CurrentEpoch;
  }

  lemma ReserveAvatarClaims(db: Db, face: AvatarId, avatar: Avatar, committed: set<Key>)
    requires avatar.storageKey !in committed
    ensures ClaimsStay(db.objects, T.ReserveAvatar(db, face, avatar).db.objects, committed)
  {
    hide MediaKeys, AvatarKeys, Enqueue;
  }

  lemma OtherClaims(w: World, e: Event)
    requires !e.Reserve? && !e.ReserveAvatar?
    ensures ClaimsStay(w.db.objects, Apply(w.db, e).objects, w.hist.committed)
  {
    hide MediaKeys, AvatarKeys, Enqueue, RetiredMedia, RetiredAvatars, Album.RotationRequired, Album.CurrentEpoch;
    if !WritesRows(e) {
      OtherEventsRetire(w.db, e);
    }
  }

  lemma ClaimStep(w: World, e: Event)
    requires Feasible(w, e)
    ensures ClaimsStay(w.db.objects, Step(w, e).db.objects, w.hist.committed)
  {
    hide ClaimsStay, T.ReserveUpload, T.ReserveAvatar;
    match e
    case Reserve(id, row) => ReserveClaims(w.db, id, row, w.hist.committed);
    case ReserveAvatar(face, avatar) => ReserveAvatarClaims(w.db, face, avatar, w.hist.committed);
    case _ => OtherClaims(w, e);
  }

  // A key is never reused for other bytes: as long as any row names it, it is the same slot and the same claimed hash
  // and size, through every retry that kept the key
  lemma {:induction false} KeysKeepTheirClaim(w: World, es: seq<Event>, s: Slot, k: Key)
    requires Run(w, es) && k in w.hist.committed && KeyAt(Exec(w, es).db.objects, s) == Some(k)
    ensures KeyAt(w.db.objects, s) == Some(k) && ClaimAt(w.db.objects, s) == ClaimAt(Exec(w, es).db.objects, s)
    decreases |es|
  {
    hide Step, Feasible, KeyAt, ClaimAt;
    if es != [] {
      CommittedGrows(w, [es[0]]);
      assert Exec(w, [es[0]]) == Step(w, es[0]) by { assert [es[0]][1..] == []; }
      KeysKeepTheirClaim(Step(w, es[0]), es[1..], s, k);
      ClaimStep(w, es[0]);
    }
  }
}
