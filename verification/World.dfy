/** The server as a state machine. Every committed transaction and every storage call is one event; a run is any
    sequence of them, so a crash or an interleaving is a run that stops or mixes events of several requests. */
module World {
  import opened Basics
  import opened EpochEnvelope
  import opened Schema
  import opened Albums
  import opened ObjectStore
  import T = Transactions

  datatype Event =
    | Register(u: UserId)
    | Create(u: UserId, a: AlbumId, token: Token)
    | Rotate(a: AlbumId, rotation: EpochInput)
    | Invite(a: AlbumId, delivery: DeliverInput, minted: Token)
    | Revoke(a: AlbumId, caller: Token, target: Token)
    | DeleteAlbum(a: AlbumId, caller: Token)
    | Reserve(id: MediaId, row: Media)
    | Confirm(id: MediaId, a: AlbumId, r: ReservationId)
    | Abort(id: MediaId, a: AlbumId, token: Token, r: ReservationId)
    | SweepMedia(ids: set<MediaId>)
    | DeleteMedia(a: AlbumId, id: MediaId, token: Token)
    | ReserveAvatar(face: AvatarId, avatar: Avatar)
    | ConfirmAvatar(a: AlbumId, token: Token, face: AvatarId)
    | DropAvatar(a: AlbumId, token: Token, face: AvatarId)
    | RemoveAvatars(a: AlbumId, token: Token)
    | SweepAvatars(faces: set<AvatarId>)
    | ObjectDeleted(key: Key)                  // a successful DeleteObject
    | Acknowledge(key: Key)
    | Reschedule(key: Key)
    | Accept(u: UserId, confirmed: set<AlbumId>, receipt: bytes)
    | Abandon(receipt: bytes)
    | Prune(expired: set<bytes>)
    | Leave(u: UserId, a: AlbumId)             // RemoveMembership
    | Finish(u: UserId)

  ghost function Apply(db: Db, e: Event): Db {
    match e
    case Register(u) => T.Register(db, u).db
    case Create(u, a, token) => T.CreateWithAdmin(db, u, a, token).db
    case Rotate(a, rotation) => T.InsertEpoch(db, a, rotation).db
    case Invite(a, delivery, minted) => T.DeliverMember(db, a, delivery, minted).db
    case Revoke(a, caller, target) => T.RevokeMember(db, a, caller, target).db
    case DeleteAlbum(a, caller) => T.DeleteAlbum(db, a, caller).db
    case Reserve(id, row) => T.ReserveUpload(db, id, row).db
    case Confirm(id, a, r) => T.MarkConfirmed(db, id, a, r).db
    case Abort(id, a, token, r) => T.QueuePendingCleanup(db, id, a, token, r).db
    case SweepMedia(ids) => T.SweepMedia(db, ids).db
    case DeleteMedia(a, id, token) => T.DeleteOwnedMedia(db, a, id, token).db
    case ReserveAvatar(face, avatar) => T.ReserveAvatar(db, face, avatar).db
    case ConfirmAvatar(a, token, face) => T.ConfirmAvatar(db, a, token, face).db
    case DropAvatar(a, token, face) => T.DropPendingAvatar(db, a, token, face).db
    case RemoveAvatars(a, token) => T.RemoveAvatars(db, a, token).db
    case SweepAvatars(faces) => T.SweepAvatars(db, faces).db
    case ObjectDeleted(_) => db
    case Acknowledge(key) => T.DeleteObjectCleanupKey(db, key)
    case Reschedule(key) => T.RescheduleObjectCleanupKey(db, key).db
    case Accept(u, confirmed, receipt) => T.Accept(db, u, confirmed, receipt).db
    case Abandon(receipt) => T.AbandonReceipt(db, receipt).db
    case Prune(expired) => T.PruneReceipts(db, expired)
    case Leave(u, a) => T.RemoveMembership(db, u, a).db
    case Finish(u) => T.FinishAccount(db, u).db
  }

  // ---------- history: what no table remembers ----------

  datatype Hist = Hist(
    users: set<UserId>,                        // every account ever registered
    tokens: set<Token>,                        // every member token ever minted
    held: map<AlbumId, Held>,                  // for every album ever created, who was ever given each epoch key
    committed: set<Key>,                       // every storage key ever written to a row
    listed: set<Key>,                          // every key ever seen in the cleanup queue
    deleted: set<Key>,                         // every key whose object storage confirmed deleting
    cleared: set<Key>,                         // every key taken off the queue again
    reserved: map<ReservationId, (MediaId, Media)>,   // every reservation as first stored
    consent: map<UserId, set<AlbumId>>)        // the confirmed set when each deletion was accepted

  datatype World = World(db: Db, hist: Hist)

  const START := World(EMPTY, Hist({}, {}, map[], {}, {}, {}, {}, map[], map[]))

  ghost function HeldIn(h: Hist, a: AlbumId): Held {
    if a in h.held then h.held[a] else map[]
  }

  ghost function HeldAfter(w: World, e: Event): map<AlbumId, Held> {
    var held := w.hist.held;
    match e
    case Create(u, a, token) =>
      if T.CreateWithAdmin(w.db, u, a, token).result.Ok? then held[a := map[]] else held
    case Rotate(a, rotation) =>
      if T.InsertEpoch(w.db, a, rotation).result.Ok?
      then held[a := HeldIn(w.hist, a)[rotation.epoch := KeyHolders(rotation)]]
      else held
    case Invite(a, delivery, minted) =>
      var joined := T.DeliverMember(w.db, a, delivery, minted).result;
      if joined.Ok? then held[a := HeldAfterDelivery(HeldIn(w.hist, a), delivery, joined.value)] else held
    case _ => held
  }

  ghost function CommittedAfter(w: World, e: Event): set<Key> {
    match e
    case Reserve(id, row) =>
      if T.ReserveUpload(w.db, id, row).result.Ok?
      then w.hist.committed + MediaMint(w.db.objects, id, T.Pending(row)).Values
      else w.hist.committed
    case ReserveAvatar(face, avatar) =>
      if T.ReserveAvatar(w.db, face, avatar).result.Ok?
      then w.hist.committed + AvatarMint(w.db.objects, face, avatar.(confirmed := false)).Values
      else w.hist.committed
    case _ => w.hist.committed
  }

  ghost function ReservedAfter(w: World, e: Event): map<ReservationId, (MediaId, Media)> {
    match e
    case Reserve(id, row) =>
      var stored := T.ReserveUpload(w.db, id, row).result;
      if stored.Ok? then w.hist.reserved[row.reservation := (id, stored.value)] else w.hist.reserved
    case _ => w.hist.reserved
  }

  ghost predicate StartsDeletion(db: Db, e: Event) {
    e.Accept? && e.u in db.users && !db.users[e.u] && T.Accept(db, e.u, e.confirmed, e.receipt).result.Ok?
  }

  ghost function Record(w: World, e: Event): Hist {
    var h := w.hist;
    Hist(
      if e.Register? then h.users + {e.u} else h.users,
      if e.Create? then h.tokens + {e.token} else if e.Invite? then h.tokens + {e.minted} else h.tokens,
      HeldAfter(w, e),
      CommittedAfter(w, e),
      h.listed + Apply(w.db, e).objects.queue.Keys,
      if e.ObjectDeleted? then h.deleted + {e.key} else h.deleted,
      if e.Acknowledge? then h.cleared + {e.key} else h.cleared,
      ReservedAfter(w, e),
      if StartsDeletion(w.db, e) then h.consent[e.u := e.confirmed] else h.consent)
  }

  // ---------- steps and runs ----------

  // What a caller has made sure of before its transaction: requests are validated, random identifiers and keys
  // are new, only queued keys are deleted, only deleted keys are acknowledged, only accepted accounts are processed
  ghost predicate Feasible(w: World, e: Event) {
    match e
    case Register(u) => u !in w.hist.users
    case Create(_, a, token) => a !in w.hist.held && token !in w.hist.tokens && |token| == TOKEN_LEN
    case Rotate(_, rotation) => Validated(rotation)
    case Invite(_, delivery, minted) => Contiguous(delivery.envelopes) && minted !in w.hist.tokens && |minted| == TOKEN_LEN
    case Reserve(_, row) => MintedFor(row, w.hist.committed) && row.reservation !in w.hist.reserved
    case ReserveAvatar(_, avatar) => avatar.storageKey !in w.hist.committed && avatar.storageKey != ""
    case ObjectDeleted(key) => key in w.hist.listed
    case Acknowledge(key) => key in w.hist.deleted
    case Leave(u, _) => u in w.hist.consent
    case Finish(u) => u in w.hist.consent
    case _ => true
  }

  ghost function Step(w: World, e: Event): World {
    World(Apply(w.db, e), Record(w, e))
  }

  ghost predicate Run(w: World, es: seq<Event>)
    decreases |es|
  {
    es == [] || (Feasible(w, es[0]) && Run(Step(w, es[0]), es[1..]))
  }

  ghost function Exec(w: World, es: seq<Event>): World
    decreases |es|
  {
    if es == [] then w else Exec(Step(w, es[0]), es[1..])
  }

  lemma {:induction false} Prefix(w: World, es: seq<Event>, k: nat)
    requires k < |es| && Run(w, es)
    ensures Run(w, es[..k]) && Feasible(Exec(w, es[..k]), es[k])
    ensures Exec(w, es[..k + 1]) == Step(Exec(w, es[..k]), es[k])
    ensures Run(Exec(w, es[..k]), es[k..]) && Exec(w, es) == Exec(Exec(w, es[..k]), es[k..])
    decreases |es|
  {
    hide Step, Feasible;
    if k == 0 {
      assert es[..1] == [es[0]] && es[..1][1..] == [];
      assert es[0..] == es;
    } else {
      Prefix(Step(w, es[0]), es[1..], k - 1);
      assert es[..k][1..] == es[1..][..k - 1] && es[..k + 1][1..] == es[1..][..k];
      assert es[1..][k - 1..] == es[k..];
    }
  }

  // Running one sequence after another
  lemma {:induction false} RunSplits(w: World, es: seq<Event>, more: seq<Event>)
    ensures Run(w, es + more) <==> Run(w, es) && Run(Exec(w, es), more)
    ensures Exec(w, es + more) == Exec(Exec(w, es), more)
    decreases |es|
  {
    hide Step, Feasible;
    if es == [] {
      assert es + more == more;
    } else {
      assert (es + more)[1..] == es[1..] + more && (es + more)[0] == es[0];
      RunSplits(Step(w, es[0]), es[1..], more);
    }
  }

  lemma OneEvent(w: World, e: Event)
    ensures Run(w, [e]) <==> Feasible(w, e)
    ensures Exec(w, [e]) == Step(w, e)
  {
    hide Step, Feasible;
    assert [e][1..] == [];
  }

  // ---------- the album rows ----------

  ghost predicate AlbumsInv(w: World) {
    forall a :: a in w.db.albums ==>
                  && a in w.hist.held && AlbumInv(w.db.albums[a], w.hist.held[a])
                  && w.db.albums[a].members.Keys <= w.hist.tokens
  }

  ghost predicate TouchesAlbums(e: Event) {
    e.Create? || e.Rotate? || e.Invite? || e.Revoke? || e.DeleteAlbum? || e.Confirm? || e.Leave?
  }

  lemma OtherEventsLeaveAlbums(w: World, e: Event)
    requires !TouchesAlbums(e)
    ensures Apply(w.db, e).albums == w.db.albums && HeldAfter(w, e) == w.hist.held
  {
  }

  lemma GenerationIsNoKey(a: Album, held: Held, g: nat)
    requires AlbumInv(a, held)
    ensures AlbumInv(a.(generation := g), held)
  {
    var b := a.(generation := g);
    SameRosterInv(a, b);
  }

  lemma LeaveInv(w: World, u: UserId, a: AlbumId)
    requires AlbumsInv(w)
    requires T.IsMember(w.db, u, a)
    ensures var t := T.TokenIn(w.db, u, a);
            var outcome := T.PlannedOutcome(w.db, u, a);
            outcome != T.DropAlbum && outcome != T.DropShared ==>
              && AlbumInv(T.Leave(w.db.albums[a], t), w.hist.held[a])
              && T.Leave(w.db.albums[a], t).Active() == w.db.albums[a].Active() - {t}
  {
    var t := T.TokenIn(w.db, u, a);
    var outcome := T.PlannedOutcome(w.db, u, a);
    var album, held := w.db.albums[a], w.hist.held[a];
    if outcome == T.LeaveAlbum {
      DepartInv(album, held, t);
      EraseInv(Depart(album, t), held, t);
    } else if outcome == T.EraseTraces {
      EraseInv(album, held, t);
    }
  }

  // A transaction that rewrites one album row
  lemma OneAlbumChanges(w: World, w': World, a: AlbumId, album: Album, held: Held)
    requires AlbumsInv(w) && AlbumInv(album, held)
    requires w'.db.albums == w.db.albums[a := album] && w'.hist.held == w.hist.held[a := held]
    requires w.hist.tokens <= w'.hist.tokens && album.members.Keys <= w'.hist.tokens
    ensures AlbumsInv(w')
  {
    hide AlbumInv;
  }

  lemma RotateStep(w: World, a: AlbumId, rotation: EpochInput)
    requires AlbumsInv(w) && Feasible(w, Rotate(a, rotation))
    ensures AlbumsInv(Step(w, Rotate(a, rotation)))
  {
    hide AlbumInv;
    if T.InsertEpoch(w.db, a, rotation).result.Ok? {
      var album, held := w.db.albums[a], w.hist.held[a];
      InsertEpochInv(album, held, rotation);
      OneAlbumChanges(w, Step(w, Rotate(a, rotation)), a, Albums.InsertEpoch(album, rotation).value,
                      held[rotation.epoch := KeyHolders(rotation)]);
    }
  }

  lemma InviteStep(w: World, a: AlbumId, delivery: DeliverInput, minted: Token)
    requires AlbumsInv(w) && Feasible(w, Invite(a, delivery, minted))
    ensures AlbumsInv(Step(w, Invite(a, delivery, minted)))
  {
    hide AlbumInv;
    if T.DeliverMember(w.db, a, delivery, minted).result.Ok? {
      var album, held := w.db.albums[a], w.hist.held[a];
      DeliverInv(album, held, w.db.users, delivery, minted);
      var (after, token) := Deliver(album, w.db.users, delivery, minted).value;
      OneAlbumChanges(w, Step(w, Invite(a, delivery, minted)), a, after, HeldAfterDelivery(held, delivery, token));
    }
  }

  lemma RevokeStep(w: World, a: AlbumId, caller: Token, target: Token)
    requires AlbumsInv(w)
    ensures AlbumsInv(Step(w, Revoke(a, caller, target)))
  {
    hide AlbumInv;
    if T.RevokeMember(w.db, a, caller, target).result.Ok? {
      RevokeInv(w.db.albums[a], w.hist.held[a], caller, target);
    }
  }

  lemma ConfirmStep(w: World, id: MediaId, a: AlbumId, r: ReservationId)
    requires AlbumsInv(w)
    ensures AlbumsInv(Step(w, Confirm(id, a, r)))
  {
    hide AlbumInv;
    if T.MarkConfirmed(w.db, id, a, r).result.Ok? {
      GenerationIsNoKey(w.db.albums[a], w.hist.held[a], w.db.albums[a].generation + 1);
    }
  }

  lemma LeaveStep(w: World, u: UserId, a: AlbumId)
    requires AlbumsInv(w)
    ensures AlbumsInv(Step(w, Leave(u, a)))
  {
    hide AlbumInv;
    if T.IsMember(w.db, u, a) {
      LeaveInv(w, u, a);
    }
  }

  lemma CreateStep(w: World, u: UserId, a: AlbumId, token: Token)
    requires AlbumsInv(w) && Feasible(w, Create(u, a, token))
    ensures AlbumsInv(Step(w, Create(u, a, token)))
  {
    hide AlbumInv, HeldAfterDelivery, CommittedAfter, ReservedAfter, StartsDeletion;
    NewAlbumInv(u, token);
  }

  lemma DeleteAlbumStep(w: World, a: AlbumId, caller: Token)
    requires AlbumsInv(w)
    ensures AlbumsInv(Step(w, DeleteAlbum(a, caller)))
  {
    hide AlbumInv, Retire, HeldAfterDelivery, CommittedAfter, ReservedAfter, StartsDeletion;
  }

  lemma OtherStep(w: World, e: Event)
    requires AlbumsInv(w) && !TouchesAlbums(e)
    ensures AlbumsInv(Step(w, e))
  {
    OtherEventsLeaveAlbums(w, e);
    hide AlbumInv, Apply, HeldAfter;
  }

  lemma AlbumsStep(w: World, e: Event)
    requires AlbumsInv(w) && Feasible(w, e)
    ensures AlbumsInv(Step(w, e))
  {
    hide Step, AlbumsInv, Feasible;
    match e
    case Create(u, a, token) => CreateStep(w, u, a, token);
    case Rotate(a, rotation) => RotateStep(w, a, rotation);
    case Invite(a, delivery, minted) => InviteStep(w, a, delivery, minted);
    case Revoke(a, caller, target) => RevokeStep(w, a, caller, target);
    case DeleteAlbum(a, caller) => DeleteAlbumStep(w, a, caller);
    case Confirm(id, a, r) => ConfirmStep(w, id, a, r);
    case Leave(u, a) => LeaveStep(w, u, a);
    case _ => OtherStep(w, e);
  }
}
