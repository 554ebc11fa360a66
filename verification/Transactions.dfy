/** Each repository transaction as a function of the tables. An error leaves the tables as they were. */
module Transactions {
  import opened Basics
  import opened EpochEnvelope
  import opened Schema
  import Albums
  import opened ObjectStore

  datatype Tx<+T> = Tx(db: Db, result: Result<T, Error>)

  function Fail<T>(db: Db, e: Error): Tx<T> { Tx(db, Err(e)) }

  function WithAlbum(db: Db, a: AlbumId, album: Album): Db {
    db.(albums := db.albums[a := album])
  }

  // ---------- accounts and albums ----------

  function Register(db: Db, u: UserId): Tx<()> {
    if u in db.users then Fail(db, ConstraintViolation) else Tx(db.(users := db.users[u := false]), Ok(()))
  }

  function CreateWithAdmin(db: Db, u: UserId, a: AlbumId, token: Token): Tx<Token> {
    if u !in db.users then Fail(db, UserNotFound)
    else if db.users[u] then Fail(db, AccountDeleting)
    else if a in db.albums then Fail(db, ConstraintViolation)
    else Tx(WithAlbum(db, a, Albums.NewAlbum(u, token)), Ok(token))
  }

  ghost function InsertEpoch(db: Db, a: AlbumId, input: Albums.EpochInput): Tx<()> {
    if a !in db.albums then Fail(db, AlbumNotFound)
    else
      match Albums.InsertEpoch(db.albums[a], input)
      case Err(e) => Fail(db, e)
      case Ok(album) => Tx(WithAlbum(db, a, album), Ok(()))
  }

  ghost function DeliverMember(db: Db, a: AlbumId, input: Albums.DeliverInput, minted: Token): Tx<Token> {
    if a !in db.albums then Fail(db, AlbumNotFound)
    else
      match Albums.Deliver(db.albums[a], db.users, input, minted)
      case Err(e) => Fail(db, e)
      case Ok((album, token)) => Tx(WithAlbum(db, a, album), Ok(token))
  }

  ghost function AvatarsOf(o: Objects, a: AlbumId, t: Token): set<AvatarId> {
    set id | id in o.avatars && o.avatars[id].album == a && o.avatars[id].member == t
  }

  ghost function MediaOf(o: Objects, a: AlbumId, t: Token): set<MediaId> {
    set id | id in o.media && o.media[id].album == a && o.media[id].uploader == t
  }

  ghost function AlbumMedia(o: Objects, a: AlbumId): set<MediaId> {
    set id | id in o.media && o.media[id].album == a
  }

  ghost function AlbumAvatars(o: Objects, a: AlbumId): set<AvatarId> {
    set id | id in o.avatars && o.avatars[id].album == a
  }

  // RevokeMemberTx; the result says whether the target was already out
  ghost function RevokeMember(db: Db, a: AlbumId, caller: Token, target: Token): Tx<bool> {
    if a !in db.albums then Fail(db, AlbumNotFound)
    else
      match Albums.Revoke(db.albums[a], caller, target)
      case Err(e) => Fail(db, e)
      case Ok((album, already)) =>
        if already then Tx(db, Ok(true))
        else Tx(WithAlbum(db, a, album).(objects := Retire(db.objects, {}, AvatarsOf(db.objects, a, target))), Ok(false))
  }

  // removeAlbum: queue every object, then the row whose dependents cascade
  ghost function RemoveAlbum(db: Db, a: AlbumId): Db {
    db.(albums := db.albums - {a},
        objects := Retire(db.objects, AlbumMedia(db.objects, a), AlbumAvatars(db.objects, a)))
  }

  ghost function DeleteAlbum(db: Db, a: AlbumId, caller: Token): Tx<()> {
    if a !in db.albums then Fail(db, AlbumNotFound)
    else if !db.albums[a].IsActive(caller) then Fail(db, CallerRevoked)
    else if db.albums[a].members[caller].role != Admin then Fail(db, CallerNotAdmin)
    else Tx(RemoveAlbum(db, a), Ok(()))
  }

  // ---------- media ----------

  function Pending(row: Media): Media { row.(confirmed := false, albumSeq := None) }

  // ReserveUploadRow; the result is the row as stored, with the keys it kept
  function ReserveUpload(db: Db, id: MediaId, row: Media): Tx<Media> {
    if row.album !in db.albums then Fail(db, AlbumNotFound)
    else
      var album := db.albums[row.album];
      if album.CurrentEpoch() < 0 then Fail(db, NoEpoch)
      else if row.epochTag != album.CurrentEpoch() then Fail(db, EpochMismatch)
      else if album.RotationRequired() then Fail(db, PendingRotation)
      else if id in db.objects.media && db.objects.media[id].album == row.album && db.objects.media[id].confirmed then
        Fail(db, MediaConfirmed)
      else if id in db.objects.media && db.objects.media[id].album == row.album && db.objects.media[id].uploader != row.uploader then
        Fail(db, MediaNotOwned)
      else if (id in db.objects.media && db.objects.media[id].album != row.album) || row.uploader !in album.members then
        Fail(db, ConstraintViolation)
      else
        var objects := PutMedia(db.objects, id, Pending(row));
        Tx(db.(objects := objects), Ok(objects.media[id]))
  }

  predicate IsPending(o: Objects, id: MediaId, a: AlbumId, r: ReservationId) {
    id in o.media && o.media[id].album == a && !o.media[id].confirmed && o.media[id].reservation == r
  }

  // MarkConfirmed; the result is the album generation the photo was given
  function MarkConfirmed(db: Db, id: MediaId, a: AlbumId, r: ReservationId): Tx<nat> {
    if a !in db.albums then Fail(db, AlbumNotFound)
    else if !IsPending(db.objects, id, a, r) then Fail(db, MediaNotFound)
    else if db.albums[a].RotationRequired() then Fail(db, PendingRotation)
    else if db.objects.media[id].epochTag != db.albums[a].CurrentEpoch() then Fail(db, EpochMismatch)
    else
      var g := db.albums[a].generation + 1;
      var row := db.objects.media[id].(confirmed := true, albumSeq := Some(g));
      Tx(WithAlbum(db, a, db.albums[a].(generation := g)).(objects := db.objects.(media := db.objects.media[id := row])), Ok(g))
  }

  // QueuePendingCleanup; the result is the number of rows retired
  ghost function QueuePendingCleanup(db: Db, id: MediaId, a: AlbumId, token: Token, r: ReservationId): Tx<nat> {
    if IsPending(db.objects, id, a, r) && db.objects.media[id].uploader == token
    then Tx(db.(objects := Retire(db.objects, {id}, {})), Ok(1))
    else Tx(db, Ok(0))
  }

  ghost function PendingAmong(o: Objects, ids: set<MediaId>): set<MediaId> {
    set id | id in ids && id in o.media && !o.media[id].confirmed
  }

  // QueueStalePendingCleanup over the rows the age limit and the row locks picked
  ghost function SweepMedia(db: Db, ids: set<MediaId>): Tx<nat> {
    var stale := PendingAmong(db.objects, ids);
    Tx(db.(objects := Retire(db.objects, stale, {})), Ok(|stale|))
  }

  ghost function DeleteOwnedMedia(db: Db, a: AlbumId, id: MediaId, token: Token): Tx<()> {
    if a !in db.albums then Fail(db, AlbumNotFound)
    else if !(id in db.objects.media && db.objects.media[id].album == a && db.objects.media[id].confirmed) then Fail(db, MediaNotFound)
    else if db.objects.media[id].uploader != token then Fail(db, MediaNotOwned)
    else Tx(db.(objects := Retire(db.objects, {id}, {})), Ok(()))
  }

  // ---------- avatars ----------

  ghost function ReserveAvatar(db: Db, id: AvatarId, row: Avatar): Tx<Avatar> {
    if row.album !in db.albums then Fail(db, AlbumNotFound)
    else if !db.albums[row.album].IsActive(row.member) then Fail(db, CallerRevoked)
    else if id in db.objects.avatars && (db.objects.avatars[id].album != row.album || db.objects.avatars[id].member != row.member) then
      Fail(db, AvatarNotOwned)
    else if id in db.objects.avatars && db.objects.avatars[id].confirmed then Fail(db, AvatarConfirmed)
    else
      var objects := PutAvatar(db.objects, id, row.(confirmed := false));
      Tx(db.(objects := objects), Ok(objects.avatars[id]))
  }

  // Avatar Confirm; the result says whether anything changed
  ghost function ConfirmAvatar(db: Db, a: AlbumId, t: Token, id: AvatarId): Tx<bool> {
    if a !in db.albums then Fail(db, AlbumNotFound)
    else if !db.albums[a].IsActive(t) then Fail(db, CallerRevoked)
    else if id !in AvatarsOf(db.objects, a, t) then Fail(db, AvatarNotFound)
    else if db.objects.avatars[id].confirmed then Tx(db, Ok(false))
    else
      var kept := Retire(db.objects, {}, AvatarsOf(db.objects, a, t) - {id});
      Tx(db.(objects := kept.(avatars := kept.avatars[id := db.objects.avatars[id].(confirmed := true)])), Ok(true))
  }

  ghost function DropPendingAvatar(db: Db, a: AlbumId, t: Token, id: AvatarId): Tx<()> {
    if id in PendingAvatars(db.objects, a, t)
    then Tx(db.(objects := Retire(db.objects, {}, {id})), Ok(()))
    else Tx(db, Ok(()))
  }

  ghost function RemoveAvatars(db: Db, a: AlbumId, t: Token): Tx<()> {
    Tx(db.(objects := Retire(db.objects, {}, AvatarsOf(db.objects, a, t))), Ok(()))
  }

  ghost function SweepAvatars(db: Db, ids: set<AvatarId>): Tx<()> {
    var stale := set id | id in ids && id in db.objects.avatars && !db.objects.avatars[id].confirmed;
    Tx(db.(objects := Retire(db.objects, {}, stale)), Ok(()))
  }

  // ---------- the cleanup queue ----------

  function DeleteObjectCleanupKey(db: Db, k: Key): Db {
    db.(objects := db.objects.(queue := db.objects.queue - {k}))
  }

  // RescheduleObjectCleanupKey; the result is the new attempt count, zero when the key is gone
  function RescheduleObjectCleanupKey(db: Db, k: Key): Tx<nat> {
    if k in db.objects.queue then
      var n := db.objects.queue[k] + 1;
      Tx(db.(objects := db.objects.(queue := db.objects.queue[k := n])), Ok(n))
    else Tx(db, Ok(0))
  }

  // ---------- account deletion ----------

  datatype Outcome = LeaveAlbum | DropAlbum | DropShared | EraseTraces

  // DeletionMembership.Outcome
  function OutcomeOf(active: bool, activeMembers: nat, role: Role): Outcome {
    if !active then EraseTraces
    else if activeMembers <= 1 then DropAlbum
    else if role == Admin then DropShared
    else LeaveAlbum
  }

  ghost predicate IsMember(db: Db, u: UserId, a: AlbumId) {
    a in db.albums && Albums.TokenOf(db.albums[a], u).Some?
  }

  ghost function TokenIn(db: Db, u: UserId, a: AlbumId): Token
    requires IsMember(db, u, a)
  {
    Albums.TokenOf(db.albums[a], u).value
  }

  ghost function PlannedOutcome(db: Db, u: UserId, a: AlbumId): Outcome
    requires IsMember(db, u, a)
  {
    var t := TokenIn(db, u, a);
    OutcomeOf(db.albums[a].IsActive(t), |db.albums[a].Active()|, db.albums[a].members[t].role)
  }

  ghost predicate PlanIsStale(db: Db, u: UserId, confirmed: set<AlbumId>) {
    exists a :: IsMember(db, u, a) && PlannedOutcome(db, u, a) == DropShared && a !in confirmed
  }

  // Accept: claim the receipt, check the plan, mark the account and queue the job
  ghost function Accept(db: Db, u: UserId, confirmed: set<AlbumId>, receipt: bytes): Tx<()> {
    if u !in db.users then Fail(db, UserNotFound)
    else if receipt in db.receipts && db.receipts[receipt] then Fail(db, ReceiptAbandoned)
    else
      var claimed := db.(receipts := db.receipts[receipt := false]);
      if db.users[u] then Tx(claimed, Ok(()))
      else if PlanIsStale(db, u, confirmed) then Fail(db, PlanStale)
      else Tx(claimed.(users := db.users[u := true], jobs := db.jobs + {u}), Ok(()))
  }

  // AbandonReceipt; the result says whether acceptance had already won
  function AbandonReceipt(db: Db, receipt: bytes): Tx<bool> {
    if receipt in db.receipts then Tx(db, Ok(!db.receipts[receipt]))
    else Tx(db.(receipts := db.receipts[receipt := true]), Ok(false))
  }

  function PruneReceipts(db: Db, expired: set<bytes>): Db {
    db.(receipts := db.receipts - expired)
  }

  // What leaving does to the album: an active member departs, then the identity row goes
  function Leave(album: Album, t: Token): Album
    requires t in album.members
  {
    Albums.Erase(if album.IsActive(t) then Albums.Depart(album, t) else album, t)
  }

  ghost function RemoveMembership(db: Db, u: UserId, a: AlbumId): Tx<Option<Outcome>> {
    if !IsMember(db, u, a) then Tx(db, Ok(None))
    else
      var t := TokenIn(db, u, a);
      var outcome := PlannedOutcome(db, u, a);
      if outcome == DropAlbum || outcome == DropShared then Tx(RemoveAlbum(db, a), Ok(Some(outcome)))
      else
        Tx(WithAlbum(db, a, Leave(db.albums[a], t))
             .(objects := Retire(db.objects, MediaOf(db.objects, a, t), AvatarsOf(db.objects, a, t))),
           Ok(Some(outcome)))
  }

  // FinishAccount; the result says whether the account is gone
  ghost function FinishAccount(db: Db, u: UserId): Tx<bool> {
    if u !in db.users then Tx(db, Ok(true))
    else if exists a :: IsMember(db, u, a) then Tx(db, Ok(false))
    else Tx(db.(users := db.users - {u}, jobs := db.jobs - {u}), Ok(true))
  }
}
