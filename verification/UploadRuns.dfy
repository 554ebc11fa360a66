/** Media rows over whole runs: reservations, confirmation and album generations. */
module UploadRuns {
  import opened Basics
  import opened EpochEnvelope
  import opened Schema
  import opened Albums
  import opened ObjectStore
  import opened World
  import opened ObjectRuns
  import T = Transactions

  type Reservations = map<ReservationId, (MediaId, Media)>

  ghost predicate FitsAlbum(row: Media, album: Album) {
    && row.uploader in album.members
    && row.epochTag in album.epochs
    && (row.confirmed <==> row.albumSeq.Some?)
    && (row.albumSeq.Some? ==> 1 <= row.albumSeq.value <= album.generation)
  }

  // A row hangs off its album and member, holds what its reservation stored, and is numbered exactly when confirmed
  ghost predicate RowInv(db: Db, reserved: Reservations, id: MediaId, row: Media) {
    && row.album in db.albums && FitsAlbum(row, db.albums[row.album])
    && row.reservation in reserved && reserved[row.reservation] == (id, T.Pending(row))
  }

  ghost predicate NumbersDiffer(media: map<MediaId, Media>) {
    forall i, j | i in media && j in media && media[i].album == media[j].album && media[i].albumSeq.Some?
      :: media[i].albumSeq == media[j].albumSeq ==> i == j
  }

  ghost predicate RowsInv(db: Db, reserved: Reservations) {
    && (forall id :: id in db.objects.media ==> RowInv(db, reserved, id, db.objects.media[id]))
    && NumbersDiffer(db.objects.media)
  }

  // ---------- rows that stay while tables change around them ----------

  ghost predicate StillFits(db: Db, db': Db, row: Media) {
    row.album in db.albums ==>
      && row.album in db'.albums
      && var a, b := db.albums[row.album], db'.albums[row.album];
      (row.uploader in a.members ==> row.uploader in b.members)
      && a.epochs.Keys <= b.epochs.Keys && a.generation <= b.generation
  }

  lemma RowsSurvive(db: Db, db': Db, reserved: Reservations)
    requires RowsInv(db, reserved)
    requires forall id :: id in db'.objects.media ==>
               id in db.objects.media && db'.objects.media[id] == db.objects.media[id] && StillFits(db, db', db.objects.media[id])
    ensures RowsInv(db', reserved)
  {
  }

  ghost predicate Shrinks(e: Event) { e.Leave? || e.DeleteAlbum? }

  predicate AlbumGrows(a: Album, b: Album) {
    a.members.Keys <= b.members.Keys && a.epochs.Keys <= b.epochs.Keys && a.generation <= b.generation
  }

  ghost predicate AlbumsOnlyGrow(db: Db, db': Db) {
    forall a :: a in db.albums ==> a in db'.albums && AlbumGrows(db.albums[a], db'.albums[a])
  }

  lemma RotationGrows(db: Db, a: AlbumId, rotation: EpochInput)
    ensures AlbumsOnlyGrow(db, T.InsertEpoch(db, a, rotation).db)
  {
    hide Storable, Upsert, MemberSetDigest;
  }

  lemma DeliveryGrows(db: Db, a: AlbumId, delivery: DeliverInput, minted: Token)
    ensures AlbumsOnlyGrow(db, T.DeliverMember(db, a, delivery, minted).db)
  {
    hide Recheck, Upsert;
  }

  lemma RevocationGrows(db: Db, a: AlbumId, caller: Token, target: Token)
    ensures AlbumsOnlyGrow(db, T.RevokeMember(db, a, caller, target).db)
  {
    hide Retire;
  }

  lemma AlbumsGrow(w: World, e: Event)
    requires AlbumsInv(w) && Feasible(w, e) && !Shrinks(e)
    ensures AlbumsOnlyGrow(w.db, Apply(w.db, e))
  {
    hide AlbumInv, T.InsertEpoch, T.DeliverMember, T.RevokeMember;
    if !TouchesAlbums(e) {
      hide Apply;
      OtherEventsLeaveAlbums(w, e);
    } else {
      match e
      case Create(_, _, _) =>
      case Rotate(a, rotation) => RotationGrows(w.db, a, rotation);
      case Invite(a, delivery, minted) => DeliveryGrows(w.db, a, delivery, minted);
      case Revoke(a, caller, target) => RevocationGrows(w.db, a, caller, target);
      case Confirm(_, _, _) =>
    }
  }

  lemma RetiredRows(w: World, e: Event)
    requires AlbumsInv(w) && Feasible(w, e) && !WritesRows(e) && !Shrinks(e)
    requires RowsInv(w.db, w.hist.reserved)
    ensures RowsInv(Apply(w.db, e), w.hist.reserved)
  {
    AlbumsGrow(w, e);
    OtherEventsRetire(w.db, e);
    hide Apply, Feasible, AlbumInv, RowInv, NumbersDiffer, RetiredMedia, RetiredAvatars, MediaKeys, AvatarKeys, Enqueue;
    RowsSurvive(w.db, Apply(w.db, e), w.hist.reserved);
  }

  lemma LeaveRows(db: Db, reserved: Reservations, u: UserId, a: AlbumId)
    requires RowsInv(db, reserved)
    ensures RowsInv(T.RemoveMembership(db, u, a).db, reserved)
  {
    hide RowInv, NumbersDiffer, MediaKeys, AvatarKeys, Enqueue, T.OutcomeOf, T.PlannedOutcome;
    RowsSurvive(db, T.RemoveMembership(db, u, a).db, reserved);
  }

  lemma DeleteAlbumRows(db: Db, reserved: Reservations, a: AlbumId, caller: Token)
    requires RowsInv(db, reserved)
    ensures RowsInv(T.DeleteAlbum(db, a, caller).db, reserved)
  {
    hide RowInv, NumbersDiffer, MediaKeys, AvatarKeys, Enqueue;
    RowsSurvive(db, T.DeleteAlbum(db, a, caller).db, reserved);
  }

  // ---------- reserving and confirming ----------

  lemma ReserveRows(db: Db, reserved: Reservations, id: MediaId, row: Media)
    requires RowsInv(db, reserved) && row.reservation !in reserved
    ensures var tx := T.ReserveUpload(db, id, row);
            RowsInv(tx.db, if tx.result.Ok? then reserved[row.reservation := (id, tx.result.value)] else reserved)
  {
    hide Enqueue, StaleKeys, SameBlob, SameThumb, Album.WrapDrift;
  }

  lemma ConfirmRows(db: Db, reserved: Reservations, id: MediaId, a: AlbumId, r: ReservationId)
    requires RowsInv(db, reserved)
    ensures RowsInv(T.MarkConfirmed(db, id, a, r).db, reserved)
  {
  }

  lemma SameRows(db: Db, db': Db, reserved: Reservations)
    requires RowsInv(db, reserved) && db'.objects.media == db.objects.media && db'.albums == db.albums
    ensures RowsInv(db', reserved)
  {
    RowsSurvive(db, db', reserved);
  }

  lemma AvatarsLeaveMedia(db: Db, e: Event)
    requires e.ReserveAvatar? || e.ConfirmAvatar? || e.Acknowledge? || e.Reschedule?
    ensures Apply(db, e).objects.media == db.objects.media && Apply(db, e).albums == db.albums
  {
    hide AvatarKeys, MediaKeys, Enqueue, AvatarKey;
  }

  lemma AvatarRows(db: Db, reserved: Reservations, e: Event)
    requires RowsInv(db, reserved) && (e.ReserveAvatar? || e.ConfirmAvatar? || e.Acknowledge? || e.Reschedule?)
    ensures RowsInv(Apply(db, e), reserved)
  {
    AvatarsLeaveMedia(db, e);
    hide RowsInv, Apply;
    SameRows(db, Apply(db, e), reserved);
  }

  lemma RowsStep(w: World, e: Event)
    requires AlbumsInv(w) && Feasible(w, e) && RowsInv(w.db, w.hist.reserved)
    ensures RowsInv(Step(w, e).db, Step(w, e).hist.reserved)
  {
    hide AlbumsInv, RowsInv;
    match e
    case Reserve(id, row) => ReserveRows(w.db, w.hist.reserved, id, row);
    case Confirm(id, a, r) => ConfirmRows(w.db, w.hist.reserved, id, a, r);
    case Leave(u, a) => LeaveRows(w.db, w.hist.reserved, u, a);
    case DeleteAlbum(a, caller) => DeleteAlbumRows(w.db, w.hist.reserved, a, caller);
    case ReserveAvatar(_, _) => AvatarRows(w.db, w.hist.reserved, e);
    case ConfirmAvatar(_, _, _) => AvatarRows(w.db, w.hist.reserved, e);
    case Acknowledge(_) => AvatarRows(w.db, w.hist.reserved, e);
    case Reschedule(_) => AvatarRows(w.db, w.hist.reserved, e);
    case _ => RetiredRows(w, e);
  }
}
