/** Avatar rows over whole runs. */
module AvatarRuns {
  import opened Basics
  import opened EpochEnvelope
  import opened Schema
  import opened Albums
  import opened ObjectStore
  import opened World
  import opened ObjectRuns
  import AccountRuns
  import T = Transactions

  // Every avatar belongs to an active member, who has at most one current and one pending avatar in the album
  ghost predicate FaceInv(albums: map<AlbumId, Album>, avatars: map<AvatarId, Avatar>) {
    && (forall f :: f in avatars ==> avatars[f].album in albums && albums[avatars[f].album].IsActive(avatars[f].member))
    && (forall f, g | f in avatars && g in avatars && avatars[f].album == avatars[g].album && avatars[f].member == avatars[g].member
          :: avatars[f].confirmed == avatars[g].confirmed ==> f == g)
  }

  ghost predicate FacesFit(db: Db) { FaceInv(db.albums, db.objects.avatars) }

  // Fewer avatars over albums that keep the members those avatars belong to
  lemma FewerFaces(db: Db, db': Db)
    requires FacesFit(db)
    requires forall f :: f in db'.objects.avatars ==>
               && f in db.objects.avatars && db'.objects.avatars[f] == db.objects.avatars[f]
               && var row := db.objects.avatars[f]; row.album in db'.albums && db'.albums[row.album].IsActive(row.member)
    ensures FacesFit(db')
  {
  }

  ghost predicate MembersStay(db: Db, db': Db) {
    forall a, t :: a in db.albums && db.albums[a].IsActive(t) ==> a in db'.albums && db'.albums[a].IsActive(t)
  }

  lemma OthersKeepMembers(w: World, e: Event)
    requires AlbumsInv(w) && Feasible(w, e) && !e.Revoke? && !e.Leave? && !e.DeleteAlbum?
    ensures MembersStay(w.db, Apply(w.db, e))
  {
    hide AlbumInv, Recheck, Upsert, Storable, Validated, Contiguous, Retire, Album.RotationRequired, Album.CurrentEpoch;
    if !TouchesAlbums(e) {
      OtherEventsLeaveAlbums(w, e);
    }
  }

  lemma RetiringFaces(w: World, e: Event)
    requires AlbumsInv(w) && Feasible(w, e) && FacesFit(w.db)
    requires !WritesRows(e) && !e.Revoke? && !e.Leave? && !e.DeleteAlbum?
    ensures FacesFit(Apply(w.db, e))
  {
    OthersKeepMembers(w, e);
    OtherEventsRetire(w.db, e);
    hide AlbumsInv, Feasible, Apply, RetiredMedia, RetiredAvatars, MediaKeys, AvatarKeys, Enqueue;
    FewerFaces(w.db, Apply(w.db, e));
  }

  lemma RevokeFaces(db: Db, a: AlbumId, caller: Token, target: Token)
    requires FacesFit(db)
    ensures FacesFit(T.RevokeMember(db, a, caller, target).db)
  {
    hide MediaKeys, AvatarKeys, Enqueue;
    FewerFaces(db, T.RevokeMember(db, a, caller, target).db);
  }

  lemma DeleteAlbumFaces(db: Db, a: AlbumId, caller: Token)
    requires FacesFit(db)
    ensures FacesFit(T.DeleteAlbum(db, a, caller).db)
  {
    hide MediaKeys, AvatarKeys, Enqueue;
    FewerFaces(db, T.DeleteAlbum(db, a, caller).db);
  }

  lemma LeaveFaces(db: Db, u: UserId, a: AlbumId)
    requires FacesFit(db)
    ensures FacesFit(T.RemoveMembership(db, u, a).db)
  {
    hide MediaKeys, AvatarKeys, Enqueue, T.PlannedOutcome;
    FewerFaces(db, T.RemoveMembership(db, u, a).db);
  }

  lemma ReserveFaces(db: Db, face: AvatarId, avatar: Avatar)
    requires FacesFit(db)
    ensures FacesFit(T.ReserveAvatar(db, face, avatar).db)
  {
    hide MediaKeys, AvatarKeys, Enqueue, AvatarKey;
  }

  lemma ConfirmFaces(db: Db, a: AlbumId, token: Token, face: AvatarId)
    requires FacesFit(db)
    ensures FacesFit(T.ConfirmAvatar(db, a, token, face).db)
  {
    hide MediaKeys, AvatarKeys, Enqueue;
  }

  ghost predicate LeavesFaces(e: Event) {
    e.Acknowledge? || e.Reschedule? || e.Reserve? || e.Confirm?
  }

  lemma SameFaces(db: Db, e: Event)
    requires LeavesFaces(e)
    ensures Apply(db, e).objects.avatars == db.objects.avatars && MembersStay(db, Apply(db, e))
  {
    hide Enqueue, Album.RotationRequired, Album.CurrentEpoch, Rekeyed, StaleKeys;
  }

  lemma QueueFaces(w: World, e: Event)
    requires FacesFit(w.db) && LeavesFaces(e)
    ensures FacesFit(Apply(w.db, e))
  {
    SameFaces(w.db, e);
    hide Apply;
    FewerFaces(w.db, Apply(w.db, e));
  }

  lemma FacesStep(w: World, e: Event)
    requires AlbumsInv(w) && Feasible(w, e) && FacesFit(w.db)
    ensures FacesFit(Step(w, e).db)
  {
    hide AlbumsInv, Feasible, FacesFit, T.RevokeMember, T.DeleteAlbum, T.RemoveMembership, T.ReserveAvatar, T.ConfirmAvatar;
    match e
    case Revoke(a, caller, target) => RevokeFaces(w.db, a, caller, target);
    case DeleteAlbum(a, caller) => DeleteAlbumFaces(w.db, a, caller);
    case Leave(u, a) => LeaveFaces(w.db, u, a);
    case ReserveAvatar(face, avatar) => ReserveFaces(w.db, face, avatar);
    case ConfirmAvatar(a, token, face) => ConfirmFaces(w.db, a, token, face);
    case Acknowledge(_) => QueueFaces(w, e);
    case Reschedule(_) => QueueFaces(w, e);
    case Reserve(_, _) => QueueFaces(w, e);
    case Confirm(_, _, _) => QueueFaces(w, e);
    case _ => RetiringFaces(w, e);
  }

  lemma {:induction false} FacesHold(w: World, es: seq<Event>)
    requires AlbumsInv(w) && FacesFit(w.db) && Run(w, es)
    ensures FacesFit(Exec(w, es).db)
    decreases |es|
  {
    hide AlbumsInv, FacesFit, Feasible, Step;
    if es != [] {
      AlbumsStep(w, es[0]);
      FacesStep(w, es[0]);
      FacesHold(Step(w, es[0]), es[1..]);
    }
  }

  // In every run each active member has at most one current avatar and one pending, and nobody else has any
  lemma AvatarsBelongToActiveMembers(es: seq<Event>)
    requires Run(START, es)
    ensures FacesFit(Exec(START, es).db)
  {
    FacesHold(START, es);
  }
}
