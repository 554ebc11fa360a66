/** Accounts over whole runs: what a deletion may do rests on who had agreed to it. */
module AccountRuns {
  import opened Basics
  import opened EpochEnvelope
  import opened Schema
  import opened Albums
  import opened World
  import T = Transactions

  // The album is in what its deleting admin confirmed, or nobody else is in it
  ghost predicate Agreed(album: Album, t: Token, a: AlbumId, consent: map<UserId, set<AlbumId>>) {
    SoleAdmin(album, t) && album.members[t].user in consent ==>
      a in consent[album.members[t].user] || album.Active() == {t}
  }

  ghost predicate ConsentInv(db: Db, consent: map<UserId, set<AlbumId>>) {
    forall a, t :: a in db.albums && t in db.albums[a].members ==> Agreed(db.albums[a], t, a, consent)
  }

  ghost predicate UsersInv(w: World) {
    && w.db.users.Keys <= w.hist.users && w.hist.consent.Keys <= w.hist.users && w.db.jobs <= w.db.users.Keys
    && (forall u :: u in w.db.users && w.db.users[u] ==> u in w.hist.consent)
    && (forall u :: u in w.hist.consent ==> !Live(w.db.users, u))
  }

  ghost predicate AccountsInv(w: World) {
    UsersInv(w) && ConsentInv(w.db, w.hist.consent)
  }

  lemma UsersStep(w: World, e: Event)
    requires UsersInv(w) && Feasible(w, e)
    ensures UsersInv(Step(w, e))
  {
    hide HeldAfter, CommittedAfter, ReservedAfter, Validated, Contiguous, ObjectStore.Retire, ObjectStore.PutMedia;
    hide ObjectStore.PutAvatar, ObjectStore.MintedFor, Albums.InsertEpoch, Albums.Deliver, Albums.Revoke, T.PlanIsStale;
  }

  // ---------- the album keeps its admin, and a deleting admin invites nobody ----------

  ghost predicate OnlyLoses(a: Album, b: Album) {
    && b.Active() <= a.Active()
    && forall t :: SoleAdmin(b, t) ==> SoleAdmin(a, t) && b.members[t].user == a.members[t].user
  }

  lemma LosingAlbumsKeepsConsent(db: Db, db': Db, consent: map<UserId, set<AlbumId>>)
    requires ConsentInv(db, consent)
    requires forall a :: a in db'.albums ==> a in db.albums && OnlyLoses(db.albums[a], db'.albums[a])
    ensures ConsentInv(db', consent)
  {
  }

  lemma OneAdmin(a: Album, s: Token, t: Token)
    requires RosterInv(a) && s in a.members && t in a.members
    requires a.members[s].role == Admin && a.members[t].role == Admin
    ensures s == t && SoleAdmin(a, t)
  {
  }

  lemma DepartLoses(a: Album, t: Token)
    requires t in a.members
    ensures OnlyLoses(a, Depart(a, t)) && OnlyLoses(a, a)
  {
  }

  lemma RevokeConsent(db: Db, consent: map<UserId, set<AlbumId>>, a: AlbumId, caller: Token, target: Token)
    requires ConsentInv(db, consent)
    ensures ConsentInv(T.RevokeMember(db, a, caller, target).db, consent)
  {
    var db' := T.RevokeMember(db, a, caller, target).db;
    if a in db.albums && target in db.albums[a].members {
      DepartLoses(db.albums[a], target);
    }
    LosingAlbumsKeepsConsent(db, db', consent);
  }

  // The albums left after one membership goes
  lemma LeftAlbums(db: Db, u: UserId, a: AlbumId)
    ensures var db' := T.RemoveMembership(db, u, a).db;
            forall b :: b in db'.albums ==>
                          && b in db.albums
                          && db'.albums[b] ==
                             if b == a && T.IsMember(db, u, a) then T.Leave(db.albums[a], T.TokenIn(db, u, a)) else db.albums[b]
  {
    hide ObjectStore.Retire, T.Leave, T.PlannedOutcome;
  }

  lemma LeaveConsent(db: Db, consent: map<UserId, set<AlbumId>>, u: UserId, a: AlbumId)
    requires ConsentInv(db, consent)
    requires a in db.albums ==> RosterInv(db.albums[a])
    ensures ConsentInv(T.RemoveMembership(db, u, a).db, consent)
  {
  }

  // Whoever invites has agreed to nothing
  lemma InviteConsent(w: World, consent: map<UserId, set<AlbumId>>, a: AlbumId, delivery: DeliverInput, minted: Token)
    requires ConsentInv(w.db, consent) && AlbumsInv(w)
    requires a in w.db.albums && delivery.sender in w.db.albums[a].members ==>
               var sender := w.db.albums[a].members[delivery.sender].user; sender !in consent || !Live(w.db.users, sender)
    ensures ConsentInv(T.DeliverMember(w.db, a, delivery, minted).db, consent)
  {
    if T.DeliverMember(w.db, a, delivery, minted).result.Ok? {
      var album, sender := w.db.albums[a], delivery.sender;
      var (after, token) := Deliver(album, w.db.users, delivery, minted).value;
      OneAdmin(album, sender, sender);
      forall t | t in after.members ensures Agreed(after, t, a, consent) {
        if SoleAdmin(after, t) {
          OneAdmin(album, sender, t);
        }
      }
    }
  }

  lemma AloneWhenOne(a: Album, t: Token)
    requires a.IsActive(t) && |a.Active()| <= 1
    ensures a.Active() == {t}
  {
    var rest := a.Active() - {t};
    assert a.Active() == rest + {t};
  }

  // A fresh plan agrees with the account's own albums
  lemma PlanCovers(db: Db, u: UserId, confirmed: set<AlbumId>, a: AlbumId, t: Token)
    requires a in db.albums && UniqueUsers(db.albums[a]) && SoleAdmin(db.albums[a], t) && db.albums[a].members[t].user == u
    requires !T.PlanIsStale(db, u, confirmed)
    ensures a in confirmed || db.albums[a].Active() == {t}
  {
    var album := db.albums[a];
    assert IsTokenOf(album, u, t);
    assert T.IsMember(db, u, a) && T.TokenIn(db, u, a) == t;
    assert T.PlannedOutcome(db, u, a) == T.DropShared ==> a in confirmed;
    if |album.Active()| <= 1 {
      AloneWhenOne(album, t);
    }
  }

  lemma AcceptConsent(w: World, u: UserId, confirmed: set<AlbumId>, receipt: bytes)
    requires AccountsInv(w) && AlbumsInv(w) && StartsDeletion(w.db, Accept(u, confirmed, receipt))
    ensures ConsentInv(w.db, w.hist.consent[u := confirmed])
  {
    hide KeyInv, T.PlanIsStale;
    forall a, t | a in w.db.albums && t in w.db.albums[a].members
      ensures Agreed(w.db.albums[a], t, a, w.hist.consent[u := confirmed])
    {
      assert Agreed(w.db.albums[a], t, a, w.hist.consent);
      if SoleAdmin(w.db.albums[a], t) && w.db.albums[a].members[t].user == u {
        PlanCovers(w.db, u, confirmed, a, t);
      }
    }
  }

  lemma SameAlbumsSameConsent(db: Db, db': Db, consent: map<UserId, set<AlbumId>>)
    requires ConsentInv(db, consent) && db'.albums == db.albums
    ensures ConsentInv(db', consent)
  {
    hide Agreed;
  }

  lemma CreateConsent(db: Db, consent: map<UserId, set<AlbumId>>, u: UserId, a: AlbumId, token: Token)
    requires ConsentInv(db, consent)
    ensures ConsentInv(T.CreateWithAdmin(db, u, a, token).db, consent)
  {
  }

  lemma DeleteConsent(db: Db, consent: map<UserId, set<AlbumId>>, a: AlbumId, caller: Token)
    requires ConsentInv(db, consent)
    ensures ConsentInv(T.DeleteAlbum(db, a, caller).db, consent)
  {
    hide Agreed, ObjectStore.Retire;
  }

  // Rotating or confirming leaves every roster as it is
  lemma SameRostersSameConsent(db: Db, consent: map<UserId, set<AlbumId>>, e: Event)
    requires ConsentInv(db, consent) && (e.Rotate? || e.Confirm?)
    ensures ConsentInv(Apply(db, e), consent)
  {
  }

  lemma OtherConsent(w: World, e: Event)
    requires AccountsInv(w) && AlbumsInv(w) && !TouchesAlbums(e)
    ensures ConsentInv(Apply(w.db, e), Record(w, e).consent)
  {
    OtherEventsLeaveAlbums(w, e);
    hide UsersInv, ConsentInv, Apply, HeldAfter, CommittedAfter, ReservedAfter;
    if StartsDeletion(w.db, e) {
      AcceptConsent(w, e.u, e.confirmed, e.receipt);
    }
    SameAlbumsSameConsent(w.db, Apply(w.db, e), Record(w, e).consent);
  }

  lemma AlbumRoster(w: World, a: AlbumId)
    requires AlbumsInv(w)
    ensures a in w.db.albums ==> RosterInv(w.db.albums[a])
  {
  }

  // What was agreed to stays enough under every event on albums, unless somebody who agreed invites
  lemma ConsentStep(w: World, consent: map<UserId, set<AlbumId>>, e: Event)
    requires AlbumsInv(w) && ConsentInv(w.db, consent) && TouchesAlbums(e)
    requires e.Invite? && e.a in w.db.albums && e.delivery.sender in w.db.albums[e.a].members ==>
               var sender := w.db.albums[e.a].members[e.delivery.sender].user; sender !in consent || !Live(w.db.users, sender)
    ensures ConsentInv(Apply(w.db, e), consent)
  {
    hide AlbumsInv, ConsentInv;
    hide T.RevokeMember, T.RemoveMembership, T.DeliverMember, T.CreateWithAdmin, T.DeleteAlbum, T.InsertEpoch, T.MarkConfirmed;
    match e
    case Revoke(a, caller, target) => RevokeConsent(w.db, consent, a, caller, target);
    case Leave(u, a) => AlbumRoster(w, a); LeaveConsent(w.db, consent, u, a);
    case Invite(a, delivery, minted) => InviteConsent(w, consent, a, delivery, minted);
    case Create(u, a, token) => CreateConsent(w.db, consent, u, a, token);
    case DeleteAlbum(a, caller) => DeleteConsent(w.db, consent, a, caller);
    case Rotate(_, _) => SameRostersSameConsent(w.db, consent, e);
    case Confirm(_, _, _) => SameRostersSameConsent(w.db, consent, e);
  }

  lemma NobodyLiveAgreed(w: World)
    requires AccountsInv(w)
    ensures forall u :: u in w.hist.consent ==> !Live(w.db.users, u)
  {
  }

  lemma AccountsStep(w: World, e: Event)
    requires AccountsInv(w) && AlbumsInv(w) && Feasible(w, e)
    ensures AccountsInv(Step(w, e))
  {
    UsersStep(w, e);
    hide UsersInv, AlbumsInv, ConsentInv, Feasible, Apply, HeldAfter, CommittedAfter, ReservedAfter;
    if TouchesAlbums(e) {
      NobodyLiveAgreed(w);
      ConsentStep(w, w.hist.consent, e);
    } else {
      OtherConsent(w, e);
    }
  }
}
