/** What each transaction of an account deletion answers and leaves behind, said of the rows alone. */
module AccountOutcomes {
  import opened Basics
  import opened EpochEnvelope
  import opened Schema
  import opened Albums
  import opened ObjectStore
  import opened World
  import opened Runs
  import opened Frames
  import opened UploadOutcomes
  import AccountRuns
  import AlbumOutcomes
  import T = Transactions

  // The account runs the album and somebody else is active in it
  ghost predicate RunsShared(db: Db, u: UserId, a: AlbumId) {
    a in db.albums && exists t :: SoleAdmin(db.albums[a], t) && db.albums[a].members[t].user == u && db.albums[a].Active() != {t}
  }

  lemma SharedIsDropShared(album: Album, db: Db, u: UserId, a: AlbumId)
    requires a in db.albums && album == db.albums[a] && RosterInv(album)
    ensures RunsShared(db, u, a) <==> T.IsMember(db, u, a) && T.PlannedOutcome(db, u, a) == T.DropShared
  {
    if t :| SoleAdmin(album, t) && album.members[t].user == u && album.Active() != {t} {
      assert IsTokenOf(album, u, t);
      assert T.TokenIn(db, u, a) == t;
      if |album.Active()| <= 1 {
        AccountRuns.AloneWhenOne(album, t);
      }
    }
    if T.IsMember(db, u, a) && T.PlannedOutcome(db, u, a) == T.DropShared {
      AccountRuns.OneAdmin(album, T.TokenIn(db, u, a), T.TokenIn(db, u, a));
      assert |album.Active()| > 1;
    }
  }

  lemma StaleMeansUnconfirmed(w: World, u: UserId, confirmed: set<AlbumId>)
    requires AlbumsInv(w)
    ensures T.PlanIsStale(w.db, u, confirmed) <==> exists a :: RunsShared(w.db, u, a) && a !in confirmed
  {
    hide KeyInv, RosterInv, T.PlannedOutcome, RunsShared;
    forall a | a in w.db.albums
      ensures RunsShared(w.db, u, a) <==> T.IsMember(w.db, u, a) && T.PlannedOutcome(w.db, u, a) == T.DropShared
    {
      SharedIsDropShared(w.db.albums[a], w.db, u, a);
    }
    assert forall a :: RunsShared(w.db, u, a) ==> a in w.db.albums by { SharedExists(w.db, u); }
  }

  lemma SharedExists(db: Db, u: UserId)
    ensures forall a :: RunsShared(db, u, a) ==> a in db.albums
  {
  }

  // Exactly when a deletion is accepted, what each refusal means, and what acceptance writes
  lemma AcceptOutcome(w: World, u: UserId, confirmed: set<AlbumId>, receipt: bytes)
    requires Reachable(w)
    ensures var tx, db := T.Accept(w.db, u, confirmed, receipt), w.db;
            var abandoned := receipt in db.receipts && db.receipts[receipt];
            var covered := forall a :: RunsShared(db, u, a) ==> a in confirmed;
            && (tx.result.Ok? <==> u in db.users && !abandoned && (db.users[u] || covered))
            && (Refused(tx.result, UserNotFound) <==> u !in db.users)
            && (Refused(tx.result, ReceiptAbandoned) <==> u in db.users && abandoned)
            && (Refused(tx.result, PlanStale) <==> u in db.users && !abandoned && !db.users[u] && !covered)
            && (tx.result.Err? ==> tx.db == db)
            && tx.db.albums == db.albums && tx.db.objects == db.objects
            && (tx.result.Ok? ==>
                  && receipt in tx.db.receipts && !tx.db.receipts[receipt]
                  && (forall r :: r != receipt ==> (r in tx.db.receipts <==> r in db.receipts) && (r in db.receipts ==> tx.db.receipts[r] == db.receipts[r]))
                  && tx.db.users.Keys == db.users.Keys && tx.db.users[u] && (forall v :: v in db.users && v != u ==> tx.db.users[v] == db.users[v])
                  && tx.db.jobs == if db.users[u] then db.jobs else db.jobs + {u})
  {
    hide Inv, Reachable, AlbumsInv, T.PlanIsStale, RunsShared;
    ReachableInv(w);
    InvIsAlbums(w);
    StaleMeansUnconfirmed(w, u, confirmed);
  }

  // Abandoning claims an unknown receipt for good, and otherwise reports whether it was accepted
  lemma AbandonOutcome(db: Db, receipt: bytes)
    ensures var tx := T.AbandonReceipt(db, receipt);
            && (tx.result == Ok(true) <==> receipt in db.receipts && !db.receipts[receipt])
            && (tx.result == Ok(false) <==> receipt in db.receipts ==> db.receipts[receipt])
            && (receipt in db.receipts ==> tx.db == db)
            && receipt in tx.db.receipts && (tx.result == Ok(false) ==> tx.db.receipts[receipt])
            && (forall r :: r != receipt ==> (r in tx.db.receipts <==> r in db.receipts) && (r in db.receipts ==> tx.db.receipts[r] == db.receipts[r]))
            && tx.db.users == db.users && tx.db.jobs == db.jobs && tx.db.albums == db.albums && tx.db.objects == db.objects
  {
  }

  // ---------- one membership ----------

  // t is the account's identity in the album
  ghost predicate Belongs(db: Db, u: UserId, a: AlbumId, t: Token) {
    a in db.albums && t in db.albums[a].members && db.albums[a].members[t].user == u
  }

  // The identity, its roster row and the wraps it received go; leaving also owes a rotation
  ghost predicate Left(album: Album, t: Token, b: Album, owes: bool) {
    && (forall x :: x in b.members <==> x in album.members && x != t)
    && (forall x :: x in b.members ==> b.members[x] == album.members[x])
    && (forall k: (int, Token) :: k in b.wraps <==> k in album.wraps && k.1 != t)
    && (forall k :: k in b.wraps ==> b.wraps[k] == album.wraps[k])
    && b.epochs == album.epochs && b.generation == album.generation && (b.rotationRequired <==> album.rotationRequired || owes)
  }

  lemma OutcomeByRoster(db: Db, u: UserId, a: AlbumId, t: Token)
    requires Belongs(db, u, a, t) && RosterInv(db.albums[a])
    ensures T.IsMember(db, u, a) && T.TokenIn(db, u, a) == t
    ensures var album := db.albums[a];
            T.PlannedOutcome(db, u, a) ==
              if !album.IsActive(t) then T.EraseTraces
              else if album.Active() == {t} then T.DropAlbum
              else if SoleAdmin(album, t) then T.DropShared
              else T.LeaveAlbum
  {
    var album := db.albums[a];
    assert IsTokenOf(album, u, t);
    if album.IsActive(t) && |album.Active()| <= 1 {
      AccountRuns.AloneWhenOne(album, t);
    }
    AlbumOutcomes.AdminIsSole(album, t);
  }

  lemma LeavingTakes(album: Album, t: Token)
    requires t in album.members
    ensures Left(album, t, T.Leave(album, t), album.IsActive(t))
  {
  }

  // What removing a membership does: a revoked identity is erased, an active plain member leaves, and the album goes with
  // its last active member or its admin
  lemma RemoveMembershipOutcome(w: World, u: UserId, a: AlbumId, t: Token)
    requires Reachable(w) && Belongs(w.db, u, a, t)
    ensures var tx, album, o := T.RemoveMembership(w.db, u, a), w.db.albums[a], w.db.objects;
            && (tx.result == Ok(Some(T.EraseTraces)) <==> !album.IsActive(t))
            && (tx.result == Ok(Some(T.DropAlbum)) <==> album.Active() == {t})
            && (tx.result == Ok(Some(T.DropShared)) <==> SoleAdmin(album, t) && album.Active() != {t})
            && (tx.result == Ok(Some(T.LeaveAlbum)) <==> album.IsActive(t) && !SoleAdmin(album, t))
            && OtherAlbumsStay(w.db, tx.db, a) && SameAccounts(w.db, tx.db)
            && if SoleAdmin(album, t) then
                 && a !in tx.db.albums
                 && RowsGo(o, tx.db.objects, set id | id in o.media && o.media[id].album == a,
                           set f | f in o.avatars && o.avatars[f].album == a)
               else
                 && a in tx.db.albums && Left(album, t, tx.db.albums[a], album.IsActive(t))
                 && RowsGo(o, tx.db.objects, set id | id in o.media && o.media[id].album == a && o.media[id].uploader == t,
                           set f | f in o.avatars && o.avatars[f].album == a && o.avatars[f].member == t)
  {
    hide Inv, Reachable, AlbumsInv, RosterInv, SoleAdmin, Retire, RowsGo, Left, T.Leave, T.PlannedOutcome, T.IsMember, T.TokenIn;
    var album, o := w.db.albums[a], w.db.objects;
    ReachableInv(w);
    InvIsAlbums(w);
    AlbumOutcomes.InvHasObjects(w);
    AccountRuns.AlbumRoster(w, a);
    OutcomeByRoster(w.db, u, a, t);
    LastActiveIsAdmin(album, t);
    LeavingTakes(album, t);
    RetiringTakesRows(o, T.AlbumMedia(o, a), T.AlbumAvatars(o, a), w.hist.committed, w.hist.cleared);
    RetiringTakesRows(o, T.MediaOf(o, a, t), T.AvatarsOf(o, a, t), w.hist.committed, w.hist.cleared);
  }

  lemma LastActiveIsAdmin(album: Album, t: Token)
    requires RosterInv(album)
    ensures album.Active() == {t} ==> SoleAdmin(album, t)
    ensures album.Active() == {t} ==> album.IsActive(t)
    ensures SoleAdmin(album, t) ==> album.IsActive(t)
  {
    if album.Active() == {t} {
      var s :| SoleAdmin(album, s);
      assert s in album.Active() && t in album.Active();
    }
  }

  // Without an identity there is nothing to remove
  lemma NoMembershipOutcome(db: Db, u: UserId, a: AlbumId)
    requires forall t :: !Belongs(db, u, a, t)
    ensures T.RemoveMembership(db, u, a) == T.Tx(db, Ok(None))
  {
    assert a in db.albums ==> forall t :: IsTokenOf(db.albums[a], u, t) ==> Belongs(db, u, a, t);
  }

  // The account row and its job go exactly when no album knows the account any more
  lemma FinishOutcome(db: Db, u: UserId)
    ensures var tx := T.FinishAccount(db, u);
            var known := exists a, t :: Belongs(db, u, a, t);
            && (tx.result == Ok(true) <==> u !in db.users || !known)
            && (tx.result == Ok(false) <==> u in db.users && known)
            && tx.db.albums == db.albums && tx.db.objects == db.objects && tx.db.receipts == db.receipts
            && (u !in db.users || known ==> tx.db == db)
            && (u in db.users && !known ==>
                  && u !in tx.db.users && tx.db.jobs == db.jobs - {u}
                  && forall v :: v != u ==> (v in tx.db.users <==> v in db.users) && (v in db.users ==> tx.db.users[v] == db.users[v]))
  {
    if a :| T.IsMember(db, u, a) {
      assert Belongs(db, u, a, T.TokenIn(db, u, a));
    }
    if a, t :| Belongs(db, u, a, t) {
      assert IsTokenOf(db.albums[a], u, t);
      assert T.IsMember(db, u, a);
    }
  }
}
