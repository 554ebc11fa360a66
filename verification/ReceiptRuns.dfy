/** Deletion receipts and consent over whole runs. */
module ReceiptRuns {
  import opened Basics
  import opened EpochEnvelope
  import opened Schema
  import opened Albums
  import opened World
  import opened AccountRuns
  import opened Runs
  import T = Transactions

  ghost predicate Unpruned(es: seq<Event>, receipt: bytes) {
    forall i :: 0 <= i < |es| && es[i].Prune? ==> receipt !in es[i].expired
  }

  lemma ReceiptStep(db: Db, e: Event, receipt: bytes)
    requires receipt in db.receipts && (e.Prune? ==> receipt !in e.expired)
    ensures receipt in Apply(db, e).receipts && Apply(db, e).receipts[receipt] == db.receipts[receipt]
  {
    hide Albums.InsertEpoch, Albums.Deliver, Albums.Revoke, ObjectStore.Retire, ObjectStore.PutMedia, ObjectStore.PutAvatar, T.PlanIsStale;
  }

  // Nothing but pruning changes a receipt once it is there
  lemma {:induction false} ReceiptStands(w: World, es: seq<Event>, receipt: bytes)
    requires receipt in w.db.receipts && Unpruned(es, receipt)
    ensures receipt in Exec(w, es).db.receipts && Exec(w, es).db.receipts[receipt] == w.db.receipts[receipt]
    decreases |es|
  {
    if es != [] {
      ReceiptStep(w.db, es[0], receipt);
      hide Apply, Record;
      ReceiptStands(Step(w, es[0]), es[1..], receipt);
    }
  }

  // Once a device was told that its deletion had not been accepted, nobody can be deleted on that receipt
  lemma AbandonedReceiptStartsNothing(w: World, receipt: bytes, es: seq<Event>, u: UserId, confirmed: set<AlbumId>)
    requires T.AbandonReceipt(w.db, receipt).result == Ok(false) && Unpruned(es, receipt)
    ensures var end := Exec(Step(w, Abandon(receipt)), es).db;
            T.Accept(end, u, confirmed, receipt).result.Err? && T.Accept(end, u, confirmed, receipt).db == end
  {
    hide T.PlanIsStale;
    ReceiptStands(Step(w, Abandon(receipt)), es, receipt);
  }

  // Once a deletion was accepted, every attempt to abandon its receipt reports that and changes nothing
  lemma AcceptedReceiptCannotBeAbandoned(w: World, u: UserId, confirmed: set<AlbumId>, receipt: bytes, es: seq<Event>)
    requires T.Accept(w.db, u, confirmed, receipt).result.Ok? && Unpruned(es, receipt)
    ensures var end := Exec(Step(w, Accept(u, confirmed, receipt)), es).db;
            T.AbandonReceipt(end, receipt).result == Ok(true) && T.AbandonReceipt(end, receipt).db == end
  {
    hide T.PlanIsStale;
    ReceiptStands(Step(w, Accept(u, confirmed, receipt)), es, receipt);
  }

  // ---------- consent ----------

  ghost predicate AcceptedWith(w: World, e: Event, u: UserId, confirmed: set<AlbumId>) {
    StartsDeletion(w.db, e) && e.u == u && e.confirmed == confirmed
  }

  // What the history calls consent is the confirmed set of the request that started the deletion
  lemma {:induction false} ConsentCameFromAccept(w: World, es: seq<Event>, u: UserId)
    requires Run(w, es) && u in Exec(w, es).hist.consent
    ensures || (u in w.hist.consent && w.hist.consent[u] == Exec(w, es).hist.consent[u])
            || exists k :: 0 <= k < |es| && AcceptedWith(Exec(w, es[..k]), es[k], u, Exec(w, es).hist.consent[u])
    decreases |es|
  {
    hide Feasible, Apply, HeldAfter, CommittedAfter, ReservedAfter, StartsDeletion;
    if es != [] {
      var next, confirmed := Step(w, es[0]), Exec(w, es).hist.consent[u];
      ConsentCameFromAccept(next, es[1..], u);
      if u in next.hist.consent && next.hist.consent[u] == confirmed {
        if AcceptedWith(w, es[0], u, confirmed) {
          assert AcceptedWith(Exec(w, es[..0]), es[0], u, confirmed);
        }
      } else {
        var k :| 0 <= k < |es[1..]| && AcceptedWith(Exec(next, es[1..][..k]), es[1..][k], u, confirmed);
        assert es[..k + 1][1..] == es[1..][..k];
        assert AcceptedWith(Exec(w, es[..k + 1]), es[k + 1], u, confirmed);
      }
    }
  }

  // The album goes although somebody else is still active in it
  ghost predicate DestroysShared(db: Db, u: UserId, a: AlbumId) {
    && a in db.albums && a !in T.RemoveMembership(db, u, a).db.albums
    && exists x :: db.albums[a].IsActive(x) && db.albums[a].members[x].user != u
  }

  lemma DestroyerAgreed(album: Album, a: AlbumId, db: Db, consent: map<UserId, set<AlbumId>>, u: UserId)
    requires a in db.albums && album == db.albums[a] && RosterInv(album) && ConsentInv(db, consent) && u in consent
    requires DestroysShared(db, u, a)
    ensures a in consent[u]
  {
    var t := T.TokenIn(db, u, a);
    var x :| album.IsActive(x) && album.members[x].user != u;
    var s :| SoleAdmin(album, s);
    assert album.IsActive(t) && x in album.Active();
    if |album.Active()| <= 1 {
      AloneWhenOne(album, t);
    }
    assert Agreed(album, t, a, consent);
  }

  // The event is an accepted deletion request of u whose confirmed set names the album
  ghost predicate Asked(w: World, e: Event, u: UserId, a: AlbumId) {
    StartsDeletion(w.db, e) && e.u == u && a in e.confirmed
  }

  lemma SharedNeedsConsent(w: World, u: UserId, a: AlbumId)
    requires Inv(w) && u in w.hist.consent && DestroysShared(w.db, u, a)
    ensures a in w.hist.consent[u]
  {
    hide KeyInv, ObjectRuns.ObjectsInv, UploadRuns.RowsInv, T.RemoveMembership;
    assert a in w.db.albums;
    DestroyerAgreed(w.db.albums[a], a, w.db, w.hist.consent, u);
  }

  lemma DestroyedAlbumsWereAsked(w: World, es: seq<Event>, u: UserId, a: AlbumId)
    requires Inv(w) && u !in w.hist.consent && Run(w, es)
    requires u in Exec(w, es).hist.consent && DestroysShared(Exec(w, es).db, u, a)
    ensures exists k :: 0 <= k < |es| && Asked(Exec(w, es[..k]), es[k], u, a)
  {
    hide Inv, Run, Exec, Step, Feasible, StartsDeletion, DestroysShared;
    ConsentCameFromAccept(w, es, u);
    InvHolds(w, es);
    SharedNeedsConsent(Exec(w, es), u, a);
    var k :| 0 <= k < |es| && AcceptedWith(Exec(w, es[..k]), es[k], u, Exec(w, es).hist.consent[u]);
    assert Asked(Exec(w, es[..k]), es[k], u, a);
  }

  // In every run, an album the deletion job destroys under an active member was in the set its admin confirmed
  // when that deletion was accepted
  lemma NoSharedAlbumIsDestroyedUnasked(es: seq<Event>, u: UserId, a: AlbumId)
    requires Run(START, es) && Feasible(Exec(START, es), Leave(u, a)) && DestroysShared(Exec(START, es).db, u, a)
    ensures exists k :: 0 <= k < |es| && Asked(Exec(START, es[..k]), es[k], u, a)
  {
    StartInv();
    hide Inv, Run, Exec, DestroysShared, Asked;
    DestroyedAlbumsWereAsked(START, es, u, a);
  }
}
