/** Accepting a deletion, statement by statement. The transaction holds the account's row and its receipt, no album; what
    happens to the account's albums between its plan check and its commit never makes the plan stale. */
module AcceptSteps {
  import opened Basics
  import opened EpochEnvelope
  import opened Schema
  import opened Albums
  import opened World
  import opened AccountRuns
  import opened Runs
  import ObjectStore
  import T = Transactions

  // Events that wait for the row of account u: creation and invites take it FOR SHARE, the deletion's own steps FOR UPDATE
  ghost predicate LocksUser(db: Db, e: Event, u: UserId) {
    match e
    case Create(v, _, _) => v == u
    case Invite(a, delivery, _) =>
      || delivery.user == u
      || (a in db.albums && delivery.sender in db.albums[a].members && db.albums[a].members[delivery.sender].user == u)
    case Accept(v, _, _) => v == u
    case Finish(v) => v == u
    case _ => false
  }

  // Events that wait for an uncommitted row under this receipt
  ghost predicate ClaimsReceipt(e: Event, receipt: bytes) {
    (e.Accept? || e.Abandon?) && e.receipt == receipt
  }

  ghost predicate Apart(w: World, es: seq<Event>, u: UserId, receipt: bytes)
    decreases |es|
  {
    if es == [] then true
    else !LocksUser(w.db, es[0], u) && !ClaimsReceipt(es[0], receipt) && Apart(Step(w, es[0]), es[1..], u, receipt)
  }

  // The account's row and the receipt, locked and claimed
  function AcceptClaims(db: Db, u: UserId, receipt: bytes): Option<Error> {
    if u !in db.users then Some(UserNotFound)
    else if receipt in db.receipts && db.receipts[receipt] then Some(ReceiptAbandoned)
    else None
  }

  // The check of the plan, skipped for an account whose deletion is on its way
  ghost function AcceptPlan(db: Db, u: UserId, confirmed: set<AlbumId>): Option<Error> {
    if Live(db.users, u) && T.PlanIsStale(db, u, confirmed) then Some(PlanStale) else None
  }

  // The statements after the check; a receipt that was there already is not written again
  function AcceptWrites(db: Db, u: UserId, deleting: bool, inserted: bool, receipt: bytes): Db {
    var claimed := if inserted then db.(receipts := db.receipts[receipt := false]) else db;
    if deleting then claimed else claimed.(users := claimed.users[u := true], jobs := claimed.jobs + {u})
  }

  // ---------- what the two rows keep still ----------

  ghost predicate HeldStill(db: Db, db': Db, u: UserId, receipt: bytes) {
    && (u in db.users ==> u in db'.users && db'.users[u] == db.users[u])
    && (receipt in db'.receipts ==> receipt in db.receipts && db'.receipts[receipt] == db.receipts[receipt])
  }

  ghost predicate WritesAccounts(e: Event) {
    e.Register? || e.Accept? || e.Abandon? || e.Prune? || e.Finish?
  }

  lemma OthersHoldStill(db: Db, e: Event)
    requires !WritesAccounts(e)
    ensures Apply(db, e).users == db.users && Apply(db, e).receipts == db.receipts
  {
    hide Albums.InsertEpoch, Albums.Deliver, Albums.Revoke, ObjectStore.Retire, ObjectStore.PutMedia, ObjectStore.PutAvatar;
    hide T.PlannedOutcome, Album.RotationRequired, Album.CurrentEpoch;
  }

  lemma RowsHeldStill(db: Db, e: Event, u: UserId, receipt: bytes)
    requires !LocksUser(db, e, u) && !ClaimsReceipt(e, receipt)
    ensures HeldStill(db, Apply(db, e), u, receipt)
  {
    hide T.PlanIsStale, T.IsMember, T.CreateWithAdmin, T.InsertEpoch, T.DeliverMember, T.RevokeMember, T.DeleteAlbum, T.RemoveMembership;
    hide T.ReserveUpload, T.MarkConfirmed, T.ReserveAvatar, T.ConfirmAvatar, ObjectStore.Retire;
    if !WritesAccounts(e) {
      OthersHoldStill(db, e);
      hide Apply;
    }
  }

  // ---------- the plan stays good ----------

  lemma PlanIsConsent(w: World, u: UserId, confirmed: set<AlbumId>)
    requires AlbumsInv(w)
    ensures !T.PlanIsStale(w.db, u, confirmed) <==> ConsentInv(w.db, map[u := confirmed])
  {
    hide KeyInv;
    var db, consent := w.db, map[u := confirmed];
    if !T.PlanIsStale(db, u, confirmed) {
      forall a, t | a in db.albums && t in db.albums[a].members ensures Agreed(db.albums[a], t, a, consent) {
        hide T.PlanIsStale;
        if SoleAdmin(db.albums[a], t) && db.albums[a].members[t].user == u {
          PlanCovers(db, u, confirmed, a, t);
        }
      }
    }
    if ConsentInv(db, consent) {
      forall a | T.IsMember(db, u, a) ensures T.PlannedOutcome(db, u, a) == T.DropShared ==> a in confirmed {
        AgreedOutcome(w, u, confirmed, a);
      }
    }
  }

  lemma AgreedOutcome(w: World, u: UserId, confirmed: set<AlbumId>, a: AlbumId)
    requires AlbumsInv(w) && ConsentInv(w.db, map[u := confirmed]) && T.IsMember(w.db, u, a)
    ensures T.PlannedOutcome(w.db, u, a) == T.DropShared ==> a in confirmed
  {
    hide KeyInv;
    var album, t := w.db.albums[a], T.TokenIn(w.db, u, a);
    if T.PlannedOutcome(w.db, u, a) == T.DropShared {
      OneAdmin(album, t, t);
      assert Agreed(album, t, a, map[u := confirmed]);
    }
  }

  lemma ConsentStays(w: World, e: Event, u: UserId, confirmed: set<AlbumId>)
    requires AlbumsInv(w) && ConsentInv(w.db, map[u := confirmed]) && !LocksUser(w.db, e, u)
    ensures ConsentInv(Apply(w.db, e), map[u := confirmed])
  {
    hide AlbumsInv, ConsentInv, Apply;
    if TouchesAlbums(e) {
      ConsentStep(w, map[u := confirmed], e);
    } else {
      OtherEventsLeaveAlbums(w, e);
      SameAlbumsSameConsent(w.db, Apply(w.db, e), map[u := confirmed]);
    }
  }

  lemma {:induction false} StaysGood(w: World, es: seq<Event>, u: UserId, confirmed: set<AlbumId>, receipt: bytes)
    requires AlbumsInv(w) && Run(w, es) && Apart(w, es, u, receipt)
    ensures AlbumsInv(Exec(w, es)) && HeldStill(w.db, Exec(w, es).db, u, receipt)
    ensures ConsentInv(w.db, map[u := confirmed]) ==> ConsentInv(Exec(w, es).db, map[u := confirmed])
    decreases |es|
  {
    hide AlbumsInv, ConsentInv, LocksUser, ClaimsReceipt, Apply, Record, Feasible;
    if es != [] {
      var next := Step(w, es[0]);
      AlbumsStep(w, es[0]);
      RowsHeldStill(w.db, es[0], u, receipt);
      StaysGood(next, es[1..], u, confirmed, receipt);
      if ConsentInv(w.db, map[u := confirmed]) {
        ConsentStays(w, es[0], u, confirmed);
      }
    }
  }

  // The plan is good at the write if it was good at the check
  lemma PlanStaysGood(w: World, es: seq<Event>, u: UserId, confirmed: set<AlbumId>, receipt: bytes)
    requires AlbumsInv(w) && Run(w, es) && Apart(w, es, u, receipt)
    ensures !T.PlanIsStale(w.db, u, confirmed) ==> !T.PlanIsStale(Exec(w, es).db, u, confirmed)
  {
    hide AlbumsInv, ConsentInv, T.PlanIsStale, Run, Exec, Apart, HeldStill;
    StaysGood(w, es, u, confirmed, receipt);
    PlanIsConsent(w, u, confirmed);
    PlanIsConsent(Exec(w, es), u, confirmed);
  }

  // ---------- the transaction ----------

  // Lock and claim at w, plan at Exec(w, es), writes at the end of more: whatever runs in between, the outcome is that of
  // the whole transaction at one moment, at the statement that refuses or else at the writes. Only a receipt that was
  // there before and is pruned meanwhile makes a difference, and only to itself
  lemma {:induction false} AcceptIsAtomic(w: World, es: seq<Event>, more: seq<Event>, u: UserId, confirmed: set<AlbumId>, receipt: bytes)
    requires Reachable(w) && Run(w, es) && Run(Exec(w, es), more)
    requires Apart(w, es, u, receipt) && Apart(Exec(w, es), more, u, receipt)
    ensures var planned, end := Exec(w, es).db, Exec(Exec(w, es), more).db;
            var refused, stale := AcceptClaims(w.db, u, receipt), AcceptPlan(planned, u, confirmed);
            if refused.Some? then T.Accept(w.db, u, confirmed, receipt) == T.Fail(w.db, refused.value)
            else if stale.Some? then T.Accept(planned, u, confirmed, receipt) == T.Fail(planned, stale.value)
            else
              var written := AcceptWrites(end, u, w.db.users[u], receipt !in w.db.receipts, receipt);
              var whole := T.Accept(end, u, confirmed, receipt);
              && whole.result == Ok(()) && whole.db.(receipts := written.receipts) == written
              && (written == whole.db <==> receipt in w.db.receipts ==> receipt in end.receipts)
  {
    hide Inv, AlbumsInv, ConsentInv, Reachable, T.PlanIsStale, Run, Exec, Apart;
    ReachableInv(w);
    InvIsAlbums(w);
    StaysGood(w, es, u, confirmed, receipt);
    StaysGood(Exec(w, es), more, u, confirmed, receipt);
    PlanStaysGood(Exec(w, es), more, u, confirmed, receipt);
  }
}
