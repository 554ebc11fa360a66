/** Who may change an album, and whom its rows belong to, over whole runs. */
module RosterRuns {
  import opened Basics
  import opened EpochEnvelope
  import opened Schema
  import opened Albums
  import opened ObjectStore
  import opened World
  import opened Runs
  import AccountRuns
  import ObjectRuns
  import UploadRuns
  import T = Transactions

  // ---------- authority at commit time ----------

  // The transaction went through, and on whose token
  ghost predicate ActedAsAdmin(w: World, e: Event, a: AlbumId, caller: Token) {
    || (e.Rotate? && e.a == a && e.rotation.sender == caller && T.InsertEpoch(w.db, a, e.rotation).result.Ok?)
    || (e.Invite? && e.a == a && e.delivery.sender == caller && T.DeliverMember(w.db, a, e.delivery, e.minted).result.Ok?)
    || (e.DeleteAlbum? && e.a == a && e.caller == caller && T.DeleteAlbum(w.db, a, caller).result.Ok?)
  }

  // Keys are replaced, members let in and albums deleted by the album's one admin only, who is active when the
  // transaction commits, whatever an earlier check had seen; and a departing account lets nobody in
  lemma OnlyTheAdminActs(w: World, e: Event, a: AlbumId, caller: Token)
    requires Reachable(w) && ActedAsAdmin(w, e, a, caller)
    ensures a in w.db.albums && SoleAdmin(w.db.albums[a], caller)
    ensures e.Invite? ==> Live(w.db.users, w.db.albums[a].members[caller].user) && Live(w.db.users, e.delivery.user)
  {
    ReachableInv(w);
    hide KeyInv, ObjectRuns.ObjectsInv, UploadRuns.RowsInv, AccountRuns.AccountsInv, Reachable, Storable, Upsert;
    AccountRuns.OneAdmin(w.db.albums[a], caller, caller);
  }

  lemma RevokeTakesOne(a: Album, caller: Token, target: Token)
    requires RosterInv(a) && Albums.Revoke(a, caller, target).Ok? && !Albums.Revoke(a, caller, target).value.1
    ensures var b := Albums.Revoke(a, caller, target).value.0;
            && a.IsActive(caller) && a.IsActive(target) && a.members[target].role == Member
            && b.Active() == a.Active() - {target} && b.rotationRequired
  {
    var s :| SoleAdmin(a, s);
    AdminStays(a, s);
    assert Depart(a, target).Active() == a.Active() - {target};
  }

  // A revocation takes out an active plain member, never the admin, and leaves everyone else where they were
  lemma RevocationTakesOneMember(w: World, a: AlbumId, caller: Token, target: Token)
    requires Reachable(w) && T.RevokeMember(w.db, a, caller, target).result == Ok(false)
    ensures var before, after := w.db.albums[a], T.RevokeMember(w.db, a, caller, target).db.albums[a];
            && before.IsActive(caller) && before.IsActive(target) && before.members[target].role == Member
            && after.Active() == before.Active() - {target} && after.rotationRequired
  {
    ReachableInv(w);
    AccountRuns.AlbumRoster(w, a);
    hide Inv, Reachable, RosterInv, Albums.Revoke, Retire;
    RevokeTakesOne(w.db.albums[a], caller, target);
  }

  // ---------- accounts behind the rosters ----------

  // Every identity row belongs to an account that still exists, though no foreign key says so
  ghost predicate MembersHaveAccounts(db: Db) {
    forall a, t :: a in db.albums && t in db.albums[a].members ==> db.albums[a].members[t].user in db.users
  }

  // Rosters name nobody new, and nobody's account goes
  lemma FewerMembers(db: Db, db': Db)
    requires MembersHaveAccounts(db) && db.users.Keys <= db'.users.Keys
    requires forall a, t :: a in db'.albums && t in db'.albums[a].members ==>
               a in db.albums && t in db.albums[a].members && db'.albums[a].members[t].user == db.albums[a].members[t].user
    ensures MembersHaveAccounts(db')
  {
  }

  lemma FinishKeepsAccounts(db: Db, u: UserId)
    requires MembersHaveAccounts(db)
    ensures MembersHaveAccounts(T.FinishAccount(db, u).db)
  {
    if u in db.users && T.FinishAccount(db, u).result == Ok(true) {
      forall a, t | a in db.albums && t in db.albums[a].members ensures db.albums[a].members[t].user != u {
        assert db.albums[a].members[t].user == u ==> IsTokenOf(db.albums[a], u, t) && T.IsMember(db, u, a);
      }
    }
  }

  lemma JoinsKeepAccounts(db: Db, e: Event)
    requires MembersHaveAccounts(db) && (e.Create? || e.Invite? || e.Register?)
    ensures MembersHaveAccounts(Apply(db, e))
  {
    hide Upsert, Album.RotationRequired, Album.CurrentEpoch;
  }

  lemma LeaveKeepsAccounts(db: Db, u: UserId, a: AlbumId)
    requires MembersHaveAccounts(db)
    ensures MembersHaveAccounts(T.RemoveMembership(db, u, a).db)
  {
    AccountRuns.LeftAlbums(db, u, a);
    hide T.PlannedOutcome, Retire, T.IsMember;
    FewerMembers(db, T.RemoveMembership(db, u, a).db);
  }

  lemma OthersKeepAccounts(w: World, e: Event)
    requires MembersHaveAccounts(w.db) && !e.Create? && !e.Invite? && !e.Register? && !e.Leave? && !e.Finish?
    ensures MembersHaveAccounts(Apply(w.db, e))
  {
    hide Retire, Upsert, Storable, MemberSetDigest, T.PlanIsStale, Album.RotationRequired, Album.CurrentEpoch;
    if !TouchesAlbums(e) {
      OtherEventsLeaveAlbums(w, e);
    }
    FewerMembers(w.db, Apply(w.db, e));
  }

  lemma {:induction false} AccountsHold(w: World, es: seq<Event>)
    requires MembersHaveAccounts(w.db)
    ensures MembersHaveAccounts(Exec(w, es).db)
    decreases |es|
  {
    hide MembersHaveAccounts, T.FinishAccount, T.RemoveMembership, Record;
    if es != [] {
      match es[0] {
        case Finish(u) => FinishKeepsAccounts(w.db, u);
        case Leave(u, a) => LeaveKeepsAccounts(w.db, u, a);
        case Create(_, _, _) => JoinsKeepAccounts(w.db, es[0]);
        case Invite(_, _, _) => JoinsKeepAccounts(w.db, es[0]);
        case Register(_) => JoinsKeepAccounts(w.db, es[0]);
        case _ => OthersKeepAccounts(w, es[0]);
      }
      AccountsHold(Step(w, es[0]), es[1..]);
    }
  }

  // In every run an account stays as long as any album knows it: finishing a deletion leaves no identity behind
  lemma AccountsOutliveMemberships(es: seq<Event>)
    requires Run(START, es)
    ensures MembersHaveAccounts(Exec(START, es).db)
  {
    AccountsHold(START, es);
  }
}
