/** The deletion worker: bounded passes over an account's memberships, then the account row. */
module AccountDeletionService {
  import opened Basics
  import opened Schema
  import opened Database
  import opened World
  import opened DeletionRuns
  import Albums
  import AccountRuns
  import Runs
  import AccountDeletionRepository
  import T = Transactions

  const MAX_DELETION_PASSES := 5

  lemma SchemaHolds(w: World)
    requires Runs.Inv(w)
    ensures AccountDeletionRepository.OneIdentityPerAlbum(w.db)
  {
  }

  // One step of the worker on a reachable state
  ghost predicate Working(w: World, tables: Db, user: UserId, destination: Db) {
    Runs.Inv(w) && w.db == tables && Departing(w, user) && Settled(tables, {user}) == destination
  }

  lemma LeavingKeepsWorking(w: World, user: UserId, a: AlbumId, destination: Db)
    requires Working(w, w.db, user, destination)
    ensures Step(w, Leave(user, a)).db == T.RemoveMembership(w.db, user, a).db
    ensures Working(Step(w, Leave(user, a)), T.RemoveMembership(w.db, user, a).db, user, destination)
    ensures !T.IsMember(T.RemoveMembership(w.db, user, a).db, user, a)
    ensures forall b :: T.IsMember(T.RemoveMembership(w.db, user, a).db, user, b) ==> T.IsMember(w.db, user, b)
  {
    hide Runs.Inv, AlbumsInv, Settled, T.IsMember, T.RemoveMembership, Albums.Live, HeldAfter, CommittedAfter, ReservedAfter;
    var e := Leave(user, a);
    Runs.InvStep(w, e);
    Runs.InvIsAlbums(w);
    JobStepSettles(w, e, {user});
    AccountRuns.AlbumRoster(w, a);
    LeftIsOut(w.db, user, a);
    DepartingIsNotLive(w, user);
    forall b | T.IsMember(Apply(w.db, e), user, b) ensures T.IsMember(w.db, user, b) {
      MembershipsOnlyShrink(w, e, user, b);
    }
  }

  lemma FinishingIsDone(w: World, user: UserId, destination: Db)
    requires Working(w, w.db, user, destination)
    requires forall a :: !T.IsMember(w.db, user, a)
    ensures T.FinishAccount(w.db, user) == T.Tx(destination, Ok(true))
  {
    hide Runs.Inv, Settled, T.IsMember;
    var db' := T.FinishAccount(w.db, user).db;
    JobsHaveUsers(w);
    FinishSettles(w.db, {user}, user);
    forall a, u | u in {user} ensures !T.IsMember(db', u, a) {
      SameAlbumsSameMembers(w.db, db', u, a);
    }
    DoneIsSettled(db', {user});
  }

  lemma SameAlbumsSameMembers(db: Db, db': Db, u: UserId, a: AlbumId)
    requires db'.albums == db.albums
    ensures T.IsMember(db', u, a) <==> T.IsMember(db, u, a)
  {
  }

  // Undisturbed and free of errors, the job finishes in its first pass and leaves exactly the settled state
  method Process(repo: AccountDeletionRepository.Repository, user: UserId, ghost w: World) returns (finished: bool)
    requires Runs.Inv(w) && w.db == repo.db.tables && Departing(w, user)
    modifies repo.db
    ensures finished && repo.db.tables == Settled(old(repo.db.tables), {user})
  {
    hide Runs.Inv, Settled, T.RemoveMembership, T.FinishAccount, T.IsMember, Step, Departing, AccountDeletionRepository.Describes;
    ghost var now, destination := w, Settled(w.db, {user});
    finished := false;
    var pass := 0;
    while !finished && pass < MAX_DELETION_PASSES
      invariant pass > 0 ==> finished
      invariant !finished ==> Working(now, repo.db.tables, user, destination)
      invariant finished ==> repo.db.tables == destination
      decreases MAX_DELETION_PASSES - pass
    {
      SchemaHolds(now);
      var ms := repo.Memberships(repo.db.tables, user);
      for i := 0 to |ms|
        invariant Working(now, repo.db.tables, user, destination)
        invariant forall a :: T.IsMember(repo.db.tables, user, a) ==> exists k :: i <= k < |ms| && ms[k].album == a
      {
        SchemaHolds(now);
        LeavingKeepsWorking(now, user, ms[i].album, destination);
        now := Step(now, Leave(user, ms[i].album));
        var _, _ := repo.RemoveMembership(user, ms[i].album);
      }
      SchemaHolds(now);
      FinishingIsDone(now, user, destination);
      finished := repo.FinishAccount(user);
      pass := pass + 1;
    }
  }
}
