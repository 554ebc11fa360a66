/** Account deletion converges: whatever crashes, repeats, reorders or overlaps, the job ends in one and the same
    database state, the one written down here as Settled. */
module DeletionRuns {
  import opened Basics
  import opened EpochEnvelope
  import opened Schema
  import opened Albums
  import opened ObjectStore
  import opened World
  import opened Runs
  import AccountRuns
  import ObjectRuns
  import T = Transactions

  // ---------- the state every schedule is heading for ----------

  ghost predicate Mine(a: Album, gone: set<UserId>, t: Token) {
    t in a.members && a.members[t].user in gone
  }

  // One of the departing accounts runs the album
  ghost predicate Doomed(a: Album, gone: set<UserId>) {
    exists t :: Mine(a, gone, t) && a.IsActive(t) && a.members[t].role == Admin
  }

  ghost function SettledAlbum(a: Album, gone: set<UserId>): Album {
    a.(members := map t | t in a.members && a.members[t].user !in gone :: a.members[t],
       wraps := map k | k in a.wraps && !Mine(a, gone, k.1) :: a.wraps[k],
       rotationRequired := a.rotationRequired || exists t :: Mine(a, gone, t) && a.IsActive(t))
  }

  // Whatever the member stored in the album goes, and everything in a doomed album
  ghost predicate Goes(db: Db, gone: set<UserId>, a: AlbumId, t: Token) {
    a in db.albums && (Doomed(db.albums[a], gone) || Mine(db.albums[a], gone, t))
  }

  ghost function GoingMedia(db: Db, gone: set<UserId>): set<MediaId> {
    set id | id in db.objects.media && Goes(db, gone, db.objects.media[id].album, db.objects.media[id].uploader)
  }

  ghost function GoingAvatars(db: Db, gone: set<UserId>): set<AvatarId> {
    set id | id in db.objects.avatars && Goes(db, gone, db.objects.avatars[id].album, db.objects.avatars[id].member)
  }

  ghost function SettledAlbums(albums: map<AlbumId, Album>, gone: set<UserId>): map<AlbumId, Album> {
    map a | a in albums && !Doomed(albums[a], gone) :: SettledAlbum(albums[a], gone)
  }

  ghost function Settled(db: Db, gone: set<UserId>): Db {
    Db(db.users - gone, db.jobs - gone, db.receipts, SettledAlbums(db.albums, gone),
       Retire(db.objects, GoingMedia(db, gone), GoingAvatars(db, gone)))
  }

  // ---------- one removal brings nothing new ----------

  lemma LeavingMoves(a: Album, gone: set<UserId>, t: Token)
    requires t in a.members
    ensures var b := T.Leave(a, t);
            && (forall x :: x != t ==> (Mine(b, gone, x) <==> Mine(a, gone, x)))
            && (forall x :: x != t && x in a.members ==> x in b.members && b.members[x] == a.members[x])
            && t !in b.members
  {
  }

  lemma LeavingDooms(a: Album, gone: set<UserId>, t: Token)
    requires Mine(a, gone, t) && !(a.IsActive(t) && a.members[t].role == Admin)
    ensures Doomed(T.Leave(a, t), gone) <==> Doomed(a, gone)
  {
    var b := T.Leave(a, t);
    LeavingMoves(a, gone, t);
    if x :| Mine(a, gone, x) && a.IsActive(x) && a.members[x].role == Admin {
      assert Mine(b, gone, x);
    }
    if x :| Mine(b, gone, x) && b.IsActive(x) && b.members[x].role == Admin {
      assert Mine(a, gone, x);
    }
  }

  lemma LeavingSettlesAlbum(a: Album, gone: set<UserId>, t: Token)
    requires Mine(a, gone, t)
    ensures SettledAlbum(T.Leave(a, t), gone) == SettledAlbum(a, gone)
  {
    var b := T.Leave(a, t);
    LeavingMoves(a, gone, t);
    assert SettledAlbum(b, gone).members == SettledAlbum(a, gone).members;
    assert SettledAlbum(b, gone).wraps == SettledAlbum(a, gone).wraps;
    if x :| Mine(a, gone, x) && a.IsActive(x) {
      assert x == t || (Mine(b, gone, x) && b.IsActive(x));
    }
  }

  lemma AlbumsSettleAlike(albums: map<AlbumId, Album>, a: AlbumId, b: Album, gone: set<UserId>)
    requires a in albums && (Doomed(b, gone) <==> Doomed(albums[a], gone)) && SettledAlbum(b, gone) == SettledAlbum(albums[a], gone)
    ensures SettledAlbums(albums[a := b], gone) == SettledAlbums(albums, gone)
  {
    hide Doomed, SettledAlbum;
  }

  lemma OneAlbumSettles(db: Db, db': Db, gone: set<UserId>, a: AlbumId, t: Token)
    requires a in db.albums && Mine(db.albums[a], gone, t) && !(db.albums[a].IsActive(t) && db.albums[a].members[t].role == Admin)
    requires db'.albums == db.albums[a := T.Leave(db.albums[a], t)]
    ensures SettledAlbums(db'.albums, gone) == SettledAlbums(db.albums, gone)
    ensures forall b, x :: b != a || x != t ==> (Goes(db', gone, b, x) <==> Goes(db, gone, b, x))
  {
    LeavingMoves(db.albums[a], gone, t);
    LeavingDooms(db.albums[a], gone, t);
    LeavingSettlesAlbum(db.albums[a], gone, t);
    hide Mine, Doomed, SettledAlbum, SettledAlbums, T.Leave;
    AlbumsSettleAlike(db.albums, a, T.Leave(db.albums[a], t), gone);
  }

  lemma LeavingSettles(db: Db, gone: set<UserId>, u: UserId, a: AlbumId)
    requires u in gone && T.IsMember(db, u, a)
    requires T.PlannedOutcome(db, u, a).LeaveAlbum? || T.PlannedOutcome(db, u, a).EraseTraces?
    ensures Settled(T.RemoveMembership(db, u, a).db, gone) == Settled(db, gone)
  {
    var t, o, db' := T.TokenIn(db, u, a), db.objects, T.RemoveMembership(db, u, a).db;
    var m, f := T.MediaOf(o, a, t), T.AvatarsOf(o, a, t);
    OneAlbumSettles(db, db', gone, a, t);
    assert Goes(db, gone, a, t);
    hide Goes, Retire, T.Leave, Doomed, SettledAlbum;
    RetireDrops(o, m, f);
    assert m + GoingMedia(db', gone) == GoingMedia(db, gone);
    assert f + GoingAvatars(db', gone) == GoingAvatars(db, gone);
    RetireTwice(o, m, f, GoingMedia(db', gone), GoingAvatars(db', gone));
  }

  lemma DroppedWasDoomed(album: Album, gone: set<UserId>, t: Token)
    requires RosterInv(album) && Mine(album, gone, t) && album.IsActive(t)
    requires |album.Active()| <= 1 || album.members[t].role == Admin
    ensures Doomed(album, gone)
  {
    var s :| SoleAdmin(album, s);
    if |album.Active()| <= 1 {
      AccountRuns.AloneWhenOne(album, t);
      assert s in album.Active();
    }
  }

  lemma DroppingSettles(db: Db, gone: set<UserId>, u: UserId, a: AlbumId)
    requires u in gone && T.IsMember(db, u, a) && RosterInv(db.albums[a])
    requires T.PlannedOutcome(db, u, a).DropAlbum? || T.PlannedOutcome(db, u, a).DropShared?
    ensures Settled(T.RemoveMembership(db, u, a).db, gone) == Settled(db, gone)
  {
    var o, db' := db.objects, T.RemoveMembership(db, u, a).db;
    var m, f := T.AlbumMedia(o, a), T.AlbumAvatars(o, a);
    DroppedWasDoomed(db.albums[a], gone, T.TokenIn(db, u, a));
    RetireDrops(o, m, f);
    assert db'.objects == Retire(o, m, f) && db'.albums == db.albums - {a};
    hide Mine, Doomed, Retire, SettledAlbum, T.RemoveMembership;
    assert SettledAlbums(db'.albums, gone) == SettledAlbums(db.albums, gone);
    assert m + GoingMedia(db', gone) == GoingMedia(db, gone);
    assert f + GoingAvatars(db', gone) == GoingAvatars(db, gone);
    RetireTwice(o, m, f, GoingMedia(db', gone), GoingAvatars(db', gone));
  }

  // ---------- schedules ----------

  // Steps of the deletion jobs of these accounts: any number of workers, in any order, repeated or cut short
  ghost predicate JobSteps(es: seq<Event>, gone: set<UserId>) {
    forall i :: 0 <= i < |es| ==> (es[i].Leave? || es[i].Finish?) && es[i].u in gone
  }

  ghost predicate Done(db: Db, gone: set<UserId>) {
    gone !! db.users.Keys && forall u, a :: u in gone ==> !T.IsMember(db, u, a)
  }

  lemma FinishSettles(db: Db, gone: set<UserId>, u: UserId)
    requires u in gone
    ensures Settled(T.FinishAccount(db, u).db, gone) == Settled(db, gone)
  {
    var db' := T.FinishAccount(db, u).db;
    assert db'.users - gone == db.users - gone && db'.jobs - gone == db.jobs - gone;
    assert GoingMedia(db', gone) == GoingMedia(db, gone) && GoingAvatars(db', gone) == GoingAvatars(db, gone);
  }

  lemma JobStepSettles(w: World, e: Event, gone: set<UserId>)
    requires AlbumsInv(w) && (e.Leave? || e.Finish?) && e.u in gone
    ensures Settled(Apply(w.db, e), gone) == Settled(w.db, gone)
  {
    hide Settled, AlbumInv, T.FinishAccount;
    match e
    case Finish(u) => FinishSettles(w.db, gone, u);
    case Leave(u, a) =>
      if T.IsMember(w.db, u, a) {
        AccountRuns.AlbumRoster(w, a);
        if T.PlannedOutcome(w.db, u, a).LeaveAlbum? || T.PlannedOutcome(w.db, u, a).EraseTraces? {
          LeavingSettles(w.db, gone, u, a);
        } else {
          DroppingSettles(w.db, gone, u, a);
        }
      }
  }

  lemma OneJob(w: World, e: Event, gone: set<UserId>)
    requires Inv(w) && Feasible(w, e) && (e.Leave? || e.Finish?) && e.u in gone
    ensures Inv(Step(w, e)) && Settled(Step(w, e).db, gone) == Settled(w.db, gone)
  {
    hide Inv, AlbumsInv, Feasible, Settled, Apply, Record;
    InvIsAlbums(w);
    InvStep(w, e);
    JobStepSettles(w, e, gone);
  }

  lemma {:induction false} JobsKeepDestination(w: World, es: seq<Event>, gone: set<UserId>)
    requires Inv(w) && Run(w, es) && JobSteps(es, gone)
    ensures Settled(Exec(w, es).db, gone) == Settled(w.db, gone)
    decreases |es|
  {
    hide Inv, AlbumsInv, Feasible, Settled, Step;
    if es != [] {
      OneJob(w, es[0], gone);
      JobsKeepDestination(Step(w, es[0]), es[1..], gone);
    }
  }

  ghost predicate NoneMine(a: Album, gone: set<UserId>) {
    forall t :: !Mine(a, gone, t)
  }

  lemma NobodyLeftToSettle(a: Album, gone: set<UserId>)
    requires NoneMine(a, gone)
    ensures !Doomed(a, gone) && SettledAlbum(a, gone) == a
  {
    forall t | t in a.members ensures a.members[t].user !in gone {
      assert !Mine(a, gone, t);
    }
    assert SettledAlbum(a, gone).members == a.members;
    assert SettledAlbum(a, gone).wraps == a.wraps;
  }

  lemma NobodyLeft(db: Db, gone: set<UserId>, a: AlbumId)
    requires Done(db, gone) && a in db.albums
    ensures NoneMine(db.albums[a], gone)
  {
    forall t ensures !Mine(db.albums[a], gone, t) {
      assert Mine(db.albums[a], gone, t) ==> IsTokenOf(db.albums[a], db.albums[a].members[t].user, t);
      assert Mine(db.albums[a], gone, t) ==> T.IsMember(db, db.albums[a].members[t].user, a);
    }
  }

  lemma DoneIsSettled(db: Db, gone: set<UserId>)
    requires Done(db, gone) && db.jobs <= db.users.Keys
    ensures Settled(db, gone) == db
  {
    hide SettledAlbum, Doomed, Mine, T.IsMember, Retire, NoneMine;
    forall a | a in db.albums
      ensures !Doomed(db.albums[a], gone) && SettledAlbum(db.albums[a], gone) == db.albums[a] && NoneMine(db.albums[a], gone)
    {
      NobodyLeft(db, gone, a);
      NobodyLeftToSettle(db.albums[a], gone);
    }
    assert SettledAlbums(db.albums, gone) == db.albums;
    NothingGoes(db, gone);
    ObjectRuns.RetireNothing(db.objects);
    assert db.users - gone == db.users && db.jobs - gone == db.jobs;
  }

  lemma NothingGoes(db: Db, gone: set<UserId>)
    requires forall a :: a in db.albums ==> !Doomed(db.albums[a], gone) && NoneMine(db.albums[a], gone)
    ensures GoingMedia(db, gone) == {} && GoingAvatars(db, gone) == {}
  {
    hide Doomed, Mine;
    assert forall a, t :: !Goes(db, gone, a, t);
  }

  lemma JobsHaveUsers(w: World)
    requires Inv(w)
    ensures w.db.jobs <= w.db.users.Keys
  {
  }

  // Every complete schedule of the jobs of any set of accounts ends in the same tables, the ones written down above
  lemma DeletionConverges(w: World, es: seq<Event>, gone: set<UserId>)
    requires Reachable(w) && Run(w, es) && JobSteps(es, gone) && Done(Exec(w, es).db, gone)
    ensures Exec(w, es).db == Settled(w.db, gone)
  {
    hide Inv, Reachable, Settled, Done, Feasible, Step;
    ReachableInv(w);
    InvHolds(w, es);
    JobsKeepDestination(w, es, gone);
    assert Exec(w, es).db.jobs <= Exec(w, es).db.users.Keys by { JobsHaveUsers(Exec(w, es)); }
    DoneIsSettled(Exec(w, es).db, gone);
  }

  // ---------- with the cleaner at work in between ----------

  ghost predicate CleanerStep(e: Event) {
    e.ObjectDeleted? || e.Acknowledge? || e.Reschedule?
  }

  ghost predicate JobOrCleanerSteps(es: seq<Event>, gone: set<UserId>) {
    forall i :: 0 <= i < |es| ==> CleanerStep(es[i]) || ((es[i].Leave? || es[i].Finish?) && es[i].u in gone)
  }

  // The tables apart from the cleanup queue
  function Rows(db: Db): Db {
    db.(objects := db.objects.(queue := map[]))
  }

  lemma CleanerSettles(db: Db, e: Event, gone: set<UserId>)
    requires CleanerStep(e)
    ensures Rows(Settled(Apply(db, e), gone)) == Rows(Settled(db, gone))
  {
    var db' := Apply(db, e);
    assert db'.objects.media == db.objects.media && db'.objects.avatars == db.objects.avatars;
    hide Apply, Goes, SettledAlbums, MediaKeys, AvatarKeys, Enqueue;
    assert forall a, t :: Goes(db', gone, a, t) <==> Goes(db, gone, a, t) by { SameGoing(db, db', gone); }
    assert GoingMedia(db', gone) == GoingMedia(db, gone) && GoingAvatars(db', gone) == GoingAvatars(db, gone);
  }

  lemma SameGoing(db: Db, db': Db, gone: set<UserId>)
    requires db'.albums == db.albums
    ensures forall a, t :: Goes(db', gone, a, t) <==> Goes(db, gone, a, t)
  {
  }

  lemma {:induction false} CleanerKeepsDestination(w: World, es: seq<Event>, gone: set<UserId>)
    requires Inv(w) && Run(w, es) && JobOrCleanerSteps(es, gone)
    ensures Rows(Settled(Exec(w, es).db, gone)) == Rows(Settled(w.db, gone))
    decreases |es|
  {
    if es != [] {
      hide Inv, AlbumsInv, Feasible, Settled, Apply, Record, Rows;
      InvIsAlbums(w);
      InvStep(w, es[0]);
      if CleanerStep(es[0]) {
        CleanerSettles(w.db, es[0], gone);
      } else {
        JobStepSettles(w, es[0], gone);
      }
      CleanerKeepsDestination(Step(w, es[0]), es[1..], gone);
    }
  }

  // The worker also cleans up after each removal. With any cleaner steps in between the rows still end up the same;
  // only the queue differs, and ObjectRuns.NoObjectIsLost says where its keys are
  lemma DeletionConvergesWithCleaner(w: World, es: seq<Event>, gone: set<UserId>)
    requires Reachable(w) && Run(w, es) && JobOrCleanerSteps(es, gone) && Done(Exec(w, es).db, gone)
    ensures Rows(Exec(w, es).db) == Rows(Settled(w.db, gone))
  {
    hide Inv, Reachable, Settled, Done, Feasible, Step, Rows;
    ReachableInv(w);
    InvHolds(w, es);
    CleanerKeepsDestination(w, es, gone);
    JobsHaveUsers(Exec(w, es));
    DoneIsSettled(Exec(w, es).db, gone);
  }

  // ---------- one pass is enough ----------

  // Nobody joins on behalf of an account that is being deleted or is gone
  lemma MembershipsOnlyShrink(w: World, e: Event, u: UserId, a: AlbumId)
    requires Feasible(w, e) && !Live(w.db.users, u) && T.IsMember(Apply(w.db, e), u, a)
    ensures T.IsMember(w.db, u, a)
  {
    var t :| IsTokenOf(Apply(w.db, e).albums[a], u, t);
    hide Retire, Validated, Contiguous, Upsert, Storable, Album.RotationRequired, Album.CurrentEpoch;
    if e.Leave? {
      AccountRuns.LeftAlbums(w.db, e.u, e.a);
    } else if !TouchesAlbums(e) {
      OtherEventsLeaveAlbums(w, e);
    }
    assert IsTokenOf(w.db.albums[a], u, t);
  }

  lemma LeftIsOut(db: Db, u: UserId, a: AlbumId)
    requires a in db.albums ==> UniqueUsers(db.albums[a])
    ensures !T.IsMember(T.RemoveMembership(db, u, a).db, u, a)
  {
    AccountRuns.LeftAlbums(db, u, a);
    hide T.RemoveMembership;
  }

  // Accepted at some time, so being deleted or gone
  ghost predicate Departing(w: World, u: UserId) {
    u in w.hist.consent
  }

  lemma DepartingIsNotLive(w: World, u: UserId)
    requires Inv(w) && Departing(w, u)
    ensures !Live(w.db.users, u)
  {
  }

  lemma {:induction false} OutForGood(w: World, es: seq<Event>, u: UserId, a: AlbumId)
    requires Inv(w) && Run(w, es) && Departing(w, u)
    ensures Departing(Exec(w, es), u)
    ensures T.IsMember(Exec(w, es).db, u, a) ==> T.IsMember(w.db, u, a)
    decreases |es|
  {
    if es != [] {
      hide Inv, Feasible, T.IsMember, Live, Apply, HeldAfter, CommittedAfter, ReservedAfter;
      InvStep(w, es[0]);
      DepartingIsNotLive(w, u);
      OutForGood(Step(w, es[0]), es[1..], u, a);
      if T.IsMember(Apply(w.db, es[0]), u, a) {
        MembershipsOnlyShrink(w, es[0], u, a);
      }
    }
  }

  lemma LeftForGood(w: World, es: seq<Event>, k: nat, u: UserId, a: AlbumId)
    requires Inv(w) && Run(w, es) && Departing(w, u) && k < |es| && es[k] == Leave(u, a)
    ensures !T.IsMember(Exec(w, es).db, u, a)
  {
    var before, after := Exec(w, es[..k]), Step(Exec(w, es[..k]), es[k]);
    hide Inv, AlbumsInv, Feasible, T.IsMember, T.RemoveMembership;
    Prefix(w, es, k);
    InvHolds(w, es[..k]);
    OutForGood(w, es[..k], u, a);
    InvStep(before, es[k]);
    InvIsAlbums(before);
    AccountRuns.AlbumRoster(before, a);
    LeftIsOut(before.db, u, a);
    assert es[k..][1..] == es[k + 1..];
    OutForGood(after, es[k + 1..], u, a);
  }

  // A pass lists the account's albums and then removes each of them, while anything else may run in between.
  // When it comes to the end, nothing is left and the account row goes: no second pass is ever needed
  lemma FirstPassFinishes(w: World, es: seq<Event>, u: UserId)
    requires Reachable(w) && Run(w, es) && Departing(w, u)
    requires forall a :: T.IsMember(w.db, u, a) ==> Leave(u, a) in es
    ensures T.FinishAccount(Exec(w, es).db, u).result == Ok(true)
  {
    hide Inv, Feasible, Reachable, T.IsMember, Step, Run, Exec;
    ReachableInv(w);
    forall a ensures !T.IsMember(Exec(w, es).db, u, a) {
      if T.IsMember(w.db, u, a) {
        var k :| 0 <= k < |es| && es[k] == Leave(u, a);
        LeftForGood(w, es, k, u, a);
      } else {
        OutForGood(w, es, u, a);
      }
    }
  }
}
