/** A departure or a rotation ends every upload reservation of its album for good. */
module ClockRuns {
  import opened Basics
  import opened EpochEnvelope
  import opened Schema
  import opened Albums
  import opened ObjectStore
  import opened World
  import opened UploadRuns
  import opened Runs
  import opened ReservationRuns
  import AccountRuns
  import T = Transactions

  // Counts epochs and debts: a debt is half an epoch
  function Clock(a: Album): int {
    2 * a.CurrentEpoch() + if a.rotationRequired then 1 else 0
  }

  // The event took a member out of the album, or replaced its key
  ghost predicate Disturbs(w: World, e: Event, a: AlbumId) {
    || (e.Rotate? && e.a == a && T.InsertEpoch(w.db, a, e.rotation).result.Ok?)
    || (e.Revoke? && e.a == a && T.RevokeMember(w.db, a, e.caller, e.target).result == Ok(false))
    || (e.Leave? && e.a == a && T.RemoveMembership(w.db, e.u, a).result == Ok(Some(T.LeaveAlbum)))
  }

  // What one event can do to an album that survives it
  ghost predicate Ticks(a: Album, b: Album, disturbed: bool) {
    && Clock(a) <= Clock(b)
    && (disturbed ==> Clock(b) > 2 * a.CurrentEpoch())
    && (!disturbed ==> b.CurrentEpoch() == a.CurrentEpoch() && a.Active() <= b.Active())
  }

  lemma LeaveTicks(a: Album, t: Token)
    requires t in a.members
    ensures Ticks(a, T.Leave(a, t), a.IsActive(t))
  {
  }

  lemma RotationTicks(a: Album, held: Held, rotation: EpochInput)
    requires AlbumInv(a, held) && Validated(rotation)
    ensures var after := Albums.InsertEpoch(a, rotation); after.Ok? ==> Ticks(a, after.value, true)
  {
    if Albums.InsertEpoch(a, rotation).Ok? {
      InsertEpochInv(a, held, rotation);
      CurrentIsCount(a);
      CurrentIsCount(Albums.InsertEpoch(a, rotation).value);
      hide AlbumInv, Validated, Upsert, Storable, MemberSetDigest;
    }
  }

  lemma SameAlbumTicks(a: Album, g: nat)
    ensures Ticks(a, a.(generation := g), false)
  {
  }

  lemma RotateTicks(w: World, b: AlbumId, rotation: EpochInput, a: AlbumId)
    requires AlbumsInv(w) && Validated(rotation) && a in w.db.albums
    ensures Ticks(w.db.albums[a], T.InsertEpoch(w.db, b, rotation).db.albums[a], Disturbs(w, Rotate(b, rotation), a))
  {
    hide AlbumInv, Ticks, Albums.InsertEpoch, Validated;
    SameAlbumTicks(w.db.albums[a], w.db.albums[a].generation);
    RotationTicks(w.db.albums[a], w.hist.held[a], rotation);
  }

  lemma InviteTicks(w: World, b: AlbumId, delivery: DeliverInput, minted: Token, a: AlbumId)
    requires a in w.db.albums
    ensures Ticks(w.db.albums[a], T.DeliverMember(w.db, b, delivery, minted).db.albums[a], Disturbs(w, Invite(b, delivery, minted), a))
  {
  }

  lemma RevokeTicks(w: World, b: AlbumId, caller: Token, target: Token, a: AlbumId)
    requires a in w.db.albums
    ensures Ticks(w.db.albums[a], T.RevokeMember(w.db, b, caller, target).db.albums[a], Disturbs(w, Revoke(b, caller, target), a))
  {
  }

  lemma DepartureTicks(w: World, u: UserId, b: AlbumId, a: AlbumId)
    requires a in w.db.albums && a in T.RemoveMembership(w.db, u, b).db.albums
    ensures Ticks(w.db.albums[a], T.RemoveMembership(w.db, u, b).db.albums[a], Disturbs(w, Leave(u, b), a))
  {
    SameAlbumTicks(w.db.albums[a], w.db.albums[a].generation);
    AccountRuns.LeftAlbums(w.db, u, b);
    if T.IsMember(w.db, u, a) {
      LeaveTicks(w.db.albums[a], T.TokenIn(w.db, u, a));
    }
    hide Ticks, T.Leave, Retire;
  }

  lemma OtherTicks(w: World, e: Event, a: AlbumId)
    requires !TouchesAlbums(e) && a in w.db.albums
    ensures a in Apply(w.db, e).albums && Ticks(w.db.albums[a], Apply(w.db, e).albums[a], Disturbs(w, e, a))
  {
    OtherEventsLeaveAlbums(w, e);
    hide Apply;
    SameAlbumTicks(w.db.albums[a], w.db.albums[a].generation);
  }

  lemma OnlyGenerationMoves(w: World, e: Event, a: AlbumId)
    requires AlbumsInv(w) && Feasible(w, e) && (e.Confirm? || e.DeleteAlbum? || e.Create?)
    requires a in w.db.albums && a in Apply(w.db, e).albums
    ensures var after := Apply(w.db, e).albums[a]; after == w.db.albums[a].(generation := after.generation)
  {
    hide AlbumInv, Retire, Album.RotationRequired, Album.CurrentEpoch;
  }

  lemma PlainTicks(w: World, e: Event, a: AlbumId)
    requires AlbumsInv(w) && Feasible(w, e) && (e.Confirm? || e.DeleteAlbum? || e.Create?)
    requires a in w.db.albums && a in Apply(w.db, e).albums
    ensures Ticks(w.db.albums[a], Apply(w.db, e).albums[a], Disturbs(w, e, a))
  {
    OnlyGenerationMoves(w, e, a);
    hide AlbumsInv, Apply, Ticks;
    SameAlbumTicks(w.db.albums[a], Apply(w.db, e).albums[a].generation);
  }

  lemma ClockStep(w: World, e: Event, a: AlbumId)
    requires AlbumsInv(w) && Feasible(w, e) && a in w.db.albums && a in Apply(w.db, e).albums
    ensures Ticks(w.db.albums[a], Apply(w.db, e).albums[a], Disturbs(w, e, a))
  {
    hide AlbumsInv, Ticks, Disturbs, T.InsertEpoch, T.DeliverMember, T.RevokeMember, T.RemoveMembership;
    match e
    case Rotate(b, rotation) => RotateTicks(w, b, rotation, a);
    case Invite(b, delivery, minted) => InviteTicks(w, b, delivery, minted, a);
    case Revoke(b, caller, target) => RevokeTicks(w, b, caller, target, a);
    case Leave(u, b) => DepartureTicks(w, u, b, a);
    case Confirm(_, _, _) => PlainTicks(w, e, a);
    case DeleteAlbum(_, _) => PlainTicks(w, e, a);
    case Create(_, _, _) => PlainTicks(w, e, a);
    case _ => OtherTicks(w, e, a);
  }

  // ---------- runs ----------

  // An album id is used once: an album that is gone stays gone
  lemma GoneStaysGone(w: World, e: Event, a: AlbumId)
    requires AlbumsInv(w) && Feasible(w, e) && a in w.hist.held
    ensures a in HeldAfter(w, e)
    ensures a in Apply(w.db, e).albums ==> a in w.db.albums
  {
    hide AlbumInv, Validated, Albums.InsertEpoch, Deliver, Albums.Revoke, Retire, T.RemoveMembership;
    if e.Leave? {
      AccountRuns.LeftAlbums(w.db, e.u, e.a);
    } else if !TouchesAlbums(e) {
      OtherEventsLeaveAlbums(w, e);
    }
  }

  lemma {:induction false} ClockNeverGoesBack(w: World, es: seq<Event>, a: AlbumId)
    requires AlbumsInv(w) && Run(w, es) && a in w.hist.held && a in Exec(w, es).db.albums
    ensures a in w.db.albums && Clock(w.db.albums[a]) <= Clock(Exec(w, es).db.albums[a])
    ensures Clock(w.db.albums[a]) == Clock(Exec(w, es).db.albums[a]) && !w.db.albums[a].rotationRequired ==>
              w.db.albums[a].Active() <= Exec(w, es).db.albums[a].Active()
    decreases |es|
  {
    if es != [] {
      var next := Step(w, es[0]);
      AlbumsStep(w, es[0]);
      GoneStaysGone(w, es[0], a);
      hide AlbumsInv, Feasible, Apply, Record, Disturbs, Album.CurrentEpoch;
      ClockNeverGoesBack(next, es[1..], a);
      ClockStep(w, es[0], a);
    }
  }

  // Where a photo can be confirmed, the clock shows its epoch and no debt
  lemma ConfirmReadsClock(w: World, id: MediaId, a: AlbumId, r: ReservationId)
    requires AlbumsInv(w) && T.MarkConfirmed(w.db, id, a, r).result.Ok?
    ensures a in w.hist.held && T.IsPending(w.db.objects, id, a, r) && !w.db.albums[a].rotationRequired
    ensures w.db.albums[a].CurrentEpoch() == w.db.objects.media[id].epochTag
  {
    hide AlbumInv;
  }

  lemma PendingBelowClock(w: World, id: MediaId)
    requires Inv(w) && id in w.db.objects.media
    ensures var row := w.db.objects.media[id];
            && row.album in w.db.albums && row.album in w.hist.held
            && row.epochTag <= w.db.albums[row.album].CurrentEpoch()
  {
    assert RowInv(w.db, w.hist.reserved, id, w.db.objects.media[id]);
    assert w.db.objects.media[id].epochTag in w.db.albums[w.db.objects.media[id].album].epochs.Keys;
  }

  // A commit under a reservation seen earlier in the run happens at that row's epoch, without debt
  lemma ClockAtConfirm(w: World, es: seq<Event>, id: MediaId, id': MediaId, a': AlbumId)
    requires Inv(w) && Run(w, es) && id in w.db.objects.media
    requires T.MarkConfirmed(Exec(w, es).db, id', a', w.db.objects.media[id].reservation).result.Ok?
    ensures var row, end := w.db.objects.media[id], Exec(w, es);
            && row.album in w.hist.held && row.album in end.db.albums && !end.db.albums[row.album].rotationRequired
            && end.db.albums[row.album].CurrentEpoch() == row.epochTag
  {
    var row, end := w.db.objects.media[id], Exec(w, es);
    InvHolds(w, es);
    InvIsAlbums(end);
    PendingBelowClock(w, id);
    ConfirmReadsClock(end, id', a', row.reservation);
    hide Inv, AlbumsInv, Feasible, T.MarkConfirmed, Step, Album.CurrentEpoch;
    SameRowLater(w, es, id, id');
  }

  // Taking a member out or rotating the key kills every outstanding reservation of the album: whatever runs
  // afterwards, no commit under it succeeds
  lemma DisturbanceKillsReservations(w: World, e: Event, later: seq<Event>, id: MediaId, id': MediaId, a': AlbumId)
    requires Reachable(w) && Feasible(w, e) && Run(Step(w, e), later)
    requires id in w.db.objects.media && Disturbs(w, e, w.db.objects.media[id].album)
    ensures T.MarkConfirmed(Exec(Step(w, e), later).db, id', a', w.db.objects.media[id].reservation).result.Err?
  {
    hide Inv, AlbumsInv, Disturbs, Feasible, T.MarkConfirmed, Apply, HeldAfter, CommittedAfter, ReservedAfter, Album.CurrentEpoch;
    var a, next := w.db.objects.media[id].album, Step(w, e);
    ReachableInv(w);
    if T.MarkConfirmed(Exec(next, later).db, id', a', w.db.objects.media[id].reservation).result.Ok? {
      assert ([e] + later)[1..] == later;
      ClockAtConfirm(w, [e] + later, id, id', a');
      InvStep(w, e);
      InvIsAlbums(w);
      InvIsAlbums(next);
      PendingBelowClock(w, id);
      GoneStaysGone(w, e, a);
      ClockNeverGoesBack(next, later, a);
      ClockStep(w, e, a);
    }
  }

  lemma RowIsStillPending(w: World, es: seq<Event>, more: seq<Event>, id: MediaId)
    requires Inv(w) && Run(w, es) && Run(Exec(w, es), more) && id in w.db.objects.media
    requires var row := w.db.objects.media[id];
             T.MarkConfirmed(Exec(Exec(w, es), more).db, id, row.album, row.reservation).result.Ok?
    ensures var mid := Exec(w, es).db.objects.media; id in mid && mid[id].reservation == w.db.objects.media[id].reservation
  {
    var mid, r := Exec(w, es), w.db.objects.media[id].reservation;
    hide T.MarkConfirmed, Inv, Run, Exec;
    ConfirmWrites(Exec(mid, more).db, id, w.db.objects.media[id].album, r);
    ReservationOf(w, id);
    ReservationsStay(w, es, r);
    RowWasThere(mid, more, id, r);
  }

  // From the moment a row is reserved until it is confirmed its album keeps its epoch, owes no rotation, and gains
  // members but loses none: w, later mid, and later still the commit
  lemma ActiveSetOnlyGrowsUntilConfirm(w: World, es: seq<Event>, more: seq<Event>, id: MediaId)
    requires Reachable(w) && Run(w, es) && Run(Exec(w, es), more) && id in w.db.objects.media
    requires var row := w.db.objects.media[id];
             T.MarkConfirmed(Exec(Exec(w, es), more).db, id, row.album, row.reservation).result.Ok?
    ensures var row, mid, end := w.db.objects.media[id], Exec(w, es).db, Exec(Exec(w, es), more).db;
            && row.album in w.db.albums && row.album in mid.albums && row.album in end.albums
            && mid.albums[row.album].CurrentEpoch() == row.epochTag && !mid.albums[row.album].rotationRequired
            && w.db.albums[row.album].Active() <= mid.albums[row.album].Active() <= end.albums[row.album].Active()
  {
    hide Inv, AlbumsInv, Feasible, T.MarkConfirmed, Step, Album.CurrentEpoch, Album.Active;
    var a, mid := w.db.objects.media[id].album, Exec(w, es);
    ReachableInv(w);
    InvHolds(w, es);
    RowIsStillPending(w, es, more, id);
    InvIsAlbums(w);
    InvIsAlbums(mid);
    SameRowLater(w, es, id, id);
    PendingBelowClock(w, id);
    PendingBelowClock(mid, id);
    ClockAtConfirm(mid, more, id, id, a);
    ClockNeverGoesBack(mid, more, a);
    ClockNeverGoesBack(w, es, a);
  }
}
