/** Epoch keys over whole runs: who can hold the key of a photo. */
module KeyRuns {
  import opened Basics
  import opened EpochEnvelope
  import opened Schema
  import opened Albums
  import opened World
  import opened Runs
  import T = Transactions

  // Tokens with a wrap of an epoch in the table right now
  ghost function Wrapped(a: Album, epoch: int): set<Token> {
    set k | k in a.wraps && k.0 == epoch :: k.1
  }

  lemma ExactKeySet(album: Album, held: Held)
    requires AlbumInv(album, held) && album.epochs != map[]
    ensures album.RotationRequired() <==> album.rotationRequired
    ensures album.CurrentEpoch() in held
    ensures !album.rotationRequired ==> Wrapped(album, album.CurrentEpoch()) == held[album.CurrentEpoch()] == album.Active()
  {
  }

  // Without a debt the current key has only ever been given to the active members, and each of them has it; so
  // the stored flag alone answers RotationRequiredExpr
  lemma ClearFlagMeansExactKeySet(w: World, a: AlbumId)
    requires Reachable(w) && a in w.db.albums && w.db.albums[a].epochs != map[]
    ensures var album, cur := w.db.albums[a], w.db.albums[a].CurrentEpoch();
            && (album.RotationRequired() <==> album.rotationRequired)
            && cur in HeldIn(w.hist, a)
            && (!album.rotationRequired ==> Wrapped(album, cur) == HeldIn(w.hist, a)[cur] == album.Active())
  {
    hide AlbumInv;
    ReachableInv(w);
    ExactKeySet(w.db.albums[a], w.hist.held[a]);
  }

  // Epochs are 0..n and every active member holds a wrap for each of them
  lemma NobodyIsStranded(w: World, a: AlbumId)
    requires Reachable(w) && a in w.db.albums
    ensures var album := w.db.albums[a];
            && (forall e :: e in album.epochs <==> 0 <= e <= album.CurrentEpoch())
            && (forall e, t :: 0 <= e <= album.CurrentEpoch() && album.IsActive(t) ==> (e, t) in album.wraps)
  {
    ReachableInv(w);
    CurrentIsCount(w.db.albums[a]);
  }

  // One admin, active, and never anyone else
  lemma EveryAlbumHasItsAdmin(w: World, a: AlbumId)
    requires Reachable(w) && a in w.db.albums
    ensures exists t :: SoleAdmin(w.db.albums[a], t)
  {
    ReachableInv(w);
  }

  // ---------- how a key can reach a token ----------

  // The event is an invite that let the token in
  ghost predicate Joins(w: World, e: Event, a: AlbumId, t: Token) {
    e.Invite? && e.a == a && T.DeliverMember(w.db, a, e.delivery, e.minted).result == Ok(t)
  }

  lemma JoiningActivates(w: World, e: Event, a: AlbumId, t: Token)
    requires AlbumsInv(w) && Feasible(w, e) && Joins(w, e, a, t)
    ensures a in Step(w, e).db.albums && !w.db.albums[a].IsActive(t) && Step(w, e).db.albums[a].IsActive(t)
  {
  }

  lemma HeldStep(w: World, e: Event, a: AlbumId, c: int, t: Token)
    requires AlbumsInv(w) && Feasible(w, e)
    requires a in w.hist.held && c in w.hist.held[a]
    ensures var held := Step(w, e).hist.held;
            && a in held && c in held[a]
            && (t in w.hist.held[a][c] ==> t in held[a][c])
            && (t in held[a][c] ==> t in w.hist.held[a][c] || Joins(w, e, a, t))
  {
    hide RosterInv, NobodyStranded, WrapsWereGiven, Apply, Recheck, Upsert, Storable, Validated, CommittedAfter, ReservedAfter;
    if e.Rotate? && e.a == a && T.InsertEpoch(w.db, a, e.rotation).result.Ok? {
      CurrentIsCount(w.db.albums[a]);
      assert e.rotation.epoch !in w.db.albums[a].epochs.Keys;
    }
  }

  lemma {:induction false} KeysSpreadOnlyByInvite(w: World, es: seq<Event>, a: AlbumId, c: int, t: Token)
    requires AlbumsInv(w) && Run(w, es)
    requires a in w.hist.held && c in w.hist.held[a] && t !in w.hist.held[a][c]
    ensures var held := Exec(w, es).hist.held;
            && a in held && c in held[a]
            && (t in held[a][c] ==> exists k :: 0 <= k < |es| && Joins(Exec(w, es[..k]), es[k], a, t))
    decreases |es|
  {
    hide AlbumsInv, Feasible, Joins, Step;
    if es != [] {
      var next := Step(w, es[0]);
      AlbumsStep(w, es[0]);
      HeldStep(w, es[0], a, c, t);
      if t in next.hist.held[a][c] {
        assert Joins(Exec(w, es[..0]), es[0], a, t);
        HeldForGood(next, es[1..], a, c, t);
      } else {
        KeysSpreadOnlyByInvite(next, es[1..], a, c, t);
        if t in Exec(next, es[1..]).hist.held[a][c] {
          var k :| 0 <= k < |es[1..]| && Joins(Exec(next, es[1..][..k]), es[1..][k], a, t);
          assert es[..k + 1][1..] == es[1..][..k];
          assert Joins(Exec(w, es[..k + 1]), es[k + 1], a, t);
        }
      }
    }
  }

  // What was given stays given
  lemma {:induction false} HeldForGood(w: World, es: seq<Event>, a: AlbumId, c: int, t: Token)
    requires AlbumsInv(w) && Run(w, es)
    requires a in w.hist.held && c in w.hist.held[a] && t in w.hist.held[a][c]
    ensures var held := Exec(w, es).hist.held; a in held && c in held[a] && t in held[a][c]
    decreases |es|
  {
    hide AlbumsInv, Feasible, Step;
    if es != [] {
      AlbumsStep(w, es[0]);
      HeldStep(w, es[0], a, c, t);
      HeldForGood(Step(w, es[0]), es[1..], a, c, t);
    }
  }

  lemma ConfirmedRowHasEpoch(db: Db, reserved: UploadRuns.Reservations, id: MediaId, a: AlbumId, r: ReservationId)
    requires UploadRuns.RowsInv(db, reserved) && T.MarkConfirmed(db, id, a, r).result.Ok?
    ensures var album := db.albums[a];
            album.epochs != map[] && !album.RotationRequired() && album.CurrentEpoch() == db.objects.media[id].epochTag
  {
    assert UploadRuns.RowInv(db, reserved, id, db.objects.media[id]);
  }

  // A photo is confirmed under a key that nobody outside the album has ever been given
  lemma ConfirmedKeyIsHeldByActiveOnly(w: World, id: MediaId, a: AlbumId, r: ReservationId)
    requires Reachable(w) && T.MarkConfirmed(w.db, id, a, r).result.Ok?
    ensures var c := w.db.objects.media[id].epochTag;
            a in w.hist.held && c in w.hist.held[a] && w.hist.held[a][c] == w.db.albums[a].Active()
  {
    ReachableInv(w);
    ConfirmedRowHasEpoch(w.db, w.hist.reserved, id, a, r);
    hide AlbumInv, UploadRuns.RowsInv, ObjectRuns.ObjectsInv, AccountRuns.AccountsInv;
    ExactKeySet(w.db.albums[a], w.hist.held[a]);
  }

  // So is the key every accepted reservation is tagged with
  lemma ReservedKeyIsHeldByActiveOnly(w: World, id: MediaId, row: Media)
    requires Reachable(w) && T.ReserveUpload(w.db, id, row).result.Ok?
    ensures row.album in w.hist.held && row.epochTag in w.hist.held[row.album]
            && w.hist.held[row.album][row.epochTag] == w.db.albums[row.album].Active()
  {
    ReachableInv(w);
    assert row.album in w.db.albums && !w.db.albums[row.album].RotationRequired()
           && row.epochTag == w.db.albums[row.album].CurrentEpoch() >= 0;
    hide Reachable, UploadRuns.RowsInv, ObjectRuns.ObjectsInv, AccountRuns.AccountsInv, T.ReserveUpload;
    ExactKeySet(w.db.albums[row.album], w.hist.held[row.album]);
  }

  // Removal locks out the future: a token outside the album when a photo is confirmed has never held the photo's
  // key, and gets it in a later run only after an invite lets it in
  lemma RemovalLocksOutTheFuture(w: World, id: MediaId, a: AlbumId, r: ReservationId, t: Token, later: seq<Event>)
    requires Reachable(w) && T.MarkConfirmed(w.db, id, a, r).result.Ok? && !w.db.albums[a].IsActive(t)
    requires Run(Step(w, Confirm(id, a, r)), later)
    ensures var c := w.db.objects.media[id].epochTag;
            var after := Step(w, Confirm(id, a, r));
            var end := Exec(after, later);
            && a in w.hist.held && c in w.hist.held[a] && t !in w.hist.held[a][c]
            && a in end.hist.held && c in end.hist.held[a]
            && (t in end.hist.held[a][c] || (a in end.db.albums && t in Wrapped(end.db.albums[a], c)) ==>
                exists k :: 0 <= k < |later| && Joins(Exec(after, later[..k]), later[k], a, t))
  {
    var c := w.db.objects.media[id].epochTag;
    hide Inv, Joins, T.MarkConfirmed, Wrapped;
    var after := Step(w, Confirm(id, a, r));
    ConfirmedKeyIsHeldByActiveOnly(w, id, a, r);
    assert after.hist.held == w.hist.held;
    hide Step;
    ReachableInv(w);
    InvStep(w, Confirm(id, a, r));
    InvHolds(after, later);
    assert AlbumsInv(after) by { InvIsAlbums(after); }
    KeysSpreadOnlyByInvite(after, later, a, c, t);
    WrappedWereGiven(Exec(after, later), a, c, t);
  }

  lemma WrappedWereGiven(w: World, a: AlbumId, c: int, t: Token)
    requires Inv(w)
    ensures a in w.db.albums && t in Wrapped(w.db.albums[a], c) ==>
              a in w.hist.held && c in w.hist.held[a] && t in w.hist.held[a][c]
  {
  }
}
