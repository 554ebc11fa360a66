/** Album generations: confirmed photos are numbered 1, 2, 3, ... in commit order, whatever is deleted in between. */
module NumberRuns {
  import opened Basics
  import opened EpochEnvelope
  import opened Schema
  import opened Albums
  import opened ObjectStore
  import opened World
  import opened UploadRuns
  import opened Runs
  import AccountRuns
  import ClockRuns
  import T = Transactions

  ghost predicate ConfirmsIn(w: World, e: Event, a: AlbumId) {
    e.Confirm? && e.a == a && T.MarkConfirmed(w.db, e.id, a, e.r).result.Ok?
  }

  // The numbers handed out to photos of one album, in commit order
  ghost function Numbers(w: World, es: seq<Event>, a: AlbumId): seq<nat>
    decreases |es|
  {
    if es == [] then []
    else
      (if ConfirmsIn(w, es[0], a) then [T.MarkConfirmed(w.db, es[0].id, a, es[0].r).result.value] else [])
      + Numbers(Step(w, es[0]), es[1..], a)
  }

  function Generation(db: Db, a: AlbumId): nat {
    if a in db.albums then db.albums[a].generation else 0
  }

  lemma ConfirmCounts(w: World, e: Event, a: AlbumId)
    requires ConfirmsIn(w, e, a)
    ensures a in w.db.albums && a in Apply(w.db, e).albums
    ensures T.MarkConfirmed(w.db, e.id, a, e.r).result.value == Generation(w.db, a) + 1 == Generation(Apply(w.db, e), a)
  {
  }

  // Nothing but a confirmation moves the counter
  lemma OthersDoNotCount(w: World, e: Event, a: AlbumId)
    requires AlbumsInv(w) && Feasible(w, e) && !ConfirmsIn(w, e, a)
    requires a in Apply(w.db, e).albums || a !in HeldAfter(w, e)
    ensures Generation(Apply(w.db, e), a) == Generation(w.db, a) && (a in w.db.albums || a !in w.hist.held)
  {
    hide AlbumInv, Validated, Contiguous, Retire, T.RemoveMembership, Recheck, Upsert, Storable;
    if e.Leave? {
      AccountRuns.LeftAlbums(w.db, e.u, e.a);
    } else if !TouchesAlbums(e) {
      OtherEventsLeaveAlbums(w, e);
    }
  }

  lemma {:induction false} NoNumbersOnceGone(w: World, es: seq<Event>, a: AlbumId)
    requires AlbumsInv(w) && Run(w, es) && a in w.hist.held && a !in w.db.albums
    ensures Numbers(w, es, a) == []
    decreases |es|
  {
    if es != [] {
      AlbumsStep(w, es[0]);
      ClockRuns.GoneStaysGone(w, es[0], a);
      hide AlbumsInv, Feasible, Apply, HeldAfter, CommittedAfter, ReservedAfter;
      NoNumbersOnceGone(Step(w, es[0]), es[1..], a);
    }
  }

  ghost predicate CountsFrom(ns: seq<nat>, g: nat) {
    forall i :: 0 <= i < |ns| ==> ns[i] == g + 1 + i
  }

  lemma CountOn(ns: seq<nat>, g: nat)
    ensures CountsFrom([], g) && (CountsFrom(ns, g + 1) ==> CountsFrom([g + 1] + ns, g))
  {
  }

  lemma {:induction false} NumbersCountUp(w: World, es: seq<Event>, a: AlbumId)
    requires AlbumsInv(w) && Run(w, es) && (a in w.db.albums || a !in w.hist.held)
    ensures CountsFrom(Numbers(w, es, a), Generation(w.db, a))
    decreases |es|
  {
    hide AlbumsInv, Feasible, Apply, HeldAfter, CommittedAfter, ReservedAfter, ConfirmsIn, T.MarkConfirmed, CountsFrom, Generation;
    CountOn([], Generation(w.db, a));
    if es != [] {
      var e, next := es[0], Step(w, es[0]);
      AlbumsStep(w, e);
      if ConfirmsIn(w, e, a) {
        ConfirmCounts(w, e, a);
        NumbersCountUp(next, es[1..], a);
        CountOn(Numbers(next, es[1..], a), Generation(w.db, a));
      } else if a !in next.db.albums && a in next.hist.held {
        NoNumbersOnceGone(next, es[1..], a);
        assert Numbers(w, es, a) == [];
      } else {
        OthersDoNotCount(w, e, a);
        NumbersCountUp(next, es[1..], a);
        assert [] + Numbers(next, es[1..], a) == Numbers(next, es[1..], a);
      }
    }
  }

  // In every run the photos of an album are numbered 1, 2, 3, ... in the order they commit; deleting photos, members
  // or rows in between never makes a number come twice
  lemma PhotosAreNumberedInCommitOrder(es: seq<Event>, a: AlbumId)
    requires Run(START, es)
    ensures forall i :: 0 <= i < |Numbers(START, es, a)| ==> Numbers(START, es, a)[i] == i + 1
  {
    NumbersCountUp(START, es, a);
  }

  // Two photos of an album never share a number, and none is above the album's counter
  lemma NumbersIdentifyPhotos(w: World, i: MediaId, j: MediaId)
    requires Reachable(w) && i in w.db.objects.media && j in w.db.objects.media
    requires w.db.objects.media[i].confirmed && w.db.objects.media[j].confirmed
    requires w.db.objects.media[i].album == w.db.objects.media[j].album
    ensures w.db.objects.media[i].albumSeq == w.db.objects.media[j].albumSeq <==> i == j
    ensures var row := w.db.objects.media[i];
            row.albumSeq.Some? && 1 <= row.albumSeq.value <= Generation(w.db, row.album)
  {
    ReachableInv(w);
    assert RowInv(w.db, w.hist.reserved, i, w.db.objects.media[i]);
    assert RowInv(w.db, w.hist.reserved, j, w.db.objects.media[j]);
  }
}
