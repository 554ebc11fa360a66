/** Avatar Confirm, statement by statement. Its update goes by avatar id alone, and the transactions that drop, remove or
    sweep avatars do not wait for the album lock; this says exactly when that shows. */
module AvatarSteps {
  import opened Basics
  import opened EpochEnvelope
  import opened Schema
  import opened Albums
  import opened ObjectStore
  import opened World
  import opened ObjectRuns
  import opened Runs
  import opened FinerSteps
  import AvatarRuns
  import T = Transactions

  // The unlocked transactions that delete a pending avatar
  ghost predicate Takes(e: Event, a: AlbumId, t: Token, face: AvatarId) {
    e == DropAvatar(a, t, face) || e == RemoveAvatars(a, t) || (e.SweepAvatars? && face in e.faces)
  }

  ghost predicate NoneTakes(es: seq<Event>, a: AlbumId, t: Token, face: AvatarId) {
    forall i :: 0 <= i < |es| ==> !Takes(es[i], a, t, face)
  }

  // The index on current avatars: confirming the row would give its member a second one
  ghost predicate HasCurrent(o: Objects, b: AlbumId, m: Token) {
    exists g :: g in T.AvatarsOf(o, b, m) && o.avatars[g].confirmed
  }

  // others are the rows of the member the transaction's DELETE took; o is what its UPDATE, by avatar id alone, meets
  ghost function AvatarWrite(o: Objects, others: set<AvatarId>, a: AlbumId, t: Token, face: AvatarId): Result<Objects, Error> {
    var kept := Retire(o, {}, others * T.AvatarsOf(o, a, t));
    if face !in kept.avatars then Ok(kept)
    else
      var row := kept.avatars[face];
      if !row.confirmed && HasCurrent(kept, row.album, row.member) then Err(ConstraintViolation)
      else Ok(kept.(avatars := kept.avatars[face := row.(confirmed := true)]))
  }

  ghost function Others(o: Objects, a: AlbumId, t: Token, face: AvatarId): set<AvatarId> {
    T.AvatarsOf(o, a, t) - {face}
  }

  // Run in one piece it is ConfirmAvatar
  lemma AvatarWriteInOnePiece(db: Db, a: AlbumId, t: Token, face: AvatarId)
    requires T.ConfirmAvatar(db, a, t, face).result == Ok(true)
    ensures AvatarWrite(db.objects, Others(db.objects, a, t, face), a, t, face) == Ok(T.ConfirmAvatar(db, a, t, face).db.objects)
  {
    hide MediaKeys, AvatarKeys, Enqueue;
    assert Others(db.objects, a, t, face) * T.AvatarsOf(db.objects, a, t) == Others(db.objects, a, t, face);
  }

  // ---------- what unlocked transactions do to a member's avatars ----------

  lemma RetiredHere(db: Db, e: Event, a: AlbumId, t: Token, f: AvatarId)
    requires !Locks(e, a) && f in T.AvatarsOf(db.objects, a, t)
    ensures f in RetiredAvatars(db, e) <==>
            if db.objects.avatars[f].confirmed then e == RemoveAvatars(a, t) else Takes(e, a, t, f)
  {
    hide T.PlannedOutcome, T.RevokeMember, T.DeleteAlbum;
  }

  ghost predicate OnlyTaken(o: Objects, o': Objects, e: Event, a: AlbumId, t: Token, f: AvatarId) {
    && (f in T.AvatarsOf(o', a, t) ==> f in T.AvatarsOf(o, a, t) && o'.avatars[f] == o.avatars[f])
    && (f in T.AvatarsOf(o, a, t) ==>
          (f !in T.AvatarsOf(o', a, t) <==> if o.avatars[f].confirmed then e == RemoveAvatars(a, t) else Takes(e, a, t, f)))
  }

  lemma ReserveElsewhere(db: Db, face: AvatarId, avatar: Avatar, a: AlbumId, t: Token, f: AvatarId)
    requires avatar.album != a
    ensures OnlyTaken(db.objects, T.ReserveAvatar(db, face, avatar).db.objects, ReserveAvatar(face, avatar), a, t, f)
  {
    hide MediaKeys, AvatarKeys, Enqueue, AvatarKey;
  }

  lemma ConfirmElsewhere(db: Db, b: AlbumId, m: Token, face: AvatarId, a: AlbumId, t: Token, f: AvatarId)
    requires b != a
    ensures OnlyTaken(db.objects, T.ConfirmAvatar(db, b, m, face).db.objects, ConfirmAvatar(b, m, face), a, t, f)
  {
    hide MediaKeys, AvatarKeys, Enqueue;
  }

  lemma RetiringStep(db: Db, e: Event, a: AlbumId, t: Token, f: AvatarId)
    requires !Locks(e, a) && !e.ReserveAvatar? && !e.ConfirmAvatar?
    ensures OnlyTaken(db.objects, Apply(db, e).objects, e, a, t, f)
  {
    hide Apply, Retire, RetiredMedia, RetiredAvatars;
    if AvatarRuns.LeavesFaces(e) {
      AvatarRuns.SameFaces(db, e);
    } else {
      OtherEventsRetire(db, e);
      RetireDrops(db.objects, RetiredMedia(db, e), RetiredAvatars(db, e));
      if f in T.AvatarsOf(db.objects, a, t) {
        RetiredHere(db, e, a, t, f);
      }
    }
  }

  lemma UnlockedStep(db: Db, e: Event, a: AlbumId, t: Token, f: AvatarId)
    requires !Locks(e, a)
    ensures OnlyTaken(db.objects, Apply(db, e).objects, e, a, t, f)
  {
    hide T.ReserveAvatar, T.ConfirmAvatar, Retire, RetiredMedia, RetiredAvatars;
    if e.ReserveAvatar? {
      ReserveElsewhere(db, e.face, e.avatar, a, t, f);
    } else if e.ConfirmAvatar? {
      ConfirmElsewhere(db, e.a, e.token, e.face, a, t, f);
    } else {
      hide Apply, Locks;
      RetiringStep(db, e, a, t, f);
    }
  }

  // Along unlocked events a member gains no avatar, loses a pending one exactly when an event takes it, and a current
  // one exactly when everything of the member is removed
  lemma {:induction false} AvatarsUnlocked(w: World, es: seq<Event>, a: AlbumId, t: Token, f: AvatarId)
    requires Unlocked(es, a)
    ensures var o, o' := w.db.objects, Exec(w, es).db.objects;
            && (f in T.AvatarsOf(o', a, t) ==> f in T.AvatarsOf(o, a, t) && o'.avatars[f] == o.avatars[f])
            && (f in T.AvatarsOf(o, a, t) ==>
                  (f in T.AvatarsOf(o', a, t) <==>
                     if o.avatars[f].confirmed then RemoveAvatars(a, t) !in es else NoneTakes(es, a, t, f)))
    decreases |es|
  {
    hide Takes, Locks, T.AvatarsOf, Apply, Record;
    if es != [] {
      UnlockedStep(w.db, es[0], a, t, f);
      AvatarsUnlocked(Step(w, es[0]), es[1..], a, t, f);
      assert es == [es[0]] + es[1..];
    }
  }

  // ---------- when the new avatar is in place ----------

  ghost predicate InPlace(r: Result<Objects, Error>, a: AlbumId, t: Token, face: AvatarId) {
    r.Ok? && T.AvatarsOf(r.value, a, t) == {face} && r.value.avatars[face].confirmed
  }

  lemma WriteKeeps(o: Objects, others: set<AvatarId>, a: AlbumId, t: Token, face: AvatarId)
    requires face !in others && T.AvatarsOf(o, a, t) <= others + {face}
    ensures InPlace(AvatarWrite(o, others, a, t, face), a, t, face) <==> face in T.AvatarsOf(o, a, t)
    ensures var r := AvatarWrite(o, others, a, t, face);
            face !in T.AvatarsOf(o, a, t) && r.Ok? ==> T.AvatarsOf(r.value, a, t) == {}
  {
    RetireDrops(o, {}, others * T.AvatarsOf(o, a, t));
    hide Retire;
    if face in T.AvatarsOf(o, a, t) {
      assert T.AvatarsOf(Retire(o, {}, others * T.AvatarsOf(o, a, t)), a, t) == {face};
    }
  }

  // The transaction has read its pending row at w; es runs before its DELETE, more before its UPDATE, neither waiting for
  // the album lock. It leaves the new avatar as the member's only one if and only if nothing took the row in the meantime;
  // otherwise a commit leaves the member without any
  lemma AvatarConfirmKeepsAvatarIffRowSurvives(w: World, es: seq<Event>, more: seq<Event>, a: AlbumId, t: Token, face: AvatarId)
    requires T.ConfirmAvatar(w.db, a, t, face).result == Ok(true)
    requires Unlocked(es, a) && Unlocked(more, a)
    ensures var o1, o2 := Exec(w, es).db.objects, Exec(Exec(w, es), more).db.objects;
            var r := AvatarWrite(o2, Others(o1, a, t, face), a, t, face);
            && (InPlace(r, a, t, face) <==> NoneTakes(es + more, a, t, face))
            && (!NoneTakes(es + more, a, t, face) && r.Ok? ==> T.AvatarsOf(r.value, a, t) == {})
  {
    var w1 := Exec(w, es);
    var o1, o2 := w1.db.objects, Exec(w1, more).db.objects;
    PendingAtReads(w.db, a, t, face);
    hide InPlace, AvatarWrite, Takes, T.ConfirmAvatar, Exec, Unlocked;
    OnlyOthersLeft(w1, more, a, t, face);
    WriteKeeps(o2, Others(o1, a, t, face), a, t, face);
    AvatarsUnlocked(w, es, a, t, face);
    AvatarsUnlocked(w1, more, a, t, face);
    NoneTakesSplits(es, more, a, t, face);
  }

  lemma OnlyOthersLeft(w: World, more: seq<Event>, a: AlbumId, t: Token, face: AvatarId)
    requires Unlocked(more, a)
    ensures T.AvatarsOf(Exec(w, more).db.objects, a, t) <= Others(w.db.objects, a, t, face) + {face}
  {
    forall f | f in T.AvatarsOf(Exec(w, more).db.objects, a, t) ensures f in Others(w.db.objects, a, t, face) + {face} {
      AvatarsUnlocked(w, more, a, t, f);
    }
  }

  lemma PendingAtReads(db: Db, a: AlbumId, t: Token, face: AvatarId)
    requires T.ConfirmAvatar(db, a, t, face).result == Ok(true)
    ensures face in T.AvatarsOf(db.objects, a, t) && !db.objects.avatars[face].confirmed
  {
  }

  lemma NoneTakesSplits(es: seq<Event>, more: seq<Event>, a: AlbumId, t: Token, face: AvatarId)
    ensures NoneTakes(es + more, a, t, face) <==> NoneTakes(es, a, t, face) && NoneTakes(more, a, t, face)
  {
    hide Takes;
    if NoneTakes(es + more, a, t, face) {
      assert forall i :: 0 <= i < |es| ==> es[i] == (es + more)[i];
      assert forall i :: 0 <= i < |more| ==> more[i] == (es + more)[|es| + i];
    }
  }

  // One drop, removal or sweep of the row is enough: the commit succeeds and the member has no avatar
  lemma AvatarConfirmCanLoseAvatar(w: World, e: Event, a: AlbumId, t: Token, face: AvatarId)
    requires T.ConfirmAvatar(w.db, a, t, face).result == Ok(true) && Takes(e, a, t, face)
    ensures var o := Step(w, e).db.objects;
            var r := AvatarWrite(o, Others(o, a, t, face), a, t, face);
            r.Ok? && T.AvatarsOf(r.value, a, t) == {} && !InPlace(r, a, t, face)
  {
    var o := Step(w, e).db.objects;
    TakenIsGone(w.db, e, a, t, face);
    hide Step, Takes;
    RetireDrops(o, {}, Others(o, a, t, face) * T.AvatarsOf(o, a, t));
    hide Retire;
  }

  lemma TakenIsGone(db: Db, e: Event, a: AlbumId, t: Token, face: AvatarId)
    requires T.ConfirmAvatar(db, a, t, face).result == Ok(true) && Takes(e, a, t, face)
    ensures face !in Apply(db, e).objects.avatars
  {
    OtherEventsRetire(db, e);
    RetireDrops(db.objects, RetiredMedia(db, e), RetiredAvatars(db, e));
    hide Apply, Retire;
  }

  // ---------- when the update confirms somebody else's upload ----------

  // A reservation that stores this id for another member
  ghost predicate StoresElsewhere(w: World, e: Event, face: AvatarId, b: AlbumId, m: Token) {
    e.ReserveAvatar? && e.face == face && e.avatar.album == b && e.avatar.member == m
    && T.ReserveAvatar(w.db, face, e.avatar).result.Ok?
  }

  // The row was taken and its id then reserved in another album
  ghost predicate TakenThenReserved(w: World, es: seq<Event>, a: AlbumId, t: Token, face: AvatarId, b: AlbumId, m: Token) {
    exists i, j :: 0 <= i < j < |es| && Takes(es[i], a, t, face) && StoresElsewhere(Exec(w, es[..j]), es[j], face, b, m)
  }

  ghost predicate PendingFor(o: Objects, face: AvatarId, b: AlbumId, m: Token) {
    face in T.AvatarsOf(o, b, m) && !o.avatars[face].confirmed
  }

  ghost predicate ConfirmsForeign(o: Objects, r: Result<Objects, Error>, a: AlbumId, t: Token, face: AvatarId) {
    && r.Ok? && face in o.avatars && face !in T.AvatarsOf(o, a, t) && !o.avatars[face].confirmed
    && face in r.value.avatars && r.value.avatars[face] == o.avatars[face].(confirmed := true)
  }

  // A pending row was there before as it is, or was just reserved
  lemma PendingOrigin(w: World, e: Event, face: AvatarId, b: AlbumId, m: Token)
    requires PendingFor(Apply(w.db, e).objects, face, b, m)
    ensures PendingFor(w.db.objects, face, b, m) || StoresElsewhere(w, e, face, b, m)
  {
    if e.ReserveAvatar? || e.ConfirmAvatar? {
      hide MediaKeys, AvatarKeys, Enqueue, AvatarKey;
    } else if AvatarRuns.LeavesFaces(e) {
      AvatarRuns.SameFaces(w.db, e);
      hide Apply;
    } else {
      OtherEventsRetire(w.db, e);
      RetireDrops(w.db.objects, RetiredMedia(w.db, e), RetiredAvatars(w.db, e));
      hide Apply, Retire, RetiredMedia, RetiredAvatars;
    }
  }

  lemma {:induction false} PendingHasOrigin(w: World, es: seq<Event>, face: AvatarId, b: AlbumId, m: Token)
    requires PendingFor(Exec(w, es).db.objects, face, b, m)
    ensures PendingFor(w.db.objects, face, b, m)
            || exists j :: 0 <= j < |es| && StoresElsewhere(Exec(w, es[..j]), es[j], face, b, m)
    decreases |es|
  {
    hide PendingFor, StoresElsewhere, Apply, Record;
    if es != [] {
      var next := Step(w, es[0]);
      PendingHasOrigin(next, es[1..], face, b, m);
      if PendingFor(next.db.objects, face, b, m) {
        PendingOrigin(w, es[0], face, b, m);
        assert Exec(w, es[..0]) == w;
      } else {
        var j :| 0 <= j < |es| - 1 && StoresElsewhere(Exec(next, es[1..][..j]), es[1..][j], face, b, m);
        assert es[..j + 1][1..] == es[1..][..j];
        assert StoresElsewhere(Exec(w, es[..j + 1]), es[j + 1], face, b, m);
      }
    }
  }

  lemma ElsewhereMeansNotHere(w: World, e: Event, face: AvatarId, a: AlbumId, t: Token, b: AlbumId, m: Token)
    requires StoresElsewhere(w, e, face, b, m) && !Locks(e, a)
    ensures b != a && face !in T.AvatarsOf(w.db.objects, a, t)
  {
    hide PutAvatar;
  }

  // Before the id can be stored elsewhere an event has to take the row
  lemma TakenBeforeStored(w: World, es: seq<Event>, a: AlbumId, t: Token, face: AvatarId, j: nat, b: AlbumId, m: Token)
    requires T.ConfirmAvatar(w.db, a, t, face).result == Ok(true) && Unlocked(es, a)
    requires j < |es| && StoresElsewhere(Exec(w, es[..j]), es[j], face, b, m)
    ensures TakenThenReserved(w, es, a, t, face, b, m)
  {
    PendingAtReads(w.db, a, t, face);
    ElsewhereMeansNotHere(Exec(w, es[..j]), es[j], face, a, t, b, m);
    hide StoresElsewhere, Takes, Exec, Locks, T.ConfirmAvatar, T.AvatarsOf;
    AvatarsUnlocked(w, es[..j], a, t, face);
    var i :| 0 <= i < j && Takes(es[..j][i], a, t, face);
    assert Takes(es[i], a, t, face);
  }

  // Whoever the row waits for at the update, other than the confirming member, came by it that way
  lemma ForeignPending(w: World, es: seq<Event>, a: AlbumId, t: Token, face: AvatarId, b: AlbumId, m: Token)
    requires T.ConfirmAvatar(w.db, a, t, face).result == Ok(true) && Unlocked(es, a)
    requires PendingFor(Exec(w, es).db.objects, face, b, m) && face !in T.AvatarsOf(Exec(w, es).db.objects, a, t)
    ensures TakenThenReserved(w, es, a, t, face, b, m)
  {
    PendingAtReads(w.db, a, t, face);
    hide StoresElsewhere, TakenThenReserved, Exec, T.ConfirmAvatar, Unlocked;
    PendingHasOrigin(w, es, face, b, m);
    if PendingFor(w.db.objects, face, b, m) {
      assert false;
    }
    var j :| 0 <= j < |es| && StoresElsewhere(Exec(w, es[..j]), es[j], face, b, m);
    TakenBeforeStored(w, es, a, t, face, j, b, m);
  }

  lemma ReservedIsElsewhere(w: World, es: seq<Event>, a: AlbumId, t: Token, face: AvatarId, b: AlbumId, m: Token)
    requires TakenThenReserved(w, es, a, t, face, b, m) && Unlocked(es, a)
    ensures b != a
  {
    hide T.ReserveAvatar, Exec, Takes;
  }

  lemma OthersOfOnePerson(o: Objects, others: set<AvatarId>, a: AlbumId, t: Token, b: AlbumId, m: Token)
    requires b != a || m != t
    ensures HasCurrent(Retire(o, {}, others * T.AvatarsOf(o, a, t)), b, m) <==> HasCurrent(o, b, m)
  {
    RetireDrops(o, {}, others * T.AvatarsOf(o, a, t));
    hide Retire;
    var kept := Retire(o, {}, others * T.AvatarsOf(o, a, t));
    assert T.AvatarsOf(kept, b, m) == T.AvatarsOf(o, b, m);
  }

  ghost predicate ForeignAt(o: Objects, a: AlbumId, t: Token, face: AvatarId) {
    face in o.avatars && !o.avatars[face].confirmed && face !in T.AvatarsOf(o, a, t)
  }

  // What the update does to the row it meets
  lemma WriteMeets(o: Objects, others: set<AvatarId>, a: AlbumId, t: Token, face: AvatarId)
    requires face !in others && T.AvatarsOf(o, a, t) <= others + {face}
    ensures var r := AvatarWrite(o, others, a, t, face);
            && (r.Err? <==> ForeignAt(o, a, t, face) && HasCurrent(o, o.avatars[face].album, o.avatars[face].member))
            && (ConfirmsForeign(o, r, a, t, face) <==>
                  ForeignAt(o, a, t, face) && !HasCurrent(o, o.avatars[face].album, o.avatars[face].member))
  {
    var gone := others * T.AvatarsOf(o, a, t);
    var kept := Retire(o, {}, gone);
    RetireDrops(o, {}, gone);
    if ForeignAt(o, a, t, face) {
      OthersOfOnePerson(o, others, a, t, o.avatars[face].album, o.avatars[face].member);
    } else {
      assert face in T.AvatarsOf(o, a, t) ==> T.AvatarsOf(kept, a, t) == {face};
    }
    hide Retire;
  }

  lemma UnlockedJoins(es: seq<Event>, more: seq<Event>, a: AlbumId)
    requires Unlocked(es, a) && Unlocked(more, a)
    ensures Unlocked(es + more, a)
  {
    hide Locks;
  }

  // The update is by avatar id alone. It confirms another member's unchecked upload if and only if the row was taken, its
  // id reserved in another album, and that reservation is still pending there for a member without a current avatar; with
  // a current avatar the index on those makes the whole transaction roll back
  lemma AvatarConfirmHitsForeignRowIff(w: World, es: seq<Event>, more: seq<Event>, a: AlbumId, t: Token, face: AvatarId)
    requires T.ConfirmAvatar(w.db, a, t, face).result == Ok(true)
    requires Unlocked(es, a) && Unlocked(more, a)
    ensures var o1, o2 := Exec(w, es).db.objects, Exec(Exec(w, es), more).db.objects;
            var r := AvatarWrite(o2, Others(o1, a, t, face), a, t, face);
            && (ConfirmsForeign(o2, r, a, t, face) <==>
                  exists b, m :: TakenThenReserved(w, es + more, a, t, face, b, m) && PendingFor(o2, face, b, m) && !HasCurrent(o2, b, m))
            && (r.Err? <==>
                  exists b, m :: TakenThenReserved(w, es + more, a, t, face, b, m) && PendingFor(o2, face, b, m) && HasCurrent(o2, b, m))
  {
    var o1, o2 := Exec(w, es).db.objects, Exec(Exec(w, es), more).db.objects;
    RunSplits(w, es, more);
    UnlockedJoins(es, more, a);
    OnlyOthersLeft(Exec(w, es), more, a, t, face);
    WriteMeets(o2, Others(o1, a, t, face), a, t, face);
    hide AvatarWrite, ConfirmsForeign, TakenThenReserved, HasCurrent, Exec, Unlocked, T.ConfirmAvatar;
    forall b, m | TakenThenReserved(w, es + more, a, t, face, b, m) && PendingFor(o2, face, b, m)
      ensures ForeignAt(o2, a, t, face) && o2.avatars[face].album == b && o2.avatars[face].member == m
    {
      ReservedIsElsewhere(w, es + more, a, t, face, b, m);
    }
    if ForeignAt(o2, a, t, face) {
      ForeignPending(w, es + more, a, t, face, o2.avatars[face].album, o2.avatars[face].member);
      assert PendingFor(o2, face, o2.avatars[face].album, o2.avatars[face].member);
    }
  }

  lemma LoneUpload(o: Objects, a: AlbumId, t: Token, face: AvatarId, other: Avatar)
    requires other.album != a && T.AvatarsOf(o, other.album, other.member) == {face} && o.avatars[face] == other.(confirmed := false)
    ensures var r := AvatarWrite(o, Others(o, a, t, face), a, t, face);
            && r.Ok? && T.AvatarsOf(r.value, a, t) == {}
            && T.AvatarsOf(r.value, other.album, other.member) == {face} && r.value.avatars[face] == other.(confirmed := true)
  {
    var others := Others(o, a, t, face);
    assert face in T.AvatarsOf(o, other.album, other.member);
    OthersOfOnePerson(o, others, a, t, other.album, other.member);
    RetireDrops(o, {}, others * T.AvatarsOf(o, a, t));
    hide Retire;
  }

  lemma TwoSteps(w: World, e0: Event, e1: Event)
    requires Feasible(w, e0) && Feasible(Step(w, e0), e1)
    ensures Run(w, [e0, e1]) && Exec(w, [e0, e1]) == Step(Step(w, e0), e1)
  {
    hide Step, Feasible;
    assert [e0, e1][1..] == [e1] && [e1][1..] == [];
    assert Run(Step(w, e0), [e1]) && Exec(Step(w, e0), [e1]) == Step(Step(w, e0), e1);
  }

  lemma DropThenReserveRuns(w: World, a: AlbumId, t: Token, face: AvatarId, other: Avatar)
    requires other.storageKey !in w.hist.committed && other.storageKey != ""
    ensures var es := [DropAvatar(a, t, face), ReserveAvatar(face, other)];
            && Run(w, es)
            && Exec(w, es).db == T.ReserveAvatar(T.DropPendingAvatar(w.db, a, t, face).db, face, other).db
  {
    hide T.DropPendingAvatar, T.ReserveAvatar, HeldAfter, ReservedAfter, Run, Exec;
    var drop, reserve := DropAvatar(a, t, face), ReserveAvatar(face, other);
    assert Feasible(w, drop) && Feasible(Step(w, drop), reserve);
    hide Feasible;
    TwoSteps(w, drop, reserve);
  }

  lemma DropThenReserve(db: Db, a: AlbumId, t: Token, face: AvatarId, other: Avatar)
    requires T.ConfirmAvatar(db, a, t, face).result == Ok(true)
    requires other.album != a && other.album in db.albums && db.albums[other.album].IsActive(other.member)
    requires T.AvatarsOf(db.objects, other.album, other.member) == {}
    ensures var db1 := T.DropPendingAvatar(db, a, t, face).db;
            var o := T.ReserveAvatar(db1, face, other).db.objects;
            && face in o.avatars && o.avatars[face] == other.(confirmed := false)
            && face !in T.AvatarsOf(o, a, t) && T.AvatarsOf(o, other.album, other.member) == {face}
  {
    hide MediaKeys, AvatarKeys, Enqueue;
  }

  // Such a run: drop the upload, reserve the id again from another album. The commit that checked this member's object
  // makes the other member's unchecked upload current and leaves this member with none
  lemma AvatarConfirmCanConfirmAnother(w: World, a: AlbumId, t: Token, face: AvatarId, other: Avatar)
    requires T.ConfirmAvatar(w.db, a, t, face).result == Ok(true)
    requires other.album != a && other.album in w.db.albums && w.db.albums[other.album].IsActive(other.member)
    requires other.storageKey !in w.hist.committed && other.storageKey != ""
    requires T.AvatarsOf(w.db.objects, other.album, other.member) == {}
    ensures var es := [DropAvatar(a, t, face), ReserveAvatar(face, other)];
            var o := Exec(w, es).db.objects;
            var r := AvatarWrite(o, Others(o, a, t, face), a, t, face);
            && Run(w, es) && Unlocked(es, a) && r.Ok?
            && T.AvatarsOf(r.value, a, t) == {}
            && T.AvatarsOf(r.value, other.album, other.member) == {face}
            && r.value.avatars[face] == other.(confirmed := true)
  {
    hide Run, Exec, AvatarWrite, T.DropPendingAvatar, T.ReserveAvatar, T.ConfirmAvatar;
    DropThenReserve(w.db, a, t, face, other);
    DropThenReserveRuns(w, a, t, face, other);
    var o := Exec(w, [DropAvatar(a, t, face), ReserveAvatar(face, other)]).db.objects;
    LoneUpload(o, a, t, face, other);
  }

  lemma Registered(u: UserId)
    ensures var w := Step(START, Register(u));
            w.db == EMPTY.(users := map[u := false]) && w.hist == START.hist.(users := {u})
  {
  }

  lemma Created(w: World, u: UserId, a: AlbumId, token: Token)
    requires u in w.db.users && !w.db.users[u] && a !in w.db.albums
    ensures var w' := Step(w, Create(u, a, token));
            && w'.db == w.db.(albums := w.db.albums[a := NewAlbum(u, token)])
            && w'.hist.held == w.hist.held[a := map[]] && w'.hist.tokens == w.hist.tokens + {token}
            && w'.hist.committed == w.hist.committed
  {
  }

  lemma FirstUpload(w: World, face: AvatarId, row: Avatar, b: AlbumId, m: Token)
    requires w.db.objects == EMPTY.objects && w.hist.committed == {} && !row.confirmed && row.storageKey != ""
    requires row.album in w.db.albums && w.db.albums[row.album].IsActive(row.member) && b != row.album
    ensures Feasible(w, ReserveAvatar(face, row))
    ensures var w' := Step(w, ReserveAvatar(face, row));
            && w'.db.albums == w.db.albums && T.AvatarsOf(w'.db.objects, b, m) == {}
            && w'.hist.committed == {row.storageKey}
            && T.ConfirmAvatar(w'.db, row.album, row.member, face).result == Ok(true)
  {
    hide Retire, Enqueue;
    assert Feasible(w, ReserveAvatar(face, row));
    hide Feasible;
    RetireDrops(EMPTY.objects, {}, PendingAvatars(EMPTY.objects, row.album, row.member));
    var mint := AvatarMint(w.db.objects, face, row);
    assert mint == map[Face(face) := row.storageKey] && mint[Face(face)] == row.storageKey;
  }

  lemma TwoAlbums(t: Token, m: Token)
    requires |t| == TOKEN_LEN && |m| == TOKEN_LEN && t != m
    ensures var w1 := Step(START, Register(0));
            var w2 := Step(w1, Create(0, 0, t));
            var w3 := Step(w2, Create(0, 1, m));
            && Feasible(START, Register(0)) && Feasible(w1, Create(0, 0, t)) && Feasible(w2, Create(0, 1, m))
            && 0 in w3.db.albums && w3.db.albums[0].IsActive(t) && 1 in w3.db.albums && w3.db.albums[1].IsActive(m)
            && w3.db.objects == EMPTY.objects && w3.hist.committed == {}
  {
    hide Step, Validated, Contiguous, MintedFor;
    Registered(0);
    var w1 := Step(START, Register(0));
    Created(w1, 0, 0, t);
    Created(Step(w1, Create(0, 0, t)), 0, 1, m);
  }

  // The server gets into such a state: two albums of one account, one avatar waiting
  lemma TwoAlbumsOneUpload() returns (w: World, t: Token, m: Token, row: Avatar)
    ensures Reachable(w) && T.ConfirmAvatar(w.db, 0, t, 0).result == Ok(true)
    ensures 1 in w.db.albums && w.db.albums[1].IsActive(m) && T.AvatarsOf(w.db.objects, 1, m) == {}
    ensures w.hist.committed == {row.storageKey}
  {
    hide Step, Feasible, T.ConfirmAvatar, T.AvatarsOf, Run, Exec, Album.IsActive;
    t, m := seq(TOKEN_LEN, _ => 0), seq(TOKEN_LEN, _ => 1);
    assert t[0] != m[0];
    row := Avatar(0, t, "first", 1, [], [], false);
    TwoAlbums(t, m);
    var w3 := Step(Step(Step(START, Register(0)), Create(0, 0, t)), Create(0, 1, m));
    FirstUpload(w3, 0, row, 1, m);
    w := Step(w3, ReserveAvatar(0, row));
    FourSteps(START, Register(0), Create(0, 0, t), Create(0, 1, m), ReserveAvatar(0, row));
  }

  lemma FourSteps(w: World, e0: Event, e1: Event, e2: Event, e3: Event)
    requires var w2 := Step(Step(w, e0), e1);
             Feasible(w, e0) && Feasible(Step(w, e0), e1) && Feasible(w2, e2) && Feasible(Step(w2, e2), e3)
    ensures Run(w, [e0, e1, e2, e3]) && Exec(w, [e0, e1, e2, e3]) == Step(Step(Step(Step(w, e0), e1), e2), e3)
  {
    hide Step, Feasible;
    TwoSteps(Step(Step(w, e0), e1), e2, e3);
    assert [e0, e1, e2, e3][1..] == [e1, e2, e3] && [e1, e2, e3][1..] == [e2, e3];
    assert Run(Step(w, e0), [e1, e2, e3]) && Exec(Step(w, e0), [e1, e2, e3]) == Exec(Step(Step(w, e0), e1), [e2, e3]);
  }

  // ---------- what every commit keeps ----------

  lemma WriteKeepsKeys(o: Objects, committed: set<Key>, cleared: set<Key>, others: set<AvatarId>, a: AlbumId, t: Token, face: AvatarId)
    requires ObjectInv(o, committed, cleared)
    ensures var r := AvatarWrite(o, others, a, t, face); r.Ok? ==> ObjectInv(r.value, committed, cleared)
  {
    hide ObjectInv, Retire, HasCurrent;
    var kept := Retire(o, {}, others * T.AvatarsOf(o, a, t));
    RetireInv(o, {}, others * T.AvatarsOf(o, a, t), committed, cleared);
    var r := AvatarWrite(o, others, a, t, face);
    if r.Ok? {
      SameKeysInv(kept, r.value, committed, cleared);
    }
  }

  lemma WriteKeepsFaces(db: Db, others: set<AvatarId>, a: AlbumId, t: Token, face: AvatarId)
    requires AvatarRuns.FacesFit(db)
    ensures var r := AvatarWrite(db.objects, others, a, t, face); r.Ok? ==> AvatarRuns.FacesFit(db.(objects := r.value))
  {
    hide Retire;
    RetireDrops(db.objects, {}, others * T.AvatarsOf(db.objects, a, t));
  }

  // Whatever fell in between, a commit moves no key but those of the rows it deletes, and keeps one current avatar a member
  lemma AvatarWriteInv(db: Db, committed: set<Key>, cleared: set<Key>, others: set<AvatarId>, a: AlbumId, t: Token, face: AvatarId)
    requires ObjectInv(db.objects, committed, cleared) && AvatarRuns.FacesFit(db)
    ensures var r := AvatarWrite(db.objects, others, a, t, face);
            r.Ok? ==> ObjectInv(r.value, committed, cleared) && AvatarRuns.FacesFit(db.(objects := r.value))
  {
    hide ObjectInv, AvatarRuns.FacesFit, AvatarWrite;
    WriteKeepsKeys(db.objects, committed, cleared, others, a, t, face);
    WriteKeepsFaces(db, others, a, t, face);
  }
}
