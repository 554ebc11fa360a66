/** What each transaction on avatars answers and leaves behind, said of the rows alone. */
module AvatarOutcomes {
  import opened Basics
  import opened EpochEnvelope
  import opened Schema
  import opened Albums
  import opened ObjectStore
  import opened World
  import opened Runs
  import opened Frames
  import opened UploadOutcomes
  import AlbumOutcomes
  import T = Transactions

  ghost predicate Own(o: Objects, face: AvatarId, a: AlbumId, t: Token) {
    face in o.avatars && o.avatars[face].album == a && o.avatars[face].member == t
  }

  // ---------- reserving ----------

  // The member's one pending avatar is now this one, with the columns of the request; an upload of the same bytes under
  // the id keeps its key, and every other pending one of the member goes
  ghost predicate AvatarReserved(o: Objects, o': Objects, face: AvatarId, avatar: Avatar, stored: Avatar) {
    && face in o'.avatars && o'.avatars[face] == stored && !stored.confirmed
    && stored.(storageKey := avatar.storageKey, confirmed := avatar.confirmed) == avatar
    && stored.storageKey == (if face in o.avatars && o.avatars[face].size == avatar.size && o.avatars[face].sha == avatar.sha
                             then o.avatars[face].storageKey else avatar.storageKey)
    && (forall f :: f != face ==>
          (f in o'.avatars <==> f in o.avatars && (o.avatars[f].confirmed || !Own(o, f, avatar.album, avatar.member)))
          && (f in o'.avatars ==> o'.avatars[f] == o.avatars[f]))
    && o'.media == o.media && QueueGrows(o, o') && AttemptsStay(o, o')
  }

  lemma PutAvatarReserves(o: Objects, face: AvatarId, avatar: Avatar, committed: set<Key>, cleared: set<Key>)
    requires ObjectInv(o, committed, cleared) && avatar.storageKey !in committed && avatar.storageKey != ""
    requires face in o.avatars ==> Own(o, face, avatar.album, avatar.member) && !o.avatars[face].confirmed
    ensures var next := avatar.(confirmed := false);
            AvatarReserved(o, PutAvatar(o, face, next), face, avatar, PutAvatar(o, face, next).avatars[face])
  {
    var next := avatar.(confirmed := false);
    PutAvatarQueue(o, face, next, committed, cleared);
    ReusedKeyIsNotQueued(o, face, next, committed, cleared);
    hide ObjectInv, QueueGrows, MediaKeys, AvatarKeys;
  }

  // Exactly when an avatar is reserved, and what each refusal means
  lemma ReserveAvatarOutcome(w: World, face: AvatarId, avatar: Avatar)
    requires Reachable(w) && avatar.storageKey !in w.hist.committed && avatar.storageKey != ""
    ensures var tx, o := T.ReserveAvatar(w.db, face, avatar), w.db.objects;
            var active := avatar.album in w.db.albums && w.db.albums[avatar.album].IsActive(avatar.member);
            var own := Own(o, face, avatar.album, avatar.member);
            && (tx.result.Ok? <==> active && (face !in o.avatars || (own && !o.avatars[face].confirmed)))
            && (Refused(tx.result, AlbumNotFound) <==> avatar.album !in w.db.albums)
            && (Refused(tx.result, CallerRevoked) <==> avatar.album in w.db.albums && !active)
            && (Refused(tx.result, AvatarNotOwned) <==> active && face in o.avatars && !own)
            && (Refused(tx.result, AvatarConfirmed) <==> active && own && o.avatars[face].confirmed)
            && (tx.result.Err? ==> tx.db == w.db)
            && (tx.result.Ok? ==>
                  && AvatarReserved(o, tx.db.objects, face, avatar, tx.result.value)
                  && tx.db.albums == w.db.albums && SameAccounts(w.db, tx.db))
  {
    hide Inv, Reachable, ObjectInv, PutAvatar, AvatarReserved, Album.IsActive;
    ReachableInv(w);
    AlbumOutcomes.InvHasObjects(w);
    if T.ReserveAvatar(w.db, face, avatar).result.Ok? {
      PutAvatarReserves(w.db.objects, face, avatar, w.hist.committed, w.hist.cleared);
    }
  }

  // ---------- confirming ----------

  // The pending avatar becomes the member's only one
  ghost predicate AvatarReplaced(o: Objects, o': Objects, face: AvatarId, a: AlbumId, t: Token) {
    && face in o.avatars && face in o'.avatars && o'.avatars[face].confirmed
    && o.avatars[face].(confirmed := true) == o'.avatars[face]
    && (forall f :: f != face ==>
          (f in o'.avatars <==> f in o.avatars && !Own(o, f, a, t)) && (f in o'.avatars ==> o'.avatars[f] == o.avatars[f]))
    && o'.media == o.media && QueueGrows(o, o') && AttemptsStay(o, o')
  }

  lemma ConfirmingReplaces(o: Objects, face: AvatarId, a: AlbumId, t: Token, committed: set<Key>, cleared: set<Key>)
    requires ObjectInv(o, committed, cleared) && Own(o, face, a, t)
    ensures var kept := Retire(o, {}, T.AvatarsOf(o, a, t) - {face});
            AvatarReplaced(o, kept.(avatars := kept.avatars[face := o.avatars[face].(confirmed := true)]), face, a, t)
  {
    hide ObjectInv, Retire, QueueGrows;
    var kept := Retire(o, {}, T.AvatarsOf(o, a, t) - {face});
    var o' := kept.(avatars := kept.avatars[face := o.avatars[face].(confirmed := true)]);
    RetiringTakesRows(o, {}, T.AvatarsOf(o, a, t) - {face}, committed, cleared);
    SameKeysSameGrowth(o, kept, o');
    assert o'.media == o.media by { RetireDrops(o, {}, T.AvatarsOf(o, a, t) - {face}); }
  }

  lemma SameKeysSameGrowth(o: Objects, kept: Objects, o': Objects)
    requires QueueGrows(o, kept) && o'.queue == kept.queue && o'.media == kept.media
    requires o'.avatars.Keys == kept.avatars.Keys
    requires forall f :: f in kept.avatars ==> o'.avatars[f].storageKey == kept.avatars[f].storageKey
    ensures QueueGrows(o, o')
  {
    assert forall s :: KeyAt(o', s) == KeyAt(kept, s);
    assert forall k :: Dropped(o, o', k) <==> Dropped(o, kept, k);
  }

  // Exactly when an avatar is confirmed, and what each refusal means
  lemma ConfirmAvatarOutcome(w: World, a: AlbumId, t: Token, face: AvatarId)
    requires Reachable(w)
    ensures var tx, o := T.ConfirmAvatar(w.db, a, t, face), w.db.objects;
            var active := a in w.db.albums && w.db.albums[a].IsActive(t);
            var own := Own(o, face, a, t);
            && (tx.result == Ok(true) <==> active && own && !o.avatars[face].confirmed)
            && (tx.result == Ok(false) <==> active && own && o.avatars[face].confirmed)
            && (Refused(tx.result, AlbumNotFound) <==> a !in w.db.albums)
            && (Refused(tx.result, CallerRevoked) <==> a in w.db.albums && !active)
            && (Refused(tx.result, AvatarNotFound) <==> active && !own)
            && (tx.result != Ok(true) ==> tx.db == w.db)
            && (tx.result == Ok(true) ==>
                  AvatarReplaced(o, tx.db.objects, face, a, t) && tx.db.albums == w.db.albums && SameAccounts(w.db, tx.db))
  {
    hide Inv, Reachable, ObjectInv, Retire, AvatarReplaced, Album.IsActive;
    ReachableInv(w);
    AlbumOutcomes.InvHasObjects(w);
    if Own(w.db.objects, face, a, t) {
      ConfirmingReplaces(w.db.objects, face, a, t, w.hist.committed, w.hist.cleared);
    }
  }

  // ---------- retiring ----------

  ghost function PendingOwn(o: Objects, a: AlbumId, t: Token, face: AvatarId): set<AvatarId> {
    set f | f == face && f in o.avatars && o.avatars[f].album == a && o.avatars[f].member == t && !o.avatars[f].confirmed
  }

  // A drop takes that pending avatar, a removal all of the member's, a sweep the pending ones among those picked
  lemma AvatarRemovalOutcomes(w: World, a: AlbumId, t: Token, face: AvatarId, faces: set<AvatarId>)
    requires Reachable(w)
    ensures var o := w.db.objects;
            && OnlyRowsGo(w.db, T.DropPendingAvatar(w.db, a, t, face).db, {}, PendingOwn(o, a, t, face))
            && OnlyRowsGo(w.db, T.RemoveAvatars(w.db, a, t).db, {}, set f | f in o.avatars && o.avatars[f].album == a && o.avatars[f].member == t)
            && OnlyRowsGo(w.db, T.SweepAvatars(w.db, faces).db, {}, set f | f in faces && f in o.avatars && !o.avatars[f].confirmed)
  {
    hide Retire, Reachable, OnlyRowsGo;
    var o := w.db.objects;
    Retiring(w, {}, {face});
    Retiring(w, {}, T.AvatarsOf(o, a, t));
    Retiring(w, {}, set f | f in faces && f in o.avatars && !o.avatars[f].confirmed);
    assert PendingOwn(o, a, t, face) == if face in PendingAvatars(o, a, t) then {face} else {};
  }
}
