/** The avatar confirm above the repository: read the row, check its object, commit by avatar id. */
module AvatarService {
  import opened Basics
  import opened EpochEnvelope
  import opened Schema
  import opened Albums
  import opened ObjectStore
  import opened Database
  import opened World
  import opened ObjectRuns
  import opened Runs
  import opened MediaService
  import AvatarRepository
  import AvatarRuns
  import T = Transactions

  datatype Check = Unknown | NotOwner | NoObject | Mismatch | Fit

  // row is what Get found in the album; head is what HeadObject answers for its key. Only a pending row is checked
  method CheckAvatar(row: Option<Avatar>, caller: Token, head: Head) returns (c: Check)
    ensures c.Unknown? <==> row.None?
    ensures c.NotOwner? <==> row.Some? && row.value.member != caller
    ensures c.Fit? <==> row.Some? && row.value.member == caller && (row.value.confirmed || Stored(head, row.value.size, row.value.sha))
    ensures c.NoObject? <==> row.Some? && row.value.member == caller && !row.value.confirmed && head.Missing?
  {
    if row.None? {
      return Unknown;
    }
    var found := row.value;
    if found.member != caller {
      return NotOwner;
    }
    if !found.confirmed {
      if head.Missing? {
        return NoObject;
      }
      if head.size != found.size || (head.sha.Some? && head.sha.value != found.sha) {
        return Mismatch;
      }
    }
    return Fit;
  }

  datatype Failure = MemberRevoked | NotCurrent | Broken

  // The commit of a checked row: which keys it replaced, or why it changed nothing
  method FinishAvatar(repo: AvatarRepository.Repository, a: AlbumId, token: Token, face: AvatarId)
    returns (r: Result<seq<Key>, Failure>)
    modifies repo.db
    ensures repo.db.tables == T.ConfirmAvatar(old(repo.db.tables), a, token, face).db
    ensures var result := T.ConfirmAvatar(old(repo.db.tables), a, token, face).result;
            && (r.Ok? <==> result.Ok?)
            && (r == Err(MemberRevoked) <==> result == Err(CallerRevoked) || result == Err(AlbumNotFound))
            && (r == Err(NotCurrent) <==> result == Err(AvatarNotFound))
            && (r.Ok? ==> Elements(r.value) == if result == Ok(false) then {}
                          else AvatarKeys(old(repo.db.tables).objects.avatars, T.AvatarsOf(old(repo.db.tables).objects, a, token) - {face}))
  {
    hide T.ConfirmAvatar;
    var result, replaced := repo.Confirm(a, token, face);
    match result
    case Ok(_) => return Ok(replaced);
    case Err(CallerRevoked) => return Err(MemberRevoked);
    case Err(AlbumNotFound) => return Err(MemberRevoked);
    case Err(AvatarNotFound) => return Err(NotCurrent);
    case Err(_) => return Err(Broken);
  }

  // ---------- what the commit confirms ----------

  // A reservation under this id that does not find a row of the same hash and size to keep the key of
  ghost predicate Rekeys(w: World, e: Event, face: AvatarId) {
    && e.ReserveAvatar? && e.face == face && T.ReserveAvatar(w.db, face, e.avatar).result.Ok?
    && !(face in w.db.objects.avatars
         && w.db.objects.avatars[face].size == e.avatar.size && w.db.objects.avatars[face].sha == e.avatar.sha)
  }

  ghost predicate NoneRekeys(w: World, es: seq<Event>, face: AvatarId) {
    forall i :: 0 <= i < |es| ==> !Rekeys(Exec(w, es[..i]), es[i], face)
  }

  // The same row, up to the encrypted key a retry may send anew and confirmation
  ghost predicate SameUpload(before: Avatar, after: Avatar) {
    before.(keyCt := after.keyCt, confirmed := after.confirmed) == after
  }

  ghost predicate KeptFrom(o: Objects, o': Objects, face: AvatarId) {
    face in o'.avatars ==> face in o.avatars && SameUpload(o.avatars[face], o'.avatars[face])
  }

  lemma NoRekeyKeeps(w: World, e: Event, face: AvatarId)
    requires !Rekeys(w, e, face)
    ensures KeptFrom(w.db.objects, Apply(w.db, e).objects, face)
  {
    if e.ReserveAvatar? || e.ConfirmAvatar? {
      hide MediaKeys, AvatarKeys, Enqueue;
    } else if AvatarRuns.LeavesFaces(e) {
      AvatarRuns.SameFaces(w.db, e);
      hide Apply;
    } else {
      OtherEventsRetire(w.db, e);
      RetireDrops(w.db.objects, RetiredMedia(w.db, e), RetiredAvatars(w.db, e));
      hide Apply, Retire, RetiredMedia, RetiredAvatars;
    }
  }

  lemma {:induction false} NoneRekeysKeep(w: World, es: seq<Event>, face: AvatarId)
    requires NoneRekeys(w, es, face)
    ensures KeptFrom(w.db.objects, Exec(w, es).db.objects, face)
    decreases |es|
  {
    hide Rekeys, Apply, Record;
    if es != [] {
      var next := Step(w, es[0]);
      assert Exec(w, es[..0]) == w;
      NoRekeyKeeps(w, es[0], face);
      forall i | 0 <= i < |es| - 1 ensures !Rekeys(Exec(next, es[1..][..i]), es[1..][i], face) {
        assert es[..i + 1][1..] == es[1..][..i];
        assert !Rekeys(Exec(w, es[..i + 1]), es[i + 1], face);
      }
      NoneRekeysKeep(next, es[1..], face);
    }
  }

  // A reservation that does not keep the key stores a key no row ever had
  lemma RekeyedIsNew(w: World, e: Event, face: AvatarId)
    requires Feasible(w, e) && Rekeys(w, e, face)
    ensures KeyAt(Step(w, e).db.objects, Face(face)) == Some(e.avatar.storageKey) && e.avatar.storageKey !in w.hist.committed
  {
    hide Retire, AvatarKeys, HeldAfter, CommittedAfter, ReservedAfter;
  }

  lemma RekeyedStaysNew(w: World, es: seq<Event>, face: AvatarId, j: nat, k: Key)
    requires Run(w, es) && k in w.hist.committed && j < |es| && Rekeys(Exec(w, es[..j]), es[j], face)
    ensures KeyAt(Exec(w, es).db.objects, Face(face)) != Some(k)
  {
    hide Step, Feasible, Rekeys, KeyAt;
    Prefix(w, es, j);
    var before := Exec(w, es[..j]);
    var after := Step(before, es[j]);
    CommittedGrows(w, es[..j]);
    RekeyedIsNew(before, es[j], face);
    assert es[j..][0] == es[j] && Run(after, es[j..][1..]) && Exec(w, es) == Exec(after, es[j..][1..]);
    CommittedGrows(before, [es[j]]);
    OneEvent(before, es[j]);
    if KeyAt(Exec(w, es).db.objects, Face(face)) == Some(k) {
      KeysKeepTheirClaim(after, es[j..][1..], Face(face), k);
    }
  }

  // Whatever row is under the id later is the upload that was read if and only if no reservation in between gave the id
  // another key
  lemma SameUploadIffNotRekeyed(w: World, es: seq<Event>, face: AvatarId)
    requires Reachable(w) && Run(w, es) && face in w.db.objects.avatars && face in Exec(w, es).db.objects.avatars
    ensures SameUpload(w.db.objects.avatars[face], Exec(w, es).db.objects.avatars[face]) <==> NoneRekeys(w, es, face)
  {
    hide Inv, Reachable, Run, Exec, Rekeys;
    ReachableInv(w);
    ReadKeyIsCommitted(w, face);
    if NoneRekeys(w, es, face) {
      NoneRekeysKeep(w, es, face);
    } else {
      var j :| 0 <= j < |es| && Rekeys(Exec(w, es[..j]), es[j], face);
      RekeyedStaysNew(w, es, face, j, w.db.objects.avatars[face].storageKey);
    }
  }

  // Confirm reads a row, checks its object, and then commits under the avatar id alone: a reservation id, as photos have,
  // is missing. So the commit confirms the upload that was checked exactly then
  lemma AvatarCommitsWhatWasCheckedIff(w: World, es: seq<Event>, a: AlbumId, t: Token, face: AvatarId)
    requires Reachable(w) && Run(w, es) && face in T.AvatarsOf(w.db.objects, a, t)
    requires T.ConfirmAvatar(Exec(w, es).db, a, t, face).result == Ok(true)
    ensures var after := T.ConfirmAvatar(Exec(w, es).db, a, t, face).db.objects;
            && face in T.AvatarsOf(after, a, t) && after.avatars[face].confirmed
            && (SameUpload(w.db.objects.avatars[face], after.avatars[face]) <==> NoneRekeys(w, es, face))
  {
    hide Reachable, Run, Exec, NoneRekeys, T.ConfirmAvatar;
    ConfirmsWhatIsThere(Exec(w, es).db, a, t, face);
    SameUploadIffNotRekeyed(w, es, face);
  }

  // And the drop after a failed check retires the upload that failed it exactly then
  lemma AvatarDropRetiresWhatFailedIff(w: World, es: seq<Event>, a: AlbumId, t: Token, face: AvatarId)
    requires Reachable(w) && Run(w, es) && face in T.AvatarsOf(w.db.objects, a, t)
    requires T.DropPendingAvatar(Exec(w, es).db, a, t, face).db != Exec(w, es).db
    ensures var o, after := Exec(w, es).db.objects, T.DropPendingAvatar(Exec(w, es).db, a, t, face).db.objects;
            && face in o.avatars && face !in after.avatars && o.avatars[face].storageKey in after.queue
            && (SameUpload(w.db.objects.avatars[face], o.avatars[face]) <==> NoneRekeys(w, es, face))
  {
    hide Reachable, Run, Exec, NoneRekeys, T.DropPendingAvatar;
    DropsPending(Exec(w, es).db, a, t, face);
    SameUploadIffNotRekeyed(w, es, face);
  }

  lemma DropsPending(db: Db, a: AlbumId, t: Token, face: AvatarId)
    requires T.DropPendingAvatar(db, a, t, face).db != db
    ensures var o := T.DropPendingAvatar(db, a, t, face).db.objects;
            face in db.objects.avatars && face !in o.avatars && db.objects.avatars[face].storageKey in o.queue
  {
  }

  lemma ConfirmsWhatIsThere(db: Db, a: AlbumId, t: Token, face: AvatarId)
    requires T.ConfirmAvatar(db, a, t, face).result == Ok(true)
    ensures var after := T.ConfirmAvatar(db, a, t, face).db.objects;
            && face in T.AvatarsOf(db.objects, a, t) && face in T.AvatarsOf(after, a, t)
            && after.avatars[face] == db.objects.avatars[face].(confirmed := true)
  {
    hide MediaKeys, AvatarKeys, Enqueue;
  }

  lemma ReadKeyIsCommitted(w: World, face: AvatarId)
    requires Inv(w) && face in w.db.objects.avatars
    ensures w.db.objects.avatars[face].storageKey in w.hist.committed
  {
    assert KeyAt(w.db.objects, Face(face)) == Some(w.db.objects.avatars[face].storageKey);
    LiveKeysAreCommitted(w.db.objects, w.hist.committed, w.hist.cleared);
  }

  // Such a run: between the check and the commit the member reserves the id again for other bytes. The commit succeeds
  // and makes an object current that nothing has looked at
  lemma AvatarCommitCanBeUnchecked(w: World, a: AlbumId, t: Token, face: AvatarId, other: Avatar)
    requires T.ConfirmAvatar(w.db, a, t, face).result == Ok(true)
    requires other.album == a && other.member == t && other.sha != w.db.objects.avatars[face].sha
    requires other.storageKey !in w.hist.committed && other.storageKey != ""
    ensures var es := [ReserveAvatar(face, other)];
            var commit := T.ConfirmAvatar(Exec(w, es).db, a, t, face);
            Run(w, es) && commit.result == Ok(true) && commit.db.objects.avatars[face] == other.(confirmed := true)
  {
    hide Run, Exec, Record, T.ConfirmAvatar, T.ReserveAvatar;
    var e := ReserveAvatar(face, other);
    assert Feasible(w, e);
    OneEvent(w, e);
    ReservedAnew(w.db, a, t, face, other);
  }

  lemma ReservedAnew(db: Db, a: AlbumId, t: Token, face: AvatarId, other: Avatar)
    requires T.ConfirmAvatar(db, a, t, face).result == Ok(true)
    requires other.album == a && other.member == t && other.sha != db.objects.avatars[face].sha
    ensures var commit := T.ConfirmAvatar(T.ReserveAvatar(db, face, other).db, a, t, face);
            commit.result == Ok(true) && commit.db.objects.avatars[face] == other.(confirmed := true)
  {
    hide MediaKeys, AvatarKeys, Enqueue;
  }
}
