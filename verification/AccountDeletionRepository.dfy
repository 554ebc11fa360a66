/** Accepting, running and finishing an account deletion as the transactions that run. */
module AccountDeletionRepository {
  import opened Basics
  import opened EpochEnvelope
  import opened Schema
  import opened ObjectStore
  import opened Database
  import Albums
  import InviteRepo
  import T = Transactions

  ghost predicate OneIdentityPerAlbum(db: Db) {
    forall a :: a in db.albums ==> Albums.UniqueUsers(db.albums[a])
  }

  datatype DeletionMembership = DeletionMembership(album: AlbumId, token: Token, role: Role, active: bool, activeMembers: nat)

  // What a membership row says about an account's place in an album
  ghost predicate Describes(m: DeletionMembership, db: Db, user: UserId) {
    && T.IsMember(db, user, m.album) && m.token == T.TokenIn(db, user, m.album)
    && var album := db.albums[m.album];
       m.role == album.members[m.token].role && m.active == album.IsActive(m.token) && m.activeMembers == |album.Active()|
  }

  class Repository {
    const db: Pool

    constructor (db: Pool)
      ensures this.db == db
    {
      this.db := db;
    }

    method Membership(tx: Db, user: UserId, a: AlbumId) returns (m: Option<DeletionMembership>)
      requires OneIdentityPerAlbum(tx) && a in tx.albums
      ensures m.Some? <==> T.IsMember(tx, user, a)
      ensures m.Some? ==> m.value.album == a && Describes(m.value, tx, user)
    {
      var album := tx.albums[a];
      var t := InviteRepo.FindToken(album, user);
      if t.None? {
        return None;
      }
      var n := InviteRepo.CountActive(album);
      return Some(DeletionMembership(a, t.value, album.members[t.value].role, album.IsActive(t.value), n));
    }

    method Memberships(tx: Db, user: UserId) returns (ms: seq<DeletionMembership>)
      requires OneIdentityPerAlbum(tx)
      ensures forall m :: m in ms ==> Describes(m, tx, user)
      ensures forall a :: T.IsMember(tx, user, a) ==> exists i :: 0 <= i < |ms| && ms[i].album == a
      ensures forall i, j :: 0 <= i < j < |ms| ==> ms[i].album != ms[j].album
    {
      hide Describes, OneIdentityPerAlbum;
      var rest := tx.albums.Keys;
      ms := [];
      while rest != {}
        invariant rest <= tx.albums.Keys
        invariant forall m :: m in ms ==> Describes(m, tx, user)
        invariant forall a :: T.IsMember(tx, user, a) ==> a in rest || exists i :: 0 <= i < |ms| && ms[i].album == a
        invariant forall i :: 0 <= i < |ms| ==> ms[i].album !in rest
        invariant forall i, j :: 0 <= i < j < |ms| ==> ms[i].album != ms[j].album
      {
        var a: AlbumId :| a in rest;
        var m := Membership(tx, user, a);
        if m.Some? {
          ghost var before := ms;
          ms := ms + [m.value];
          assert ms[|before|].album == a;
          assert forall i :: 0 <= i < |before| ==> ms[i] == before[i];
        }
        rest := rest - {a};
      }
    }

    // Inserting first serializes acceptance and abandonment on the receipt row
    method ClaimReceipt(tx: Db, receipt: bytes) returns (tx': Db, abandoned: bool)
      ensures abandoned <==> receipt in tx.receipts && tx.receipts[receipt]
      ensures !abandoned ==> tx' == tx.(receipts := tx.receipts[receipt := false])
    {
      if receipt !in tx.receipts {
        return tx.(receipts := tx.receipts[receipt := false]), false;
      }
      abandoned := tx.receipts[receipt];
      tx' := tx;
      assert !abandoned ==> tx.receipts == tx.receipts[receipt := false];
    }

    method Accept(user: UserId, confirmedShared: set<AlbumId>, receipt: bytes) returns (r: Result<(), Error>)
      requires OneIdentityPerAlbum(db.tables)
      modifies db
      ensures T.Tx(db.tables, r) == T.Accept(old(db.tables), user, confirmedShared, receipt)
    {
      if user !in db.tables.users {
        return Err(UserNotFound);
      }
      var deleting := db.tables.users[user];
      var tx, abandoned := ClaimReceipt(db.tables, receipt);
      if abandoned {
        return Err(ReceiptAbandoned);
      }
      if deleting {
        db.tables := tx;
        return Ok(());
      }
      var current := Memberships(tx, user);
      SameAlbumsSamePlan(db.tables, tx, user, confirmedShared);
      for i := 0 to |current|
        invariant forall j :: 0 <= j < i ==>
                    Describes(current[j], tx, user) &&
                    !(T.PlannedOutcome(tx, user, current[j].album) == T.DropShared && current[j].album !in confirmedShared)
      {
        var m := current[i];
        assert m in current;
        if T.OutcomeOf(m.active, m.activeMembers, m.role) == T.DropShared && m.album !in confirmedShared {
          assert T.PlanIsStale(tx, user, confirmedShared);
          return Err(PlanStale);
        }
      }
      assert !T.PlanIsStale(tx, user, confirmedShared);
      tx := tx.(users := tx.users[user := true]);
      tx := tx.(jobs := tx.jobs + {user});
      db.tables := tx;
      return Ok(());
    }

    lemma SameAlbumsSamePlan(db: Db, db': Db, user: UserId, confirmed: set<AlbumId>)
      requires db.albums == db'.albums
      ensures T.PlanIsStale(db, user, confirmed) <==> T.PlanIsStale(db', user, confirmed)
    {
      assert forall a :: T.IsMember(db, user, a) <==> T.IsMember(db', user, a);
      assert forall a :: T.IsMember(db, user, a) ==> T.PlannedOutcome(db, user, a) == T.PlannedOutcome(db', user, a);
    }

    // True when acceptance already won and the device must still wipe
    method AbandonReceipt(receipt: bytes) returns (accepted: bool)
      modifies db
      ensures T.Tx(db.tables, Ok(accepted)) == T.AbandonReceipt(old(db.tables), receipt)
    {
      if receipt !in db.tables.receipts {
        db.tables := db.tables.(receipts := db.tables.receipts[receipt := true]);
        return false;
      }
      return !db.tables.receipts[receipt];
    }

    method RemoveMembership(user: UserId, a: AlbumId) returns (outcome: Option<T.Outcome>, keys: seq<Key>)
      requires OneIdentityPerAlbum(db.tables)
      modifies db
      ensures T.Tx(db.tables, Ok(outcome)) == T.RemoveMembership(old(db.tables), user, a)
      ensures Elements(keys) <= db.tables.objects.queue.Keys
      ensures var o := old(db.tables).objects;
              Elements(keys) ==
                if outcome.None? then {}
                else if outcome.value == T.DropAlbum || outcome.value == T.DropShared then
                  MediaKeys(o.media, T.AlbumMedia(o, a)) + AvatarKeys(o.avatars, T.AlbumAvatars(o, a))
                else
                  var t := T.TokenIn(old(db.tables), user, a);
                  MediaKeys(o.media, T.MediaOf(o, a, t)) + AvatarKeys(o.avatars, T.AvatarsOf(o, a, t))
    {
      keys := [];
      var tx := db.tables;
      if a !in tx.albums {
        return None, [];
      }
      var found := Membership(tx, user, a);
      if found.None? {
        return None, [];
      }
      var m := found.value;
      outcome := Some(T.OutcomeOf(m.active, m.activeMembers, m.role));
      assert outcome.value == T.PlannedOutcome(tx, user, a);
      if outcome.value == T.DropAlbum || outcome.value == T.DropShared {
        tx, keys := RemoveAlbum(tx, a);
        db.tables := tx;
        return;
      }
      hide Retire, MediaKeys, AvatarKeys;
      var album := tx.albums[a];
      if outcome.value == T.LeaveAlbum {
        album := album.(members := album.members[m.token := album.members[m.token].(revoked := true)]);
        album := album.(rotationRequired := true);
      }
      var objects;
      objects, keys := RemoveBelongings(tx.objects, a, m.token);
      // The identity row goes, and with it the roster row and the received wraps
      album := album.(members := album.members - {m.token},
                      wraps := map k | k in album.wraps && k.1 != m.token :: album.wraps[k]);
      assert album == T.Leave(tx.albums[a], m.token);
      tx := tx.(albums := tx.albums[a := album], objects := objects);
      db.tables := tx;
    }

    method RemoveBelongings(o: Objects, a: AlbumId, t: Token) returns (o': Objects, keys: seq<Key>)
      ensures o' == Retire(o, T.MediaOf(o, a, t), T.AvatarsOf(o, a, t))
      ensures Elements(keys) <= o'.queue.Keys
      ensures Elements(keys) == MediaKeys(o.media, T.MediaOf(o, a, t)) + AvatarKeys(o.avatars, T.AvatarsOf(o, a, t))
    {
      var ids := set id | id in o.media && o.media[id].album == a && o.media[id].uploader == t;
      var faces := set f | f in o.avatars && o.avatars[f].album == a && o.avatars[f].member == t;
      var mediaKeys, avatarKeys;
      o', mediaKeys := RemoveMedia(o, ids);
      RetireDrops(o, ids, {});
      assert o'.avatars == o.avatars;
      RetireTwice(o, ids, {}, {}, faces);
      assert ids + {} == ids && {} + faces == faces;
      o', avatarKeys := RemoveAvatars(o', faces);
      ElementsAppend(mediaKeys, avatarKeys);
      keys := mediaKeys + avatarKeys;
    }

    // False when a membership appeared and the job needs another pass
    method FinishAccount(user: UserId) returns (finished: bool)
      requires OneIdentityPerAlbum(db.tables)
      modifies db
      ensures T.Tx(db.tables, Ok(finished)) == T.FinishAccount(old(db.tables), user)
    {
      var tx := db.tables;
      if user !in tx.users {
        return true;
      }
      var remaining := Memberships(tx, user);
      if remaining != [] {
        assert remaining[0] in remaining;
        return false;
      }
      tx := tx.(users := tx.users - {user}, jobs := tx.jobs - {user});
      db.tables := tx;
      return true;
    }
  }
}
