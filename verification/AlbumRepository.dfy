/** Album creation, revocation and deletion as the transactions that run. */
module AlbumRepository {
  import opened Basics
  import opened EpochEnvelope
  import opened Schema
  import opened Database
  import opened ObjectStore
  import Albums
  import T = Transactions

  class Repository {
    const db: Pool

    constructor (db: Pool)
      ensures this.db == db
    {
      this.db := db;
    }

    // a and token are the identifiers the method draws
    method CreateWithAdmin(creator: UserId, a: AlbumId, token: Token) returns (r: Result<Token, Error>)
      modifies db
      ensures T.Tx(db.tables, r) == T.CreateWithAdmin(old(db.tables), creator, a, token)
    {
      var tx := db.tables;
      if creator !in tx.users {
        return Err(UserNotFound);
      }
      if tx.users[creator] {
        return Err(AccountDeleting);
      }
      if a in tx.albums {
        return Err(ConstraintViolation);
      }
      var album := Album(map[], map[], map[], false, 0);
      tx := tx.(albums := tx.albums[a := album]);
      album := album.(members := album.members[token := Membership(creator, Admin, false)]);
      tx := tx.(albums := tx.albums[a := album]);
      db.tables := tx;
      return Ok(token);
    }

    method CountActiveAdmins(album: Album) returns (n: nat)
      ensures n == |Albums.ActiveAdmins(album)|
    {
      var rest := album.members.Keys;
      ghost var counted: set<Token> := {};
      n := 0;
      while rest != {}
        invariant rest <= album.members.Keys && n == |counted|
        invariant forall x :: x in counted <==> album.IsActive(x) && album.members[x].role == Admin && x !in rest
      {
        var t: Token :| t in rest;
        if album.members[t].role == Admin && !album.members[t].revoked {
          n := n + 1;
          counted := counted + {t};
        }
        rest := rest - {t};
      }
      assert counted == Albums.ActiveAdmins(album);
    }

    // The result says whether the target was already out
    method RevokeMemberTx(a: AlbumId, caller: Token, target: Token) returns (r: Result<bool, Error>)
      modifies db
      ensures T.Tx(db.tables, r) == T.RevokeMember(old(db.tables), a, caller, target)
    {
      var tx := db.tables;
      if a !in tx.albums {
        return Err(AlbumNotFound);
      }
      var album := tx.albums[a];
      if caller !in album.members || album.members[caller].revoked {
        return Err(CallerRevoked);
      }
      if target !in album.members {
        return Err(MemberNotFound);
      }
      if album.members[target].revoked {
        return Ok(true);
      }
      if album.members[target].role == Admin {
        var n := CountActiveAdmins(album);
        if n <= 1 {
          return Err(LastAdmin);
        }
      }
      album := album.(members := album.members[target := album.members[target].(revoked := true)]);
      album := album.(rotationRequired := true);
      tx := tx.(albums := tx.albums[a := album]);
      var faces := set f | f in tx.objects.avatars && tx.objects.avatars[f].album == a && tx.objects.avatars[f].member == target;
      var objects, _ := RemoveAvatars(tx.objects, faces);
      tx := tx.(objects := objects);
      db.tables := tx;
      return Ok(false);
    }

    method DeleteAlbumTx(a: AlbumId, caller: Token) returns (r: Result<seq<Key>, Error>)
      modifies db
      ensures db.tables == T.DeleteAlbum(old(db.tables), a, caller).db
      ensures r.Ok? <==> T.DeleteAlbum(old(db.tables), a, caller).result.Ok?
      ensures r.Err? ==> r.error == T.DeleteAlbum(old(db.tables), a, caller).result.error
      // every key handed to the cleaner is queued already
      ensures r.Ok? ==> Elements(r.value) <= db.tables.objects.queue.Keys
      ensures var o := old(db.tables).objects;
              r.Ok? ==> Elements(r.value) == MediaKeys(o.media, T.AlbumMedia(o, a)) + AvatarKeys(o.avatars, T.AlbumAvatars(o, a))
    {
      var tx := db.tables;
      if a !in tx.albums {
        return Err(AlbumNotFound);
      }
      if caller !in tx.albums[a].members || tx.albums[a].members[caller].revoked {
        return Err(CallerRevoked);
      }
      if tx.albums[a].members[caller].role != Admin {
        return Err(CallerNotAdmin);
      }
      var keys;
      tx, keys := RemoveAlbum(tx, a);
      db.tables := tx;
      return Ok(keys);
    }
  }
}
