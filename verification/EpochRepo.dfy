/** Storing a rotation as the transaction that runs. */
module EpochRepo {
  import opened Basics
  import opened Sorting
  import opened EpochEnvelope
  import opened Schema
  import opened Albums
  import opened Database
  import T = Transactions

  // Any listing of the active members hashes alike
  lemma AnyListing(active: seq<Token>, s: set<Token>)
    requires multiset(active) == multiset(s)
    ensures Sha256(MemberSetBytes(active)) == MemberSetDigest(s)
  {
    TokenOrder();
    TokensTieOnlyWhenEqual(active);
    SortForgetsOrder(active, Listing(s), ByToken);
    assert |multiset(active)| == |active| && |multiset(Listing(s))| == |Listing(s)|;
  }

  lemma ListOneMore(active: seq<Token>, s: set<Token>, t: Token)
    requires multiset(active) == multiset(s) && t !in s
    ensures multiset(active + [t]) == multiset(s + {t})
  {
    assert multiset(s + {t}) == multiset(s) + multiset{t};
  }

  method ActiveTokens(album: Album) returns (active: seq<Token>)
    ensures multiset(active) == multiset(album.Active())
  {
    var rest := album.members.Keys;
    active := [];
    while rest != {}
      invariant rest <= album.members.Keys && multiset(active) == multiset(album.Active() - rest)
    {
      var t: Token :| t in rest;
      if !album.members[t].revoked {
        ListOneMore(active, album.Active() - rest, t);
        assert album.Active() - (rest - {t}) == (album.Active() - rest) + {t};
        active := active + [t];
      } else {
        assert album.Active() - (rest - {t}) == album.Active() - rest;
      }
      rest := rest - {t};
    }
    assert album.Active() - rest == album.Active();
  }

  lemma NextRow(album: Album, rows: seq<WrapRow>, i: nat)
    requires i < |rows| && Storable(album, rows[..i])
    ensures rows[i].0 in Upsert(album.wraps, rows[..i]) || rows[i].0.1 !in album.members ==> !Storable(album, rows)
    ensures rows[i].0 !in Upsert(album.wraps, rows[..i]) && rows[i].0.1 in album.members ==> Storable(album, rows[..i + 1])
    ensures Upsert(album.wraps, rows[..i + 1]) == Upsert(album.wraps, rows[..i])[rows[i].0 := rows[i].1]
  {
    UpsertKeys(album.wraps, rows[..i]);
    assert rows[..i + 1][..i] == rows[..i];
    if k :| 0 <= k < i && rows[..i][k].0 == rows[i].0 {
      assert rows[k].0 == rows[i].0;
    }
    assert forall k :: 0 <= k < i ==> rows[..i][k] == rows[..i + 1][k];
  }

  // Insert the wrap rows one by one; a row that breaks a table constraint fails the whole transaction
  method InsertWraps(album: Album, input: EpochInput) returns (wraps: map<(int, Token), Wrap>, stored: bool)
    ensures stored == Storable(album, EpochRows(input))
    ensures stored ==> wraps == Upsert(album.wraps, EpochRows(input))
  {
    wraps := album.wraps;
    ghost var rows := EpochRows(input);
    for i := 0 to |input.wraps|
      invariant wraps == Upsert(album.wraps, rows[..i]) && Storable(album, rows[..i])
    {
      var w := input.wraps[i];
      var key := (input.epoch, w.recipient);
      NextRow(album, rows, i);
      if key in wraps || w.recipient !in album.members {
        return wraps, false;
      }
      wraps := wraps[key := Wrap(w.ekPub, w.opkIdx, w.nonce, w.tagCt, input.sender, w.senderSig)];
    }
    assert rows[..|input.wraps|] == rows;
    stored := true;
  }

  class Repo {
    const db: Pool

    constructor (db: Pool)
      ensures this.db == db
    {
      this.db := db;
    }

    method InsertEpoch(a: AlbumId, input: EpochInput) returns (r: Result<(), Error>)
      modifies db
      ensures T.Tx(db.tables, r) == T.InsertEpoch(old(db.tables), a, input)
    {
      hide Storable, Upsert, MemberSetBytes, MaxOf;
      var tx := db.tables;
      if a !in tx.albums {
        return Err(AlbumNotFound);
      }
      var album := tx.albums[a];
      if input.sender !in album.members || album.members[input.sender].revoked {
        return Err(CallerRevoked);
      }
      if album.members[input.sender].role != Admin {
        return Err(CallerNotAdmin);
      }
      if input.epoch != album.CurrentEpoch() + 1 {
        return Err(EpochReplay);
      }
      var active := ActiveTokens(album);
      AnyListing(active, album.Active());
      var preimage := MemberSetHashInput(active);
      if Sha256(preimage) != input.expected {
        return Err(MemberSetDrift);
      }
      var wraps, stored := InsertWraps(album, input);
      if !stored {
        return Err(ConstraintViolation);
      }
      album := album.(epochs := album.epochs[input.epoch := input.epochSig]);
      album := album.(wraps := wraps);
      album := album.(rotationRequired := false);
      tx := tx.(albums := tx.albums[a := album]);
      db.tables := tx;
      return Ok(());
    }
  }
}
