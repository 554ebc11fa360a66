/** Joining and returning to an album as the transaction that runs. */
module InviteRepo {
  import opened Basics
  import opened EpochEnvelope
  import opened Schema
  import opened Albums
  import opened Database
  import T = Transactions

  method RecheckUnderLock(album: Album, users: map<UserId, bool>, input: DeliverInput) returns (refusal: Option<Error>)
    ensures refusal == Recheck(album, users, input)
  {
    hide MaxOf;
    if input.sender !in album.members || album.members[input.sender].revoked {
      return Some(SenderRevoked);
    }
    if album.members[input.sender].role != Admin {
      return Some(SenderNotAdmin);
    }
    var sender := album.members[input.sender].user;
    if sender !in users || users[sender] {
      return Some(SenderRevoked);
    }
    if input.user !in users || users[input.user] {
      return Some(TargetDeleting);
    }
    var current := album.CurrentEpoch();
    if |input.envelopes| == 0 || input.envelopes[|input.envelopes| - 1].epoch != current {
      return Some(EpochMoved);
    }
    if album.RotationRequired() {
      return Some(PendingRotation);
    }
    return None;
  }

  // The identity row of an account in the album; the schema allows one
  method FindToken(album: Album, user: UserId) returns (found: Option<Token>)
    requires UniqueUsers(album)
    ensures found == TokenOf(album, user)
  {
    var rest := album.members.Keys;
    while rest != {}
      invariant rest <= album.members.Keys
      invariant forall t :: IsTokenOf(album, user, t) ==> t in rest
    {
      var t: Token :| t in rest;
      if album.members[t].user == user {
        assert IsTokenOf(album, user, t);
        return Some(t);
      }
      rest := rest - {t};
    }
    return None;
  }

  method CountActive(album: Album) returns (n: nat)
    ensures n == |album.Active()|
  {
    var rest := album.members.Keys;
    ghost var counted: set<Token> := {};
    n := 0;
    while rest != {}
      invariant rest <= album.members.Keys && n == |counted|
      invariant forall x :: x in counted <==> album.IsActive(x) && x !in rest
    {
      var t: Token :| t in rest;
      if !album.members[t].revoked {
        n := n + 1;
        counted := counted + {t};
      }
      rest := rest - {t};
    }
    assert counted == album.Active();
  }

  method UpsertWraps(wraps: map<(int, Token), Wrap>, input: DeliverInput, token: Token) returns (w: map<(int, Token), Wrap>)
    ensures w == Upsert(wraps, DeliverRows(input, token))
  {
    w := wraps;
    ghost var rows := DeliverRows(input, token);
    for i := 0 to |input.envelopes|
      invariant w == Upsert(wraps, rows[..i])
    {
      var e := input.envelopes[i];
      assert rows[..i + 1][..i] == rows[..i];
      w := w[(e.epoch, token) := Wrap(input.ekPub, input.opkIdx, e.nonce, e.tagCt, input.sender, e.senderSig)];
    }
    assert rows[..|input.envelopes|] == rows;
  }

  class Repo {
    const db: Pool

    constructor (db: Pool)
      ensures this.db == db
    {
      this.db := db;
    }

    // minted is the token drawn for a newcomer; a returning member keeps the old one
    method DeliverMember(a: AlbumId, input: DeliverInput, minted: Token) returns (r: Result<Token, Error>)
      requires a in db.tables.albums ==> UniqueUsers(db.tables.albums[a])
      modifies db
      ensures T.Tx(db.tables, r) == T.DeliverMember(old(db.tables), a, input, minted)
    {
      hide Recheck, Upsert, UniqueUsers, TokenOf;
      var tx := db.tables;
      if a !in tx.albums {
        return Err(AlbumNotFound);
      }
      var album := tx.albums[a];
      var refusal := RecheckUnderLock(album, tx.users, input);
      if refusal.Some? {
        return Err(refusal.value);
      }
      var existing := FindToken(album, input.user);
      if existing.Some? && existing.value in album.members && !album.members[existing.value].revoked {
        return Err(AlreadyMember);
      }
      var token := minted;
      if existing.Some? {
        token := existing.value;
      }
      var active := CountActive(album);
      if active >= MAX_ALBUM_MEMBERS {
        return Err(AlbumFull);
      }
      album := album.(members := album.members[token := Membership(input.user, Member, false)]);
      var wraps := UpsertWraps(album.wraps, input, token);
      album := album.(wraps := wraps);
      tx := tx.(albums := tx.albums[a := album]);
      db.tables := tx;
      return Ok(token);
    }
  }
}
