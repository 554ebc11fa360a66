/** What each transaction on an album answers and leaves behind, said of the rows alone. */
module AlbumOutcomes {
  import opened Basics
  import opened EpochEnvelope
  import opened Schema
  import opened Albums
  import opened ObjectStore
  import opened World
  import opened Runs
  import opened Frames
  import AccountRuns
  import AvatarRuns
  import ClockRuns
  import ObjectRuns
  import UploadRuns
  import T = Transactions

  // ---------- creating ----------

  // A live account gets an album of its own: itself the only member, as admin, and nothing else in it
  lemma CreateOutcome(db: Db, u: UserId, a: AlbumId, token: Token)
    ensures var tx := T.CreateWithAdmin(db, u, a, token);
            && (tx.result.Ok? <==> Live(db.users, u) && a !in db.albums)
            && (tx.result == Err(UserNotFound) <==> u !in db.users)
            && (tx.result == Err(AccountDeleting) <==> u in db.users && db.users[u])
            && (tx.result.Err? ==> tx.db == db)
            && (tx.result.Ok? ==>
                  && tx.result.value == token && a in tx.db.albums && OtherAlbumsStay(db, tx.db, a)
                  && SameAccounts(db, tx.db) && tx.db.objects == db.objects
                  && var album := tx.db.albums[a];
                     && SoleAdmin(album, token) && album.members.Keys == {token} && album.members[token].user == u
                     && album.epochs == map[] && album.wraps == map[] && !album.rotationRequired && album.generation == 0)
  {
  }

  // ---------- rotating ----------

  ghost function RecipientSet(input: EpochInput): set<Token> {
    set w | w in input.wraps :: w.recipient
  }

  lemma RecipientSetIsElements(input: EpochInput)
    ensures RecipientSet(input) == Elements(InsertTokens(input))
  {
    HoldersAreRecipients(input);
    forall t ensures t in RecipientSet(input) <==> t in Elements(InsertTokens(input)) {
      if t in Elements(InsertTokens(input)) {
        var i :| 0 <= i < |InsertTokens(input)| && InsertTokens(input)[i] == t;
        assert input.wraps[i] in input.wraps && input.wraps[i].recipient == t;
      }
      if t in RecipientSet(input) {
        var w :| w in input.wraps && w.recipient == t;
        var i :| 0 <= i < |input.wraps| && input.wraps[i] == w;
        assert InsertTokens(input)[i] == t;
      }
    }
  }

  lemma DriftIsSetDifference(album: Album, held: Held, input: EpochInput)
    requires AlbumInv(album, held) && Validated(input)
    ensures MemberSetDigest(album.Active()) == input.expected <==> RecipientSet(input) == album.Active()
  {
    RecipientSetIsElements(input);
    forall t | t in InsertTokens(input) || t in album.Active() ensures |t| == TOKEN_LEN {
      if t in InsertTokens(input) {
        var i :| 0 <= i < |InsertTokens(input)| && InsertTokens(input)[i] == t;
        assert input.wraps[i] in input.wraps;
      }
    }
    DigestComparesSets(InsertTokens(input), album.Active());
  }

  lemma AdminIsSole(album: Album, t: Token)
    requires RosterInv(album)
    ensures album.IsActive(t) && album.members[t].role == Admin <==> SoleAdmin(album, t)
  {
    if album.IsActive(t) && album.members[t].role == Admin {
      AccountRuns.OneAdmin(album, t, t);
    }
  }

  // Exactly when a rotation is stored, and what each refusal means
  ghost predicate RotationAnswer<X>(album: Album, input: EpochInput, r: Result<X, Error>) {
    && (r.Ok? <==> SoleAdmin(album, input.sender) && input.epoch == |album.epochs| && RecipientSet(input) == album.Active())
    && (Refused(r, CallerRevoked) <==> !album.IsActive(input.sender))
    && (Refused(r, CallerNotAdmin) <==> album.IsActive(input.sender) && !SoleAdmin(album, input.sender))
    && (Refused(r, EpochReplay) <==> SoleAdmin(album, input.sender) && input.epoch != |album.epochs|)
    && (Refused(r, MemberSetDrift) <==>
          SoleAdmin(album, input.sender) && input.epoch == |album.epochs| && RecipientSet(input) != album.Active())
  }

  lemma RotationAnswers(album: Album, held: Held, input: EpochInput)
    requires AlbumInv(album, held) && Validated(input)
    ensures RotationAnswer(album, input, Albums.InsertEpoch(album, input))
  {
    hide RosterInv, NobodyStranded, WrapsWereGiven, Validated, Storable, MemberSetDigest, Album.CurrentEpoch, RecipientSet;
    hide SoleAdmin, Album.Active, EpochRows, Upsert;
    AdminIsSole(album, input.sender);
    CurrentIsCount(album);
    DriftIsSetDifference(album, held, input);
    if album.IsActive(input.sender) && input.epoch == album.CurrentEpoch() + 1 && MemberSetDigest(album.Active()) == input.expected {
      RotationIsStorable(album, held, input);
    }
  }

  // The row at (epoch, recipient) holds what the request carried for that recipient
  ghost predicate HoldsWrap(wraps: map<(int, Token), Wrap>, input: EpochInput, w: WrapInsert) {
    && (input.epoch, w.recipient) in wraps
    && var row := wraps[(input.epoch, w.recipient)];
       row.ekPub == w.ekPub && row.opkIdx == w.opkIdx && row.nonce == w.nonce && row.tagCt == w.tagCt
       && row.sender == input.sender && row.senderSig == w.senderSig
  }

  lemma RotatedRows(wraps: map<(int, Token), Wrap>, input: EpochInput, active: set<Token>)
    requires Validated(input) && RowsReach(EpochRows(input), input.epoch, active)
    requires forall k :: k in wraps ==> k.0 != input.epoch
    ensures var after := Upsert(wraps, EpochRows(input));
            && (forall k :: k in after <==> k in wraps || (k.0 == input.epoch && k.1 in active))
            && (forall k :: k in wraps ==> after[k] == wraps[k])
            && (forall w :: w in input.wraps ==> HoldsWrap(after, input, w))
  {
    hide MemberSetBytes;
    var rows, tokens := EpochRows(input), InsertTokens(input);
    forall i, j | 0 <= i < j < |rows| ensures rows[i].0 != rows[j].0 {
      assert tokens[i] != tokens[j];
    }
    UpsertKeys(wraps, rows);
    UpsertValues(wraps, rows);
    hide Upsert;
    forall w | w in input.wraps ensures HoldsWrap(Upsert(wraps, rows), input, w) {
      var i :| 0 <= i < |input.wraps| && input.wraps[i] == w;
      assert rows[i].0 == (input.epoch, w.recipient);
    }
    forall k | k in wraps ensures Upsert(wraps, rows)[k] == wraps[k] {
      assert forall i :: 0 <= i < |rows| ==> rows[i].0 != k;
    }
    forall k: (int, Token) | k.0 == input.epoch && k.1 in active ensures k in Upsert(wraps, rows) {
      var i :| 0 <= i < |rows| && rows[i].0 == (input.epoch, k.1);
    }
  }

  // What a rotation stores: its signature as the next epoch, one wrap for every active member, and no debt
  ghost predicate RotationStored(album: Album, input: EpochInput, b: Album) {
    && b.members == album.members && b.generation == album.generation && !b.rotationRequired
    && (forall e :: e in b.epochs <==> e in album.epochs || e == input.epoch)
    && b.epochs[input.epoch] == input.epochSig && input.epoch !in album.epochs
    && (forall e :: e in album.epochs ==> b.epochs[e] == album.epochs[e])
    && (forall k :: k in b.wraps <==> k in album.wraps || (k.0 == input.epoch && k.1 in album.Active()))
    && (forall k :: k in album.wraps ==> b.wraps[k] == album.wraps[k])
    && (forall w :: w in input.wraps ==> HoldsWrap(b.wraps, input, w))
  }

  lemma RotationEffect(album: Album, held: Held, input: EpochInput)
    requires AlbumInv(album, held) && Validated(input) && Albums.InsertEpoch(album, input).Ok?
    ensures RotationStored(album, input, Albums.InsertEpoch(album, input).value)
  {
    hide Storable, Upsert, EpochRows, RosterInv, Validated, MemberSetDigest, RowsReach, HoldsWrap, Album.Active;
    hide NobodyStranded, Album.CurrentEpoch;
    CurrentIsCount(album);
    DriftIsSetDifference(album, held, input);
    RecipientsAreActive(album, held, input);
    assert input.epoch !in album.epochs;
    RotatedRows(album.wraps, input, album.Active());
  }

  lemma RotateOutcome(w: World, a: AlbumId, input: EpochInput)
    requires Reachable(w) && Validated(input)
    ensures var tx := T.InsertEpoch(w.db, a, input);
            && (Refused(tx.result, AlbumNotFound) <==> a !in w.db.albums)
            && (a in w.db.albums ==> RotationAnswer(w.db.albums[a], input, tx.result))
            && (tx.result.Err? ==> tx.db == w.db)
            && (tx.result.Ok? ==>
                  && a in tx.db.albums && RotationStored(w.db.albums[a], input, tx.db.albums[a])
                  && OtherAlbumsStay(w.db, tx.db, a) && SameAccounts(w.db, tx.db) && tx.db.objects == w.db.objects)
  {
    hide Inv, Reachable, AlbumInv, Validated, RotationStored, Albums.InsertEpoch, RecipientSet, SoleAdmin, Album.IsActive, Album.Active;
    ReachableInv(w);
    InvIsAlbums(w);
    if a in w.db.albums {
      RotationAnswers(w.db.albums[a], w.hist.held[a], input);
      if Albums.InsertEpoch(w.db.albums[a], input).Ok? {
        RotationEffect(w.db.albums[a], w.hist.held[a], input);
      }
    }
  }

  // ---------- inviting ----------

  ghost predicate MayInvite(album: Album, users: map<UserId, bool>, input: DeliverInput) {
    SoleAdmin(album, input.sender) && Live(users, album.members[input.sender].user)
  }

  ghost predicate HasActive(album: Album, u: UserId) {
    exists t :: album.IsActive(t) && album.members[t].user == u
  }

  lemma ActiveToken(album: Album, u: UserId)
    requires RosterInv(album)
    ensures HasActive(album, u) <==> TokenOf(album, u).Some? && album.IsActive(TokenOf(album, u).value)
  {
    if t :| album.IsActive(t) && album.members[t].user == u {
      assert IsTokenOf(album, u, t);
    }
  }

  lemma EnvelopesMeetEpochs(album: Album, held: Held, input: DeliverInput)
    requires KeyInv(album, held) && Contiguous(input.envelopes)
    ensures input.envelopes == [] || input.envelopes[|input.envelopes| - 1].epoch != album.CurrentEpoch() <==>
            input.envelopes == [] || |input.envelopes| != |album.epochs|
  {
    CurrentIsCount(album);
  }

  // Exactly when an invite is stored, and what each refusal means
  ghost predicate DeliveryAnswer<X>(album: Album, users: map<UserId, bool>, input: DeliverInput, r: Result<X, Error>) {
    var current := input.envelopes != [] && |input.envelopes| == |album.epochs|;
    var allowed := MayInvite(album, users, input) && Live(users, input.user);
    && (Refused(r, SenderNotAdmin) <==> album.IsActive(input.sender) && !SoleAdmin(album, input.sender))
    && (Refused(r, SenderRevoked) <==>
          !album.IsActive(input.sender) || (SoleAdmin(album, input.sender) && !MayInvite(album, users, input)))
    && (Refused(r, TargetDeleting) <==> MayInvite(album, users, input) && !Live(users, input.user))
    && (Refused(r, EpochMoved) <==> allowed && !current)
    && (Refused(r, PendingRotation) <==> allowed && current && album.rotationRequired)
    && (Refused(r, AlreadyMember) <==> allowed && current && !album.rotationRequired && HasActive(album, input.user))
    && (Refused(r, AlbumFull) <==>
          allowed && current && !album.rotationRequired && !HasActive(album, input.user)
          && |album.Active()| >= MAX_ALBUM_MEMBERS)
    && (r.Ok? <==> allowed && current && !album.rotationRequired && !HasActive(album, input.user)
                   && |album.Active()| < MAX_ALBUM_MEMBERS)
  }

  lemma DeliveryAnswers(album: Album, held: Held, users: map<UserId, bool>, input: DeliverInput, minted: Token)
    requires AlbumInv(album, held) && Contiguous(input.envelopes)
    ensures DeliveryAnswer(album, users, input, Deliver(album, users, input, minted))
  {
    hide RosterInv, KeyInv, SoleAdmin, HasActive, TokenOf, Contiguous, Admit;
    hide Album.CurrentEpoch, Album.RotationRequired, Album.Active;
    AdminIsSole(album, input.sender);
    ActiveToken(album, input.user);
    EnvelopesMeetEpochs(album, held, input);
    DriftImpliesDebt(album, held);
  }

  // The row at (epoch, token) holds what the envelope and the request carried
  ghost predicate HoldsEnvelope(wraps: map<(int, Token), Wrap>, input: DeliverInput, token: Token, e: Envelope) {
    && (e.epoch, token) in wraps
    && var row := wraps[(e.epoch, token)];
       row.nonce == e.nonce && row.tagCt == e.tagCt && row.senderSig == e.senderSig
       && row.ekPub == input.ekPub && row.opkIdx == input.opkIdx && row.sender == input.sender
  }

  lemma DeliveredRows(wraps: map<(int, Token), Wrap>, input: DeliverInput, token: Token)
    requires Contiguous(input.envelopes)
    ensures var after := Upsert(wraps, DeliverRows(input, token));
            && (forall e :: e in input.envelopes ==> HoldsEnvelope(after, input, token, e))
            && (forall k: (int, Token) :: k.1 != token || !(0 <= k.0 < |input.envelopes|) ==>
                  (k in after <==> k in wraps) && (k in wraps ==> after[k] == wraps[k]))
  {
    var rows := DeliverRows(input, token);
    UpsertKeys(wraps, rows);
    UpsertValues(wraps, rows);
    forall e | e in input.envelopes ensures HoldsEnvelope(Upsert(wraps, rows), input, token, e) {
      var i :| 0 <= i < |input.envelopes| && input.envelopes[i] == e;
      assert rows[i].0 == (e.epoch, token);
    }
    forall k: (int, Token) | k.1 != token || !(0 <= k.0 < |input.envelopes|)
      ensures (k in Upsert(wraps, rows) <==> k in wraps) && (k in wraps ==> Upsert(wraps, rows)[k] == wraps[k])
    {
      assert forall i :: 0 <= i < |rows| ==> rows[i].0 != k;
    }
  }

  // What an invite stores: every envelope as sent, under the token the account had or else the minted one, and no other
  // member's rows change
  ghost predicate DeliveryStored(album: Album, input: DeliverInput, minted: Token, b: Album, token: Token) {
    && (forall e :: e in input.envelopes ==> HoldsEnvelope(b.wraps, input, token, e))
    && (forall k: (int, Token) :: k.1 != token ==>
          (k in b.wraps <==> k in album.wraps) && (k in album.wraps ==> b.wraps[k] == album.wraps[k]))
    && (forall t :: t in album.members && album.members[t].user == input.user ==> t == token)
    && (token !in album.members ==> token == minted)
    && (token in album.members ==> album.members[token].user == input.user)
    && (forall t :: t in b.members <==> t in album.members || t == token)
    && (forall t :: t in album.members && t != token ==> b.members[t] == album.members[t])
    && b.members[token] == Membership(input.user, Member, false)
    && b.epochs == album.epochs && b.rotationRequired == album.rotationRequired && b.generation == album.generation
  }

  lemma DeliveryEffect(album: Album, users: map<UserId, bool>, input: DeliverInput, minted: Token)
    requires Contiguous(input.envelopes) && Deliver(album, users, input, minted).Ok? && minted !in album.members
    requires UniqueUsers(album)
    ensures var (b, token) := Deliver(album, users, input, minted).value; DeliveryStored(album, input, minted, b, token)
  {
    hide Recheck, Upsert;
    var (b, token) := Deliver(album, users, input, minted).value;
    DeliveredRows(album.wraps, input, token);
    forall t | t in album.members && album.members[t].user == input.user ensures t == token {
      assert IsTokenOf(album, input.user, t);
    }
  }

  lemma AlbumFacts(w: World, a: AlbumId)
    requires AlbumsInv(w) && a in w.db.albums
    ensures a in w.hist.held && AlbumInv(w.db.albums[a], w.hist.held[a]) && UniqueUsers(w.db.albums[a])
    ensures w.db.albums[a].members.Keys <= w.hist.tokens
  {
  }

  lemma DeliveryTouchesOneAlbum(db: Db, a: AlbumId, input: DeliverInput, minted: Token)
    ensures var tx := T.DeliverMember(db, a, input, minted);
            && (a !in db.albums ==> tx == T.Fail(db, AlbumNotFound))
            && (a in db.albums ==>
                  var r := Deliver(db.albums[a], db.users, input, minted);
                  && (r.Err? ==> tx == T.Fail(db, r.error) && r.error != AlbumNotFound)
                  && (r.Ok? ==>
                        && tx.result == Ok(r.value.1) && a in tx.db.albums && tx.db.albums[a] == r.value.0
                        && OtherAlbumsStay(db, tx.db, a) && SameAccounts(db, tx.db) && tx.db.objects == db.objects))
  {
    hide TokenOf, Admit, Album.RotationRequired, Album.CurrentEpoch;
  }

  lemma SameAnswer<X, Y>(album: Album, users: map<UserId, bool>, input: DeliverInput, r: Result<X, Error>, q: Result<Y, Error>)
    requires (r.Ok? <==> q.Ok?) && (r.Err? ==> r.error == q.error) && DeliveryAnswer(album, users, input, r)
    ensures DeliveryAnswer(album, users, input, q)
  {
    hide MayInvite, HasActive, SoleAdmin, Album.IsActive, Album.Active;
  }

  lemma DeliverOutcome(w: World, a: AlbumId, input: DeliverInput, minted: Token)
    requires Reachable(w) && Contiguous(input.envelopes) && minted !in w.hist.tokens
    ensures var tx := T.DeliverMember(w.db, a, input, minted);
            && (Refused(tx.result, AlbumNotFound) <==> a !in w.db.albums)
            && (a in w.db.albums ==> DeliveryAnswer(w.db.albums[a], w.db.users, input, tx.result))
            && (tx.result.Err? ==> tx.db == w.db)
            && (tx.result.Ok? ==>
                  && a in tx.db.albums && DeliveryStored(w.db.albums[a], input, minted, tx.db.albums[a], tx.result.value)
                  && OtherAlbumsStay(w.db, tx.db, a) && SameAccounts(w.db, tx.db) && tx.db.objects == w.db.objects)
  {
    hide Inv, Reachable, AlbumInv, AlbumsInv, DeliveryAnswer, DeliveryStored, Deliver, Contiguous, T.DeliverMember;
    ReachableInv(w);
    InvIsAlbums(w);
    DeliveryTouchesOneAlbum(w.db, a, input, minted);
    if a in w.db.albums {
      AlbumFacts(w, a);
      DeliveryAnswers(w.db.albums[a], w.hist.held[a], w.db.users, input, minted);
      SameAnswer(w.db.albums[a], w.db.users, input, Deliver(w.db.albums[a], w.db.users, input, minted),
                 T.DeliverMember(w.db, a, input, minted).result);
      if Deliver(w.db.albums[a], w.db.users, input, minted).Ok? {
        DeliveryEffect(w.db.albums[a], w.db.users, input, minted);
      }
    }
  }

  // ---------- revoking ----------

  // Exactly whom a revocation takes out, and what each refusal means; the result says whether the target was out already
  ghost predicate RevocationAnswer(album: Album, caller: Token, target: Token, r: Result<bool, Error>) {
    && (Refused(r, CallerRevoked) <==> !album.IsActive(caller))
    && (Refused(r, MemberNotFound) <==> album.IsActive(caller) && target !in album.members)
    && (Refused(r, LastAdmin) <==> album.IsActive(caller) && SoleAdmin(album, target))
    && (r == Ok(true) <==> album.IsActive(caller) && target in album.members && album.members[target].revoked)
    && (r == Ok(false) <==> album.IsActive(caller) && album.IsActive(target) && !SoleAdmin(album, target))
  }

  ghost predicate RevocationStored(album: Album, target: Token, b: Album)
    requires target in album.members
  {
    && b.members.Keys == album.members.Keys && b.members[target].revoked && b.rotationRequired
    && b.members[target].user == album.members[target].user && b.members[target].role == album.members[target].role
    && (forall t :: t in album.members && t != target ==> b.members[t] == album.members[t])
    && b.epochs == album.epochs && b.wraps == album.wraps && b.generation == album.generation
  }

  lemma RevocationAnswers(album: Album, caller: Token, target: Token)
    requires RosterInv(album)
    ensures var r := Albums.Revoke(album, caller, target);
            && RevocationAnswer(album, caller, target, if r.Ok? then Ok(r.value.1) else Err(r.error))
            && (r.Ok? && !r.value.1 ==> RevocationStored(album, target, r.value.0))
  {
    AdminIsSole(album, target);
    if SoleAdmin(album, target) {
      AdminStays(album, target);
    }
    hide RosterInv;
  }

  // With the member go its avatars, and nothing else
  lemma RevokeOutcome(w: World, a: AlbumId, caller: Token, target: Token)
    requires Reachable(w)
    ensures var tx := T.RevokeMember(w.db, a, caller, target);
            && (Refused(tx.result, AlbumNotFound) <==> a !in w.db.albums)
            && (a in w.db.albums ==> RevocationAnswer(w.db.albums[a], caller, target, tx.result))
            && (tx.result != Ok(false) ==> tx.db == w.db)
            && (tx.result == Ok(false) ==>
                  && a in tx.db.albums && RevocationStored(w.db.albums[a], target, tx.db.albums[a])
                  && OtherAlbumsStay(w.db, tx.db, a) && SameAccounts(w.db, tx.db)
                  && var o := w.db.objects;
                     RowsGo(o, tx.db.objects, {}, set f | f in o.avatars && o.avatars[f].album == a && o.avatars[f].member == target))
  {
    hide Retire, RowsGo, Inv, Reachable, RosterInv, SoleAdmin, RevocationStored, Albums.Revoke, AlbumsInv;
    ReachableInv(w);
    InvHasObjects(w);
    InvIsAlbums(w);
    AccountRuns.AlbumRoster(w, a);
    RetiringTakesRows(w.db.objects, {}, T.AvatarsOf(w.db.objects, a, target), w.hist.committed, w.hist.cleared);
    if a in w.db.albums {
      RevocationAnswers(w.db.albums[a], caller, target);
    }
  }

  lemma InvHasObjects(w: World)
    requires Inv(w)
    ensures ObjectInv(w.db.objects, w.hist.committed, w.hist.cleared)
  {
  }

  // ---------- deleting ----------

  // Exactly who deletes an album
  lemma DeleteAlbumOutcome(w: World, a: AlbumId, caller: Token)
    requires Reachable(w)
    ensures var r := T.DeleteAlbum(w.db, a, caller).result;
            && (r == Err(AlbumNotFound) <==> a !in w.db.albums)
            && (r == Err(CallerRevoked) <==> a in w.db.albums && !w.db.albums[a].IsActive(caller))
            && (r == Err(CallerNotAdmin) <==>
                  a in w.db.albums && w.db.albums[a].IsActive(caller) && !SoleAdmin(w.db.albums[a], caller))
            && (r.Ok? <==> a in w.db.albums && SoleAdmin(w.db.albums[a], caller))
            && (r.Err? ==> T.DeleteAlbum(w.db, a, caller).db == w.db)
  {
    ReachableInv(w);
    AccountRuns.AlbumRoster(w, a);
    hide Inv, Reachable, Retire, RosterInv, SoleAdmin;
    if a in w.db.albums {
      AdminIsSole(w.db.albums[a], caller);
    }
  }

  // A deleted album is gone with everything in it, and nothing else is; its object keys are queued
  lemma DeletionEffect(w: World, a: AlbumId, caller: Token)
    requires Reachable(w) && T.DeleteAlbum(w.db, a, caller).result.Ok?
    ensures var o, db' := w.db.objects, T.DeleteAlbum(w.db, a, caller).db;
            && a !in db'.albums && OtherAlbumsStay(w.db, db', a) && SameAccounts(w.db, db')
            && RowsGo(o, db'.objects, set id | id in o.media && o.media[id].album == a,
                      set f | f in o.avatars && o.avatars[f].album == a)
  {
    hide Retire, RowsGo, Inv, Reachable;
    ReachableInv(w);
    InvHasObjects(w);
    RetiringTakesRows(w.db.objects, T.AlbumMedia(w.db.objects, a), T.AlbumAvatars(w.db.objects, a), w.hist.committed, w.hist.cleared);
  }

  lemma {:induction false} AbsentForGood(w: World, es: seq<Event>, a: AlbumId)
    requires AlbumsInv(w) && Run(w, es) && a in w.hist.held && a !in w.db.albums
    ensures a !in Exec(w, es).db.albums
    decreases |es|
  {
    hide AlbumsInv, Feasible, Apply, HeldAfter, CommittedAfter, ReservedAfter;
    if es != [] {
      AlbumsStep(w, es[0]);
      ClockRuns.GoneStaysGone(w, es[0], a);
      AbsentForGood(Step(w, es[0]), es[1..], a);
    }
  }

  lemma RowsNeedAlbum(w: World, es: seq<Event>, a: AlbumId)
    requires Reachable(w) && Run(w, es) && a !in Exec(w, es).db.albums
    ensures forall id :: id in Exec(w, es).db.objects.media ==> Exec(w, es).db.objects.media[id].album != a
    ensures forall f :: f in Exec(w, es).db.objects.avatars ==> Exec(w, es).db.objects.avatars[f].album != a
  {
    var before :| Run(START, before) && Exec(START, before) == w;
    hide Inv, AlbumsInv, Step, Feasible, Run, Exec;
    ReachableInv(w);
    InvHolds(w, es);
    AvatarRuns.AvatarsBelongToActiveMembers(before);
    InvIsAlbums(w);
    AvatarRuns.FacesHold(w, es);
    RowsFit(Exec(w, es), a);
  }

  lemma RowsFit(w: World, a: AlbumId)
    requires Inv(w) && AvatarRuns.FacesFit(w.db) && a !in w.db.albums
    ensures forall id :: id in w.db.objects.media ==> w.db.objects.media[id].album != a
    ensures forall f :: f in w.db.objects.avatars ==> w.db.objects.avatars[f].album != a
  {
    forall id | id in w.db.objects.media ensures w.db.objects.media[id].album != a {
      assert UploadRuns.RowInv(w.db, w.hist.reserved, id, w.db.objects.media[id]);
    }
  }

  // And it stays gone: in every later state there is no such album and no photo or avatar of it
  lemma DeletedAlbumStaysGone(w: World, a: AlbumId, caller: Token, later: seq<Event>)
    requires Reachable(w) && T.DeleteAlbum(w.db, a, caller).result.Ok? && Run(Step(w, DeleteAlbum(a, caller)), later)
    ensures var end := Exec(Step(w, DeleteAlbum(a, caller)), later).db;
            && a !in end.albums
            && (forall id :: id in end.objects.media ==> end.objects.media[id].album != a)
            && (forall f :: f in end.objects.avatars ==> end.objects.avatars[f].album != a)
  {
    var e := DeleteAlbum(a, caller);
    hide Inv, Reachable, AlbumsInv, T.DeleteAlbum, Run, Exec;
    DeletionEffect(w, a, caller);
    ReachableInv(w);
    InvStep(w, e);
    InvIsAlbums(w);
    InvIsAlbums(Step(w, e));
    assert a in w.hist.held by { HeldBefore(w, a, caller); }
    assert HeldAfter(w, e) == w.hist.held;
    AbsentForGood(Step(w, e), later, a);
    StillReachable(w, e);
    RowsNeedAlbum(Step(w, e), later, a);
  }

  lemma HeldBefore(w: World, a: AlbumId, caller: Token)
    requires AlbumsInv(w) && T.DeleteAlbum(w.db, a, caller).result.Ok?
    ensures a in w.hist.held
  {
  }
}
