/** What each transaction does to one album row and the rows that cascade from it. */
module Albums {
  import opened Basics
  import opened EpochEnvelope
  import opened Schema

  const MAX_ALBUM_MEMBERS := 10

  datatype WrapInsert = WrapInsert(
    recipient: Token, ekPub: bytes, opkIdx: Option<int>, nonce: bytes, tagCt: bytes, senderSig: bytes)

  datatype EpochInput = EpochInput(
    epoch: int, epochSig: bytes, sender: Token, wraps: seq<WrapInsert>, expected: Digest)

  datatype Envelope = Envelope(epoch: int, nonce: bytes, tagCt: bytes, senderSig: bytes)

  datatype DeliverInput = DeliverInput(
    user: UserId, sender: Token, ekPub: bytes, opkIdx: Option<int>, envelopes: seq<Envelope>)

  type WrapRow = ((int, Token), Wrap)

  // ---------- rows ----------

  // Writing rows in order, later ones replacing earlier ones with the same key
  function Upsert(wraps: map<(int, Token), Wrap>, rows: seq<WrapRow>): map<(int, Token), Wrap> {
    if rows == [] then wraps
    else
      var last := rows[|rows| - 1];
      Upsert(wraps, rows[..|rows| - 1])[last.0 := last.1]
  }

  lemma {:induction false} UpsertKeys(wraps: map<(int, Token), Wrap>, rows: seq<WrapRow>)
    ensures forall k :: k in Upsert(wraps, rows) <==> k in wraps || exists i :: 0 <= i < |rows| && rows[i].0 == k
  {
    if rows != [] {
      var last := |rows| - 1;
      UpsertKeys(wraps, rows[..last]);
      forall k ensures k in Upsert(wraps, rows) <==> k in wraps || exists i :: 0 <= i < |rows| && rows[i].0 == k {
        if k in Upsert(wraps, rows) && k !in wraps && k != rows[last].0 {
          var i :| 0 <= i < last && rows[..last][i].0 == k;
          assert rows[i].0 == k;
        }
        if i :| 0 <= i < |rows| && rows[i].0 == k {
          assert i == last || rows[..last][i].0 == k;
        }
      }
    }
  }

  // With distinct keys every row is kept and no other row changes
  lemma {:induction false} UpsertValues(wraps: map<(int, Token), Wrap>, rows: seq<WrapRow>)
    requires forall i, j :: 0 <= i < j < |rows| ==> rows[i].0 != rows[j].0
    ensures forall i :: 0 <= i < |rows| ==> rows[i].0 in Upsert(wraps, rows) && Upsert(wraps, rows)[rows[i].0] == rows[i].1
    ensures forall k :: k in wraps && (forall i :: 0 <= i < |rows| ==> rows[i].0 != k) ==>
                        k in Upsert(wraps, rows) && Upsert(wraps, rows)[k] == wraps[k]
  {
    if rows != [] {
      var last := |rows| - 1;
      UpsertValues(wraps, rows[..last]);
      forall i | 0 <= i < |rows|
        ensures rows[i].0 in Upsert(wraps, rows) && Upsert(wraps, rows)[rows[i].0] == rows[i].1
      {
        if i < last {
          assert rows[..last][i] == rows[i];
          assert rows[i].0 != rows[last].0;
        }
      }
      forall k | k in wraps && (forall i :: 0 <= i < |rows| ==> rows[i].0 != k)
        ensures k in Upsert(wraps, rows) && Upsert(wraps, rows)[k] == wraps[k]
      {
        assert rows[last].0 != k;
        forall i | 0 <= i < last ensures rows[..last][i].0 != k {
          assert rows[i].0 != k;
        }
      }
    }
  }

  function EpochRow(input: EpochInput, w: WrapInsert): WrapRow {
    ((input.epoch, w.recipient), Wrap(w.ekPub, w.opkIdx, w.nonce, w.tagCt, input.sender, w.senderSig))
  }

  function EpochRows(input: EpochInput): seq<WrapRow> {
    seq(|input.wraps|, i requires 0 <= i < |input.wraps| => EpochRow(input, input.wraps[i]))
  }

  function DeliverRow(input: DeliverInput, token: Token, e: Envelope): WrapRow {
    ((e.epoch, token), Wrap(input.ekPub, input.opkIdx, e.nonce, e.tagCt, input.sender, e.senderSig))
  }

  function DeliverRows(input: DeliverInput, token: Token): seq<WrapRow> {
    seq(|input.envelopes|, i requires 0 <= i < |input.envelopes| => DeliverRow(input, token, input.envelopes[i]))
  }

  // ---------- the transactions on one album ----------

  function NewAlbum(creator: UserId, token: Token): Album {
    Album(map[token := Membership(creator, Admin, false)], map[], map[], false, 0)
  }

  // UPDATE album_members SET revoked_at, then the rotation debt
  function Depart(a: Album, t: Token): Album
    requires t in a.members
  {
    a.(members := a.members[t := a.members[t].(revoked := true)], rotationRequired := true)
  }

  function ActiveAdmins(a: Album): set<Token> {
    set t | t in a.members && a.members[t].role == Admin && !a.members[t].revoked
  }

  // RevokeMemberTx inside one album: the new album and whether the target was already out
  function Revoke(a: Album, caller: Token, target: Token): Result<(Album, bool), Error> {
    if !a.IsActive(caller) then Err(CallerRevoked)
    else if target !in a.members then Err(MemberNotFound)
    else if a.members[target].revoked then Ok((a, true))
    else if a.members[target].role == Admin && |ActiveAdmins(a)| <= 1 then Err(LastAdmin)
    else Ok((Depart(a, target), false))
  }

  // Every wrap row is new to the table and points at an identity row
  ghost predicate Storable(a: Album, rows: seq<WrapRow>) {
    && (forall i :: 0 <= i < |rows| ==> rows[i].0 !in a.wraps && rows[i].0.1 in a.members)
    && (forall i, j :: 0 <= i < j < |rows| ==> rows[i].0 != rows[j].0)
  }

  ghost function InsertEpoch(a: Album, input: EpochInput): Result<Album, Error> {
    if !a.IsActive(input.sender) then Err(CallerRevoked)
    else if a.members[input.sender].role != Admin then Err(CallerNotAdmin)
    else if input.epoch != a.CurrentEpoch() + 1 then Err(EpochReplay)
    else if MemberSetDigest(a.Active()) != input.expected then Err(MemberSetDrift)
    else if !Storable(a, EpochRows(input)) then Err(ConstraintViolation)
    else Ok(a.(epochs := a.epochs[input.epoch := input.epochSig],
               wraps := Upsert(a.wraps, EpochRows(input)),
               rotationRequired := false))
  }

  // The token the album issued to a user, if any
  ghost predicate IsTokenOf(a: Album, user: UserId, t: Token) {
    t in a.members && a.members[t].user == user
  }

  ghost predicate UniqueUsers(a: Album) {
    forall t, t' :: t in a.members && t' in a.members && a.members[t].user == a.members[t'].user ==> t == t'
  }

  ghost function TokenOf(a: Album, user: UserId): Option<Token> {
    if t :| IsTokenOf(a, user, t) then Some(t) else None
  }

  predicate Live(users: map<UserId, bool>, u: UserId) {
    u in users && !users[u]
  }

  ghost function Recheck(a: Album, users: map<UserId, bool>, input: DeliverInput): Option<Error> {
    if !a.IsActive(input.sender) then Some(SenderRevoked)
    else if a.members[input.sender].role != Admin then Some(SenderNotAdmin)
    else if !Live(users, a.members[input.sender].user) then Some(SenderRevoked)
    else if !Live(users, input.user) then Some(TargetDeleting)
    else if input.envelopes == [] || input.envelopes[|input.envelopes| - 1].epoch != a.CurrentEpoch() then Some(EpochMoved)
    else if a.RotationRequired() then Some(PendingRotation)
    else None
  }

  function Admit(a: Album, input: DeliverInput, token: Token): Album {
    a.(members := a.members[token := Membership(input.user, Member, false)],
       wraps := Upsert(a.wraps, DeliverRows(input, token)))
  }

  // DeliverMember inside one album: the new album and the member's token
  ghost function Deliver(a: Album, users: map<UserId, bool>, input: DeliverInput, minted: Token): Result<(Album, Token), Error> {
    var refusal := Recheck(a, users, input);
    if refusal.Some? then Err(refusal.value)
    else
      var existing := TokenOf(a, input.user);
      if existing.Some? && a.IsActive(existing.value) then Err(AlreadyMember)
      else if |a.Active()| >= MAX_ALBUM_MEMBERS then Err(AlbumFull)
      else
        var token := if existing.Some? then existing.value else minted;
        Ok((Admit(a, input, token), token))
  }

  // DELETE FROM album_member_identities: the roster row and the received wraps cascade, sent wraps stay
  function Erase(a: Album, t: Token): Album {
    a.(members := a.members - {t},
       wraps := map k | k in a.wraps && k.1 != t :: a.wraps[k])
  }

  // ---------- what every transaction keeps ----------

  // held records every token the key of an epoch was ever given to, even after its wrap rows are erased
  type Held = map<int, set<Token>>

  ghost predicate SoleAdmin(a: Album, t: Token) {
    && a.IsActive(t) && a.members[t].role == Admin
    && forall x :: x in a.members && a.members[x].role == Admin ==> x == t
  }

  ghost predicate RosterInv(a: Album) {
    && (exists t :: SoleAdmin(a, t))
    && UniqueUsers(a)
    && (forall t :: t in a.members ==> |t| == TOKEN_LEN)
    && |a.Active()| <= MAX_ALBUM_MEMBERS
  }

  ghost predicate NobodyStranded(a: Album) {
    forall e, t :: e in a.epochs && a.IsActive(t) ==> (e, t) in a.wraps
  }

  ghost predicate EpochsCountUp(a: Album) {
    forall e :: e in a.epochs <==> 0 <= e < |a.epochs|
  }

  ghost predicate WrapsWereGiven(a: Album, held: Held)
    requires held.Keys == a.epochs.Keys
  {
    forall e, t :: (e, t) in a.wraps ==> e in a.epochs && t in a.members && t in held[e]
  }

  ghost predicate KeyInv(a: Album, held: Held) {
    && EpochsCountUp(a)
    && held.Keys == a.epochs.Keys
    && NobodyStranded(a)
    && WrapsWereGiven(a, held)
    && (a.epochs == map[] ==> !a.rotationRequired && forall t :: t in a.members ==> a.members[t].role == Admin)
    && (a.epochs != map[] && !a.rotationRequired ==> held[a.CurrentEpoch()] == a.Active())
  }

  ghost predicate AlbumInv(a: Album, held: Held) {
    RosterInv(a) && KeyInv(a, held)
  }

  // Epochs count up from zero, so the newest is one less than their number
  lemma CurrentIsCount(a: Album)
    requires EpochsCountUp(a)
    ensures a.CurrentEpoch() == |a.epochs| - 1
  {
    if a.epochs != map[] {
      assert |a.epochs| - 1 in a.epochs.Keys;
    }
  }

  // Wherever the keys are in order, the debt flag alone says whether a rotation is owed
  lemma DriftImpliesDebt(a: Album, held: Held)
    requires KeyInv(a, held)
    ensures a.RotationRequired() <==> a.rotationRequired
  {
  }

  // ---------- preservation ----------

  lemma NewAlbumInv(creator: UserId, token: Token)
    requires |token| == TOKEN_LEN
    ensures AlbumInv(NewAlbum(creator, token), map[])
  {
    var a := NewAlbum(creator, token);
    assert SoleAdmin(a, token);
    assert a.Active() == {token};
  }

  // The admin can never be taken out: it is the last one
  lemma AdminStays(a: Album, t: Token)
    requires SoleAdmin(a, t)
    ensures ActiveAdmins(a) == {t}
  {
  }

  lemma DepartInv(a: Album, held: Held, t: Token)
    requires AlbumInv(a, held)
    requires a.IsActive(t) && a.members[t].role != Admin
    ensures AlbumInv(Depart(a, t), held)
    ensures Depart(a, t).Active() == a.Active() - {t}
  {
    var b := Depart(a, t);
    assert b.Active() == a.Active() - {t};
    var s :| SoleAdmin(a, s);
    assert SoleAdmin(b, s);
    assert a.epochs != map[];
  }

  lemma RevokeInv(a: Album, held: Held, caller: Token, target: Token)
    requires AlbumInv(a, held)
    requires Revoke(a, caller, target).Ok?
    ensures AlbumInv(Revoke(a, caller, target).value.0, held)
  {
    var s :| SoleAdmin(a, s);
    AdminStays(a, s);
    if !Revoke(a, caller, target).value.1 {
      DepartInv(a, held, target);
    }
  }

  lemma EraseInv(a: Album, held: Held, t: Token)
    requires AlbumInv(a, held)
    requires t in a.members && a.members[t].revoked
    ensures AlbumInv(Erase(a, t), held)
    ensures Erase(a, t).Active() == a.Active()
  {
    var b := Erase(a, t);
    var s :| SoleAdmin(a, s);
    assert SoleAdmin(b, s);
    assert b.Active() == a.Active();
  }

  // Recipients of a rotation, with the admin who minted the key
  ghost function KeyHolders(input: EpochInput): set<Token> {
    (set w | w in input.wraps :: w.recipient) + {input.sender}
  }

  ghost function InsertTokens(input: EpochInput): seq<Token> {
    seq(|input.wraps|, i requires 0 <= i < |input.wraps| => input.wraps[i].recipient)
  }

  // What SetEpoch has checked about a request before the transaction starts
  ghost predicate Validated(input: EpochInput) {
    && Distinct(InsertTokens(input))
    && (forall w :: w in input.wraps ==> |w.recipient| == TOKEN_LEN)
    && input.expected == Sha256(MemberSetBytes(InsertTokens(input)))
  }

  lemma RecipientTokens(a: Album, held: Held, input: EpochInput)
    requires AlbumInv(a, held) && Validated(input)
    requires MemberSetDigest(a.Active()) == input.expected
    ensures Elements(InsertTokens(input)) == a.Active()
  {
    var tokens := InsertTokens(input);
    forall t | t in tokens ensures |t| == TOKEN_LEN {
      var i :| 0 <= i < |tokens| && tokens[i] == t;
      assert input.wraps[i] in input.wraps;
    }
    DigestComparesSets(tokens, a.Active());
  }

  lemma RowsReachRecipients(input: EpochInput)
    ensures RowsReach(EpochRows(input), input.epoch, Elements(InsertTokens(input)))
  {
    var tokens, rows := InsertTokens(input), EpochRows(input);
    forall i | 0 <= i < |rows| ensures rows[i].0.1 in Elements(tokens) {
      assert tokens[i] in tokens;
    }
    forall t | t in Elements(tokens) ensures exists i :: 0 <= i < |rows| && rows[i].0 == (input.epoch, t) {
      var i :| 0 <= i < |tokens| && tokens[i] == t;
      assert rows[i].0 == (input.epoch, t);
    }
  }

  lemma HoldersAreRecipients(input: EpochInput)
    ensures KeyHolders(input) == Elements(InsertTokens(input)) + {input.sender}
  {
    var tokens := InsertTokens(input);
    forall t ensures t in tokens <==> exists w :: w in input.wraps && w.recipient == t {
      if t in tokens {
        var i :| 0 <= i < |tokens| && tokens[i] == t;
        assert input.wraps[i] in input.wraps && input.wraps[i].recipient == t;
      }
      if w :| w in input.wraps && w.recipient == t {
        var i :| 0 <= i < |input.wraps| && input.wraps[i] == w;
        assert tokens[i] == t;
      }
    }
  }

  lemma RecipientsAreActive(a: Album, held: Held, input: EpochInput)
    requires AlbumInv(a, held) && Validated(input) && a.IsActive(input.sender)
    requires MemberSetDigest(a.Active()) == input.expected
    ensures KeyHolders(input) == a.Active()
    ensures RowsReach(EpochRows(input), input.epoch, a.Active())
  {
    assert input.sender in a.Active();
    hide AlbumInv, Validated, EpochRows, KeyHolders, InsertTokens, RowsReach;
    RecipientTokens(a, held, input);
    RowsReachRecipients(input);
    HoldersAreRecipients(input);
  }

  // A validated rotation that passes the recheck cannot fail on a table constraint
  lemma RotationIsStorable(a: Album, held: Held, input: EpochInput)
    requires AlbumInv(a, held) && Validated(input) && a.IsActive(input.sender)
    requires input.epoch == a.CurrentEpoch() + 1
    requires MemberSetDigest(a.Active()) == input.expected
    ensures Storable(a, EpochRows(input))
  {
    var tokens, rows := InsertTokens(input), EpochRows(input);
    RecipientTokens(a, held, input);
    CurrentIsCount(a);
    forall i | 0 <= i < |rows| ensures rows[i].0 !in a.wraps && rows[i].0.1 in a.members {
      assert tokens[i] in Elements(tokens);
      assert input.epoch !in a.epochs;
    }
    forall i, j | 0 <= i < j < |rows| ensures rows[i].0 != rows[j].0 {
      assert tokens[i] != tokens[j];
    }
  }

  // The digest recheck makes the recipients the active members, no more and no fewer
  lemma InsertEpochInv(a: Album, held: Held, input: EpochInput)
    requires AlbumInv(a, held) && Validated(input)
    requires InsertEpoch(a, input).Ok?
    ensures AlbumInv(InsertEpoch(a, input).value, held[input.epoch := KeyHolders(input)])
    ensures InsertEpoch(a, input).value.Active() == a.Active() == KeyHolders(input)
  {
    var b := InsertEpoch(a, input).value;
    RecipientsAreActive(a, held, input);
    SameRosterInv(a, b);
    CurrentIsCount(a);
    RotationKeyInv(a, held, input.epoch, input.epochSig, EpochRows(input), b);
  }

  lemma SameRosterInv(a: Album, b: Album)
    requires RosterInv(a) && a.members == b.members
    ensures RosterInv(b) && a.Active() == b.Active()
  {
    assert b.Active() == a.Active();
    var s :| SoleAdmin(a, s);
    assert SoleAdmin(b, s);
  }

  lemma WrapsAfterUpsert(a: Album, held: Held, rows: seq<WrapRow>, b: Album, held': Held)
    requires held.Keys == a.epochs.Keys && held'.Keys == b.epochs.Keys
    requires WrapsWereGiven(a, held) && b.wraps == Upsert(a.wraps, rows)
    requires forall e :: e in held ==> e in held' && held[e] <= held'[e]
    requires a.members.Keys <= b.members.Keys
    requires forall i :: 0 <= i < |rows| ==> rows[i].0.0 in held' && rows[i].0.1 in b.members && rows[i].0.1 in held'[rows[i].0.0]
    ensures WrapsWereGiven(b, held')
  {
    UpsertKeys(a.wraps, rows);
    forall e, t | (e, t) in b.wraps ensures e in b.epochs && t in b.members && t in held'[e] {
      if (e, t) in a.wraps {
        assert e in held;
      } else {
        var i :| 0 <= i < |rows| && rows[i].0 == (e, t);
        assert e in held'.Keys;
      }
    }
  }

  lemma NobodyStrandedAfterUpsert(a: Album, rows: seq<WrapRow>, b: Album)
    requires NobodyStranded(a) && b.wraps == Upsert(a.wraps, rows)
    requires forall e, t :: e in b.epochs && b.IsActive(t) ==>
               (e in a.epochs && a.IsActive(t)) || exists i :: 0 <= i < |rows| && rows[i].0 == (e, t)
    ensures NobodyStranded(b)
  {
    UpsertKeys(a.wraps, rows);
  }

  ghost predicate RowsReach(rows: seq<WrapRow>, epoch: int, given: set<Token>) {
    && (forall i :: 0 <= i < |rows| ==> rows[i].0.0 == epoch && rows[i].0.1 in given)
    && (forall t :: t in given ==> exists i :: 0 <= i < |rows| && rows[i].0 == (epoch, t))
  }

  lemma RotationKeyInv(a: Album, held: Held, next: int, sig: bytes, rows: seq<WrapRow>, b: Album)
    requires KeyInv(a, held) && next == |a.epochs| && RowsReach(rows, next, a.Active())
    requires b == a.(epochs := a.epochs[next := sig], wraps := Upsert(a.wraps, rows), rotationRequired := false)
    ensures KeyInv(b, held[next := a.Active()])
  {
    hide NobodyStranded, WrapsWereGiven, Upsert, RowsReach;
    NextEpoch(a, b, next, sig);
    CurrentIsCount(b);
    assert b.Active() == a.Active();
    RotationWraps(a, held, next, rows, b);
  }

  lemma NextEpoch(a: Album, b: Album, next: int, sig: bytes)
    requires EpochsCountUp(a) && next == |a.epochs| && b.epochs == a.epochs[next := sig]
    ensures EpochsCountUp(b) && next !in a.epochs && b.epochs.Keys == a.epochs.Keys + {next} && |b.epochs| == next + 1
  {
    assert next !in a.epochs;
    OneMoreKey(a.epochs, next, sig);
  }

  lemma OneMoreKey(m: map<int, bytes>, k: int, v: bytes)
    requires k !in m
    ensures m[k := v].Keys == m.Keys + {k} && |m[k := v]| == |m| + 1
  {
    assert m[k := v].Keys == m.Keys + {k};
    assert |m.Keys + {k}| == |m.Keys| + 1;
  }

  lemma RotationWraps(a: Album, held: Held, next: int, rows: seq<WrapRow>, b: Album)
    requires held.Keys == a.epochs.Keys && NobodyStranded(a) && WrapsWereGiven(a, held)
    requires next !in a.epochs && b.epochs.Keys == a.epochs.Keys + {next}
    requires b.members == a.members && b.wraps == Upsert(a.wraps, rows)
    requires RowsReach(rows, next, a.Active())
    ensures WrapsWereGiven(b, held[next := a.Active()]) && NobodyStranded(b)
  {
    WrapsAfterUpsert(a, held, rows, b, held[next := a.Active()]);
    forall e, t | e in b.epochs && b.IsActive(t)
      ensures (e in a.epochs && a.IsActive(t)) || exists i :: 0 <= i < |rows| && rows[i].0 == (e, t)
    {
      assert t in a.Active();
    }
    NobodyStrandedAfterUpsert(a, rows, b);
  }

  // What DeliverExistingUser has checked: one envelope per epoch, in order from zero
  ghost predicate Contiguous(envelopes: seq<Envelope>) {
    forall i :: 0 <= i < |envelopes| ==> envelopes[i].epoch == i
  }

  ghost function HeldAfterDelivery(held: Held, input: DeliverInput, token: Token): Held {
    map e | e in held :: if exists i :: 0 <= i < |input.envelopes| && input.envelopes[i].epoch == e then held[e] + {token} else held[e]
  }

  // A join or a return gives the member every epoch and leaves every other member's wraps alone
  lemma DeliverInv(a: Album, held: Held, users: map<UserId, bool>, input: DeliverInput, minted: Token)
    requires AlbumInv(a, held) && Contiguous(input.envelopes)
    requires |minted| == TOKEN_LEN && minted !in a.members
    requires Deliver(a, users, input, minted).Ok?
    ensures var (b, token) := Deliver(a, users, input, minted).value;
            && AlbumInv(b, HeldAfterDelivery(held, input, token))
            && !a.IsActive(token) && b.Active() == a.Active() + {token}
  {
    hide NobodyStranded, WrapsWereGiven, Upsert, UniqueUsers, SoleAdmin;
    var (b, token) := Deliver(a, users, input, minted).value;
    AdmitRosterInv(a, input, token);
    CurrentIsCount(a);
    DriftImpliesDebt(a, held);
    DeliveryReachesEveryEpoch(a, held, input, token);
    AdmitKeyInv(a, held, DeliverRows(input, token), b, token);
  }

  lemma AdmitRosterInv(a: Album, input: DeliverInput, token: Token)
    requires RosterInv(a) && |a.Active()| < MAX_ALBUM_MEMBERS
    requires |token| == TOKEN_LEN && !a.IsActive(token)
    requires TokenOf(a, input.user) == Some(token) || (TokenOf(a, input.user) == None && token !in a.members)
    ensures RosterInv(Admit(a, input, token))
    ensures Admit(a, input, token).Active() == a.Active() + {token}
  {
    var b := Admit(a, input, token);
    assert b.Active() == a.Active() + {token};
    assert |b.Active()| == |a.Active()| + 1;
    var s :| SoleAdmin(a, s);
    assert SoleAdmin(b, s);
    AdmitKeepsUsersUnique(a, input, token);
  }

  lemma DeliveryReachesEveryEpoch(a: Album, held: Held, input: DeliverInput, token: Token)
    requires EpochsCountUp(a) && Contiguous(input.envelopes) && |input.envelopes| == |a.epochs|
    requires held.Keys == a.epochs.Keys
    ensures forall i :: 0 <= i < |DeliverRows(input, token)| ==> DeliverRows(input, token)[i].0 == (i, token) && i in a.epochs
    ensures HeldAfterDelivery(held, input, token) == map e | e in held :: held[e] + {token}
  {
    forall e | e in held ensures exists i :: 0 <= i < |input.envelopes| && input.envelopes[i].epoch == e {
      assert e in a.epochs.Keys;
      assert input.envelopes[e].epoch == e;
    }
  }

  lemma AdmitKeyInv(a: Album, held: Held, rows: seq<WrapRow>, b: Album, token: Token)
    requires KeyInv(a, held) && a.epochs != map[] && !a.rotationRequired
    requires |rows| == |a.epochs| && forall i :: 0 <= i < |rows| ==> rows[i].0 == (i, token) && i in a.epochs
    requires b.epochs == a.epochs && b.rotationRequired == a.rotationRequired && b.wraps == Upsert(a.wraps, rows)
    requires b.members.Keys == a.members.Keys + {token} && b.Active() == a.Active() + {token}
    ensures KeyInv(b, map e | e in held :: held[e] + {token})
  {
    WrapsAfterUpsert(a, held, rows, b, map e | e in held :: held[e] + {token});
    forall e, t | e in b.epochs && b.IsActive(t)
      ensures (e in a.epochs && a.IsActive(t)) || exists i :: 0 <= i < |rows| && rows[i].0 == (e, t)
    {
      assert t in b.Active();
      if t == token {
        assert rows[e].0 == (e, t);
      }
    }
    NobodyStrandedAfterUpsert(a, rows, b);
    CurrentIsCount(a);
    CurrentIsCount(b);
  }

  lemma AdmitKeepsUsersUnique(a: Album, input: DeliverInput, token: Token)
    requires UniqueUsers(a)
    requires TokenOf(a, input.user) == Some(token) || (TokenOf(a, input.user) == None && token !in a.members)
    ensures UniqueUsers(Admit(a, input, token))
  {
    forall t | t in a.members && a.members[t].user == input.user ensures t == token {
      assert IsTokenOf(a, input.user, t);
    }
  }
}
