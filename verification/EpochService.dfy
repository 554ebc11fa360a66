/** SetEpoch: what a rotation request must pass before its transaction, and what its commit stores. */
module EpochService {
  import opened Basics
  import opened EpochEnvelope
  import opened Schema
  import opened Albums
  import opened Database
  import AlbumOutcomes
  import EpochRepo
  import T = Transactions

  datatype SetEpochInput = SetEpochInput(epoch: int, memberSetHash: Digest, wraps: seq<WrapInput>, envelopeSig: bytes)

  datatype Refusal = Forbidden | Validation(field: string) | IdentityNotSet | SigInvalid | Store(error: Error)

  // Ed25519 verification and the 32 bytes a digest stands for, both left abstract
  datatype Crypto = Crypto(verify: (bytes, bytes, bytes) -> bool, raw: Digest -> bytes)

  // An index travels as an int32
  predicate Int32Indices(wraps: seq<WrapInput>) {
    forall w :: w in wraps && w.opkIdx.Some? ==> -0x8000_0000 <= w.opkIdx.value < 0x8000_0000
  }

  ghost predicate ValidRequest(input: SetEpochInput) {
    && input.epoch >= 0
    && (input.memberSetHash.Other? ==> |input.memberSetHash.raw| == 32)
    && |input.envelopeSig| == SIG_LEN && input.wraps != []
    && (forall w :: w in input.wraps ==> WellFormed(w)) && DistinctRecipients(input.wraps)
    && input.memberSetHash == Sha256(MemberSetBytes(EpochEnvelope.Recipients(input.wraps)))
  }

  method CheckWrap(w: WrapInput) returns (fault: Option<Refusal>)
    requires w.opkIdx.Some? ==> -0x8000_0000 <= w.opkIdx.value < 0x8000_0000
    ensures fault.None? <==> WellFormed(w)
    ensures fault.Some? ==> fault.value.Validation?
  {
    if |w.recipient| != TOKEN_LEN {
      return Some(Validation("recipient_token"));
    }
    if |w.ekPub| != KEY_LEN {
      return Some(Validation("ek_pub"));
    }
    if |w.senderSig| != SIG_LEN {
      return Some(Validation("sender_sig"));
    }
    if |w.wrap| < 1 + NONCE_LEN + TAG_LEN {
      return Some(Validation("wrap length"));
    }
    if w.wrap[0] != VER_AES_GCM {
      return Some(Validation("wrap version"));
    }
    if w.opkIdx.Some? && w.opkIdx.value < 0 {
      return Some(Validation("opk_idx_used"));
    }
    return None;
  }

  method CheckRequest(input: SetEpochInput) returns (fault: Option<Refusal>)
    requires Int32Indices(input.wraps)
    ensures fault.None? <==> ValidRequest(input)
    ensures fault.Some? ==> fault.value.Validation?
  {
    if input.epoch < 0 {
      return Some(Validation("epoch"));
    }
    if input.memberSetHash.Other? && |input.memberSetHash.raw| != 32 {
      return Some(Validation("member_set_hash"));
    }
    if |input.envelopeSig| != SIG_LEN {
      return Some(Validation("envelope_sig"));
    }
    if |input.wraps| == 0 {
      return Some(Validation("wraps"));
    }
    for i := 0 to |input.wraps|
      invariant forall k :: 0 <= k < i ==> WellFormed(input.wraps[k])
      invariant forall j, k :: 0 <= j < k < i ==> input.wraps[j].recipient != input.wraps[k].recipient
    {
      var w := input.wraps[i];
      assert w in input.wraps;
      fault := CheckWrap(w);
      if fault.Some? {
        return;
      }
      for j := 0 to i
        invariant forall k :: 0 <= k < j ==> input.wraps[k].recipient != w.recipient
      {
        if input.wraps[j].recipient == w.recipient {
          return Some(Validation("recipient_token duplicated"));
        }
      }
    }
    var tokens := EpochEnvelope.Recipients(input.wraps);
    var preimage := MemberSetHashInput(tokens);
    if Sha256(preimage) != input.memberSetHash {
      return Some(Validation("member_set_hash mismatch"));
    }
    return None;
  }

  // The blob VER || NONCE || TAG || CT is stored in two columns
  function ToInsert(w: WrapInput): WrapInsert
    requires WellFormed(w)
  {
    WrapInsert(w.recipient, w.ekPub, w.opkIdx, w.wrap[1..1 + NONCE_LEN], w.wrap[1 + NONCE_LEN..], w.senderSig)
  }

  function ToInput(input: SetEpochInput, caller: Token): EpochInput
    requires forall w :: w in input.wraps ==> WellFormed(w)
  {
    EpochInput(input.epoch, input.envelopeSig, caller,
               seq(|input.wraps|, i requires 0 <= i < |input.wraps| => assert input.wraps[i] in input.wraps; ToInsert(input.wraps[i])),
               input.memberSetHash)
  }

  // The bytes the admin's signature must cover
  ghost function SignedBytes(album: bytes, input: SetEpochInput, c: Crypto): bytes {
    SignBytes(album, input.epoch, c.raw(input.memberSetHash), c.raw(Sha256(WrapsBytes(input.wraps))))
  }

  // Everything SetEpoch demands before the transaction
  ghost predicate Accepts(isAdmin: bool, album: bytes, input: SetEpochInput, ik: Option<bytes>, c: Crypto) {
    isAdmin && ValidRequest(input) && ik.Some? && c.verify(ik.value, SignedBytes(album, input, c), input.envelopeSig)
  }

  // ik is the identity key on file for the caller, read before the transaction; album is the binary album id
  method SetEpoch(repo: EpochRepo.Repo, a: AlbumId, album: bytes, caller: Token, isAdmin: bool, input: SetEpochInput,
                  ik: Option<bytes>, c: Crypto)
    returns (r: Result<(), Refusal>)
    requires Int32Indices(input.wraps)
    modifies repo.db
    ensures r.Ok? <==> Accepts(isAdmin, album, input, ik, c)
                       && T.InsertEpoch(old(repo.db.tables), a, ToInput(input, caller)).result.Ok?
    ensures repo.db.tables == if Accepts(isAdmin, album, input, ik, c)
                              then T.InsertEpoch(old(repo.db.tables), a, ToInput(input, caller)).db
                              else old(repo.db.tables)
    ensures r == Err(Forbidden) <==> !isAdmin
    ensures r.Err? && r.error.Validation? <==> isAdmin && !ValidRequest(input)
    ensures r == Err(IdentityNotSet) <==> isAdmin && ValidRequest(input) && ik.None?
    ensures r == Err(SigInvalid) <==> isAdmin && ValidRequest(input) && ik.Some? && !Accepts(isAdmin, album, input, ik, c)
    ensures forall e :: r == Err(Store(e)) <==>
              Accepts(isAdmin, album, input, ik, c)
              && T.InsertEpoch(old(repo.db.tables), a, ToInput(input, caller)).result == Err(e)
  {
    hide Storable, Upsert, MemberSetBytes, WrapsBytes;
    if !isAdmin {
      return Err(Forbidden);
    }
    var fault := CheckRequest(input);
    if fault.Some? {
      return Err(fault.value);
    }
    var wrapsPreimage := WrapsHashInput(input.wraps);
    var signedMsg := EnvelopeSignMsg(album, input.epoch, c.raw(input.memberSetHash), c.raw(Sha256(wrapsPreimage)));
    if ik.None? {
      return Err(IdentityNotSet);
    }
    if !c.verify(ik.value, signedMsg, input.envelopeSig) {
      return Err(SigInvalid);
    }
    var wraps: seq<WrapInsert> := [];
    for i := 0 to |input.wraps|
      invariant wraps == ToInput(input, caller).wraps[..i]
    {
      var w := input.wraps[i];
      assert w in input.wraps;
      wraps := wraps + [WrapInsert(w.recipient, w.ekPub, w.opkIdx, w.wrap[1..1 + NONCE_LEN], w.wrap[1 + NONCE_LEN..], w.senderSig)];
    }
    assert wraps == ToInput(input, caller).wraps;
    var stored := repo.InsertEpoch(a, EpochInput(input.epoch, input.envelopeSig, caller, wraps, input.memberSetHash));
    match stored
    case Ok(_) => return Ok(());
    case Err(e) => return Err(Store(e));
  }

  // ---------- what that means ----------

  lemma RequestIsValidated(input: SetEpochInput, caller: Token)
    requires ValidRequest(input)
    ensures Validated(ToInput(input, caller))
  {
    var tokens := EpochEnvelope.Recipients(input.wraps);
    assert InsertTokens(ToInput(input, caller)) == tokens;
    forall w | w in ToInput(input, caller).wraps ensures |w.recipient| == TOKEN_LEN {
      var i :| 0 <= i < |input.wraps| && ToInput(input, caller).wraps[i] == w;
      assert input.wraps[i] in input.wraps;
    }
  }

  // The row a signed wrap is stored as gives the wrap back
  ghost predicate StoredAs(wraps: map<(int, Token), Wrap>, epoch: int, caller: Token, w: WrapInput) {
    && (epoch, w.recipient) in wraps
    && var row := wraps[(epoch, w.recipient)];
       row.ekPub == w.ekPub && row.opkIdx == w.opkIdx && row.senderSig == w.senderSig && row.sender == caller
       && [VER_AES_GCM] + row.nonce + row.tagCt == w.wrap && |row.nonce| == NONCE_LEN
  }

  lemma RowGivesWrapBack(w: WrapInput)
    requires WellFormed(w)
    ensures [VER_AES_GCM] + ToInsert(w).nonce + ToInsert(w).tagCt == w.wrap
  {
    assert w.wrap == [w.wrap[0]] + w.wrap[1..1 + NONCE_LEN] + w.wrap[1 + NONCE_LEN..];
  }

  lemma InsertedHolds(wraps: map<(int, Token), Wrap>, input: SetEpochInput, caller: Token, w: WrapInput)
    requires ValidRequest(input) && w in input.wraps
    requires forall x :: x in ToInput(input, caller).wraps ==> AlbumOutcomes.HoldsWrap(wraps, ToInput(input, caller), x)
    ensures StoredAs(wraps, input.epoch, caller, w)
  {
    hide MemberSetBytes;
    var i :| 0 <= i < |input.wraps| && input.wraps[i] == w;
    assert ToInput(input, caller).wraps[i] in ToInput(input, caller).wraps;
    RowGivesWrapBack(w);
  }

  // A committed rotation stores the verified signature as its epoch and exactly the signed wraps, for exactly the active
  // members, and no earlier epoch or row changes
  lemma CommitStoresTheSignedWraps(a: Album, held: Held, input: SetEpochInput, caller: Token)
    requires AlbumInv(a, held) && ValidRequest(input) && InsertEpoch(a, ToInput(input, caller)).Ok?
    ensures var b := InsertEpoch(a, ToInput(input, caller)).value;
            && input.epoch in b.epochs && b.epochs[input.epoch] == input.envelopeSig
            && (forall e :: e in a.epochs ==> e in b.epochs && b.epochs[e] == a.epochs[e])
            && (forall w :: w in input.wraps ==> StoredAs(b.wraps, input.epoch, caller, w))
            && (forall t :: (input.epoch, t) in b.wraps <==> t in a.Active())
            && (forall k :: k in a.wraps ==> k in b.wraps && b.wraps[k] == a.wraps[k])
  {
    assert forall w :: w in input.wraps ==> WellFormed(w);
    hide RosterInv, NobodyStranded, ValidRequest, Validated, StoredAs, InsertEpoch, AlbumOutcomes.HoldsWrap, Album.Active;
    var b := InsertEpoch(a, ToInput(input, caller)).value;
    RequestIsValidated(input, caller);
    AlbumOutcomes.RotationEffect(a, held, ToInput(input, caller));
    forall w | w in input.wraps ensures StoredAs(b.wraps, input.epoch, caller, w) {
      InsertedHolds(b.wraps, input, caller, w);
    }
  }
}
