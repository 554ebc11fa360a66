/** A reader of what a rotation hashes and signs, cutting the bytes at fixed places as another implementation would. */
module EnvelopeReader {
  import opened Basics
  import opened Sorting
  import opened EpochEnvelope

  function Ascii(s: string): bytes
    requires forall i :: 0 <= i < |s| ==> s[i] < 128 as char
  {
    seq(|s|, i requires 0 <= i < |s| => s[i] as int)
  }

  function Cut(b: bytes, n: nat): Option<(bytes, bytes)> {
    if n <= |b| then Some((b[..n], b[n..])) else None
  }

  lemma CutsField(field: bytes, rest: bytes)
    ensures Cut(field + rest, |field|) == Some((field, rest))
  {
    assert (field + rest)[..|field|] == field && (field + rest)[|field|..] == rest;
  }

  // ---------- the signed message ----------

  datatype Signed = Signed(album: bytes, epoch: nat, memberSetHash: bytes, wrapsHash: bytes)

  // 12 bytes of label, 16 of album, 4 of epoch, 32 and 32 of hashes
  function ReadSigned(b: bytes): Option<Signed> {
    if |b| != 96 || b[0..12] != Ascii("epoch-set-v1") then None
    else Some(Signed(b[12..28], FromBigEndian(b[28..32]), b[32..64], b[64..96]))
  }

  // The reader finds the album, the epoch as 32 bits, the member-set hash and the wraps hash, each in its place
  lemma ReaderReadsSigned(album: bytes, epoch: int, memberSetHash: bytes, wrapsHash: bytes)
    requires |album| == 16 && |memberSetHash| == |wrapsHash| == 32
    ensures ReadSigned(SignBytes(album, epoch, memberSetHash, wrapsHash))
            == Some(Signed(album, epoch % TWO32, memberSetHash, wrapsHash))
  {
    var b := SignBytes(album, epoch, memberSetHash, wrapsHash);
    BigEndianDecodes(epoch, WIDTH32);
    Widths();
    hide BigEndian, FromBigEndian;
    assert b[0..12] == SALT_EPOCH_SET == Ascii("epoch-set-v1");
    assert b[12..28] == album && b[28..32] == U32(epoch) && b[32..64] == memberSetHash && b[64..96] == wrapsHash;
  }

  // ---------- member sets ----------

  function ReadTokens(b: bytes): Option<seq<Token>>
    decreases |b|
  {
    if b == [] then Some([])
    else if |b| < TOKEN_LEN then None
    else
      var tail := ReadTokens(b[TOKEN_LEN..]);
      if tail.None? then None else Some([b[..TOKEN_LEN]] + tail.value)
  }

  // The count, then the tokens up to the end
  function ReadMemberSet(b: bytes): Option<(nat, seq<Token>)> {
    if |b| < 4 then None
    else
      var tokens := ReadTokens(b[4..]);
      if tokens.None? then None else Some((FromBigEndian(b[..4]), tokens.value))
  }

  ghost predicate Ascending(list: seq<bytes>) {
    forall i, j :: 0 <= i < j < |list| ==> list[i] == list[j] || Precedes(list[i], list[j])
  }

  lemma {:induction false} TokensRead(tokens: seq<Token>)
    requires forall i :: 0 <= i < |tokens| ==> |tokens[i]| == TOKEN_LEN
    ensures ReadTokens(Concat(tokens)) == Some(tokens)
  {
    if tokens != [] {
      ConcatFirst(tokens);
      CutsField(tokens[0], Concat(tokens[1..]));
      TokensRead(tokens[1..]);
      assert tokens == [tokens[0]] + tokens[1..];
    }
  }

  lemma SortedAscends(tokens: seq<Token>)
    ensures multiset(Sort(tokens, ByToken)) == multiset(tokens) && |Sort(tokens, ByToken)| == |tokens|
    ensures Ascending(Sort(tokens, ByToken))
  {
    TokenOrder();
    SortSorts(tokens, ByToken);
    SortedLength(tokens, ByToken);
    var list := Sort(tokens, ByToken);
    hide Sort, Less;
    forall i, j | 0 <= i < j < |list| ensures list[i] == list[j] || Precedes(list[i], list[j]) {
      LessTrichotomy(list[i], list[j]);
      LessIsDictionaryOrder(list[i], list[j]);
      assert !ByToken(list[j], list[i]);
    }
  }

  // The reader finds how many members there are and all of them, in dictionary order
  lemma ReaderReadsMemberSet(tokens: seq<Token>)
    requires forall i :: 0 <= i < |tokens| ==> |tokens[i]| == TOKEN_LEN
    ensures var r := ReadMemberSet(MemberSetBytes(tokens));
            && r.Some? && r.value.0 == |tokens| % TWO32
            && multiset(r.value.1) == multiset(tokens) && Ascending(r.value.1)
  {
    var list := Sort(tokens, ByToken);
    SortedAscends(tokens);
    SameElements(tokens, list);
    forall i | 0 <= i < |list| ensures |list[i]| == TOKEN_LEN {
      assert list[i] in tokens;
    }
    hide Sort, Concat, FromBigEndian, BigEndian, ReadTokens, Ascending;
    TokensRead(list);
    CutsField(U32(|tokens|), Concat(list));
    BigEndianDecodes(|tokens|, WIDTH32);
    Widths();
  }

  // ---------- wraps ----------

  // A length in four bytes, then that many bytes
  function ReadCounted(b: bytes): Option<(bytes, bytes)> {
    if |b| < 4 then None else Cut(b[4..], FromBigEndian(b[..4]))
  }

  // 32 bytes of recipient, 32 of key, 4 of prekey index or the absent marker, then wrap and signature with their lengths
  function ReadRecord(b: bytes): Option<(WrapInput, bytes)> {
    if |b| < 68 then None
    else
      var idx := FromBigEndian(b[64..68]);
      var wrap := ReadCounted(b[68..]);
      if wrap.None? then None
      else
        var sig := ReadCounted(wrap.value.1);
        if sig.None? then None
        else Some((WrapInput(b[0..32], b[32..64], if idx == 0xFFFF_FFFF then None else Some(idx), wrap.value.0, sig.value.0),
                   sig.value.1))
  }

  lemma CountedReads(field: bytes, rest: bytes)
    requires |field| < TWO32
    ensures ReadCounted(U32(|field|) + field + rest) == Some((field, rest))
  {
    var b := U32(|field|) + field + rest;
    BigEndianDecodes(|field|, WIDTH32);
    Widths();
    hide FromBigEndian, BigEndian;
    assert b[..4] == U32(|field|) && b[4..] == field + rest;
    CutsField(field, rest);
  }

  lemma RecordLayout(w: WrapInput)
    ensures WrapRecord(w) == w.recipient + w.ekPub + OpkField(w.opkIdx) + (U32(|w.wrap|) + w.wrap + (U32(|w.senderSig|) + w.senderSig))
  {
    hide U32, OpkField, Concat;
    var p := WrapFields(w);
    SevenFields([], p);
    assert [] + Concat(p) == Concat(p) && [] + p[0] == p[0];
  }

  lemma IndexReads(idx: Option<int>)
    requires idx.Some? ==> 0 <= idx.value < 0x8000_0000
    ensures FromBigEndian(OpkField(idx)) == if idx.Some? then idx.value else 0xFFFF_FFFF
  {
    BigEndianDecodes(if idx.Some? then idx.value else NO_OPK, WIDTH32);
    Widths();
  }

  lemma FixedPlaces(a: bytes, b: bytes, c: bytes, d: bytes, e: bytes, f: bytes, rest: bytes)
    requires |a| == 32 && |b| == 32 && |c| == 4
    ensures var x := a + b + c + (d + e + f) + rest;
            |x| >= 68 && x[0..32] == a && x[32..64] == b && x[64..68] == c && x[68..] == d + e + (f + rest)
  {
  }

  // The reader finds every field of one wrap in its place, whatever follows
  lemma ReaderReadsRecord(w: WrapInput, rest: bytes)
    requires WellFormed(w) && |w.wrap| < TWO32
    ensures ReadRecord(WrapRecord(w) + rest) == Some((w, rest))
  {
    var idx, sig := OpkField(w.opkIdx), U32(|w.senderSig|) + w.senderSig;
    RecordLayout(w);
    IndexReads(w.opkIdx);
    OpkWidth(w.opkIdx);
    hide WrapRecord, OpkField, FromBigEndian, U32, ReadCounted;
    FixedPlaces(w.recipient, w.ekPub, idx, U32(|w.wrap|), w.wrap, sig, rest);
    CountedReads(w.wrap, sig + rest);
    CountedReads(w.senderSig, rest);
  }

  lemma OpkWidth(idx: Option<int>)
    ensures |OpkField(idx)| == 4
  {
  }

  function ReadRecords(b: bytes, n: nat): Option<(seq<WrapInput>, bytes)> {
    if n == 0 then Some(([], b))
    else
      var first := ReadRecord(b);
      if first.None? then None
      else
        var tail := ReadRecords(first.value.1, n - 1);
        if tail.None? then None else Some(([first.value.0] + tail.value.0, tail.value.1))
  }

  // The count, then that many records and nothing more
  function ReadWraps(b: bytes): Option<seq<WrapInput>> {
    if |b| < 4 then None
    else
      var r := ReadRecords(b[4..], FromBigEndian(b[..4]));
      if r.None? || r.value.1 != [] then None else Some(r.value.0)
  }

  lemma {:induction false} RecordsRead(wraps: seq<WrapInput>)
    requires forall w :: w in wraps ==> WellFormed(w) && |w.wrap| < TWO32
    ensures ReadRecords(Records(wraps), |wraps|) == Some((wraps, []))
  {
    hide WellFormed, ReadRecord, WrapRecord;
    if wraps != [] {
      RecordsFirst(wraps);
      ReaderReadsRecord(wraps[0], Records(wraps[1..]));
      RecordsRead(wraps[1..]);
      assert wraps == [wraps[0]] + wraps[1..];
    }
  }

  lemma SortedRecipientsAscend(wraps: seq<WrapInput>)
    ensures var list := Sort(wraps, ByRecipient);
            multiset(list) == multiset(wraps) && |list| == |wraps| && Ascending(Recipients(list))
  {
    RecipientOrder();
    SortSorts(wraps, ByRecipient);
    SortedLength(wraps, ByRecipient);
    var list := Sort(wraps, ByRecipient);
    hide Sort, Less;
    forall i, j | 0 <= i < j < |list| ensures list[i].recipient == list[j].recipient || Precedes(list[i].recipient, list[j].recipient) {
      LessTrichotomy(list[i].recipient, list[j].recipient);
      LessIsDictionaryOrder(list[i].recipient, list[j].recipient);
      assert !ByRecipient(list[j], list[i]);
    }
  }

  lemma CountThenRecords(tail: bytes, list: seq<WrapInput>)
    requires |list| < TWO32 && ReadRecords(tail, |list|) == Some((list, []))
    ensures ReadWraps(U32(|list|) + tail) == Some(list)
  {
    hide FromBigEndian, BigEndian, ReadRecords;
    CutsField(U32(|list|), tail);
    BigEndianDecodes(|list|, WIDTH32);
    Widths();
  }

  // The reader gives back exactly the wraps of the request, by ascending recipient
  lemma ReaderReadsWraps(wraps: seq<WrapInput>)
    requires Signable(wraps)
    ensures var r := ReadWraps(WrapsBytes(wraps));
            r.Some? && multiset(r.value) == multiset(wraps) && Ascending(Recipients(r.value))
  {
    hide Sort, Records, U32, ReadRecords, ReadWraps, Ascending, WellFormed, DistinctRecipients, Recipients;
    var list := Sort(wraps, ByRecipient);
    SortedRecipientsAscend(wraps);
    SameElements(wraps, list);
    RecordsRead(list);
    CountThenRecords(Records(list), list);
  }
}
