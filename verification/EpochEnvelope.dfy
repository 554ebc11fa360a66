/** The bytes an epoch rotation hashes and signs. */
module EpochEnvelope {
  import opened Basics
  import opened Sorting

  type Token = bytes

  const TOKEN_LEN := 32
  const KEY_LEN := 32
  const SIG_LEN := 64
  const NONCE_LEN := 12
  const TAG_LEN := 16
  const VER_AES_GCM: byte := 1
  const NO_OPK := 0xFFFF_FFFF

  // One entry of the request's "wraps" array; opkIdx is an int32, absent for a 3-DH wrap
  datatype WrapInput = WrapInput(
    recipient: Token, ekPub: bytes, opkIdx: Option<int>, wrap: bytes, senderSig: bytes)

  predicate ByToken(a: Token, b: Token) { Less(a, b) }

  predicate ByRecipient(a: WrapInput, b: WrapInput) { Less(a.recipient, b.recipient) }

  // ---------- the hashed and signed bytes ----------

  function MemberSetBytes(tokens: seq<Token>): bytes {
    U32(|tokens|) + Concat(Sort(tokens, ByToken))
  }

  function OpkField(idx: Option<int>): bytes {
    U32(if idx.Some? then idx.value else NO_OPK)
  }

  function WrapFields(w: WrapInput): seq<bytes> {
    [w.recipient, w.ekPub, OpkField(w.opkIdx), U32(|w.wrap|), w.wrap, U32(|w.senderSig|), w.senderSig]
  }

  function WrapRecord(w: WrapInput): bytes {
    Concat(WrapFields(w))
  }

  // The records one after another
  function Records(wraps: seq<WrapInput>): bytes {
    if wraps == [] then [] else Records(wraps[..|wraps| - 1]) + WrapRecord(wraps[|wraps| - 1])
  }

  function WrapsBytes(wraps: seq<WrapInput>): bytes {
    U32(|wraps|) + Records(Sort(wraps, ByRecipient))
  }

  const SALT_EPOCH_SET: bytes :=
    [101, 112, 111, 99, 104, 45, 115, 101, 116, 45, 118, 49]  // "epoch-set-v1"

  function SignBytes(album: bytes, epoch: int, memberSetHash: bytes, wrapsHash: bytes): bytes {
    SALT_EPOCH_SET + album + U32(epoch) + memberSetHash + wrapsHash
  }

  // ---------- the loops that produce them ----------

  lemma TokenOrder()
    ensures StrictWeak(ByToken)
  {
    forall x, y, z | ByToken(x, z) ensures ByToken(x, y) || ByToken(y, z) {
      LessTrichotomy(x, y);
      LessTransitive(y, x, z);
    }
    forall x, y | ByToken(x, y) ensures !ByToken(y, x) {
      LessTrichotomy(x, y);
    }
  }

  lemma RecipientOrder()
    ensures StrictWeak(ByRecipient)
  {
    TokenOrder();
    forall x: WrapInput, y: WrapInput, z: WrapInput | ByRecipient(x, z)
      ensures ByRecipient(x, y) || ByRecipient(y, z)
    {
      assert ByToken(x.recipient, z.recipient);
      assert ByToken(x.recipient, y.recipient) || ByToken(y.recipient, z.recipient);
    }
    forall x: WrapInput, y: WrapInput | ByRecipient(x, y) ensures !ByRecipient(y, x) {
      assert ByToken(x.recipient, y.recipient);
      assert !ByToken(y.recipient, x.recipient);
    }
  }

  lemma TokensTieOnlyWhenEqual(tokens: seq<Token>)
    ensures OnlyEqualsTie(tokens, ByToken)
  {
    forall x, y | x in tokens && y in tokens ensures x == y || ByToken(x, y) || ByToken(y, x) {
      LessTrichotomy(x, y);
    }
  }

  lemma SortedLength<T(!new)>(xs: seq<T>, before: (T, T) -> bool)
    requires StrictWeak(before)
    ensures |Sort(xs, before)| == |xs|
  {
    SortSorts(xs, before);
    assert |Sort(xs, before)| == |multiset(Sort(xs, before))| == |multiset(xs)|;
  }

  lemma NextField(b: bytes, p: seq<bytes>, k: nat)
    requires k < |p|
    ensures b + Concat(p[..k]) + p[k] == b + Concat(p[..k + 1])
  {
    assert p[..k + 1][..k] == p[..k];
  }

  lemma SevenFields(b: bytes, p: seq<bytes>)
    requires |p| == 7
    ensures b + p[0] + p[1] + p[2] + p[3] + p[4] + p[5] + p[6] == b + Concat(p)
  {
    assert b + Concat(p[..0]) == b;
    NextField(b, p, 0);
    NextField(b, p, 1);
    NextField(b, p, 2);
    NextField(b, p, 3);
    NextField(b, p, 4);
    NextField(b, p, 5);
    NextField(b, p, 6);
    assert p[..7] == p;
  }

  // The preimage of the member-set hash: a count, then the sorted tokens
  method MemberSetHashInput(tokens: seq<Token>) returns (h: bytes)
    ensures h == MemberSetBytes(tokens)
  {
    var dup := Sort(tokens, ByToken);
    h := U32(|dup|);
    for i := 0 to |dup|
      invariant h == U32(|dup|) + Concat(dup[..i])
    {
      h := h + dup[i];
      assert dup[..i + 1][..i] == dup[..i];
    }
    assert dup[..|dup|] == dup;
    TokenOrder();
    SortedLength(tokens, ByToken);
  }

  method WriteWrap(h: bytes, w: WrapInput) returns (h': bytes)
    ensures h' == h + WrapRecord(w)
  {
    h' := h + w.recipient;
    h' := h' + w.ekPub;
    var idx := NO_OPK;
    if w.opkIdx.Some? {
      idx := w.opkIdx.value;
    }
    h' := h' + U32(idx);
    h' := h' + U32(|w.wrap|);
    h' := h' + w.wrap;
    h' := h' + U32(|w.senderSig|);
    h' := h' + w.senderSig;
    SevenFields(h, WrapFields(w));
  }

  lemma NextRecord(b: bytes, wraps: seq<WrapInput>, i: nat)
    requires i < |wraps|
    ensures b + Records(wraps[..i]) + WrapRecord(wraps[i]) == b + Records(wraps[..i + 1])
  {
    assert wraps[..i + 1][..i] == wraps[..i];
  }

  method WrapsHashInput(wraps: seq<WrapInput>) returns (h: bytes)
    ensures h == WrapsBytes(wraps)
  {
    var dup := Sort(wraps, ByRecipient);
    h := U32(|dup|);
    for i := 0 to |dup|
      invariant h == U32(|dup|) + Records(dup[..i])
    {
      h := WriteWrap(h, dup[i]);
      NextRecord(U32(|dup|), dup, i);
    }
    assert dup[..|dup|] == dup;
    RecipientOrder();
    SortedLength(wraps, ByRecipient);
  }

  method EnvelopeSignMsg(album: bytes, epoch: int, memberSetHash: bytes, wrapsHash: bytes) returns (out: bytes)
    ensures out == SignBytes(album, epoch, memberSetHash, wrapsHash)
  {
    out := SALT_EPOCH_SET;
    out := out + album;
    out := out + U32(epoch);
    out := out + memberSetHash;
    out := out + wrapsHash;
  }

  // ---------- what a request must look like ----------

  predicate WellFormed(w: WrapInput) {
    && |w.recipient| == TOKEN_LEN && |w.ekPub| == KEY_LEN && |w.senderSig| == SIG_LEN
    && |w.wrap| >= 1 + NONCE_LEN + TAG_LEN && w.wrap[0] == VER_AES_GCM
    && (w.opkIdx.Some? ==> 0 <= w.opkIdx.value < 0x8000_0000)
  }

  ghost predicate DistinctRecipients(wraps: seq<WrapInput>) {
    forall i, j :: 0 <= i < j < |wraps| ==> wraps[i].recipient != wraps[j].recipient
  }

  function Recipients(wraps: seq<WrapInput>): (r: seq<Token>)
    ensures |r| == |wraps| && forall i :: 0 <= i < |r| ==> r[i] == wraps[i].recipient
  {
    seq(|wraps|, i requires 0 <= i < |wraps| => wraps[i].recipient)
  }

  lemma DistinctRecipientsTieOnlyWhenEqual(wraps: seq<WrapInput>)
    requires DistinctRecipients(wraps)
    ensures OnlyEqualsTie(wraps, ByRecipient)
  {
    forall x, y | x in wraps && y in wraps ensures x == y || ByRecipient(x, y) || ByRecipient(y, x) {
      LessTrichotomy(x.recipient, y.recipient);
      var i :| 0 <= i < |wraps| && wraps[i] == x;
      var j :| 0 <= j < |wraps| && wraps[j] == y;
    }
  }

  // ---------- the bytes determine what was hashed ----------

  // The member-set preimage stands for the set: any order gives the same bytes, and the bytes give back the set.
  // The count prefix may wrap at 2^32; the fixed token length makes up for it.
  lemma MemberSetBytesIdentifySet(s: seq<Token>, t: seq<Token>)
    requires forall i :: 0 <= i < |s| ==> |s[i]| == TOKEN_LEN
    requires forall i :: 0 <= i < |t| ==> |t[i]| == TOKEN_LEN
    ensures MemberSetBytes(s) == MemberSetBytes(t) <==> multiset(s) == multiset(t)
  {
    TokenOrder();
    var ss, tt := Sort(s, ByToken), Sort(t, ByToken);
    SortSorts(s, ByToken);
    SortSorts(t, ByToken);
    SortedLength(s, ByToken);
    SortedLength(t, ByToken);
    if multiset(s) == multiset(t) {
      TokensTieOnlyWhenEqual(s);
      SortForgetsOrder(s, t, ByToken);
    }
    if MemberSetBytes(s) == MemberSetBytes(t) {
      SameElements(s, ss);
      SameElements(t, tt);
      SplitConcat(U32(|s|), Concat(ss), U32(|t|), Concat(tt));
      forall i | 0 <= i < |ss| ensures |ss[i]| == TOKEN_LEN {
        assert ss[i] in s;
      }
      forall i | 0 <= i < |tt| ensures |tt[i]| == TOKEN_LEN {
        assert tt[i] in t;
      }
      ConcatLength(ss, TOKEN_LEN);
      ConcatLength(tt, TOKEN_LEN);
      FieldsAgree(ss, [], tt, []);
    }
  }

  // 0xFFFFFFFF never collides with an index, because an int32 index is below 2^31
  lemma OpkFieldIdentifiesIndex(i: Option<int>, j: Option<int>)
    requires i.Some? ==> 0 <= i.value < 0x8000_0000
    requires j.Some? ==> 0 <= j.value < 0x8000_0000
    requires OpkField(i) == OpkField(j)
    ensures i == j
  {
    U32Injective(if i.Some? then i.value else NO_OPK, if j.Some? then j.value else NO_OPK);
  }

  lemma WrapFieldsCutAlike(v: WrapInput, w: WrapInput)
    requires WellFormed(v) && WellFormed(w) && |v.wrap| < TWO32 && |w.wrap| < TWO32
    ensures CutAlike(WrapFields(v), WrapFields(w))
  {
    var p, q := WrapFields(v), WrapFields(w);
    U32Injective(|v.wrap|, |w.wrap|);
    forall i | 0 <= i < 7 && p[..i] == q[..i] ensures |p[i]| == |q[i]| {
      if i == 4 {
        assert p[3] == p[..i][3] && q[3] == q[..i][3];
      }
    }
  }

  // A record says where it ends, whatever follows it
  lemma RecordIsSelfDelimiting(v: WrapInput, x: bytes, w: WrapInput, y: bytes)
    requires WellFormed(v) && WellFormed(w) && |v.wrap| < TWO32 && |w.wrap| < TWO32
    requires WrapRecord(v) + x == WrapRecord(w) + y
    ensures v == w && x == y
  {
    var p, q := WrapFields(v), WrapFields(w);
    WrapFieldsCutAlike(v, w);
    FieldsAgree(p, x, q, y);
    assert p[0] == q[0] && p[1] == q[1] && p[2] == q[2] && p[4] == q[4] && p[6] == q[6];
    OpkFieldIdentifiesIndex(v.opkIdx, w.opkIdx);
  }

  // ---------- lists of records ----------

  lemma {:induction false} RecordsFirst(wraps: seq<WrapInput>)
    requires wraps != []
    ensures Records(wraps) == WrapRecord(wraps[0]) + Records(wraps[1..])
  {
    var last := |wraps| - 1;
    if last > 0 {
      RecordsFirst(wraps[..last]);
      assert wraps[..last][1..] == wraps[1..][..last - 1];
    } else {
      assert wraps[..last] == [] && wraps[1..] == [];
    }
  }

  lemma {:induction false} RecordsIdentifyWraps(a: seq<WrapInput>, b: seq<WrapInput>)
    requires forall w :: w in a ==> WellFormed(w) && |w.wrap| < TWO32
    requires forall w :: w in b ==> WellFormed(w) && |w.wrap| < TWO32
    requires |a| == |b| && Records(a) == Records(b)
    ensures a == b
  {
    hide WrapRecord, WellFormed;
    if a != [] {
      RecordsFirst(a);
      RecordsFirst(b);
      RecordIsSelfDelimiting(a[0], Records(a[1..]), b[0], Records(b[1..]));
      RecordsIdentifyWraps(a[1..], b[1..]);
      assert a == [a[0]] + a[1..] && b == [b[0]] + b[1..];
    }
  }

  ghost predicate Signable(wraps: seq<WrapInput>) {
    && |wraps| < TWO32 && DistinctRecipients(wraps)
    && forall w :: w in wraps ==> WellFormed(w) && |w.wrap| < TWO32
  }

  // The wraps preimage stands for the request's wraps whatever order they arrived in
  lemma WrapsBytesIdentifyWraps(a: seq<WrapInput>, b: seq<WrapInput>)
    requires Signable(a) && Signable(b)
    ensures WrapsBytes(a) == WrapsBytes(b) <==> multiset(a) == multiset(b)
  {
    RecipientOrder();
    DistinctRecipientsTieOnlyWhenEqual(a);
    SortSorts(a, ByRecipient);
    SortSorts(b, ByRecipient);
    SortedLength(a, ByRecipient);
    SortedLength(b, ByRecipient);
    if multiset(a) == multiset(b) {
      SortForgetsOrder(a, b, ByRecipient);
    }
    if WrapsBytes(a) == WrapsBytes(b) {
      var sa, sb := Sort(a, ByRecipient), Sort(b, ByRecipient);
      SameElements(a, sa);
      SameElements(b, sb);
      SplitConcat(U32(|a|), Records(sa), U32(|b|), Records(sb));
      U32Injective(|a|, |b|);
      RecordsIdentifyWraps(sa, sb);
    }
  }

  // The signed message fixes the album, the hashes, and the epoch modulo 2^32 - no more than that
  lemma SignBytesIdentify(a: bytes, e: int, m: bytes, w: bytes, a': bytes, e': int, m': bytes, w': bytes)
    requires |a| == |a'| == 16 && |m| == |m'| == 32 && |w| == |w'| == 32
    ensures SignBytes(a, e, m, w) == SignBytes(a', e', m', w') <==>
            a == a' && e % TWO32 == e' % TWO32 && m == m' && w == w'
  {
    U32SameBytes(e, e');
    if SignBytes(a, e, m, w) == SignBytes(a', e', m', w') {
      SplitConcat(SALT_EPOCH_SET + a + U32(e) + m, w, SALT_EPOCH_SET + a' + U32(e') + m', w');
      SplitConcat(SALT_EPOCH_SET + a + U32(e), m, SALT_EPOCH_SET + a' + U32(e') , m');
      SplitConcat(SALT_EPOCH_SET + a, U32(e), SALT_EPOCH_SET + a', U32(e'));
      SplitConcat(SALT_EPOCH_SET, a, SALT_EPOCH_SET, a');
    }
  }

  // Two different preimages with one digest
  ghost predicate Collision(sha: bytes -> bytes, x: bytes, y: bytes) {
    x != y && sha(x) == sha(y)
  }

  lemma SignedHashesIdentify(sha: bytes -> bytes, a: bytes, e: nat, m: bytes, w: bytes,
                             a': bytes, e': nat, m': bytes, w': bytes)
    requires forall x :: |sha(x)| == 32
    requires |a| == |a'| == 16 && e < TWO32 && e' < TWO32
    requires SignBytes(a, e, sha(m), sha(w)) == SignBytes(a', e', sha(m'), sha(w'))
    ensures a == a' && e == e'
    ensures m == m' || Collision(sha, m, m')
    ensures w == w' || Collision(sha, w, w')
  {
    SignBytesIdentify(a, e, sha(m), sha(w), a', e', sha(m'), sha(w'));
  }

  // One signature covers one rotation: two valid requests with the same signed message carry the same album,
  // epoch, recipients and wraps, unless SHA-256 collided on the preimages shown.
  lemma EnvelopeBindsRequest(sha: bytes -> bytes, a: bytes, e: nat, ws: seq<WrapInput>, a': bytes, e': nat, ws': seq<WrapInput>)
    requires forall x :: |sha(x)| == 32
    requires |a| == |a'| == 16 && e < TWO32 && e' < TWO32
    requires Signable(ws) && Signable(ws')
    requires SignBytes(a, e, sha(MemberSetBytes(Recipients(ws))), sha(WrapsBytes(ws)))
          == SignBytes(a', e', sha(MemberSetBytes(Recipients(ws'))), sha(WrapsBytes(ws')))
    ensures a == a' && e == e'
    ensures multiset(ws) == multiset(ws') || Collision(sha, WrapsBytes(ws), WrapsBytes(ws'))
    ensures || multiset(Recipients(ws)) == multiset(Recipients(ws'))
            || Collision(sha, MemberSetBytes(Recipients(ws)), MemberSetBytes(Recipients(ws')))
  {
    SignedHashesIdentify(sha, a, e, MemberSetBytes(Recipients(ws)), WrapsBytes(ws),
                         a', e', MemberSetBytes(Recipients(ws')), WrapsBytes(ws'));
    WrapsBytesIdentifyWraps(ws, ws');
    RecipientLengths(ws);
    RecipientLengths(ws');
    MemberSetBytesIdentifySet(Recipients(ws), Recipients(ws'));
  }

  lemma RecipientLengths(ws: seq<WrapInput>)
    requires forall w :: w in ws ==> WellFormed(w)
    ensures forall i :: 0 <= i < |ws| ==> |Recipients(ws)[i]| == TOKEN_LEN
  {
    forall i | 0 <= i < |ws| ensures |Recipients(ws)[i]| == TOKEN_LEN {
      assert ws[i] in ws;
    }
  }
}
