/** The tables the server's transactions read and write. Rows that cascade from an album (identity and roster
    rows, epochs, wraps) live inside its Album; media, avatars and the cleanup queue have keys of their own. */
module Schema {
  import opened Basics
  import opened EpochEnvelope

  type UserId = nat
  type AlbumId = nat
  type MediaId = nat
  type AvatarId = nat
  type ReservationId = nat
  type Key = string

  datatype Error =
    | AlbumNotFound | UserNotFound | AccountDeleting | MemberNotFound | CallerRevoked | CallerNotAdmin | LastAdmin
    | EpochReplay | MemberSetDrift | ConstraintViolation | Invalid
    | SenderRevoked | SenderNotAdmin | EpochMoved | PendingRotation | TargetDeleting | AlreadyMember | AlbumFull
    | NoEpoch | EpochMismatch | MediaConfirmed | MediaNotOwned | MediaNotFound
    | AvatarNotOwned | AvatarConfirmed | AvatarNotFound
    | PlanStale | ReceiptAbandoned

  // SHA-256 as a free constructor: a digest of known bytes, or any other byte string a client may send
  datatype Digest = Sha256(preimage: bytes) | Other(raw: bytes)

  datatype Role = Admin | Member

  // album_member_identities joined with album_members: both rows are inserted and deleted together
  datatype Membership = Membership(user: UserId, role: Role, revoked: bool)

  // album_epoch_wraps without its key columns
  datatype Wrap = Wrap(ekPub: bytes, opkIdx: Option<int>, nonce: bytes, tagCt: bytes, sender: Token, senderSig: bytes)

  datatype Album = Album(
    members: map<Token, Membership>,
    epochs: map<int, bytes>,            // epoch number to its signature
    wraps: map<(int, Token), Wrap>,
    rotationRequired: bool,
    generation: nat)
  {
    predicate IsActive(t: Token) {
      t in members && !members[t].revoked
    }

    function Active(): set<Token> {
      set t | t in members && !members[t].revoked
    }

    // COALESCE(MAX(epoch), -1)
    function CurrentEpoch(): int {
      if epochs == map[] then -1 else MaxOf(epochs.Keys)
    }

    predicate WrapDrift() {
      var cur := CurrentEpoch();
      epochs != map[] &&
      ((exists t | t in members :: !members[t].revoked && (cur, t) !in wraps)
       || (exists k | k in wraps :: k.0 == cur && !IsActive(k.1)))
    }

    // RotationRequiredExpr: the stored debt or the drift of the current wraps
    predicate RotationRequired() {
      rotationRequired || WrapDrift()
    }
  }

  // Columns confirmation never looks at travel in sealed
  datatype Media = Media(
    album: AlbumId, uploader: Token, storageKey: Key, thumbKey: Option<Key>, sealed: bytes, epochTag: int,
    size: int, sha: bytes, thumbSize: Option<int>, thumbSha: bytes,
    reservation: ReservationId, confirmed: bool, albumSeq: Option<nat>)

  datatype Avatar = Avatar(
    album: AlbumId, member: Token, storageKey: Key, size: int, sha: bytes, keyCt: bytes, confirmed: bool)

  // queue maps a storage key to its failed attempts
  datatype Objects = Objects(media: map<MediaId, Media>, avatars: map<AvatarId, Avatar>, queue: map<Key, nat>)

  datatype Db = Db(
    users: map<UserId, bool>,           // deleting_at IS NOT NULL
    jobs: set<UserId>,                  // account_deletions
    receipts: map<bytes, bool>,         // receipt hash to abandoned
    albums: map<AlbumId, Album>,
    objects: Objects)

  const EMPTY := Db(map[], {}, map[], map[], Objects(map[], map[], map[]))

  lemma {:induction false} MaxExists(s: set<int>)
    requires s != {}
    ensures exists m :: m in s && forall x :: x in s ==> x <= m
  {
    var list := Listing(s);
    assert list[0] in multiset(list);
    var x := list[0];
    var rest := s - {x};
    if rest == {} {
      assert s == {x};
      assert x in s && forall y :: y in s ==> y <= x;
    } else {
      MaxExists(rest);
      var m :| m in rest && forall y :: y in rest ==> y <= m;
      var top := if m < x then x else m;
      assert top in s && forall y :: y in s ==> y == x || y in rest;
    }
  }

  function MaxOf(s: set<int>): (m: int)
    requires s != {}
    ensures m in s && forall x :: x in s ==> x <= m
  {
    MaxExists(s);
    var m :| m in s && forall x | x in s :: x <= m;
    m
  }

  // ---------- member sets and their digest ----------

  ghost function Listing<T>(s: set<T>): (xs: seq<T>)
    ensures multiset(xs) == multiset(s)
  {
    if s == {} then [] else
      var x :| x in s;
      assert s == {x} + (s - {x});
      [x] + Listing(s - {x})
  }

  ghost function MemberSetDigest(s: set<Token>): Digest {
    Sha256(MemberSetBytes(Listing(s)))
  }

  ghost predicate Distinct<T>(xs: seq<T>) {
    forall i, j :: 0 <= i < j < |xs| ==> xs[i] != xs[j]
  }

  ghost function Elements<T>(xs: seq<T>): set<T> {
    set x | x in xs
  }

  lemma {:induction false} DistinctListing<T>(xs: seq<T>)
    requires Distinct(xs)
    ensures multiset(xs) == multiset(Elements(xs))
  {
    if xs != [] {
      var last := |xs| - 1;
      assert xs == xs[..last] + [xs[last]];
      DistinctListing(xs[..last]);
      assert Elements(xs) == Elements(xs[..last]) + {xs[last]};
      assert xs[last] !in Elements(xs[..last]);
    }
  }

  // Comparing digests is comparing member sets
  lemma DigestComparesSets(tokens: seq<Token>, s: set<Token>)
    requires Distinct(tokens)
    requires forall t :: t in tokens || t in s ==> |t| == TOKEN_LEN
    ensures Sha256(MemberSetBytes(tokens)) == MemberSetDigest(s) <==> Elements(tokens) == s
  {
    var list := Listing(s);
    forall i | 0 <= i < |list| ensures |list[i]| == TOKEN_LEN {
      assert list[i] in multiset(list);
    }
    forall i | 0 <= i < |tokens| ensures |tokens[i]| == TOKEN_LEN {
      assert tokens[i] in tokens;
    }
    MemberSetBytesIdentifySet(tokens, list);
    DistinctListing(tokens);
    SameMultisetSameSet(Elements(tokens), s);
  }

  lemma SameMultisetSameSet<T>(s: set<T>, t: set<T>)
    ensures multiset(s) == multiset(t) <==> s == t
  {
    if multiset(s) == multiset(t) {
      assert forall x :: x in s <==> x in multiset(s);
      assert forall x :: x in t <==> x in multiset(t);
    }
  }
}
