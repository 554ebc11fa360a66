/** DeliverExistingUser: the envelopes of an invite, in any order, must cover the epochs 0..current once each. */
module InviteService {
  import opened Basics
  import opened Sorting
  import opened EpochEnvelope
  import opened Schema
  import opened Albums
  import opened Database
  import AlbumOutcomes
  import InviteRepo
  import T = Transactions

  const WRAP_TAG_CT_LEN := 48

  datatype Request = Request(ekPub: bytes, opkIdx: Option<int>, envelopes: seq<Envelope>)

  datatype Refusal = Forbidden | Validation(field: string) | UserUnknown | EpochReplayed | Store(error: Error)

  predicate ByEpoch(x: Envelope, y: Envelope) { x.epoch < y.epoch }

  ghost predicate Sized(e: Envelope) {
    |e.nonce| == NONCE_LEN && |e.tagCt| == WRAP_TAG_CT_LEN && |e.senderSig| == SIG_LEN
  }

  ghost predicate Has(envelopes: seq<Envelope>, n: int) {
    exists i :: 0 <= i < |envelopes| && envelopes[i].epoch == n
  }

  // One envelope for every epoch up to current and none besides
  ghost predicate Covers(envelopes: seq<Envelope>, current: int) {
    |envelopes| == current + 1 && forall n :: 0 <= n <= current ==> Has(envelopes, n)
  }

  // ---------- sorting decides coverage ----------

  ghost function Pick(envelopes: seq<Envelope>, n: int): Envelope
    requires Has(envelopes, n)
  {
    var i :| 0 <= i < |envelopes| && envelopes[i].epoch == n;
    envelopes[i]
  }

  // The covering envelopes laid out in epoch order
  ghost function Laid(envelopes: seq<Envelope>, current: int): seq<Envelope>
    requires Covers(envelopes, current)
  {
    seq(current + 1, n requires 0 <= n <= current => Pick(envelopes, n))
  }

  lemma {:induction false} DistinctPart(xs: seq<Envelope>, ys: seq<Envelope>)
    requires Contiguous(xs) && forall x :: x in xs ==> x in ys
    ensures multiset(xs) <= multiset(ys)
  {
    forall x ensures multiset(xs)[x] <= multiset(ys)[x] {
      OnceAtMost(xs, x);
      if x in xs {
        assert x in multiset(ys);
      } else {
        assert x !in multiset(xs);
      }
    }
  }

  lemma {:induction false} OnceAtMost(xs: seq<Envelope>, x: Envelope)
    requires Contiguous(xs)
    ensures multiset(xs)[x] <= 1
  {
    if xs != [] {
      var last := |xs| - 1;
      assert xs == xs[..last] + [xs[last]];
      OnceAtMost(xs[..last], x);
      if x == xs[last] {
        assert forall i :: 0 <= i < last ==> xs[..last][i] != x;
        assert x !in multiset(xs[..last]);
      }
    }
  }

  lemma EqualSizes(m: multiset<Envelope>, n: multiset<Envelope>)
    requires m <= n && |m| == |n|
    ensures m == n
  {
    assert n == m + (n - m);
  }

  lemma LaidIsSorted(envelopes: seq<Envelope>, current: int)
    requires Covers(envelopes, current)
    ensures Contiguous(Laid(envelopes, current)) && multiset(Laid(envelopes, current)) == multiset(envelopes)
    ensures Sort(envelopes, ByEpoch) == Laid(envelopes, current)
  {
    var laid := Laid(envelopes, current);
    DistinctPart(laid, envelopes);
    EqualSizes(multiset(laid), multiset(envelopes));
    SortSorts(envelopes, ByEpoch);
    assert OnlyEqualsTie(laid, ByEpoch);
    SortedPermutationsAgree(laid, Sort(envelopes, ByEpoch), ByEpoch);
  }

  lemma ContiguousCovers(envelopes: seq<Envelope>, sorted: seq<Envelope>)
    requires Contiguous(sorted) && multiset(sorted) == multiset(envelopes)
    ensures forall n :: 0 <= n < |sorted| ==> Has(envelopes, n)
  {
    SameElements(envelopes, sorted);
    forall n | 0 <= n < |sorted| ensures Has(envelopes, n) {
      assert sorted[n] in sorted && sorted[n].epoch == n;
    }
  }

  // A request covers the epochs exactly when, sorted by epoch, it counts up from zero to the current one
  lemma SortingDecidesCoverage(envelopes: seq<Envelope>, current: int)
    ensures multiset(Sort(envelopes, ByEpoch)) == multiset(envelopes) && |Sort(envelopes, ByEpoch)| == |envelopes|
    ensures Covers(envelopes, current) <==> |envelopes| == current + 1 && Contiguous(Sort(envelopes, ByEpoch))
  {
    SortSorts(envelopes, ByEpoch);
    var sorted := Sort(envelopes, ByEpoch);
    assert |sorted| == |multiset(sorted)| == |multiset(envelopes)| == |envelopes|;
    if Covers(envelopes, current) {
      LaidIsSorted(envelopes, current);
    }
    hide Sort, Has;
    if Contiguous(sorted) {
      ContiguousCovers(envelopes, sorted);
    }
  }

  // ---------- the request ----------

  ghost predicate FitBundle(r: Request) {
    |r.ekPub| == KEY_LEN && (r.opkIdx.Some? ==> r.opkIdx.value >= 0)
  }

  ghost predicate Accepts(isAdmin: bool, target: Option<UserId>, current: int, r: Request) {
    && isAdmin && FitBundle(r)
    && target.Some? && current >= 0 && Covers(r.envelopes, current) && forall e :: e in r.envelopes ==> Sized(e)
  }

  ghost function ToInput(user: UserId, caller: Token, r: Request): DeliverInput {
    DeliverInput(user, caller, r.ekPub, r.opkIdx, Sort(r.envelopes, ByEpoch))
  }

  method CheckSizes(e: Envelope) returns (fault: Option<Refusal>)
    ensures fault.None? <==> Sized(e)
    ensures fault.Some? ==> fault.value.Validation?
  {
    if |e.nonce| != NONCE_LEN {
      return Some(Validation("wrap_nonce"));
    }
    if |e.tagCt| != WRAP_TAG_CT_LEN {
      return Some(Validation("wrap_tag_ct"));
    }
    if |e.senderSig| != SIG_LEN {
      return Some(Validation("sender_sig"));
    }
    return None;
  }

  // The newest epoch among the envelopes is this one
  ghost predicate EndsAt(envelopes: seq<Envelope>, current: int) {
    Has(envelopes, current) && forall e :: e in envelopes ==> e.epoch <= current
  }

  lemma LastIsNewest(envelopes: seq<Envelope>, current: int)
    requires envelopes != []
    ensures multiset(Sort(envelopes, ByEpoch)) == multiset(envelopes) && |Sort(envelopes, ByEpoch)| == |envelopes|
    ensures Sort(envelopes, ByEpoch)[|envelopes| - 1].epoch == current <==> EndsAt(envelopes, current)
  {
    hide Sort, Covers, Contiguous;
    SortSorts(envelopes, ByEpoch);
    SortingDecidesCoverage(envelopes, current);
    var sorted := Sort(envelopes, ByEpoch);
    SameElements(envelopes, sorted);
    NewestLast(sorted);
    hide ByEpoch;
    var last := sorted[|sorted| - 1];
    assert last in sorted;
    assert forall e :: e in envelopes ==> e in sorted;
    var i :| 0 <= i < |envelopes| && envelopes[i] == last;
  }

  lemma NewestLast(sorted: seq<Envelope>)
    requires sorted != [] && Sorted(sorted, ByEpoch)
    ensures forall e :: e in sorted ==> e.epoch <= sorted[|sorted| - 1].epoch
  {
  }

  method CheckEnvelopes(envelopes: seq<Envelope>, current: int) returns (sorted: seq<Envelope>, fault: Option<Refusal>)
    requires current >= 0
    ensures sorted == Sort(envelopes, ByEpoch)
    ensures fault.None? <==> Covers(envelopes, current) && forall e :: e in envelopes ==> Sized(e)
    ensures fault == Some(EpochReplayed) <==> envelopes != [] && !EndsAt(envelopes, current)
    ensures fault.None? || fault == Some(EpochReplayed) || fault.value.Validation?
  {
    hide Covers, Sort, Sized, EndsAt;
    sorted := Sort(envelopes, ByEpoch);
    SortingDecidesCoverage(envelopes, current);
    SameElements(envelopes, sorted);
    if |envelopes| == 0 {
      return sorted, Some(Validation("envelopes"));
    }
    LastIsNewest(envelopes, current);
    if sorted[|sorted| - 1].epoch != current {
      return sorted, Some(EpochReplayed);
    }
    if |sorted| != current + 1 {
      return sorted, Some(Validation("envelopes"));
    }
    for i := 0 to |sorted|
      invariant forall k :: 0 <= k < i ==> sorted[k].epoch == k && Sized(sorted[k])
    {
      var e := sorted[i];
      assert e in sorted;
      if e.epoch != i {
        return sorted, Some(Validation("envelopes"));
      }
      var missized := CheckSizes(e);
      if missized.Some? {
        return sorted, missized;
      }
    }
    return sorted, None;
  }

  // target is the account the handle resolved to; current was read before the transaction and may be stale by then
  method DeliverExistingUser(repo: InviteRepo.Repo, a: AlbumId, caller: Token, isAdmin: bool, target: Option<UserId>,
                             current: int, request: Request, minted: Token)
    returns (r: Result<Token, Refusal>)
    requires a in repo.db.tables.albums ==> UniqueUsers(repo.db.tables.albums[a])
    modifies repo.db
    ensures r.Ok? <==> Accepts(isAdmin, target, current, request)
                       && T.DeliverMember(old(repo.db.tables), a, ToInput(target.value, caller, request), minted).result.Ok?
    ensures repo.db.tables == if Accepts(isAdmin, target, current, request)
                              then T.DeliverMember(old(repo.db.tables), a, ToInput(target.value, caller, request), minted).db
                              else old(repo.db.tables)
    ensures r.Ok? ==> Contiguous(ToInput(target.value, caller, request).envelopes)
    ensures r == Err(Forbidden) <==> !isAdmin
    ensures r == Err(UserUnknown) <==> isAdmin && FitBundle(request) && target.None?
    ensures r == Err(EpochReplayed) <==>
              isAdmin && FitBundle(request) && target.Some? && current >= 0
              && request.envelopes != [] && !EndsAt(request.envelopes, current)
    ensures forall e :: r == Err(Store(e)) <==>
              Accepts(isAdmin, target, current, request)
              && T.DeliverMember(old(repo.db.tables), a, ToInput(target.value, caller, request), minted).result == Err(e)
  {
    hide Recheck, UniqueUsers, Covers, Sort, EndsAt, Has;
    if !isAdmin {
      return Err(Forbidden);
    }
    if |request.ekPub| != KEY_LEN {
      return Err(Validation("ek_pub"));
    }
    if request.opkIdx.Some? && request.opkIdx.value < 0 {
      return Err(Validation("opk_idx_used"));
    }
    if target.None? {
      return Err(UserUnknown);
    }
    if current < 0 {
      return Err(Validation("album has no epochs"));
    }
    var sorted, fault := CheckEnvelopes(request.envelopes, current);
    if fault.Some? {
      return Err(fault.value);
    }
    SortingDecidesCoverage(request.envelopes, current);
    var delivered := repo.DeliverMember(a, DeliverInput(target.value, caller, request.ekPub, request.opkIdx, sorted), minted);
    match delivered
    case Ok(token) => return Ok(token);
    case Err(e) => return Err(Store(e));
  }

  // What a delivery stores is what was sent: for every envelope of the request a row under the member's token with the
  // envelope's wrap and signature, the request's key and prekey index, and the caller as its sender
  lemma DeliveryStoresTheEnvelopes(a: Album, users: map<UserId, bool>, user: UserId, caller: Token, current: int, r: Request, minted: Token)
    requires Covers(r.envelopes, current) && UniqueUsers(a) && minted !in a.members
    requires Deliver(a, users, ToInput(user, caller, r), minted).Ok?
    ensures var (b, token) := Deliver(a, users, ToInput(user, caller, r), minted).value;
            forall e :: e in r.envelopes ==>
                          && (e.epoch, token) in b.wraps
                          && var row := b.wraps[(e.epoch, token)];
                             row.nonce == e.nonce && row.tagCt == e.tagCt && row.senderSig == e.senderSig
                             && row.ekPub == r.ekPub && row.opkIdx == r.opkIdx && row.sender == caller
  {
    hide Deliver, Sort, Covers, Contiguous, UniqueUsers;
    SortingDecidesCoverage(r.envelopes, current);
    SameElements(r.envelopes, Sort(r.envelopes, ByEpoch));
    AlbumOutcomes.DeliveryEffect(a, users, ToInput(user, caller, r), minted);
  }
}
