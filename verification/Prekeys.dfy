/** One account's published identity, signed prekey and one-time prekeys, under concurrent publishers, rotators and
    fetchers. Publication is two statements outside any transaction, so each is an event of its own. */
module Prekeys {
  import opened Basics

  // (public key, message, signature); Ed25519 itself stays abstract
  type Verify = (bytes, bytes, bytes) -> bool

  datatype Opk = Opk(key: bytes, consumed: bool)

  datatype Rotation = Rotation(before: Option<int>, after: int)

  // The users row's key columns, its spk_rotations rows in insertion order, and its one_time_prekeys rows by index
  datatype Account = Account(
    ik: Option<bytes>, lk: Option<bytes>, spk: Option<bytes>, sig: Option<bytes>, ts: Option<int>,
    audit: seq<Rotation>, opks: map<int, Opk>)

  const NEW_ACCOUNT := Account(None, None, None, None, None, [], map[])

  datatype Keys = Keys(ik: bytes, lk: bytes, spk: bytes, sig: bytes, ts: int)

  // spk_pub || uint64_be(spk_ts)
  function SpkSelfMsg(spk: bytes, ts: int): bytes {
    spk + U64(ts)
  }

  lemma SmallDifference(m: int, n: int, p: int)
    requires p >= 1 && -p < m - n < p && m % p == n % p
    ensures m == n
  {
    var q, q' := m / p, n / p;
    assert m == q * p + m % p && n == q' * p + n % p;
    assert m - n == (q - q') * p;
    MultipleOutgrows(q - q', p);
    MultipleOutgrows(q' - q, p);
    assert (q' - q) * p == n - m;
  }

  predicate Int64(n: int) { -0x8000_0000_0000_0000 <= n < 0x8000_0000_0000_0000 }

  // Negative timestamps wrap to the upper half, so an int64 keeps its eight bytes to itself
  lemma U64Injective(m: int, n: int)
    requires Int64(m) && Int64(n)
    ensures U64(m) == U64(n) ==> m == n
  {
    hide BigEndian, Pow256;
    Width64();
    SameBytesSameResidue(m, n, WIDTH64);
    if U64(m) == U64(n) {
      SmallDifference(m, n, 0x1_0000_0000_0000_0000);
    }
  }

  // The message fixes both the prekey and its timestamp
  lemma SpkSelfMsgIdentifies(spk: bytes, ts: int, spk': bytes, ts': int)
    requires |spk| == |spk'| && Int64(ts) && Int64(ts')
    ensures SpkSelfMsg(spk, ts) == SpkSelfMsg(spk', ts') <==> spk == spk' && ts == ts'
  {
    if SpkSelfMsg(spk, ts) == SpkSelfMsg(spk', ts') {
      SplitConcat(spk, U64(ts), spk', U64(ts'));
      U64Injective(ts, ts');
    }
  }

  // The prekey comes first, then its timestamp as eight bytes, most significant first
  lemma SpkSelfMsgReads(spk: bytes, ts: int)
    ensures var b := SpkSelfMsg(spk, ts);
            |b| == |spk| + 8 && b[..|spk|] == spk && FromBigEndian(b[|spk|..]) == ts % 0x1_0000_0000_0000_0000
  {
    hide BigEndian, FromBigEndian, Pow256;
    Width64();
    BigEndianDecodes(ts, WIDTH64);
    assert SpkSelfMsg(spk, ts)[|spk|..] == U64(ts);
  }

  lemma Width64()
    ensures Pow256(WIDTH64) == 0x1_0000_0000_0000_0000
  {
    Widths();
    assert Pow256(5) == 256 * TWO32 && Pow256(6) == 0x10000 * TWO32 && Pow256(7) == 0x1000000 * TWO32;
  }

  // ---------- statements ----------

  // UPDATE ... WHERE ik_pub IS NULL; true when it touched the row
  function Install(a: Account, k: Keys): (Account, bool) {
    if a.ik.None? then (a.(ik := Some(k.ik), lk := Some(k.lk), spk := Some(k.spk), sig := Some(k.sig), ts := Some(k.ts)), true)
    else (a, false)
  }

  // The guarded refresh: same keys, and the signature moves together with a later timestamp
  function Refresh(a: Account, k: Keys): (Account, bool) {
    if a.ik == Some(k.ik) && a.lk == Some(k.lk) && a.spk == Some(k.spk) then
      (if a.ts.None? || k.ts > a.ts.value then a.(sig := Some(k.sig), ts := Some(k.ts)) else a, true)
    else (a, false)
  }

  function RotateSPK(a: Account, spk: bytes, sig: bytes, ts: int): (Account, bool) {
    if a.ts.Some? && ts <= a.ts.value then (a, false)
    else (a.(spk := Some(spk), sig := Some(sig), ts := Some(ts), audit := a.audit + [Rotation(a.ts, ts)]), true)
  }

  // The batch binds an index twice, or an index already bound, to different keys
  ghost predicate Clashes(opks: map<int, Opk>, batch: seq<(int, bytes)>) {
    || (exists i :: 0 <= i < |batch| && batch[i].0 in opks && opks[batch[i].0].key != batch[i].1)
    || (exists i, j :: 0 <= i < j < |batch| && batch[i].0 == batch[j].0 && batch[i].1 != batch[j].1)
  }

  ghost predicate Requested(batch: seq<(int, bytes)>, idx: int) {
    exists i :: 0 <= i < |batch| && batch[i].0 == idx
  }

  // Rows that were there stay as they are, consumed or not; new indices get their key
  ghost predicate Added(opks: map<int, Opk>, batch: seq<(int, bytes)>, opks': map<int, Opk>) {
    && (forall idx :: idx in opks' <==> idx in opks || Requested(batch, idx))
    && (forall idx :: idx in opks ==> opks'[idx] == opks[idx])
    && (forall i :: 0 <= i < |batch| ==> batch[i].0 in opks' && opks'[batch[i].0].key == batch[i].1)
    && (forall idx :: idx in opks' && idx !in opks ==> !opks'[idx].consumed)
  }

  // INSERT ... ON CONFLICT DO NOTHING row by row; a different key under a taken index rolls everything back
  method AddBatch(opks: map<int, Opk>, batch: seq<(int, bytes)>) returns (opks': map<int, Opk>, ok: bool)
    ensures ok <==> !Clashes(opks, batch)
    ensures if ok then Added(opks, batch, opks') else opks' == opks
  {
    opks' := opks;
    for n := 0 to |batch|
      invariant Added(opks, batch[..n], opks') && !Clashes(opks, batch[..n])
    {
      var (idx, key) := batch[n];
      if idx in opks' && opks'[idx].key != key {
        ClashFound(opks, batch, n, opks');
        return opks, false;
      }
      BatchGrows(opks, batch, n, opks');
      if idx !in opks' {
        opks' := opks'[idx := Opk(key, false)];
      }
    }
    assert batch[..|batch|] == batch;
    ok := true;
  }

  lemma ClashFound(opks: map<int, Opk>, batch: seq<(int, bytes)>, n: nat, sofar: map<int, Opk>)
    requires n < |batch| && Added(opks, batch[..n], sofar)
    requires batch[n].0 in sofar && sofar[batch[n].0].key != batch[n].1
    ensures Clashes(opks, batch)
  {
    if batch[n].0 in opks {
      assert opks[batch[n].0].key != batch[n].1;
    } else {
      assert Requested(batch[..n], batch[n].0);
      var i :| 0 <= i < n && batch[..n][i].0 == batch[n].0;
      assert batch[i].0 == batch[n].0 && batch[i].1 != batch[n].1;
    }
  }

  lemma BatchGrows(opks: map<int, Opk>, batch: seq<(int, bytes)>, n: nat, sofar: map<int, Opk>)
    requires n < |batch| && Added(opks, batch[..n], sofar) && !Clashes(opks, batch[..n])
    requires batch[n].0 in sofar ==> sofar[batch[n].0].key == batch[n].1
    ensures !Clashes(opks, batch[..n + 1])
    ensures Added(opks, batch[..n + 1], if batch[n].0 in sofar then sofar else sofar[batch[n].0 := Opk(batch[n].1, false)])
  {
    var more := batch[..n + 1];
    assert forall i :: 0 <= i < n ==> more[i] == batch[..n][i];
    forall idx ensures Requested(more, idx) <==> Requested(batch[..n], idx) || idx == batch[n].0 {
      if Requested(batch[..n], idx) {
        var i :| 0 <= i < n && batch[..n][i].0 == idx;
        assert more[i].0 == idx;
      }
      if Requested(more, idx) && idx != batch[n].0 {
        var i :| 0 <= i < n + 1 && more[i].0 == idx;
        assert batch[..n][i].0 == idx;
      }
      assert more[n].0 == batch[n].0;
    }
    forall i | 0 <= i < n ensures more[i].0 in sofar && sofar[more[i].0].key == more[i].1 {
      assert batch[..n][i] == more[i];
    }
    forall i, j | 0 <= i < j < n + 1 && more[i].0 == more[j].0 ensures more[i].1 == more[j].1 {
      assert more[i].0 in sofar && sofar[more[i].0].key == more[i].1;
    }
  }

  function Consume(a: Account, idx: int): Account {
    if idx in a.opks then a.(opks := a.opks[idx := a.opks[idx].(consumed := true)]) else a
  }

  // ---------- runs ----------

  datatype Event =
    | Installed(keys: Keys)
    | Refreshed(keys: Keys)
    | Rotated(signer: bytes, spk: bytes, newSig: bytes, newTs: int)    // signer: the ik_pub the service had read
    | Batched(batch: seq<(int, bytes)>, after: map<int, Opk>)
    | Popped(idx: int)
    | Invited(idx: int)

  // seen collects every identity key that was ever readable
  datatype State = State(account: Account, seen: set<bytes>)

  function Signers(a: Account): set<bytes> {
    if a.ik.Some? then {a.ik.value} else {}
  }

  function Apply(a: Account, e: Event): Account {
    match e
    case Installed(k) => Install(a, k).0
    case Refreshed(k) => Refresh(a, k).0
    case Rotated(_, spk, sig, ts) => RotateSPK(a, spk, sig, ts).0
    case Batched(_, after) => a.(opks := after)
    case Popped(idx) => Consume(a, idx)
    case Invited(idx) => Consume(a, idx)
  }

  function Step(s: State, e: Event): State {
    var a := Apply(s.account, e);
    State(a, s.seen + Signers(a))
  }

  // What the services have checked before the statement: the prekey signature verifies, under the identity the
  // caller sent or under one read earlier; a pop claims an unconsumed row
  ghost predicate Feasible(s: State, e: Event, verify: Verify) {
    match e
    case Installed(k) => verify(k.ik, SpkSelfMsg(k.spk, k.ts), k.sig)
    case Refreshed(k) => verify(k.ik, SpkSelfMsg(k.spk, k.ts), k.sig)
    case Rotated(signer, spk, sig, ts) => signer in s.seen && verify(signer, SpkSelfMsg(spk, ts), sig)
    case Batched(batch, after) =>
      if Clashes(s.account.opks, batch) then after == s.account.opks else Added(s.account.opks, batch, after)
    case Popped(idx) => idx in s.account.opks && !s.account.opks[idx].consumed
    case Invited(_) => true
  }

  ghost predicate Run(s: State, es: seq<Event>, verify: Verify)
    decreases |es|
  {
    es == [] || (Feasible(s, es[0], verify) && Run(Step(s, es[0]), es[1..], verify))
  }

  function Exec(s: State, es: seq<Event>): State
    decreases |es|
  {
    if es == [] then s else Exec(Step(s, es[0]), es[1..])
  }

  const START := State(NEW_ACCOUNT, {})

  // ---------- the published identity ----------

  // The stored signature is the identity's own signature of the stored prekey and timestamp
  ghost predicate SelfVerifies(a: Account, verify: Verify) {
    a.ik.Some? ==>
      && a.lk.Some? && a.spk.Some? && a.sig.Some? && a.ts.Some?
      && verify(a.ik.value, SpkSelfMsg(a.spk.value, a.ts.value), a.sig.value)
  }

  // Audit rows are intervals in time order that never overlap, ending no later than the stored timestamp; a refresh
  // may move the timestamp in between, so they need not touch
  ghost predicate AuditInv(a: Account) {
    && (forall i :: 0 <= i < |a.audit| ==> a.audit[i].before.Some? && a.audit[i].before.value < a.audit[i].after)
    && (forall i, j :: 0 <= i < j < |a.audit| ==> a.audit[j].before.Some? && a.audit[i].after <= a.audit[j].before.value)
    && (a.audit != [] ==> a.ts.Some? && a.audit[|a.audit| - 1].after <= a.ts.value)
  }

  ghost predicate Inv(s: State, verify: Verify) {
    && SelfVerifies(s.account, verify) && AuditInv(s.account)
    && s.seen == Signers(s.account)
    && (s.account.ik.None? ==> s.account == NEW_ACCOUNT.(opks := s.account.opks))
  }

  lemma InvStep(s: State, e: Event, verify: Verify)
    requires Inv(s, verify) && Feasible(s, e, verify)
    ensures Inv(Step(s, e), verify)
  {
    hide SpkSelfMsg, Added, Clashes;
  }

  lemma {:induction false} InvHolds(s: State, es: seq<Event>, verify: Verify)
    requires Inv(s, verify) && Run(s, es, verify)
    ensures Inv(Exec(s, es), verify)
    decreases |es|
  {
    hide Inv, Feasible, Step;
    if es != [] {
      InvStep(s, es[0], verify);
      InvHolds(Step(s, es[0]), es[1..], verify);
    }
  }

  // Whatever is published, refreshed and rotated concurrently, a bundle read at any moment verifies under its own
  // identity key
  lemma BundlesSelfVerify(es: seq<Event>, verify: Verify)
    requires Run(START, es, verify)
    ensures SelfVerifies(Exec(START, es).account, verify) && AuditInv(Exec(START, es).account)
  {
    InvHolds(START, es, verify);
  }

  // ---------- what never moves back ----------

  predicate Later(a: Account, b: Account) {
    && (a.ik.Some? ==> b.ik == a.ik && b.lk == a.lk)
    && (a.ts.Some? ==> b.ts.Some? && a.ts.value <= b.ts.value)
    && a.audit <= b.audit
    && (forall idx :: idx in a.opks ==>
                        && idx in b.opks && b.opks[idx].key == a.opks[idx].key
                        && (a.opks[idx].consumed ==> b.opks[idx].consumed))
  }

  lemma LaterStep(s: State, e: Event, verify: Verify)
    requires Inv(s, verify) && Feasible(s, e, verify)
    ensures Later(s.account, Step(s, e).account)
  {
    hide SpkSelfMsg, Clashes;
  }

  // Identity keys never change once set, timestamps never decrease, audit rows are only appended, an index keeps its
  // first key, and consumed stays consumed
  lemma {:induction false} NothingMovesBack(s: State, es: seq<Event>, verify: Verify)
    requires Inv(s, verify) && Run(s, es, verify)
    ensures Later(s.account, Exec(s, es).account)
    decreases |es|
  {
    hide Inv, Feasible, Step;
    if es != [] {
      InvStep(s, es[0], verify);
      LaterStep(s, es[0], verify);
      NothingMovesBack(Step(s, es[0]), es[1..], verify);
    }
  }

  // A one-time prekey handed out in one bundle is in no later one, whatever is uploaded again in between
  lemma OneTimePrekeysAreHandedOutOnce(s: State, idx: int, es: seq<Event>, verify: Verify)
    requires Inv(s, verify) && Feasible(s, Popped(idx), verify) && Run(Step(s, Popped(idx)), es, verify)
    ensures !Feasible(Exec(Step(s, Popped(idx)), es), Popped(idx), verify)
  {
    InvStep(s, Popped(idx), verify);
    hide Inv, Run;
    NothingMovesBack(Step(s, Popped(idx)), es, verify);
  }

  // Nor one that an invite used
  lemma InvitedPrekeysAreNotHandedOut(s: State, idx: int, es: seq<Event>, verify: Verify)
    requires Inv(s, verify) && idx in s.account.opks && Run(Step(s, Invited(idx)), es, verify)
    ensures !Feasible(Exec(Step(s, Invited(idx)), es), Popped(idx), verify)
  {
    InvStep(s, Invited(idx), verify);
    hide Inv, Run;
    NothingMovesBack(Step(s, Invited(idx)), es, verify);
  }

  // ---------- the repository ----------

  datatype Failure = UserNotFound | IdentityNotSet | IdentityConflict | TsNotMonotonic | OpkIndexTaken

  // left counts the unconsumed prekeys after a pop, -1 when none was popped
  datatype Bundle = Bundle(
    ik: bytes, lk: Option<bytes>, spk: bytes, sig: Option<bytes>, ts: int, opk: Option<(int, bytes)>, left: int)

  method AnyOf<X(==)>(s: set<X>) returns (x: X)
    requires s != {}
    ensures x in s
  {
    x :| x in s;
  }

  function Unconsumed(a: Account): set<int> {
    set idx | idx in a.opks && !a.opks[idx].consumed
  }

  // Exactly this row was handed out: it had this key and was unconsumed, now it is consumed, and no other row or
  // column changed
  ghost predicate HandedOut(a: Account, b: Account, idx: int, key: bytes) {
    && idx in a.opks && a.opks[idx] == Opk(key, false)
    && idx in b.opks && b.opks[idx] == Opk(key, true)
    && (forall i :: i != idx ==> (i in b.opks <==> i in a.opks) && (i in a.opks ==> b.opks[i] == a.opks[i]))
    && b.ik == a.ik && b.lk == a.lk && b.spk == a.spk && b.sig == a.sig && b.ts == a.ts && b.audit == a.audit
  }

  // So handing out is the event of the runs above
  lemma HandingOutPops(s: State, b: Account, idx: int, key: bytes, verify: Verify)
    requires HandedOut(s.account, b, idx, key)
    ensures Feasible(s, Popped(idx), verify) && b == Apply(s.account, Popped(idx))
  {
    var c := Consume(s.account, idx);
    forall i ensures (i in b.opks <==> i in c.opks) && (i in b.opks ==> b.opks[i] == c.opks[i]) {
      assert i == idx || i != idx;
    }
    assert b.opks.Keys == c.opks.Keys;
    assert b.opks == c.opks;
  }

  ghost predicate Published(a: Account) {
    a.ik.Some? && a.ik.value != [] && a.spk.Some? && a.spk.value != []
  }

  ghost predicate OthersStay(accounts: map<nat, Account>, accounts': map<nat, Account>, u: nat) {
    forall v :: v != u ==> (v in accounts' <==> v in accounts) && (v in accounts ==> accounts'[v] == accounts[v])
  }

  class Repo {
    var accounts: map<nat, Account>

    constructor ()
      ensures accounts == map[]
    {
      accounts := map[];
    }

    method PublishOrRefreshIdentity(u: nat, k: Keys) returns (r: Result<(), Failure>)
      modifies this
      ensures OthersStay(old(accounts), accounts, u) && (u in accounts <==> u in old(accounts))
      ensures u !in accounts ==> r == Err(IdentityConflict)
      // a first publication sets all five columns
      ensures u in accounts && old(accounts[u].ik).None? ==>
                && r == Ok(()) && accounts[u].ik == Some(k.ik) && accounts[u].lk == Some(k.lk) && accounts[u].spk == Some(k.spk)
                && accounts[u].sig == Some(k.sig) && accounts[u].ts == Some(k.ts)
      // a repeated one must name the same keys, and moves signature and timestamp together, only forward
      ensures u in accounts && old(accounts[u].ik).Some? ==>
                var a := old(accounts)[u];
                var same := a.ik == Some(k.ik) && a.lk == Some(k.lk) && a.spk == Some(k.spk);
                && (r.Ok? <==> same) && (r.Err? <==> r == Err(IdentityConflict))
                && accounts[u].ik == a.ik && accounts[u].lk == a.lk && accounts[u].spk == a.spk
                && if same && (a.ts.None? || k.ts > a.ts.value) then accounts[u].sig == Some(k.sig) && accounts[u].ts == Some(k.ts)
                   else accounts[u].sig == a.sig && accounts[u].ts == a.ts
      ensures u in accounts ==> accounts[u].audit == old(accounts[u].audit) && accounts[u].opks == old(accounts[u].opks)
      // which is one of the events above
      ensures u in accounts ==> accounts[u] == Apply(old(accounts[u]), if old(accounts[u].ik).None? then Installed(k) else Refreshed(k))
    {
      if u !in accounts {
        return Err(IdentityConflict);
      }
      var (installed, touched) := Install(accounts[u], k);
      accounts := accounts[u := installed];
      if touched {
        return Ok(());
      }
      var (refreshed, matched) := Refresh(accounts[u], k);
      accounts := accounts[u := refreshed];
      if matched {
        return Ok(());
      }
      return Err(IdentityConflict);
    }

    method RotateKey(u: nat, spk: bytes, sig: bytes, ts: int) returns (r: Result<(), Failure>)
      modifies this
      ensures r == Err(UserNotFound) <==> u !in old(accounts)
      ensures r == Err(TsNotMonotonic) <==> u in old(accounts) && old(accounts[u].ts).Some? && ts <= old(accounts[u].ts).value
      ensures r.Err? <==> r == Err(UserNotFound) || r == Err(TsNotMonotonic)
      ensures r.Err? ==> accounts == old(accounts)
      ensures r.Ok? ==>
                && u in accounts && u in old(accounts) && OthersStay(old(accounts), accounts, u)
                && var a, b := old(accounts)[u], accounts[u];
                   && b.spk == Some(spk) && b.sig == Some(sig) && b.ts == Some(ts)
                   && |b.audit| == |a.audit| + 1 && a.audit <= b.audit && b.audit[|a.audit|] == Rotation(a.ts, ts)
                   && b.ik == a.ik && b.lk == a.lk && b.opks == a.opks
                   && forall signer :: b == Apply(a, Rotated(signer, spk, sig, ts))
    {
      if u !in accounts {
        return Err(UserNotFound);
      }
      var tx := accounts[u];
      if tx.ts.Some? && ts <= tx.ts.value {
        assert accounts == accounts[u := tx];
        return Err(TsNotMonotonic);
      }
      var oldTs := tx.ts;
      tx := tx.(spk := Some(spk), sig := Some(sig), ts := Some(ts));
      tx := tx.(audit := tx.audit + [Rotation(oldTs, ts)]);
      accounts := accounts[u := tx];
      return Ok(());
    }

    method CreateBatchAtomic(u: nat, batch: seq<(int, bytes)>) returns (r: Result<(), Failure>)
      requires u in accounts
      modifies this
      ensures accounts.Keys == old(accounts.Keys) && forall v :: v in accounts && v != u ==> accounts[v] == old(accounts[v])
      ensures r.Ok? <==> !Clashes(old(accounts[u].opks), batch)
      ensures accounts[u] == old(accounts[u]).(opks := accounts[u].opks)
      ensures if r.Ok? then Added(old(accounts[u].opks), batch, accounts[u].opks) else accounts == old(accounts)
    {
      var opks, ok := AddBatch(accounts[u].opks, batch);
      if !ok {
        return Err(OpkIndexTaken);
      }
      accounts := accounts[u := accounts[u].(opks := opks)];
      return Ok(());
    }

    // skipped are the rows other transactions hold locked
    method PopRandom(u: nat, skipped: set<int>) returns (opk: Option<(int, bytes)>)
      requires u in accounts
      modifies this
      ensures OthersStay(old(accounts), accounts, u) && u in accounts
      ensures opk.None? ==> accounts == old(accounts) && Unconsumed(accounts[u]) <= skipped
      ensures opk.Some? ==> HandedOut(old(accounts[u]), accounts[u], opk.value.0, opk.value.1) && opk.value.0 !in skipped
    {
      if idx :| idx in accounts[u].opks && idx !in skipped && !accounts[u].opks[idx].consumed {
        var key := accounts[u].opks[idx].key;
        accounts := accounts[u := Consume(accounts[u], idx)];
        return Some((idx, key));
      }
      forall i | i in Unconsumed(accounts[u]) ensures i in skipped {
        assert i in accounts[u].opks && !accounts[u].opks[i].consumed;
      }
      return None;
    }

    method Count(u: nat) returns (n: nat)
      requires u in accounts
      ensures n == |Unconsumed(accounts[u])|
    {
      var opks := accounts[u].opks;
      var rest := opks.Keys;
      ghost var counted: set<int> := {};
      n := 0;
      while rest != {}
        invariant rest <= opks.Keys && n == |counted|
        invariant forall i :: i in counted <==> i in opks && !opks[i].consumed && i !in rest
      {
        var idx := AnyOf(rest);
        if !opks[idx].consumed {
          n := n + 1;
          counted := counted + {idx};
        }
        rest := rest - {idx};
      }
      assert forall i :: i in counted <==> i in Unconsumed(accounts[u]);
      assert counted == Unconsumed(accounts[u]);
    }

    // The bundle carries one consistent read of the identity and, unless every unlocked prekey is consumed, one claimed for it
    method GetPrekeyBundle(u: nat, skipped: set<int>, ghost verify: Verify) returns (r: Result<Bundle, Failure>)
      modifies this
      ensures r == Err(UserNotFound) <==> u !in old(accounts)
      ensures r == Err(IdentityNotSet) <==> u in old(accounts) && !Published(old(accounts)[u])
      ensures r.Ok? <==> u in old(accounts) && Published(old(accounts)[u])
      ensures r.Err? ==> accounts == old(accounts)
      ensures OthersStay(old(accounts), accounts, u)
      ensures r.Ok? ==>
                var a, b := old(accounts)[u], r.value;
                && Some(b.ik) == a.ik && b.lk == a.lk && Some(b.spk) == a.spk && b.sig == a.sig
                && b.ts == (if a.ts.Some? then a.ts.value else 0)
                && (SelfVerifies(a, verify) ==> b.sig.Some? && verify(b.ik, SpkSelfMsg(b.spk, b.ts), b.sig.value))
      ensures r.Ok? && r.value.opk.None? ==> accounts == old(accounts) && Unconsumed(accounts[u]) <= skipped && r.value.left == -1
      ensures r.Ok? && r.value.opk.Some? ==>
                && u in accounts && HandedOut(old(accounts)[u], accounts[u], r.value.opk.value.0, r.value.opk.value.1)
                && r.value.left == |Unconsumed(accounts[u])|
    {
      if u !in accounts {
        return Err(UserNotFound);
      }
      var id := accounts[u];
      if id.ik.None? || |id.ik.value| == 0 || id.spk.None? || |id.spk.value| == 0 {
        return Err(IdentityNotSet);
      }
      var ts := if id.ts.Some? then id.ts.value else 0;
      var left: int := -1;
      var opk := PopRandom(u, skipped);
      if opk.Some? {
        left := Count(u);
      }
      return Ok(Bundle(id.ik.value, id.lk, id.spk.value, id.sig, ts, opk, left));
    }
  }
}
