/**
 The pool of one sender: an insertion-ordered dictionary from operation hash to verified
 operation, the rules for adding to it, and the fee bump a replacement has to offer.
 */
module SenderMempools {
  import opened Basics
  import Binary64

  type Hash = string

  /** A UserOperation as the pools see it. `id` numbers admissions; it exists so that two
      submissions of the same operation can be told apart. */
  datatype Operation = Operation(
    id: nat,
    sender: Address,
    nonce: nat,
    maxFeePerGas: nat,
    maxPriorityFeePerGas: nat,
    factory: Option<Address>,
    paymaster: Option<Address>,
    codeHash: Option<string>,
    mempoolIds: seq<string>)

  datatype Entry = Entry(hash: Hash, op: Operation, verifiedAtBlockHash: string)

  /** Dictionary items in insertion order. */
  type Pool = seq<Entry>

  datatype Outcome = Added | Replaced(previous: Entry) | Ignored | Rejected

  const MAX_MEMPOOL_USEROPS_PER_SENDER: nat := 4
  const MIN_PRICE_BUMP: nat := 10

  // Python dictionaries

  /** `d[hash] = value`: an existing key keeps its place, a new one goes last. */
  function Put(pool: Pool, e: Entry): Pool {
    if pool == [] then [e]
    else if pool[0].hash == e.hash then [e] + pool[1..]
    else [pool[0]] + Put(pool[1..], e)
  }

  /** `del d[hash]` */
  function Del(pool: Pool, hash: Hash): Pool {
    if pool == [] then []
    else if pool[0].hash == hash then pool[1..]
    else [pool[0]] + Del(pool[1..], hash)
  }

  // The fee bump

  /** `round(fee * (100 + MIN_PRICE_BUMP) / 100)`, as it is computed. */
  ghost predicate IsMinFee(fee: nat, r: nat) {
    forall n :: n == fee * (100 + MIN_PRICE_BUMP) ==> r == Binary64.Rounded(n)
  }

  lemma MinFeeIs(fee: nat)
    ensures IsMinFee(fee, Binary64.Rounded(fee * (100 + MIN_PRICE_BUMP)))
  {
  }

  ghost function MinFeeToReplace(fee: nat): (r: nat)
    ensures IsMinFee(fee, r)
  {
    MinFeeIs(fee);
    var r: nat :| IsMinFee(fee, r);
    r
  }

  method CalculateMinFeeToReplace(fee: nat) returns (r: nat)
    ensures r == MinFeeToReplace(fee)
  {
    r := Binary64.Rounded(fee * (100 + MIN_PRICE_BUMP));
  }

  ghost predicate CanReplace(newer: Operation, existing: Operation) {
    && newer.nonce == existing.nonce
    && newer.maxPriorityFeePerGas >= MinFeeToReplace(existing.maxPriorityFeePerGas)
    && newer.maxFeePerGas >= MinFeeToReplace(existing.maxFeePerGas)
  }

  method CheckIfCanReplace(newer: Operation, existing: Operation) returns (ok: bool)
    ensures ok <==> CanReplace(newer, existing)
  {
    if newer.nonce != existing.nonce {
      return false;
    }
    var minPriorityFee := CalculateMinFeeToReplace(existing.maxPriorityFeePerGas);
    var minFee := CalculateMinFeeToReplace(existing.maxFeePerGas);
    return newer.maxPriorityFeePerGas >= minPriorityFee && newer.maxFeePerGas >= minFee;
  }

  // The pool as the specification sees it

  predicate HasNonce(pool: Pool, nonce: nat) {
    exists i :: 0 <= i < |pool| && pool[i].op.nonce == nonce
  }

  ghost predicate IsFirst(pool: Pool, nonce: nat, i: int) {
    && 0 <= i < |pool| && pool[i].op.nonce == nonce
    && forall j :: 0 <= j < i ==> pool[j].op.nonce != nonce
  }

  lemma FirstExists(pool: Pool, nonce: nat)
    requires HasNonce(pool, nonce)
    ensures exists i :: IsFirst(pool, nonce, i)
  {
    var i := 0;
    while pool[i].op.nonce != nonce
      invariant i < |pool| && forall j :: 0 <= j < i ==> pool[j].op.nonce != nonce
      decreases |pool| - i
    {
      i := i + 1;
    }
    assert IsFirst(pool, nonce, i);
  }

  /** The index of the first entry with this nonce. */
  ghost function NonceIndex(pool: Pool, nonce: nat): (i: nat)
    requires HasNonce(pool, nonce)
    ensures IsFirst(pool, nonce, i)
  {
    FirstExists(pool, nonce);
    var i :| IsFirst(pool, nonce, i);
    i
  }

  /** Which of the four outcomes an addition has. */
  ghost function OutcomeOf(pool: Pool, op: Operation, staked: bool): Outcome {
    if !staked && |pool| > MAX_MEMPOOL_USEROPS_PER_SENDER then Ignored
    else if HasNonce(pool, op.nonce) then
      var previous := pool[NonceIndex(pool, op.nonce)];
      if CanReplace(op, previous.op) then Replaced(previous) else Rejected
    else if staked || |pool| < MAX_MEMPOOL_USEROPS_PER_SENDER then Added
    else Rejected
  }

  /** The pool after an addition: the newcomer goes last and the entry it replaces is gone. */
  ghost function After(pool: Pool, e: Entry, staked: bool): Pool {
    match OutcomeOf(pool, e.op, staked)
    case Added => pool + [e]
    case Replaced(_) =>
      var i := NonceIndex(pool, e.op.nonce);
      pool[..i] + pool[i + 1..] + [e]
    case Ignored => pool
    case Rejected => pool
  }

  // What gets in

  ghost predicate IsNew(pool: Pool, nonce: nat) { forall i :: 0 <= i < |pool| ==> pool[i].op.nonce != nonce }

  /** Both fees are at least eleven tenths of the other operation's, as computed. */
  ghost predicate FeesReach(op: Operation, other: Operation) {
    && op.maxFeePerGas >= Binary64.Rounded(110 * other.maxFeePerGas)
    && op.maxPriorityFeePerGas >= Binary64.Rounded(110 * other.maxPriorityFeePerGas)
  }

  /** An operation at a new nonce is stored, last, if and only if the sender is staked or has fewer than
      four; unstaked with four it is refused with an exception and with more it is silently left out. */
  ghost predicate AdmitsNew(pool: Pool, e: Entry, staked: bool, outcome: Outcome, after: Pool) {
    && (after == pool + [e] <==> staked || |pool| < 4)
    && (outcome.Added? <==> staked || |pool| < 4)
    && (outcome.Rejected? <==> !staked && |pool| == 4)
    && (outcome.Ignored? <==> !staked && |pool| > 4)
    && (outcome.Added? || after == pool)
  }

  /** At the nonce of entry `i` it is stored, last, and that entry is gone, if and only if the sender is
      staked or has at most four and both fees suffice; it is refused with an exception if and only if
      only the fees do not suffice. */
  ghost predicate AdmitsAgain(pool: Pool, e: Entry, staked: bool, i: nat, outcome: Outcome, after: Pool)
    requires i < |pool|
  {
    && (outcome == Replaced(pool[i]) <==> (staked || |pool| <= 4) && FeesReach(e.op, pool[i].op))
    && (outcome.Rejected? <==> (staked || |pool| <= 4) && !FeesReach(e.op, pool[i].op))
    && (outcome.Ignored? <==> !staked && |pool| > 4)
    && after == if outcome.Replaced? then pool[..i] + pool[i + 1..] + [e] else pool
  }

  /** What an admission does, whatever the pool: nonces are looked up from the front. */
  ghost predicate Admits(pool: Pool, e: Entry, staked: bool, outcome: Outcome, after: Pool) {
    && (IsNew(pool, e.op.nonce) ==> AdmitsNew(pool, e, staked, outcome, after))
    && (forall i :: IsFirst(pool, e.op.nonce, i) ==> AdmitsAgain(pool, e, staked, i, outcome, after))
  }

  lemma AdmitsExactly(pool: Pool, e: Entry, staked: bool)
    ensures Admits(pool, e, staked, OutcomeOf(pool, e.op, staked), After(pool, e, staked))
  {
    var (outcome, after) := (OutcomeOf(pool, e.op, staked), After(pool, e, staked));
    assert |pool + [e]| == |pool| + 1;
    if HasNonce(pool, e.op.nonce) {
      var first := NonceIndex(pool, e.op.nonce);
      forall i | IsFirst(pool, e.op.nonce, i) ensures AdmitsAgain(pool, e, staked, i, outcome, after) {
        assert i == first;
        ReachIsReplace(e.op, pool[i].op);
      }
    }
  }

  /** An exception is raised if and only if a new nonce meets an unstaked sender with exactly four, or a pooled
      one meets fees that do not suffice while the sender is staked or has at most four. */
  ghost predicate Refuses(pool: Pool, e: Entry, staked: bool) {
    || (IsNew(pool, e.op.nonce) && !staked && |pool| == 4)
    || exists i :: IsFirst(pool, e.op.nonce, i) && (staked || |pool| <= 4) && !FeesReach(e.op, pool[i].op)
  }

  lemma RefusesExactly(pool: Pool, e: Entry, staked: bool)
    ensures OutcomeOf(pool, e.op, staked).Rejected? <==> Refuses(pool, e, staked)
  {
    AdmitsExactly(pool, e, staked);
    if HasNonce(pool, e.op.nonce) {
      assert IsFirst(pool, e.op.nonce, NonceIndex(pool, e.op.nonce));
    }
  }

  lemma ReachIsReplace(op: Operation, other: Operation)
    requires op.nonce == other.nonce
    ensures FeesReach(op, other) <==> CanReplace(op, other)
  {
    MinFeeIs(other.maxFeePerGas);
    MinFeeIs(other.maxPriorityFeePerGas);
  }

  // What every pool keeps

  /** The one assumption about hashes: a hash determines account and nonce. It does not determine
      the spelling of the sender's address, which is what pools are keyed by. */
  type Identity = Hash -> (Address, nat)

  ghost predicate Coherent(ident: Identity, e: Entry) {
    ident(e.hash) == (Account(e.op.sender), e.op.nonce)
  }

  ghost predicate PoolOk(ident: Identity, address: Address, pool: Pool) {
    && (forall i :: 0 <= i < |pool| ==> pool[i].op.sender == address && Coherent(ident, pool[i]))
    && (forall i, j :: 0 <= i < j < |pool| ==> pool[i].op.nonce != pool[j].op.nonce)
  }

  /** A pool holds its own sender's operations at pairwise distinct nonces, and stays so. */
  lemma AfterOk(ident: Identity, address: Address, pool: Pool, e: Entry, staked: bool)
    requires PoolOk(ident, address, pool) && e.op.sender == address && Coherent(ident, e)
    ensures PoolOk(ident, address, After(pool, e, staked))
  {
    if OutcomeOf(pool, e.op, staked).Replaced? {
      var i := NonceIndex(pool, e.op.nonce);
      var rest := pool[..i] + pool[i + 1..];
      assert forall j :: 0 <= j < |rest| ==> rest[j] == pool[if j < i then j else j + 1];
      assert forall j :: 0 <= j < |rest| ==> rest[j].op.nonce != e.op.nonce;
    }
  }

  /** An unstaked addition never takes a pool above the larger of its size and four. */
  lemma UnstakedBound(pool: Pool, e: Entry)
    ensures |After(pool, e, false)| <= |pool| || |After(pool, e, false)| <= MAX_MEMPOOL_USEROPS_PER_SENDER
  {
  }

  ghost function Ops(pool: Pool): seq<Operation> {
    seq(|pool|, i requires 0 <= i < |pool| => pool[i].op)
  }

  lemma OpsConcat(a: Pool, b: Pool)
    ensures Ops(a + b) == Ops(a) + Ops(b)
  {
  }

  lemma MoveConserves(pool: Pool, i: nat, e: Entry)
    requires i < |pool|
    ensures multiset(Ops(pool[..i] + pool[i + 1..] + [e])) + multiset{pool[i].op}
            == multiset(Ops(pool)) + multiset{e.op}
  {
    assert pool == pool[..i] + [pool[i]] + pool[i + 1..];
    OpsConcat(pool[..i] + [pool[i]], pool[i + 1..]);
    OpsConcat(pool[..i], [pool[i]]);
    OpsConcat(pool[..i] + pool[i + 1..], [e]);
    OpsConcat(pool[..i], pool[i + 1..]);
    assert Ops([e]) == [e.op] && Ops([pool[i]]) == [pool[i].op];
  }

  /** Nothing is lost or duplicated by an addition: an admitted operation is in the pool or was
      ignored, and what left the pool is the entry it replaced. */
  lemma AfterConserves(pool: Pool, e: Entry, staked: bool)
    ensures var o := OutcomeOf(pool, e.op, staked);
            && (o.Added? ==> multiset(Ops(After(pool, e, staked))) == multiset(Ops(pool)) + multiset{e.op})
            && (o.Replaced? ==>
                  multiset(Ops(After(pool, e, staked))) + multiset{o.previous.op}
                  == multiset(Ops(pool)) + multiset{e.op})
            && ((o.Ignored? || o.Rejected?) ==> After(pool, e, staked) == pool)
  {
    match OutcomeOf(pool, e.op, staked)
    case Added =>
      OpsConcat(pool, [e]);
      assert Ops([e]) == [e.op];
    case Replaced(_) =>
      MoveConserves(pool, NonceIndex(pool, e.op.nonce), e);
    case Ignored =>
    case Rejected =>
  }

  /** An entry that stays in the pool never moves away from the front. */
  lemma AfterKeepsOrder(pool: Pool, e: Entry, staked: bool, i: nat)
    requires i < |pool|
    ensures var o := OutcomeOf(pool, e.op, staked);
            var next := After(pool, e, staked);
            || (o.Replaced? && NonceIndex(pool, e.op.nonce) == i)
            || (i < |next| && next[i] == pool[i])
            || (0 < i <= |next| && next[i - 1] == pool[i])
  {
  }

  // Geometric growth of the price

  ghost function Pow(b: nat, k: nat): nat {
    if k == 0 then 1 else b * Pow(b, k - 1)
  }

  /** A replacement has to raise a fee by at least a twentieth exactly when the fee is at least
      five (or nothing): below five the required fee is the fee itself. */
  lemma BumpIsFivePercent(fee: nat)
    ensures 20 * MinFeeToReplace(fee) >= 21 * fee <==> fee == 0 || fee >= 5
    ensures fee < 5 <==> MinFeeToReplace(fee) == fee
  {
    Binary64.ComputedBump(fee);
    assert IsMinFee(fee, MinFeeToReplace(fee)) && 110 * fee == fee * (100 + MIN_PRICE_BUMP);
  }

  /** One submission to the pool of a fixed sender. */
  datatype Arrival = Arrival(entry: Entry, staked: bool)

  ghost function AfterAll(pool: Pool, arrivals: seq<Arrival>): Pool
    decreases |arrivals|
  {
    if arrivals == [] then pool
    else AfterAll(After(pool, arrivals[0].entry, arrivals[0].staked), arrivals[1..])
  }

  /** How many of the arrivals replaced an operation at this nonce. */
  ghost function Replacements(pool: Pool, arrivals: seq<Arrival>, nonce: nat): nat
    decreases |arrivals|
  {
    if arrivals == [] then 0
    else
      var a := arrivals[0];
      (if Replaces(pool, a, nonce) then 1 else 0)
      + Replacements(After(pool, a.entry, a.staked), arrivals[1..], nonce)
  }

  ghost predicate ArrivalsOk(ident: Identity, address: Address, arrivals: seq<Arrival>) {
    forall i :: 0 <= i < |arrivals| ==>
                  arrivals[i].entry.op.sender == address && Coherent(ident, arrivals[i].entry)
  }

  ghost predicate Grown(fee: nat, fee': nat, k: nat) {
    fee >= 5 ==> Pow(20, k) * fee' >= Pow(21, k) * fee
  }

  lemma GrownStep(fee: nat, mid: nat, fee': nat, k: nat)
    requires (fee >= 5 ==> 20 * mid >= 21 * fee) && Grown(mid, fee', k)
    ensures Grown(fee, fee', k + 1)
  {
    if fee >= 5 {
      calc {
        Pow(20, k + 1) * fee';
        20 * (Pow(20, k) * fee');
      >=
        20 * (Pow(21, k) * mid);
        Pow(21, k) * (20 * mid);
      >= { Binary64.MulMonotone(Pow(21, k), 21 * fee, 20 * mid); }
        Pow(21, k) * (21 * fee);
        Pow(21, k + 1) * fee;
      }
    }
  }

  ghost function AtNonce(pool: Pool, nonce: nat): Operation
    requires HasNonce(pool, nonce)
  {
    pool[NonceIndex(pool, nonce)].op
  }

  ghost predicate Replaces(pool: Pool, a: Arrival, nonce: nat) {
    OutcomeOf(pool, a.entry.op, a.staked).Replaced? && a.entry.op.nonce == nonce
  }

  /** A pooled nonce stays pooled, with the operation it had or the one that replaced it. */
  lemma NonceStaysPooled(ident: Identity, address: Address, pool: Pool, a: Arrival, nonce: nat)
    requires PoolOk(ident, address, pool) && a.entry.op.sender == address && Coherent(ident, a.entry)
    requires HasNonce(pool, nonce)
    ensures var next := After(pool, a.entry, a.staked);
            && PoolOk(ident, address, next) && HasNonce(next, nonce)
            && AtNonce(next, nonce) == if Replaces(pool, a, nonce) then a.entry.op else AtNonce(pool, nonce)
    ensures Replaces(pool, a, nonce) ==> CanReplace(a.entry.op, AtNonce(pool, nonce))
  {
    AfterOk(ident, address, pool, a.entry, a.staked);
    var next := After(pool, a.entry, a.staked);
    var i := NonceIndex(pool, nonce);
    AfterKeepsOrder(pool, a.entry, a.staked, i);
    if Replaces(pool, a, nonce) {
      assert next[|next| - 1].op == a.entry.op;
    }
  }

  /** Whatever else is submitted in between, as long as the nonce stays pooled its two fees grow
      by at least 21/20 for every accepted replacement, once they are at least five. */
  lemma {:induction false} GeometricGrowth(
    ident: Identity, address: Address, pool: Pool, arrivals: seq<Arrival>, nonce: nat)
    requires PoolOk(ident, address, pool) && ArrivalsOk(ident, address, arrivals) && HasNonce(pool, nonce)
    ensures HasNonce(AfterAll(pool, arrivals), nonce)
    ensures var k := Replacements(pool, arrivals, nonce);
            var (first, last) := (AtNonce(pool, nonce), AtNonce(AfterAll(pool, arrivals), nonce));
            && Grown(first.maxFeePerGas, last.maxFeePerGas, k)
            && Grown(first.maxPriorityFeePerGas, last.maxPriorityFeePerGas, k)
    decreases |arrivals|
  {
    if arrivals != [] {
      var (a, rest) := (arrivals[0], arrivals[1..]);
      var next := After(pool, a.entry, a.staked);
      NonceStaysPooled(ident, address, pool, a, nonce);
      GeometricGrowth(ident, address, next, rest, nonce);
      if Replaces(pool, a, nonce) {
        var (first, mid, last) := (AtNonce(pool, nonce), AtNonce(next, nonce), AtNonce(AfterAll(next, rest), nonce));
        var k := Replacements(next, rest, nonce);
        BumpIsFivePercent(first.maxFeePerGas);
        BumpIsFivePercent(first.maxPriorityFeePerGas);
        GrownStep(first.maxFeePerGas, mid.maxFeePerGas, last.maxFeePerGas, k);
        GrownStep(first.maxPriorityFeePerGas, mid.maxPriorityFeePerGas, last.maxPriorityFeePerGas, k);
      }
    }
  }

  // The dictionary operations on well-formed pools

  lemma {:induction false} PutNew(pool: Pool, e: Entry)
    requires forall i :: 0 <= i < |pool| ==> pool[i].hash != e.hash
    ensures Put(pool, e) == pool + [e]
  {
    if pool != [] {
      PutNew(pool[1..], e);
    }
  }

  lemma {:induction false} DelAt(pool: Pool, i: nat)
    requires i < |pool| && forall j :: 0 <= j < i ==> pool[j].hash != pool[i].hash
    ensures Del(pool, pool[i].hash) == pool[..i] + pool[i + 1..]
  {
    if i > 0 {
      DelAt(pool[1..], i - 1);
      assert pool[..i] == [pool[0]] + pool[1..][..i - 1];
    }
  }

  /** What the dictionary holds after an addition, whatever the hash. */
  ghost function Written(pool: Pool, e: Entry, staked: bool): Pool {
    match OutcomeOf(pool, e.op, staked)
    case Added => Put(pool, e)
    case Replaced(previous) => Put(Del(pool, previous.hash), e)
    case Ignored => pool
    case Rejected => pool
  }

  lemma {:induction false} PutOverwrites(pool: Pool, e: Entry, i: nat)
    requires i < |pool| && pool[i].hash == e.hash && forall j :: 0 <= j < i ==> pool[j].hash != e.hash
    ensures Put(pool, e) == pool[i := e]
  {
    if i > 0 {
      PutOverwrites(pool[1..], e, i - 1);
    }
  }

  lemma OverwriteCounts(pool: Pool, e: Entry, i: nat)
    requires i < |pool|
    ensures multiset(Ops(pool[i := e])) + multiset{pool[i].op} == multiset(Ops(pool)) + multiset{e.op}
  {
    assert Ops(pool[i := e]) == Ops(pool)[i := e.op];
  }

  /** Without the assumption on hashes: what is left after the replaced operation is taken out stays
      in the pool exactly when none of it has the newcomer's hash. Otherwise the newcomer overwrites
      it, and the overwritten operation is nowhere. */
  lemma OverwriteLoses(pool: Pool, e: Entry, staked: bool)
    requires OutcomeOf(pool, e.op, staked).Added? || OutcomeOf(pool, e.op, staked).Replaced?
    ensures var o := OutcomeOf(pool, e.op, staked);
            var (kept, after) := (if o.Replaced? then Del(pool, o.previous.hash) else pool, Written(pool, e, staked));
            && (multiset(Ops(after)) == multiset(Ops(kept)) + multiset{e.op} <==>
                  forall i :: 0 <= i < |kept| ==> kept[i].hash != e.hash)
            && (forall i ::
                  0 <= i < |kept| && kept[i].hash == e.hash && (forall j :: 0 <= j < i ==> kept[j].hash != e.hash) ==>
                    multiset(Ops(after)) + multiset{kept[i].op} == multiset(Ops(kept)) + multiset{e.op})
  {
    var o := OutcomeOf(pool, e.op, staked);
    var (kept, after) := (if o.Replaced? then Del(pool, o.previous.hash) else pool, Written(pool, e, staked));
    if forall i :: 0 <= i < |kept| ==> kept[i].hash != e.hash {
      PutNew(kept, e);
      OpsConcat(kept, [e]);
      assert Ops([e]) == [e.op];
    } else {
      var i := FirstWithHash(kept, e.hash);
      PutOverwrites(kept, e, i);
      OverwriteCounts(kept, e, i);
      assert |multiset(Ops(after))| == |after| == |kept|;
    }
  }

  lemma FirstWithHash(pool: Pool, hash: Hash) returns (i: nat)
    requires exists i :: 0 <= i < |pool| && pool[i].hash == hash
    ensures i < |pool| && pool[i].hash == hash && forall j :: 0 <= j < i ==> pool[j].hash != hash
  {
    i := 0;
    while pool[i].hash != hash
      invariant i < |pool| && forall j :: 0 <= j < i ==> pool[j].hash != hash
      decreases |pool| - i
    {
      i := i + 1;
    }
  }

  lemma FindByHash(pool: Pool, i: nat)
    requires i < |pool| && forall j :: 0 <= j < |pool| && j != i ==> pool[j].hash != pool[i].hash
    ensures Lookup(pool, pool[i].hash) == pool[i]
  {
    var j := HashIndex(pool, pool[i].hash);
  }

  function HashIndex(pool: Pool, hash: Hash): (i: nat)
    requires exists i :: 0 <= i < |pool| && pool[i].hash == hash
    ensures i < |pool| && pool[i].hash == hash
  {
    if pool[0].hash == hash then 0
    else
      assert forall i :: 0 <= i < |pool| && pool[i].hash == hash ==> i > 0 && pool[1..][i - 1].hash == hash;
      1 + HashIndex(pool[1..], hash)
  }

  /** `d[hash]` */
  function Lookup(pool: Pool, hash: Hash): Entry
    requires exists i :: 0 <= i < |pool| && pool[i].hash == hash
  {
    pool[HashIndex(pool, hash)]
  }

  class SenderMempool {
    const address: Address
    var entries: Pool

    constructor (address: Address)
      ensures this.address == address && entries == []
    {
      this.address := address;
      entries := [];
    }

    method HashWithSameNonce(nonce: nat) returns (hash: Option<Hash>)
      ensures hash.None? <==> !HasNonce(entries, nonce)
      ensures hash.Some? ==> hash.value == entries[NonceIndex(entries, nonce)].hash
    {
      for i := 0 to |entries|
        invariant forall j :: 0 <= j < i ==> entries[j].op.nonce != nonce
      {
        if entries[i].op.nonce == nonce {
          return Some(entries[i].hash);
        }
      }
      return None;
    }

    method ReplaceUserOperation(e: Entry, existing: Hash, ghost ident: Identity) returns (ok: bool)
      requires PoolOk(ident, address, entries) && e.op.sender == address && Coherent(ident, e)
      requires HasNonce(entries, e.op.nonce) && entries[NonceIndex(entries, e.op.nonce)].hash == existing
      modifies this`entries
      ensures ok <==> CanReplace(e.op, old(entries)[NonceIndex(old(entries), e.op.nonce)].op)
      ensures ok ==> var i := NonceIndex(old(entries), e.op.nonce);
                     entries == old(entries)[..i] + old(entries)[i + 1..] + [e]
      ensures !ok ==> entries == old(entries)
    {
      DeleteThenPut(ident, address, entries, e, NonceIndex(entries, e.op.nonce));
      ok := CheckIfCanReplace(e.op, Lookup(entries, existing).op);
      if ok {
        entries := Del(entries, existing);
        entries := Put(entries, e);
      }
    }

    /** Adds under the dictionary's hash key. The silent case leaves the pool as it was and is
        not an error; the other refusal is. */
    method AddUserOperation(e: Entry, staked: bool, ghost ident: Identity) returns (outcome: Outcome)
      requires PoolOk(ident, address, entries) && e.op.sender == address && Coherent(ident, e)
      modifies this`entries
      ensures Admits(old(entries), e, staked, outcome, entries)
      ensures outcome == OutcomeOf(old(entries), e.op, staked)
      ensures entries == After(old(entries), e, staked)
      ensures PoolOk(ident, address, entries)
    {
      AfterOk(ident, address, entries, e, staked);
      AdmitsExactly(entries, e, staked);
      var number := |entries|;
      if number == 0 {
        entries := Put(entries, e);
        return Added;
      } else if staked || number <= MAX_MEMPOOL_USEROPS_PER_SENDER {
        var existing := HashWithSameNonce(e.op.nonce);
        if existing.Some? {
          DistinctHashes(ident, address, entries);
          FindByHash(entries, NonceIndex(entries, e.op.nonce));
          var replaced := Lookup(entries, existing.value);
          var ok := ReplaceUserOperation(e, existing.value, ident);
          return if ok then Replaced(replaced) else Rejected;
        } else if staked || number < MAX_MEMPOOL_USEROPS_PER_SENDER {
          NewHash(ident, address, entries, e);
          PutNew(entries, e);
          entries := Put(entries, e);
          return Added;
        } else {
          return Rejected;
        }
      }
      return Ignored;
    }
  }

  lemma DistinctHashes(ident: Identity, address: Address, pool: Pool)
    requires PoolOk(ident, address, pool)
    ensures forall i, j :: 0 <= i < j < |pool| ==> pool[i].hash != pool[j].hash
  {
    forall i, j | 0 <= i < j < |pool| ensures pool[i].hash != pool[j].hash {
      assert pool[i].op.nonce != pool[j].op.nonce;
    }
  }

  /** Only the entry at its nonce can have the hash of a newcomer. */
  lemma OtherHashes(ident: Identity, address: Address, pool: Pool, e: Entry, i: nat)
    requires PoolOk(ident, address, pool) && Coherent(ident, e) && i < |pool| && pool[i].op.nonce == e.op.nonce
    ensures forall j :: 0 <= j < |pool| && j != i ==> pool[j].hash != e.hash && pool[j].hash != pool[i].hash
  {
    DistinctHashes(ident, address, pool);
    forall j | 0 <= j < |pool| && j != i ensures pool[j].hash != e.hash {
      assert pool[j].op.nonce != pool[i].op.nonce && Coherent(ident, pool[j]);
    }
  }

  lemma PutBehind(a: Pool, b: Pool, e: Entry)
    requires forall j :: 0 <= j < |a| ==> a[j].hash != e.hash
    requires forall j :: 0 <= j < |b| ==> b[j].hash != e.hash
    ensures Put(a + b, e) == a + b + [e]
  {
    PutNew(a + b, e);
  }

  lemma DeleteThenPut(ident: Identity, address: Address, pool: Pool, e: Entry, i: nat)
    requires PoolOk(ident, address, pool) && Coherent(ident, e) && i < |pool| && pool[i].op.nonce == e.op.nonce
    ensures Lookup(pool, pool[i].hash) == pool[i]
    ensures Put(Del(pool, pool[i].hash), e) == pool[..i] + pool[i + 1..] + [e]
  {
    OtherHashes(ident, address, pool, e, i);
    FindByHash(pool, i);
    DelAt(pool, i);
    PutBehind(pool[..i], pool[i + 1..], e);
  }

  lemma NewHash(ident: Identity, address: Address, pool: Pool, e: Entry)
    requires PoolOk(ident, address, pool) && Coherent(ident, e) && !HasNonce(pool, e.op.nonce)
    ensures forall i :: 0 <= i < |pool| ==> pool[i].hash != e.hash
  {
  }
}
