/**
 Pools are keyed by the sender's address as text, hashes by the account. One account in two
 spellings therefore has two pools: when a hash is pooled twice because of it, when a bundle has
 one account twice, and exactly which admissions lead there.
 */
module Spellings {
  import opened Basics
  import opened SenderMempools
  import opened SenderDirectory
  import opened Lifecycle
  import opened Runs
  import opened HashQueries
  import opened MempoolManagers
  import UserOperationCodec

  /** No two keys are spellings of one account. */
  ghost predicate SpelledOnce(d: Directory) {
    forall i, j :: 0 <= i < j < |d| ==> Account(d[i].address) != Account(d[j].address)
  }

  /** No hash is pooled twice. */
  ghost predicate Unique(d: Directory) {
    forall h :: Occurrences(Entries(d), h) <= 1
  }

  ghost predicate SharedBy(d: Directory, a: Address, b: Address, h: Hash) {
    a != b && Holds(PoolFor(d, a), h) && Holds(PoolFor(d, b), h)
  }

  lemma SharedIsTwice(ident: Identity, d: Directory, a: Address, b: Address, h: Hash)
    requires DirectoryOk(ident, d) && SharedBy(d, a, b, h)
    ensures HeldTwice(d, h) && Account(a) == Account(b)
  {
    var (i, j) := (Index(d, a), Index(d, b));
    if i < j {
      SharedAccount(ident, d, i, j, h);
    } else {
      SharedAccount(ident, d, j, i, h);
    }
  }

  lemma TwiceIsSharedBy(ident: Identity, d: Directory, h: Hash) returns (a: Address, b: Address)
    requires DirectoryOk(ident, d) && HeldTwice(d, h)
    ensures SharedBy(d, a, b, h)
  {
    var i, j :| 0 <= i < j < |d| && BothHold(d, i, j, h);
    OnlyOne(d, d[i].address, i);
    OnlyOne(d, d[j].address, j);
    return d[i].address, d[j].address;
  }

  /** A hash is pooled twice exactly when two keys share it, and these are spellings of one account. */
  lemma TwiceIsShared(ident: Identity, d: Directory, h: Hash)
    requires DirectoryOk(ident, d)
    ensures Occurrences(Entries(d), h) > 1 <==> exists a, b :: SharedBy(d, a, b, h)
    ensures forall a, b :: SharedBy(d, a, b, h) ==> Account(a) == Account(b)
  {
    PooledOnce(ident, d, h);
    forall a, b | SharedBy(d, a, b, h) ensures HeldTwice(d, h) && Account(a) == Account(b) {
      SharedIsTwice(ident, d, a, b, h);
    }
    if HeldTwice(d, h) {
      var a, b := TwiceIsSharedBy(ident, d, h);
    }
  }

  // Admissions

  ghost predicate Stored(d: Directory, e: Entry, staked: bool) {
    var o := OutcomeOf(PoolFor(d, e.op.sender), e.op, staked);
    o.Added? || o.Replaced?
  }

  lemma AfterHolds(pool: Pool, e: Entry, staked: bool, h: Hash)
    ensures var (o, next) := (OutcomeOf(pool, e.op, staked), After(pool, e, staked));
            && (o.Added? || o.Replaced? ==> Holds(next, e.hash))
            && (Holds(next, h) ==> Holds(pool, h) || (h == e.hash && (o.Added? || o.Replaced?)))
  {
    var (o, next) := (OutcomeOf(pool, e.op, staked), After(pool, e, staked));
    if o.Added? || o.Replaced? {
      assert next[|next| - 1] == e;
    }
    if k :| 0 <= k < |next| && next[k].hash == h {
      if o.Replaced? && k < |next| - 1 {
        var i := NonceIndex(pool, e.op.nonce);
        assert next[k] == pool[if k < i then k else k + 1];
      } else if o.Added? && k < |next| - 1 {
        assert next[k] == pool[k];
      }
    }
  }

  ghost function Admitted(d: Directory, e: Entry, staked: bool): Directory {
    SetPool(d, e.op.sender, After(PoolFor(d, e.op.sender), e, staked))
  }

  lemma SharedAfter(ident: Identity, d: Directory, e: Entry, staked: bool, a: Address, b: Address, h: Hash)
    requires DirectoryOk(ident, d) && Unique(d)
    requires SharedBy(Admitted(d, e, staked), a, b, h)
    ensures Stored(d, e, staked) && h == e.hash
    ensures (a == e.op.sender && Holds(PoolFor(d, b), h)) || (b == e.op.sender && Holds(PoolFor(d, a), h))
  {
    var pool := PoolFor(d, e.op.sender);
    PoolForSet(d, e.op.sender, After(pool, e, staked), a);
    PoolForSet(d, e.op.sender, After(pool, e, staked), b);
    AfterHolds(pool, e, staked, h);
    TwiceIsShared(ident, d, h);
    assert Occurrences(Entries(d), h) <= 1;
    assert !SharedBy(d, a, b, h);
  }

  /** An admission is the first to pool a hash twice exactly when it stores its operation while
      another spelling of the sender has the hash. */
  lemma AdmissionKeepsUnique(ident: Identity, d: Directory, e: Entry, staked: bool)
    requires DirectoryOk(ident, d) && Coherent(ident, e) && Unique(d)
    ensures Unique(Admitted(d, e, staked)) <==>
              !(Stored(d, e, staked) && exists a :: a != e.op.sender && Holds(PoolFor(d, a), e.hash))
  {
    var (pool, after) := (PoolFor(d, e.op.sender), Admitted(d, e, staked));
    PoolForOk(ident, d, e.op.sender);
    AfterOk(ident, e.op.sender, pool, e, staked);
    SetPoolOk(ident, d, e.op.sender, After(pool, e, staked));
    if Stored(d, e, staked) {
      if a :| a != e.op.sender && Holds(PoolFor(d, a), e.hash) {
        PoolForSet(d, e.op.sender, After(pool, e, staked), a);
        PoolForSet(d, e.op.sender, After(pool, e, staked), e.op.sender);
        AfterHolds(pool, e, staked, e.hash);
        assert SharedBy(after, e.op.sender, a, e.hash);
        TwiceIsShared(ident, after, e.hash);
      }
    }
    if h :| Occurrences(Entries(after), h) > 1 {
      TwiceIsShared(ident, after, h);
      var a, b :| SharedBy(after, a, b, h);
      SharedAfter(ident, d, e, staked, a, b, h);
    }
  }

  // Runs

  /** Every account is spelled in one way. */
  ghost predicate Consistent(ops: seq<Operation>) {
    forall i, j :: 0 <= i < |ops| && 0 <= j < |ops| && Account(ops[i].sender) == Account(ops[j].sender) ==>
                     ops[i].sender == ops[j].sender
  }

  lemma KeyIsAdmitted(ident: Identity, lane: Lane, a: Address, h: Hash) returns (op: Operation)
    requires Inv(ident, lane) && Holds(PoolFor(lane.senders, a), h)
    ensures op in lane.ledger.admitted && op.sender == a
  {
    var pool := PoolFor(lane.senders, a);
    var k :| 0 <= k < |pool| && pool[k].hash == h;
    PoolForOk(ident, lane.senders, a);
    op := pool[k].op;
    PooledIsAdmitted(ident, lane, op, k);
  }

  /** In every reachable state: as long as the admitted operations spell every account in one way,
      no hash is pooled twice. */
  lemma ReachableUnique(ident: Identity, b: Bundler, actions: seq<Action>, i: nat)
    requires Initial(b) && Run(ident, b, actions) && i < |b.lanes|
    ensures |Final(ident, b, actions).lanes| == |b.lanes|
    ensures var lane := Final(ident, b, actions).lanes[i];
            Consistent(lane.ledger.admitted) ==> Unique(lane.senders)
  {
    SameLanes(ident, b, actions);
    ReachableOk(ident, b, actions);
    var lane := Final(ident, b, actions).lanes[i];
    if Consistent(lane.ledger.admitted) {
      forall h ensures Occurrences(Entries(lane.senders), h) <= 1 {
        TwiceIsShared(ident, lane.senders, h);
        if x, y :| SharedBy(lane.senders, x, y, h) {
          var ox := KeyIsAdmitted(ident, lane, x, h);
          var oy := KeyIsAdmitted(ident, lane, y, h);
        }
      }
    }
  }

  // Bundles

  ghost function AccountsOf(ops: seq<Operation>): seq<Address> {
    seq(|ops|, i requires 0 <= i < |ops| => Account(ops[i].sender))
  }

  lemma {:induction false} SubsequenceIn<T>(a: seq<T>, b: seq<T>, x: T)
    requires SubsequenceOf(a, b) && x in a
    ensures x in b
    decreases |b|
  {
    var (a', b') := (a[..|a| - 1], b[..|b| - 1]);
    if a[|a| - 1] == b[|b| - 1] && SubsequenceOf(a', b') {
      if x != a[|a| - 1] {
        SubsequenceIn(a', b', x);
      }
    } else {
      SubsequenceIn(a, b', x);
    }
  }

  /** When the keys of the snapshot are spelled once, no account is popped twice. */
  lemma PoppedAccounts(ident: Identity, lane: Lane)
    requires Inv(ident, lane) && Enabled(ident, lane, FinishRound) && SpelledOnce(lane.round.start)
    ensures NoDuplicates(AccountsOf(lane.round.taken))
  {
    var (r, keys) := (lane.round, Addresses(lane.round.start));
    FinishedRound(ident, lane);
    forall i, j | 0 <= i < j < |r.taken| ensures Account(r.taken[i].sender) != Account(r.taken[j].sender) {
      var senders := SendersOf(r.taken);
      assert senders[i] != senders[j];
      SubsequenceIn(senders, keys, senders[i]);
      SubsequenceIn(senders, keys, senders[j]);
      var k :| 0 <= k < |keys| && keys[k] == senders[i];
      var l :| 0 <= l < |keys| && keys[l] == senders[j];
      assert k < l ==> Account(r.start[k].address) != Account(r.start[l].address);
    }
  }

  /** When two keys of one account both had operations at the snapshot, the account is popped twice. */
  lemma PoppedTwice(ident: Identity, lane: Lane, a: Address, b: Address)
    requires Inv(ident, lane) && Enabled(ident, lane, FinishRound)
    requires a != b && Account(a) == Account(b)
    requires PoolFor(lane.round.start, a) != [] && PoolFor(lane.round.start, b) != []
    ensures !NoDuplicates(AccountsOf(lane.round.taken))
  {
    var senders := SendersOf(lane.round.taken);
    FinishedRound(ident, lane);
    var i :| 0 <= i < |senders| && senders[i] == a;
    var j :| 0 <= j < |senders| && senders[j] == b;
    var accounts := AccountsOf(lane.round.taken);
    assert accounts[i] == accounts[j];
  }

  /** So without empty pools at the snapshot, the condition is exact. */
  lemma PoppedAccountsExactly(ident: Identity, lane: Lane)
    requires Inv(ident, lane) && Enabled(ident, lane, FinishRound)
    requires forall i :: 0 <= i < |lane.round.start| ==> lane.round.start[i].pool != []
    ensures NoDuplicates(AccountsOf(lane.round.taken)) <==> SpelledOnce(lane.round.start)
  {
    var start := lane.round.start;
    if SpelledOnce(start) {
      PoppedAccounts(ident, lane);
    } else {
      var i, j :| 0 <= i < j < |start| && Account(start[i].address) == Account(start[j].address);
      OnlyOne(start, start[i].address, i);
      OnlyOne(start, start[j].address, j);
      PoppedTwice(ident, lane, start[i].address, start[j].address);
    }
  }

  ghost predicate Changed(lane: Lane, op: Operation) { Departure(op, CodeChanged) in lane.ledger.gone }

  lemma BundledNotChanged(ident: Identity, lane: Lane, op: Operation)
    requires Inv(ident, lane) && lane.round.Collecting? && op in lane.round.bundle
    ensures !Changed(lane, op)
  {
    AdmittedOnce(lane.ledger.admitted, op);
    assert Everywhere(lane, op) == multiset(lane.ledger.admitted)[op];
    assert InRound(lane.round)[op] > 0;
    if Changed(lane, op) {
      DepartureCounts(lane.ledger.gone, op);
    }
  }

  /** Two operations of one account. */
  ghost predicate SameAccount(x: Operation, y: Operation) { x != y && Account(x.sender) == Account(y.sender) }

  lemma NotBoth(ops: seq<Operation>, x: Operation, y: Operation)
    requires NoDuplicates(AccountsOf(ops)) && SameAccount(x, y)
    ensures x !in ops || y !in ops
  {
    var accounts := AccountsOf(ops);
    forall i, j | 0 <= i < |ops| && 0 <= j < |ops| && i != j ensures Account(ops[i].sender) != Account(ops[j].sender) {
      assert accounts[i] != accounts[j];
    }
  }

  /** A bundle has no account twice exactly when of any two popped operations of one account at
      least one had changed code. */
  lemma BundledAccounts(ident: Identity, lane: Lane)
    requires Inv(ident, lane) && Enabled(ident, lane, FinishRound)
    ensures NoDuplicates(AccountsOf(lane.round.bundle)) <==>
              forall x, y :: x in lane.round.taken && y in lane.round.taken && SameAccount(x, y) ==>
                               Changed(lane, x) || Changed(lane, y)
  {
    var r := lane.round;
    var accounts := AccountsOf(r.bundle);
    FinishedRound(ident, lane);
    if NoDuplicates(accounts) {
      forall x, y | x in r.taken && y in r.taken && SameAccount(x, y) ensures Changed(lane, x) || Changed(lane, y) {
        NotBoth(r.bundle, x, y);
      }
    } else {
      var i, j :| 0 <= i < j < |accounts| && accounts[i] == accounts[j];
      var (x, y) := (r.bundle[i], r.bundle[j]);
      assert SendersOf(r.bundle)[i] != SendersOf(r.bundle)[j];
      SubsequenceIn(r.bundle, r.taken, x);
      SubsequenceIn(r.bundle, r.taken, y);
      BundledNotChanged(ident, lane, x);
      BundledNotChanged(ident, lane, y);
    }
  }

  // Two spellings, all the way

  function Uniform(c: char): Address { "0x" + seq(40, _ => c) }

  /** There are such spellings among the addresses that are accepted. */
  lemma SpellingsExist()
    ensures UserOperationCodec.IsAddress(Uniform('a')) && UserOperationCodec.IsAddress(Uniform('A'))
    ensures Uniform('a') != Uniform('A') && Account(Uniform('a')) == Account(Uniform('A'))
  {
    var (lower, upper) := (Uniform('a'), Uniform('A'));
    assert forall i :: 2 <= i < 42 ==> lower[i] == 'a' && upper[i] == 'A';
    assert lower[2] != upper[2];
    assert forall i :: 0 <= i < 42 ==> Lower(lower[i]) == Lower(upper[i]);
  }

  /** One operation in two spellings, as the first two admissions. */
  ghost predicate TwoSpellings(ident: Identity, x: Entry, y: Entry) {
    && Coherent(ident, x) && Coherent(ident, y) && x.hash == y.hash && x.op.sender != y.op.sender
    && x.op.id == 0 && y.op.id == 1
  }

  /** A lane that has admitted and pooled these entries, each of a sender of its own. */
  ghost predicate JustPooled(lane: Lane, entries: seq<Entry>) {
    && |lane.senders| == |entries| == |lane.ledger.admitted| && lane.round.Idle? && lane.queue == []
    && forall i :: 0 <= i < |entries| ==> lane.senders[i] == Sender(entries[i].op.sender, [entries[i]])
  }

  lemma NewSender(lane: Lane, entries: seq<Entry>, x: Entry)
    requires JustPooled(lane, entries) && forall i :: 0 <= i < |entries| ==> entries[i].op.sender != x.op.sender
    ensures JustPooled(Commit(lane, x, false), entries + [x])
  {
    assert !Has(lane.senders, x.op.sender) && PoolFor(lane.senders, x.op.sender) == [];
    assert After([], x, false) == [] + [x] == [x];
  }

  lemma {:induction false} PooledEach(d: Directory, entries: seq<Entry>)
    requires |d| == |entries| && forall i :: 0 <= i < |d| ==> d[i].pool == [entries[i]]
    ensures Entries(d) == entries
  {
    if d != [] {
      PooledEach(d[1..], entries[1..]);
    }
  }

  /** Whatever the two spellings: submitting an operation once in each pools its hash twice. */
  lemma SpellingsPooledTwice(ident: Identity, x: Entry, y: Entry)
    requires TwoSpellings(ident, x, y)
    ensures Enabled(ident, EMPTY_LANE, Submit(x, false))
    ensures var lane := Commit(EMPTY_LANE, x, false);
            && Enabled(ident, lane, Submit(y, false))
            && JustPooled(Commit(lane, y, false), [x, y])
            && Occurrences(Entries(Commit(lane, y, false).senders), x.hash) == 2
  {
    NewSender(EMPTY_LANE, [], x);
    assert [] + [x] == [x] && [x] + [y] == [x, y];
    var lane := Commit(EMPTY_LANE, x, false);
    NewSender(lane, [x], y);
    PooledEach(Commit(lane, y, false).senders, [x, y]);
    BothCount(x, y);
  }

  lemma BothCount(x: Entry, y: Entry)
    requires x.hash == y.hash
    ensures Occurrences([x, y], x.hash) == 2
  {
    assert [x, y][1..] == [y] && [y][1..] == [];
    assert Occurrences([y], x.hash) == 1 + Occurrences([], x.hash);
  }

  lemma OtherPool(ident: Identity, d: Directory, a: Address, b: Address)
    requires DirectoryOk(ident, d) && PoolFor(d, a) != [] && a != b
    ensures var popped := SetPool(d, a, PoolFor(d, a)[1..]);
            PoolFor(popped, b) == PoolFor(d, b) && PoolFor(Remove(popped, a), b) == PoolFor(d, b)
  {
    var pool := PoolFor(d, a)[1..];
    PoolForOk(ident, d, a);
    SetPoolOk(ident, d, a, pool);
    PoolForSet(d, a, pool, b);
    PoolForRemove(SetPool(d, a, pool), a, b);
  }

  /** A visit without interruption, and with unchanged code. */
  lemma QuietVisit(ident: Identity, lane: Lane, op: Operation)
    requires DirectoryOk(ident, lane.senders) && Enabled(ident, lane, TakeNext)
    requires PoolFor(lane.senders, lane.round.todo[0]) != [] && op == PoolFor(lane.senders, lane.round.todo[0])[0].op
    ensures Enabled(ident, Take(lane), CodeHash(op.codeHash))
    ensures var next := Settle(Take(lane), op.codeHash);
            && next.round == lane.round.(todo := lane.round.todo[1..], bundle := lane.round.bundle + [op],
                                             taken := lane.round.taken + [op])
            && next.queue == lane.queue
            && forall b :: b != lane.round.todo[0] ==> PoolFor(next.senders, b) == PoolFor(lane.senders, b)
  {
    var (a, d) := (lane.round.todo[0], lane.senders);
    PoolForOk(ident, d, a);
    forall b | b != a ensures PoolFor(Settle(Take(lane), op.codeHash).senders, b) == PoolFor(d, b) {
      OtherPool(ident, d, a, b);
    }
  }

  /** Whatever the two spellings: the next round may bundle the operation twice, with one account
      and one nonce. */
  lemma SpellingsBundledTwice(ident: Identity, x: Entry, y: Entry) returns (lane: Lane)
    requires TwoSpellings(ident, x, y)
    ensures Reached(ident,
                    [Submit(x, false), Submit(y, false)] + [StartRound] + [TakeNext] + [CodeHash(x.op.codeHash)]
                    + [TakeNext] + [CodeHash(y.op.codeHash)] + [FinishRound], lane)
    ensures lane.queue == [x.op, y.op]
    ensures Account(x.op.sender) == Account(y.op.sender) && x.op.nonce == y.op.nonce
  {
    SpellingsPooledTwice(ident, x, y);
    assert Path(ident, [], [EMPTY_LANE]);
    Extend(ident, [], EMPTY_LANE, Submit(x, false));
    lane := Commit(EMPTY_LANE, x, false);
    Extend(ident, [] + [Submit(x, false)], lane, Submit(y, false));
    lane := Commit(lane, y, false);
    assert [] + [Submit(x, false)] + [Submit(y, false)] == [Submit(x, false), Submit(y, false)];
    lane := QuietRound(ident, lane, [Submit(x, false), Submit(y, false)], x, y);
  }

  lemma QuietRound(ident: Identity, lane: Lane, events: seq<Event>, x: Entry, y: Entry) returns (last: Lane)
    requires Reached(ident, events, lane) && JustPooled(lane, [x, y]) && x.op.sender != y.op.sender
    ensures Reached(ident, events + [StartRound] + [TakeNext] + [CodeHash(x.op.codeHash)]
                           + [TakeNext] + [CodeHash(y.op.codeHash)] + [FinishRound], last)
    ensures last.queue == [x.op, y.op]
  {
    var d := lane.senders;
    assert d[0] == Sender(x.op.sender, [x]) && d[1] == Sender(y.op.sender, [y]);
    OnlyOne(d, x.op.sender, 0);
    OnlyOne(d, y.op.sender, 1);
    Extend(ident, events, lane, StartRound);
    last := Step(ident, lane, 100, StartRound).0;
    assert last.round.todo == [x.op.sender, y.op.sender];
    last := QuietStep(ident, events + [StartRound], last, x.op);
    last := QuietStep(ident, events + [StartRound] + [TakeNext] + [CodeHash(x.op.codeHash)], last, y.op);
    var done := events + [StartRound] + [TakeNext] + [CodeHash(x.op.codeHash)] + [TakeNext] + [CodeHash(y.op.codeHash)];
    Extend(ident, done, last, FinishRound);
    last := Step(ident, last, 100, FinishRound).0;
  }

  lemma QuietStep(ident: Identity, events: seq<Event>, lane: Lane, op: Operation) returns (last: Lane)
    requires Reached(ident, events, lane) && Enabled(ident, lane, TakeNext)
    requires PoolFor(lane.senders, lane.round.todo[0]) != [] && op == PoolFor(lane.senders, lane.round.todo[0])[0].op
    ensures Reached(ident, events + [TakeNext] + [CodeHash(op.codeHash)], last)
    ensures last.round == lane.round.(todo := lane.round.todo[1..], bundle := lane.round.bundle + [op],
                                      taken := lane.round.taken + [op])
    ensures last.queue == lane.queue
    ensures forall b :: b != lane.round.todo[0] ==> PoolFor(last.senders, b) == PoolFor(lane.senders, b)
  {
    ReachedInv(ident, events, lane);
    QuietVisit(ident, lane, op);
    Extend(ident, events, lane, TakeNext);
    Extend(ident, events + [TakeNext], Take(lane), CodeHash(op.codeHash));
    last := Settle(Take(lane), op.codeHash);
  }
}
