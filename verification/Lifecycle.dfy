/**
 The life of a UserOperation across the bundler: admission by RPC or gossip, the bundling round
 with its suspension points, the send queue, sending, and the debug reset.

 One lane is one entrypoint: its mempool, its send queue, its bundling round and a ledger of
 where operations went. A step is what runs between two suspension points of the event loop, so
 a run is any interleaving of admissions with a suspended round. The bundler is several lanes
 that share the gas price multiplier.
 */
module Lifecycle {
  import opened Basics
  import opened SenderMempools
  import opened SenderDirectory
  import opened BundleSending
  import opened Reputation

  /** Why an operation is no longer pooled, in a round or queued. `Lost` are operations that an
      exception in the round took with it, `Ignored` those the silent branch never stored. */
  datatype Fate = Sent | Replaced | CodeChanged | NotSent | Ignored | Cleared | Lost

  datatype Departure = Departure(op: Operation, fate: Fate)

  /** Every operation whose admission completed, every departure, and the hashes that gossip
      committed, in order. */
  datatype Ledger = Ledger(admitted: seq<Operation>, gone: seq<Departure>, gossiped: seq<Hash>)

  /** `todo` are the senders of the snapshot not yet visited, `held` is the operation that has
      been popped while its code hash is awaited, `bundle` is the list built so far. `start` and
      `taken` record the directory at the snapshot and everything popped since. */
  datatype Round =
    | Idle
    | Collecting(todo: seq<Address>, held: Option<Operation>, bundle: seq<Operation>,
                 start: Directory, taken: seq<Operation>)

  datatype Lane = Lane(
    senders: Directory,
    counters: map<Address, nat>,
    seen: set<Hash>,
    round: Round,
    queue: seq<Operation>,
    ledger: Ledger)

  const EMPTY_LANE := Lane([], map[], {}, Idle, [], Ledger([], [], []))

  datatype Event =
    | Submit(entry: Entry, staked: bool)
    | Gossip(entry: Entry, staked: bool)
    | Gate(entities: seq<Address>, statuses: Address -> Status)
    | StartRound
    | TakeNext
    | CodeHash(answer: Option<string>)
    | AbortRound
    | FinishRound
    | SendQueue(replies: Replies)
    | Clear

  // Entity counters

  function CountFor(counters: map<Address, nat>, e: Address): nat {
    if e in counters then counters[e] else 0
  }

  function CountUp(counters: map<Address, nat>, entity: Option<Address>): map<Address, nat> {
    if entity.None? then counters
    else counters[entity.value := CountFor(counters, entity.value) + 1]
  }

  /** How often operations name an entity as factory or as paymaster. */
  ghost function Roles(ops: seq<Operation>, e: Address): nat {
    if ops == [] then 0 else RolesOf(ops[0], e) + Roles(ops[1..], e)
  }

  ghost function RolesOf(op: Operation, e: Address): nat {
    (if op.factory == Some(e) then 1 else 0) + (if op.paymaster == Some(e) then 1 else 0)
  }

  // The reputation gate in front of an admission

  function Admissible(counters: map<Address, nat>, e: Address, status: Status): bool {
    status != BANNED && !(status == THROTTLED && CountFor(counters, e) > 0)
  }

  /** The counters after the gate: each entity it looked at has one, the first refused is the last. */
  function Gated(counters: map<Address, nat>, entities: seq<Address>, statuses: Address -> Status): map<Address, nat>
    decreases |entities|
  {
    if entities == [] then counters
    else
      var e := entities[0];
      var next := counters[e := CountFor(counters, e)];
      if Admissible(counters, e, statuses(e)) then Gated(next, entities[1..], statuses) else next
  }

  /** Whether the gate lets an admission through. */
  function Passes(counters: map<Address, nat>, entities: seq<Address>, statuses: Address -> Status): bool
    decreases |entities|
  {
    entities == [] ||
    var e := entities[0];
    Admissible(counters, e, statuses(e)) && Passes(counters[e := CountFor(counters, e)], entities[1..], statuses)
  }

  // Steps

  ghost function Commit(lane: Lane, e: Entry, staked: bool): Lane {
    var pool := PoolFor(lane.senders, e.op.sender);
    var outcome := OutcomeOf(pool, e.op, staked);
    if outcome.Rejected? then lane
    else
      var stored := lane.(
        senders := SetPool(lane.senders, e.op.sender, After(pool, e, staked)),
        counters := CountUp(CountUp(lane.counters, e.op.factory), e.op.paymaster),
        ledger := lane.ledger.(admitted := lane.ledger.admitted + [e.op]));
      match outcome
      case Replaced(previous) => Leave(stored, [previous.op], Fate.Replaced)
      case Ignored => Leave(stored, [e.op], Fate.Ignored)
      case Added => stored
      case Rejected => stored
  }

  ghost function Departing(ops: seq<Operation>, fate: Fate): seq<Departure> {
    seq(|ops|, i requires 0 <= i < |ops| => Departure(ops[i], fate))
  }

  ghost function Leave(lane: Lane, ops: seq<Operation>, fate: Fate): Lane {
    lane.(ledger := lane.ledger.(gone := lane.ledger.gone + Departing(ops, fate)))
  }

  ghost function Marked(lane: Lane, hash: Hash): Lane {
    lane.(seen := lane.seen + {hash}, ledger := lane.ledger.(gossiped := lane.ledger.gossiped + [hash]))
  }

  ghost function Take(lane: Lane): Lane
    requires lane.round.Collecting? && lane.round.todo != []
  {
    var r := lane.round;
    var a := r.todo[0];
    var pool := PoolFor(lane.senders, a);
    if pool == [] then lane.(round := r.(todo := r.todo[1..]))
    else lane.(
      senders := SetPool(lane.senders, a, pool[1..]),
      round := r.(todo := r.todo[1..], held := Some(pool[0].op), taken := r.taken + [pool[0].op]))
  }

  /** Whether an operation may be bundled: the node was not asked for the code hash, or its answer is
      the one that was noted at validation. An operation without a note never passes a question. */
  predicate CodeUnchanged(op: Operation, answer: Option<string>) { answer.None? || answer == op.codeHash }

  ghost function Settle(lane: Lane, answer: Option<string>): Lane
    requires lane.round.Collecting? && lane.round.held.Some?
  {
    var r := lane.round;
    var op := r.held.value;
    if !CodeUnchanged(op, answer) then Leave(lane, [op], CodeChanged).(round := r.(held := None))
    else lane.(
      round := r.(held := None, bundle := r.bundle + [op]),
      senders := if PoolFor(lane.senders, op.sender) == [] then Remove(lane.senders, op.sender) else lane.senders)
  }

  ghost predicate Enabled(ident: Identity, lane: Lane, e: Event) {
    match e
    case Submit(entry, _) => Coherent(ident, entry) && entry.op.id == |lane.ledger.admitted|
    case Gossip(entry, _) => Coherent(ident, entry) && entry.op.id == |lane.ledger.admitted|
    case Gate(_, _) => true
    case StartRound => lane.round.Idle?
    case TakeNext => lane.round.Collecting? && lane.round.held.None? && lane.round.todo != []
    case CodeHash(_) => lane.round.Collecting? && lane.round.held.Some?
    case AbortRound => lane.round.Collecting? && lane.round.held.Some?
    case FinishRound => lane.round.Collecting? && lane.round.held.None? && lane.round.todo == []
    case SendQueue(_) => lane.queue != []
    case Clear => lane.round.Idle?
  }

  ghost function Step(ident: Identity, lane: Lane, m: nat, e: Event): (Lane, nat)
    requires Enabled(ident, lane, e)
  {
    match e
    case Submit(entry, staked) => (Commit(lane, entry, staked), m)
    case Gossip(entry, staked) =>
      if entry.hash in lane.seen then (lane, m) else (Commit(Marked(lane, entry.hash), entry, staked), m)
    case Gate(entities, statuses) => (lane.(counters := Gated(lane.counters, entities, statuses)), m)
    case StartRound => (lane.(round := Collecting(Addresses(lane.senders), None, [], lane.senders, [])), m)
    case TakeNext => (Take(lane), m)
    case CodeHash(answer) => (Settle(lane, answer), m)
    case AbortRound => (Leave(lane, lane.round.bundle + [lane.round.held.value], Lost).(round := Idle), m)
    case FinishRound => (lane.(round := Idle, queue := lane.queue + lane.round.bundle), m)
    case SendQueue(replies) =>
      var r := Send(lane.queue, m, replies, 0);
      (Leave(Leave(lane, r.sent, Fate.Sent), r.dropped, NotSent).(queue := r.kept), r.multiplier)
    case Clear => (Leave(lane, PooledOps(lane.senders), Cleared).(senders := []), m)
  }

  ghost function PooledOps(d: Directory): seq<Operation> {
    if d == [] then [] else Ops(d[0].pool) + PooledOps(d[1..])
  }

  lemma {:induction false} PooledOpsAreAll(d: Directory)
    ensures multiset(PooledOps(d)) == Pooled(d)
  {
    if d != [] {
      PooledOpsAreAll(d[1..]);
    }
  }

  // Conservation

  ghost function InRound(r: Round): multiset<Operation> {
    if r.Idle? then multiset{}
    else multiset(r.bundle) + (if r.held.Some? then multiset{r.held.value} else multiset{})
  }

  /** How many departures an operation has. */
  ghost function Departures(gone: seq<Departure>, op: Operation): nat {
    if gone == [] then 0 else (if gone[0].op == op then 1 else 0) + Departures(gone[1..], op)
  }

  lemma {:induction false} DeparturesConcat(a: seq<Departure>, b: seq<Departure>, op: Operation)
    ensures Departures(a + b, op) == Departures(a, op) + Departures(b, op)
  {
    if a == [] {
      assert a + b == b;
    } else {
      DeparturesConcat(a[1..], b, op);
      assert (a + b)[1..] == a[1..] + b;
    }
  }

  lemma {:induction false} DepartingCounts(ops: seq<Operation>, fate: Fate, op: Operation)
    ensures Departures(Departing(ops, fate), op) == multiset(ops)[op]
  {
    if ops != [] {
      DepartingCounts(ops[1..], fate, op);
      assert ops == [ops[0]] + ops[1..];
      assert Departing(ops, fate)[1..] == Departing(ops[1..], fate);
    }
  }

  /** How often an operation occurs in the pools, in the round, in the queue and among the
      departures together. */
  ghost function Everywhere(lane: Lane, op: Operation): nat {
    Pooled(lane.senders)[op] + InRound(lane.round)[op] + multiset(lane.queue)[op]
    + Departures(lane.ledger.gone, op)
  }

  lemma LeaveCounts(lane: Lane, ops: seq<Operation>, fate: Fate, op: Operation)
    ensures Everywhere(Leave(lane, ops, fate), op) == Everywhere(lane, op) + multiset(ops)[op]
  {
    DeparturesConcat(lane.ledger.gone, Departing(ops, fate), op);
    DepartingCounts(ops, fate, op);
  }

  ghost predicate Conserved(lane: Lane) {
    && Numbered(lane.ledger.admitted)
    && (forall op :: Everywhere(lane, op) == multiset(lane.ledger.admitted)[op])
  }

  // The other invariants

  ghost function SendersOf(ops: seq<Operation>): seq<Address> {
    seq(|ops|, i requires 0 <= i < |ops| => ops[i].sender)
  }

  ghost predicate NoDuplicates<T>(s: seq<T>) {
    forall i, j :: 0 <= i < j < |s| ==> s[i] != s[j]
  }

  ghost predicate SubsequenceOf<T>(a: seq<T>, b: seq<T>)
    decreases |b|
  {
    a == [] ||
    (b != [] &&
     var b' := b[..|b| - 1];
     (a[|a| - 1] == b[|b| - 1] && SubsequenceOf(a[..|a| - 1], b')) || SubsequenceOf(a, b'))
  }

  /** What the round has popped and is no longer waiting for. */
  ghost function Settled(r: Round): seq<Operation>
    requires r.Collecting?
  {
    if r.held.Some? && r.taken != [] then r.taken[..|r.taken| - 1] else r.taken
  }

  /** Visited and unvisited senders are all different, and what was settled is, in order, the bundle
      and the operations whose code had changed. */
  ghost predicate BundlingOk(r: Round, gone: seq<Departure>) {
    r.Collecting? ==>
      && NoDuplicates(r.todo + SendersOf(r.taken))
      && (r.held.Some? ==> r.taken != [] && r.held.value == r.taken[|r.taken| - 1])
      && SubsequenceOf(r.bundle, Settled(r))
      && (forall op :: op in Settled(r) ==> op in r.bundle || Departure(op, CodeChanged) in gone)
  }

  /** Unvisited senders and the one being waited for are in the directory, and every sender that had
      operations at the snapshot still has some or has been visited. */
  ghost predicate VisitingOk(r: Round, d: Directory) {
    r.Collecting? ==>
      && (forall a :: a in r.todo ==> Has(d, a))
      && (r.held.Some? ==> Has(d, r.held.value.sender))
      && (forall a :: PoolFor(r.start, a) != [] ==> (a in r.todo && PoolFor(d, a) != []) || a in SendersOf(r.taken))
  }

  ghost predicate RoundOk(lane: Lane) {
    BundlingOk(lane.round, lane.ledger.gone) && VisitingOk(lane.round, lane.senders)
  }

  /** The round visits the senders of the snapshot in their order. */
  ghost predicate SnapshotOk(r: Round) {
    r.Collecting? ==>
      && DistinctSenders(r.start) && |r.todo| <= |r.start|
      && r.todo == Addresses(r.start)[|r.start| - |r.todo|..]
      && SubsequenceOf(SendersOf(r.taken), Addresses(r.start)[..|r.start| - |r.todo|])
  }

  /** The oldest operation a sender had at the snapshot: still the oldest of a sender that is still
      to be visited, or popped by the round, or replaced. */
  ghost predicate OldestAccounted(lane: Lane, a: Address)
    requires lane.round.Collecting? && PoolFor(lane.round.start, a) != []
  {
    var (oldest, pool) := (PoolFor(lane.round.start, a)[0].op, PoolFor(lane.senders, a));
    || (a in lane.round.todo && pool != [] && pool[0].op == oldest)
    || oldest in lane.round.taken
    || Departure(oldest, Fate.Replaced) in lane.ledger.gone
  }

  ghost predicate OldestOk(lane: Lane) {
    lane.round.Collecting? ==> forall a :: PoolFor(lane.round.start, a) != [] ==> OldestAccounted(lane, a)
  }

  /** An entity counter is the number of completed admissions that name the entity, per role. */
  ghost predicate CountersOk(lane: Lane) {
    forall e :: CountFor(lane.counters, e) == Roles(lane.ledger.admitted, e)
  }

  ghost predicate GossipOk(lane: Lane) {
    NoDuplicates(lane.ledger.gossiped) && forall h :: h in lane.ledger.gossiped ==> h in lane.seen
  }

  ghost predicate Inv(ident: Identity, lane: Lane) {
    && DirectoryOk(ident, lane.senders) && Conserved(lane)
    && RoundOk(lane) && SnapshotOk(lane.round) && OldestOk(lane)
    && CountersOk(lane) && GossipOk(lane)
  }

  lemma EmptyLaneOk(ident: Identity)
    ensures Inv(ident, EMPTY_LANE)
  {
  }

  // Directory

  lemma CommitDirectory(ident: Identity, lane: Lane, e: Entry, staked: bool)
    requires DirectoryOk(ident, lane.senders) && Coherent(ident, e)
    ensures DirectoryOk(ident, Commit(lane, e, staked).senders)
  {
    var pool := PoolFor(lane.senders, e.op.sender);
    PoolForOk(ident, lane.senders, e.op.sender);
    AfterOk(ident, e.op.sender, pool, e, staked);
    SetPoolOk(ident, lane.senders, e.op.sender, After(pool, e, staked));
  }

  lemma StepDirectory(ident: Identity, lane: Lane, m: nat, e: Event)
    requires DirectoryOk(ident, lane.senders) && Enabled(ident, lane, e)
    ensures DirectoryOk(ident, Step(ident, lane, m, e).0.senders)
  {
    match e
    case Submit(entry, staked) => CommitDirectory(ident, lane, entry, staked);
    case Gossip(entry, staked) => CommitDirectory(ident, lane, entry, staked);
    case TakeNext =>
      var a := lane.round.todo[0];
      var pool := PoolFor(lane.senders, a);
      PoolForOk(ident, lane.senders, a);
      if pool != [] {
        SetPoolOk(ident, lane.senders, a, pool[1..]);
      }
    case CodeHash(_) => RemoveOk(ident, lane.senders, lane.round.held.value.sender);
    case Gate(_, _) =>
    case StartRound =>
    case AbortRound =>
    case FinishRound =>
    case SendQueue(_) =>
    case Clear =>
  }

  // Conservation, step by step

  /** The change in the number of places an operation is in equals the change in admissions. */
  ghost predicate Balanced(before: Lane, after: Lane, op: Operation) {
    Everywhere(after, op) + multiset(before.ledger.admitted)[op]
    == Everywhere(before, op) + multiset(after.ledger.admitted)[op]
  }

  lemma CommitBalanced(lane: Lane, e: Entry, staked: bool, op: Operation)
    requires DistinctSenders(lane.senders)
    ensures Balanced(lane, Commit(lane, e, staked), op)
  {
    var pool := PoolFor(lane.senders, e.op.sender);
    var outcome := OutcomeOf(pool, e.op, staked);
    var next := Commit(lane, e, staked);
    AddedToPool(lane.senders, e, staked, op);
    if outcome.Replaced? {
      LeaveCounts(lane, [outcome.previous.op], Fate.Replaced, op);
    } else if outcome.Ignored? {
      LeaveCounts(lane, [e.op], Fate.Ignored, op);
    }
  }

  lemma AddedToPool(d: Directory, e: Entry, staked: bool, op: Operation)
    requires DistinctSenders(d)
    ensures var pool := PoolFor(d, e.op.sender);
            var o := OutcomeOf(pool, e.op, staked);
            Pooled(SetPool(d, e.op.sender, After(pool, e, staked)))[op]
            + (if o.Replaced? && op == o.previous.op then 1 else 0)
            == Pooled(d)[op] + (if (o.Added? || o.Replaced?) && op == e.op then 1 else 0)
  {
    var pool := PoolFor(d, e.op.sender);
    var after := After(pool, e, staked);
    PooledSet(d, e.op.sender, after);
    assert (Pooled(SetPool(d, e.op.sender, after)) + multiset(Ops(pool)))[op] == (Pooled(d) + multiset(Ops(after)))[op];
    AddedCounts(pool, e, staked, op);
  }

  lemma AddedCounts(pool: Pool, e: Entry, staked: bool, op: Operation)
    ensures var o := OutcomeOf(pool, e.op, staked);
            multiset(Ops(After(pool, e, staked)))[op] + (if o.Replaced? && op == o.previous.op then 1 else 0)
            == multiset(Ops(pool))[op] + (if (o.Added? || o.Replaced?) && op == e.op then 1 else 0)
  {
    AfterConserves(pool, e, staked);
    var (o, before, after) :=
      (OutcomeOf(pool, e.op, staked), multiset(Ops(pool)), multiset(Ops(After(pool, e, staked))));
    if o.Added? {
      assert after[op] == (before + multiset{e.op})[op];
    } else if o.Replaced? {
      assert (after + multiset{o.previous.op})[op] == (before + multiset{e.op})[op];
    }
  }

  lemma TakeBalanced(lane: Lane, op: Operation)
    requires DistinctSenders(lane.senders)
    requires lane.round.Collecting? && lane.round.held.None? && lane.round.todo != []
    ensures Balanced(lane, Take(lane), op)
  {
    var a := lane.round.todo[0];
    var pool := PoolFor(lane.senders, a);
    if pool != [] {
      TakenFromPool(lane.senders, a, op);
      var (r, r') := (lane.round, Take(lane).round);
      assert InRound(r')[op] == InRound(r)[op] + (if op == pool[0].op then 1 else 0);
    }
  }

  lemma TakenFromPool(d: Directory, a: Address, op: Operation)
    requires DistinctSenders(d) && PoolFor(d, a) != []
    ensures var pool := PoolFor(d, a);
            Pooled(SetPool(d, a, pool[1..]))[op] + (if op == pool[0].op then 1 else 0) == Pooled(d)[op]
  {
    var pool := PoolFor(d, a);
    PooledSet(d, a, pool[1..]);
    assert Ops(pool) == [pool[0].op] + Ops(pool[1..]);
    assert (Pooled(SetPool(d, a, pool[1..])) + multiset(Ops(pool)))[op] == (Pooled(d) + multiset(Ops(pool[1..])))[op];
  }

  lemma SettleBalanced(lane: Lane, answer: Option<string>, op: Operation)
    requires lane.round.Collecting? && lane.round.held.Some?
    ensures Balanced(lane, Settle(lane, answer), op)
  {
    var held := lane.round.held.value;
    var r' := Settle(lane, answer).round;
    if !CodeUnchanged(held, answer) {
      LeaveCounts(lane, [held], CodeChanged, op);
      assert InRound(lane.round)[op] == InRound(r')[op] + multiset([held])[op];
    } else {
      assert multiset(r'.bundle) == multiset(lane.round.bundle) + multiset{held};
    }
    if PoolFor(lane.senders, held.sender) == [] {
      PooledRemoveEmpty(lane.senders, held.sender);
    }
  }

  lemma SettledBalanced(lane: Lane, r: SendResult, op: Operation)
    requires Accounted(r) == multiset(lane.queue)
    ensures Balanced(lane, Leave(Leave(lane, r.sent, Fate.Sent), r.dropped, NotSent).(queue := r.kept), op)
  {
    assert Accounted(r)[op] == multiset(r.kept)[op] + multiset(r.sent)[op] + multiset(r.dropped)[op];
    LeaveCounts(lane, r.sent, Fate.Sent, op);
    LeaveCounts(Leave(lane, r.sent, Fate.Sent), r.dropped, NotSent, op);
  }

  lemma SendBalanced(ident: Identity, lane: Lane, m: nat, replies: Replies, op: Operation)
    requires lane.queue != []
    ensures Balanced(lane, Step(ident, lane, m, SendQueue(replies)).0, op)
  {
    SendConserves(lane.queue, m, replies, 0);
    SettledBalanced(lane, Send(lane.queue, m, replies, 0), op);
  }

  lemma AbortBalanced(ident: Identity, lane: Lane, m: nat, op: Operation)
    requires lane.round.Collecting? && lane.round.held.Some?
    ensures Balanced(lane, Step(ident, lane, m, AbortRound).0, op)
  {
    LeaveCounts(lane, lane.round.bundle + [lane.round.held.value], Lost, op);
  }

  lemma ClearBalanced(ident: Identity, lane: Lane, m: nat, op: Operation)
    requires lane.round.Idle?
    ensures Balanced(lane, Step(ident, lane, m, Clear).0, op)
  {
    PooledOpsAreAll(lane.senders);
    LeaveCounts(lane, PooledOps(lane.senders), Cleared, op);
  }

  lemma GossipBalanced(ident: Identity, lane: Lane, m: nat, e: Entry, staked: bool, op: Operation)
    requires DistinctSenders(lane.senders) && Enabled(ident, lane, Gossip(e, staked))
    ensures Balanced(lane, Step(ident, lane, m, Gossip(e, staked)).0, op)
  {
    if e.hash !in lane.seen {
      CommitBalanced(Marked(lane, e.hash), e, staked, op);
    }
  }

  lemma StartBalanced(ident: Identity, lane: Lane, m: nat, op: Operation)
    requires lane.round.Idle?
    ensures Balanced(lane, Step(ident, lane, m, StartRound).0, op)
  {
  }

  lemma GateBalanced(ident: Identity, lane: Lane, m: nat, e: Event, op: Operation)
    requires e.Gate?
    ensures Balanced(lane, Step(ident, lane, m, e).0, op)
  {
  }

  lemma FinishBalanced(ident: Identity, lane: Lane, m: nat, op: Operation)
    requires lane.round.Collecting? && lane.round.held.None? && lane.round.todo == []
    ensures Balanced(lane, Step(ident, lane, m, FinishRound).0, op)
  {
  }

  lemma StepBalanced(ident: Identity, lane: Lane, m: nat, e: Event, op: Operation)
    requires DirectoryOk(ident, lane.senders) && Enabled(ident, lane, e)
    ensures Balanced(lane, Step(ident, lane, m, e).0, op)
  {
    match e
    case Submit(entry, staked) => CommitBalanced(lane, entry, staked, op);
    case Gossip(entry, staked) => GossipBalanced(ident, lane, m, entry, staked, op);
    case TakeNext => TakeBalanced(lane, op);
    case CodeHash(answer) => SettleBalanced(lane, answer, op);
    case SendQueue(replies) => SendBalanced(ident, lane, m, replies, op);
    case Clear => ClearBalanced(ident, lane, m, op);
    case AbortRound => AbortBalanced(ident, lane, m, op);
    case FinishRound => FinishBalanced(ident, lane, m, op);
    case StartRound => StartBalanced(ident, lane, m, op);
    case Gate(_, _) => GateBalanced(ident, lane, m, e, op);
  }

  lemma StepAdmits(ident: Identity, lane: Lane, m: nat, e: Event)
    requires Enabled(ident, lane, e)
    ensures var (before, after) := (lane.ledger.admitted, Step(ident, lane, m, e).0.ledger.admitted);
            after == before
            || (|after| == |before| + 1 && after[..|before|] == before && after[|before|].id == |before|)
  {
    match e
    case Submit(entry, staked) => CommitAdmits(lane, entry, staked);
    case Gossip(entry, staked) => CommitAdmits(Marked(lane, entry.hash), entry, staked);
    case _ =>
  }

  lemma CommitAdmits(lane: Lane, e: Entry, staked: bool)
    ensures var (before, after) := (lane.ledger.admitted, Commit(lane, e, staked).ledger.admitted);
            after == before || after == before + [e.op]
  {
  }

  lemma StepConserved(ident: Identity, lane: Lane, m: nat, e: Event)
    requires DirectoryOk(ident, lane.senders) && Conserved(lane) && Enabled(ident, lane, e)
    ensures Conserved(Step(ident, lane, m, e).0)
  {
    StepAdmits(ident, lane, m, e);
    StillNumbered(lane.ledger.admitted, Step(ident, lane, m, e).0.ledger.admitted);
    StillConserved(ident, lane, m, e, Step(ident, lane, m, e).0);
  }

  ghost predicate Numbered(admitted: seq<Operation>) {
    forall i :: 0 <= i < |admitted| ==> admitted[i].id == i
  }

  lemma StillNumbered(before: seq<Operation>, after: seq<Operation>)
    requires Numbered(before)
    requires after == before
             || (|after| == |before| + 1 && after[..|before|] == before && after[|before|].id == |before|)
    ensures Numbered(after)
  {
    if after != before {
      assert forall i :: 0 <= i < |before| ==> after[i] == after[..|before|][i];
    }
  }

  lemma StillConserved(ident: Identity, lane: Lane, m: nat, e: Event, after: Lane)
    requires DirectoryOk(ident, lane.senders) && Conserved(lane) && Enabled(ident, lane, e)
    requires after == Step(ident, lane, m, e).0
    ensures forall op :: Everywhere(after, op) == multiset(after.ledger.admitted)[op]
  {
    forall op ensures Everywhere(after, op) == multiset(after.ledger.admitted)[op] {
      StepBalanced(ident, lane, m, e, op);
      assert Everywhere(lane, op) == multiset(lane.ledger.admitted)[op];
    }
  }

  // The round, step by step

  lemma GoneGrows(r: Round, gone: seq<Departure>, more: seq<Departure>)
    requires BundlingOk(r, gone)
    ensures BundlingOk(r, gone + more)
  {
    assert forall d :: d in gone ==> d in gone + more;
  }

  lemma SetVisiting(r: Round, d: Directory, a: Address, pool: Pool)
    requires DistinctSenders(d) && VisitingOk(r, d) && (PoolFor(d, a) != [] ==> pool != [])
    ensures VisitingOk(r, SetPool(d, a, pool))
  {
    forall b ensures PoolFor(SetPool(d, a, pool), b) == (if a == b then pool else PoolFor(d, b))
             ensures Has(SetPool(d, a, pool), b) <==> a == b || Has(d, b)
    {
      PoolForSet(d, a, pool, b);
    }
  }

  lemma CommitRound(lane: Lane, e: Entry, staked: bool)
    requires DistinctSenders(lane.senders) && RoundOk(lane)
    ensures RoundOk(Commit(lane, e, staked))
  {
    var pool := PoolFor(lane.senders, e.op.sender);
    var outcome := OutcomeOf(pool, e.op, staked);
    SetVisiting(lane.round, lane.senders, e.op.sender, After(pool, e, staked));
    if outcome.Replaced? {
      GoneGrows(lane.round, lane.ledger.gone, Departing([outcome.previous.op], Fate.Replaced));
    } else if outcome.Ignored? {
      GoneGrows(lane.round, lane.ledger.gone, Departing([e.op], Fate.Ignored));
    }
  }

  lemma TakeBundling(r: Round, gone: seq<Departure>, popped: Option<Operation>)
    requires BundlingOk(r, gone) && r.Collecting? && r.held.None? && r.todo != []
    requires popped.Some? ==> popped.value.sender == r.todo[0]
    ensures BundlingOk(r.(todo := r.todo[1..], held := popped,
                          taken := r.taken + if popped.Some? then [popped.value] else []), gone)
  {
    var a := r.todo[0];
    assert r.todo == [a] + r.todo[1..];
    if popped.None? {
      NoDuplicatesDrop(a, r.todo[1..], SendersOf(r.taken));
      assert r.taken + [] == r.taken;
    } else {
      var taken := r.taken + [popped.value];
      assert SendersOf(taken) == SendersOf(r.taken) + [a] && taken[..|taken| - 1] == r.taken;
      NoDuplicatesRotate(a, r.todo[1..], SendersOf(r.taken));
    }
  }

  lemma TakeVisiting(r: Round, d: Directory, op: Operation)
    requires DistinctSenders(d) && VisitingOk(r, d) && r.Collecting? && r.todo != []
    requires op.sender == r.todo[0] && PoolFor(d, r.todo[0]) != []
    ensures VisitingOk(r.(todo := r.todo[1..], held := Some(op), taken := r.taken + [op]),
                       SetPool(d, r.todo[0], PoolFor(d, r.todo[0])[1..]))
  {
    var (a, pool) := (r.todo[0], PoolFor(d, r.todo[0])[1..]);
    assert r.todo == [a] + r.todo[1..];
    assert SendersOf(r.taken + [op]) == SendersOf(r.taken) + [a];
    forall b ensures PoolFor(SetPool(d, a, pool), b) == (if a == b then pool else PoolFor(d, b))
             ensures Has(SetPool(d, a, pool), b) <==> a == b || Has(d, b)
    {
      PoolForSet(d, a, pool, b);
    }
  }

  lemma TakeRound(ident: Identity, lane: Lane)
    requires DirectoryOk(ident, lane.senders) && RoundOk(lane)
    requires lane.round.Collecting? && lane.round.held.None? && lane.round.todo != []
    ensures RoundOk(Take(lane))
  {
    var (r, pool) := (lane.round, PoolFor(lane.senders, lane.round.todo[0]));
    if pool == [] {
      TakeBundling(r, lane.ledger.gone, None);
      assert r.todo == [r.todo[0]] + r.todo[1..] && r.taken + [] == r.taken;
    } else {
      PoolForOk(ident, lane.senders, r.todo[0]);
      TakeBundling(r, lane.ledger.gone, Some(pool[0].op));
      TakeVisiting(r, lane.senders, pool[0].op);
    }
  }

  /** The sender waited for is not among the unvisited. */
  lemma HeldIsVisited(r: Round, gone: seq<Departure>, b: Address)
    requires BundlingOk(r, gone) && r.Collecting? && r.held.Some? && b in r.todo
    ensures b != r.held.value.sender
  {
    var i :| 0 <= i < |r.todo| && r.todo[i] == b;
    var all := r.todo + SendersOf(r.taken);
    assert all[i] == b && all[|all| - 1] == r.held.value.sender;
  }

  lemma SettleBundling(r: Round, gone: seq<Departure>, kept: bool)
    requires BundlingOk(r, gone) && r.Collecting? && r.held.Some?
    ensures var op := r.held.value;
            if kept then BundlingOk(r.(held := None, bundle := r.bundle + [op]), gone)
            else BundlingOk(r.(held := None), gone + Departing([op], CodeChanged))
  {
    var op := r.held.value;
    assert r.taken == Settled(r) + [op];
    if kept {
      assert (r.bundle + [op])[..|r.bundle|] == r.bundle && r.taken[..|r.taken| - 1] == Settled(r);
    } else {
      GoneGrows(r, gone, Departing([op], CodeChanged));
      assert (gone + Departing([op], CodeChanged))[|gone|] == Departure(op, CodeChanged);
      assert r.taken[..|r.taken| - 1] == Settled(r);
    }
  }

  lemma SettleVisiting(r: Round, d: Directory, gone: seq<Departure>)
    requires DistinctSenders(d) && VisitingOk(r, d) && BundlingOk(r, gone) && r.Collecting? && r.held.Some?
    requires PoolFor(d, r.held.value.sender) == []
    ensures VisitingOk(r.(held := None), Remove(d, r.held.value.sender))
  {
    var a := r.held.value.sender;
    forall b | b in r.todo ensures b != a {
      HeldIsVisited(r, gone, b);
    }
    forall b | b != a ensures PoolFor(Remove(d, a), b) == PoolFor(d, b) && (Has(Remove(d, a), b) <==> Has(d, b)) {
      PoolForRemove(d, a, b);
    }
  }

  lemma SettleRound(ident: Identity, lane: Lane, answer: Option<string>)
    requires DirectoryOk(ident, lane.senders) && RoundOk(lane)
    requires lane.round.Collecting? && lane.round.held.Some?
    ensures RoundOk(Settle(lane, answer))
  {
    var (r, op) := (lane.round, lane.round.held.value);
    SettleBundling(r, lane.ledger.gone, CodeUnchanged(op, answer));
    if CodeUnchanged(op, answer) && PoolFor(lane.senders, op.sender) == [] {
      SettleVisiting(r, lane.senders, lane.ledger.gone);
    }
  }

  lemma StartRoundOk(d: Directory, gone: seq<Departure>)
    requires DistinctSenders(d)
    ensures var r := Collecting(Addresses(d), None, [], d, []); BundlingOk(r, gone) && VisitingOk(r, d)
  {
    var r := Collecting(Addresses(d), None, [], d, []);
    assert r.todo + SendersOf(r.taken) == Addresses(d);
    forall a | PoolFor(d, a) != [] ensures a in r.todo {
      assert r.todo[Index(d, a)] == a;
    }
  }

  lemma SendRound(ident: Identity, lane: Lane, m: nat, replies: Replies)
    requires RoundOk(lane) && lane.queue != []
    ensures RoundOk(Step(ident, lane, m, SendQueue(replies)).0)
  {
    var r := Send(lane.queue, m, replies, 0);
    GoneGrows(lane.round, lane.ledger.gone, Departing(r.sent, Fate.Sent));
    GoneGrows(lane.round, lane.ledger.gone + Departing(r.sent, Fate.Sent), Departing(r.dropped, NotSent));
  }

  lemma StepRound(ident: Identity, lane: Lane, m: nat, e: Event)
    requires DirectoryOk(ident, lane.senders) && RoundOk(lane) && Enabled(ident, lane, e)
    ensures RoundOk(Step(ident, lane, m, e).0)
  {
    match e
    case Submit(entry, staked) => CommitRound(lane, entry, staked);
    case Gossip(entry, staked) =>
      var marked := Marked(lane, entry.hash);
      CommitRound(marked, entry, staked);
    case TakeNext => TakeRound(ident, lane);
    case CodeHash(answer) => SettleRound(ident, lane, answer);
    case StartRound => StartRoundOk(lane.senders, lane.ledger.gone);
    case SendQueue(replies) => SendRound(ident, lane, m, replies);
    case Gate(_, _) =>
    case AbortRound =>
    case FinishRound =>
    case Clear =>
  }

  lemma TakeSnapshot(ident: Identity, lane: Lane)
    requires DirectoryOk(ident, lane.senders) && SnapshotOk(lane.round)
    requires lane.round.Collecting? && lane.round.todo != []
    ensures SnapshotOk(Take(lane).round)
  {
    var (r, r') := (lane.round, Take(lane).round);
    var (keys, k) := (Addresses(r.start), |r.start| - |r.todo|);
    assert r'.todo == keys[k + 1..] && keys[..k + 1][..k] == keys[..k] && keys[k] == r.todo[0];
    var pool := PoolFor(lane.senders, r.todo[0]);
    if pool != [] {
      PoolForOk(ident, lane.senders, r.todo[0]);
      var senders := SendersOf(r'.taken);
      assert senders[|r.taken|] == keys[k] && senders[..|r.taken|] == SendersOf(r.taken);
    }
  }

  lemma StartSnapshot(d: Directory)
    requires DistinctSenders(d)
    ensures SnapshotOk(Collecting(Addresses(d), None, [], d, []))
  {
    assert SendersOf([]) == [] && Addresses(d)[0..] == Addresses(d);
  }

  /** Which steps change the round, and how: only a pop changes the list of senders. */
  lemma RoundAfter(ident: Identity, lane: Lane, m: nat, e: Event)
    requires Enabled(ident, lane, e) && !e.StartRound? && !e.TakeNext?
    ensures var r := Step(ident, lane, m, e).0.round;
            r == lane.round || r == Idle
            || (lane.round.Collecting? && r == lane.round.(held := None, bundle := r.bundle))
  {
  }

  lemma StepSnapshot(ident: Identity, lane: Lane, m: nat, e: Event)
    requires DirectoryOk(ident, lane.senders) && SnapshotOk(lane.round) && Enabled(ident, lane, e)
    ensures SnapshotOk(Step(ident, lane, m, e).0.round)
  {
    if e.TakeNext? {
      TakeSnapshot(ident, lane);
    } else if e.StartRound? {
      StartSnapshot(lane.senders);
    } else {
      RoundAfter(ident, lane, m, e);
    }
  }

  lemma CommitOldest(lane: Lane, e: Entry, staked: bool, a: Address)
    requires DistinctSenders(lane.senders) && lane.round.Collecting? && PoolFor(lane.round.start, a) != []
    requires OldestAccounted(lane, a)
    ensures OldestAccounted(Commit(lane, e, staked), a)
  {
    var (pool, after) := (PoolFor(lane.senders, e.op.sender), Commit(lane, e, staked));
    PoolForSet(lane.senders, e.op.sender, After(pool, e, staked), a);
    assert lane.ledger.gone <= after.ledger.gone;
    var outcome := OutcomeOf(pool, e.op, staked);
    if outcome.Replaced? && NonceIndex(pool, e.op.nonce) == 0 {
      assert after.ledger.gone[|lane.ledger.gone|] == Departure(pool[0].op, Fate.Replaced);
    }
  }

  lemma TakeOldest(lane: Lane, a: Address)
    requires DistinctSenders(lane.senders) && lane.round.Collecting? && lane.round.todo != []
    requires PoolFor(lane.round.start, a) != [] && OldestAccounted(lane, a)
    ensures OldestAccounted(Take(lane), a)
  {
    var pool := PoolFor(lane.senders, lane.round.todo[0]);
    if pool != [] {
      PoolForSet(lane.senders, lane.round.todo[0], pool[1..], a);
      assert Take(lane).round.taken[|lane.round.taken|] == pool[0].op;
    }
  }

  lemma SettleOldest(lane: Lane, answer: Option<string>, a: Address)
    requires DistinctSenders(lane.senders) && lane.round.Collecting? && lane.round.held.Some?
    requires PoolFor(lane.round.start, a) != [] && OldestAccounted(lane, a)
    ensures OldestAccounted(Settle(lane, answer), a)
  {
    if a != lane.round.held.value.sender {
      PoolForRemove(lane.senders, lane.round.held.value.sender, a);
    }
    assert lane.ledger.gone <= Settle(lane, answer).ledger.gone;
  }

  lemma StepOldestOf(ident: Identity, lane: Lane, m: nat, e: Event, a: Address)
    requires DistinctSenders(lane.senders) && Enabled(ident, lane, e) && lane.round.Collecting?
    requires Step(ident, lane, m, e).0.round.Collecting?
    requires PoolFor(lane.round.start, a) != [] && OldestAccounted(lane, a)
    ensures Step(ident, lane, m, e).0.round.start == lane.round.start
    ensures OldestAccounted(Step(ident, lane, m, e).0, a)
  {
    match e
    case Submit(entry, staked) => CommitOldest(lane, entry, staked, a);
    case Gossip(entry, staked) => CommitOldest(Marked(lane, entry.hash), entry, staked, a);
    case TakeNext => TakeOldest(lane, a);
    case CodeHash(answer) => SettleOldest(lane, answer, a);
    case SendQueue(_) => assert lane.ledger.gone <= Step(ident, lane, m, e).0.ledger.gone;
    case _ =>
  }

  lemma StepOldest(ident: Identity, lane: Lane, m: nat, e: Event)
    requires DistinctSenders(lane.senders) && OldestOk(lane) && Enabled(ident, lane, e)
    ensures OldestOk(Step(ident, lane, m, e).0)
  {
    var after := Step(ident, lane, m, e).0;
    if after.round.Collecting? {
      forall a | PoolFor(after.round.start, a) != [] ensures OldestAccounted(after, a) {
        if lane.round.Collecting? {
          KeepsStart(ident, lane, m, e);
          StepOldestOf(ident, lane, m, e, a);
        } else {
          assert Addresses(lane.senders)[Index(lane.senders, a)] == a;
        }
      }
    }
  }

  lemma KeepsStart(ident: Identity, lane: Lane, m: nat, e: Event)
    requires Enabled(ident, lane, e) && lane.round.Collecting?
    ensures var r := Step(ident, lane, m, e).0.round; r.Collecting? ==> r.start == lane.round.start
  {
  }

  lemma NoDuplicatesDrop<T>(x: T, a: seq<T>, b: seq<T>)
    requires NoDuplicates([x] + a + b)
    ensures NoDuplicates(a + b)
  {
    assert forall i :: 0 <= i < |a + b| ==> (a + b)[i] == ([x] + a + b)[i + 1];
  }

  lemma NoDuplicatesRotate<T>(x: T, a: seq<T>, b: seq<T>)
    requires NoDuplicates([x] + a + b)
    ensures NoDuplicates(a + (b + [x]))
  {
    NoDuplicatesDrop(x, a, b);
    assert a + (b + [x]) == (a + b) + [x];
    assert forall i :: 0 <= i < |a + b| ==> (a + b)[i] == ([x] + a + b)[i + 1];
    assert ([x] + a + b)[0] == x;
  }

  // Counters and gossip

  lemma {:induction false} RolesConcat(a: seq<Operation>, b: seq<Operation>, e: Address)
    ensures Roles(a + b, e) == Roles(a, e) + Roles(b, e)
  {
    if a == [] {
      assert a + b == b;
    } else {
      RolesConcat(a[1..], b, e);
      assert (a + b)[1..] == a[1..] + b;
    }
  }

  lemma {:induction false} GatedCounts(
    counters: map<Address, nat>, entities: seq<Address>, statuses: Address -> Status, e: Address)
    ensures CountFor(Gated(counters, entities, statuses), e) == CountFor(counters, e)
    decreases |entities|
  {
    if entities != [] && Admissible(counters, entities[0], statuses(entities[0])) {
      GatedCounts(counters[entities[0] := CountFor(counters, entities[0])], entities[1..], statuses, e);
    }
  }

  lemma CommitCounters(lane: Lane, e: Entry, staked: bool)
    requires CountersOk(lane)
    ensures CountersOk(Commit(lane, e, staked))
  {
    forall x
      ensures CountFor(Commit(lane, e, staked).counters, x) == Roles(Commit(lane, e, staked).ledger.admitted, x) {
      RolesConcat(lane.ledger.admitted, [e.op], x);
      CountsUp(lane.counters, e.op, x);
    }
  }

  lemma CountsUp(counters: map<Address, nat>, op: Operation, x: Address)
    ensures CountFor(CountUp(CountUp(counters, op.factory), op.paymaster), x) == CountFor(counters, x) + Roles([op], x)
  {
    assert Roles([op], x) == RolesOf(op, x) + Roles([], x);
  }

  lemma StepCounters(ident: Identity, lane: Lane, m: nat, e: Event)
    requires CountersOk(lane) && Enabled(ident, lane, e)
    ensures CountersOk(Step(ident, lane, m, e).0)
  {
    match e
    case Submit(entry, staked) => CommitCounters(lane, entry, staked);
    case Gossip(entry, staked) => CommitCounters(Marked(lane, entry.hash), entry, staked);
    case Gate(entities, statuses) =>
      forall x ensures CountFor(Gated(lane.counters, entities, statuses), x) == CountFor(lane.counters, x) {
        GatedCounts(lane.counters, entities, statuses, x);
      }
    case TakeNext =>
    case CodeHash(_) =>
    case StartRound =>
    case AbortRound =>
    case FinishRound =>
    case SendQueue(_) =>
    case Clear =>
  }

  /** A hash is committed by gossip only when it has not been seen, and is then marked. */
  lemma StepGossip(ident: Identity, lane: Lane, m: nat, e: Event)
    requires GossipOk(lane) && Enabled(ident, lane, e)
    ensures GossipOk(Step(ident, lane, m, e).0)
  {
    var after := Step(ident, lane, m, e).0;
    assert (after.seen == lane.seen && after.ledger.gossiped == lane.ledger.gossiped)
        || (e.Gossip? && e.entry.hash !in lane.seen && after.seen == lane.seen + {e.entry.hash}
            && after.ledger.gossiped == lane.ledger.gossiped + [e.entry.hash]);
  }

  /** Every step keeps every invariant. */
  lemma StepInv(ident: Identity, lane: Lane, m: nat, e: Event)
    requires Inv(ident, lane) && Enabled(ident, lane, e)
    ensures Inv(ident, Step(ident, lane, m, e).0)
  {
    StepDirectory(ident, lane, m, e);
    StepRound(ident, lane, m, e);
    StepSnapshot(ident, lane, m, e);
    StepOldest(ident, lane, m, e);
    StepCounters(ident, lane, m, e);
    StepGossip(ident, lane, m, e);
    StepConserved(ident, lane, m, e);
  }
}
