/**
 What holds over whole runs of the bundler: every interleaving of admissions, rounds, sends and
 resets on any number of entrypoints.
 */
module Runs {
  import opened Basics
  import opened SenderMempools
  import opened SenderDirectory
  import opened BundleSending
  import opened Lifecycle
  import Reputation

  datatype Bundler = Bundler(lanes: seq<Lane>, multiplier: nat)

  datatype Action = Action(lane: nat, event: Event)

  ghost predicate Initial(b: Bundler) {
    b.multiplier == 100 && forall i :: 0 <= i < |b.lanes| ==> b.lanes[i] == EMPTY_LANE
  }

  ghost predicate Can(ident: Identity, b: Bundler, a: Action) {
    a.lane < |b.lanes| && Enabled(ident, b.lanes[a.lane], a.event)
  }

  ghost function Next(ident: Identity, b: Bundler, a: Action): Bundler
    requires Can(ident, b, a)
  {
    var (lane, m) := Step(ident, b.lanes[a.lane], b.multiplier, a.event);
    Bundler(b.lanes[a.lane := lane], m)
  }

  ghost predicate Run(ident: Identity, b: Bundler, actions: seq<Action>)
    decreases |actions|
  {
    actions == [] || (Can(ident, b, actions[0]) && Run(ident, Next(ident, b, actions[0]), actions[1..]))
  }

  ghost function Final(ident: Identity, b: Bundler, actions: seq<Action>): Bundler
    requires Run(ident, b, actions)
    decreases |actions|
  {
    if actions == [] then b else Final(ident, Next(ident, b, actions[0]), actions[1..])
  }

  ghost predicate BundlerOk(ident: Identity, b: Bundler) {
    MultiplierOk(b.multiplier) && forall i :: 0 <= i < |b.lanes| ==> Inv(ident, b.lanes[i])
  }

  lemma NextOk(ident: Identity, b: Bundler, a: Action)
    requires BundlerOk(ident, b) && Can(ident, b, a)
    ensures BundlerOk(ident, Next(ident, b, a))
  {
    StepInv(ident, b.lanes[a.lane], b.multiplier, a.event);
    if a.event.SendQueue? {
      SendMultiplier(b.lanes[a.lane].queue, b.multiplier, a.event.replies, 0);
    }
  }

  /** Every reachable state satisfies every invariant, and the multiplier is a multiple of ten
      between 100 and 210. */
  lemma {:induction false} RunOk(ident: Identity, b: Bundler, actions: seq<Action>)
    requires BundlerOk(ident, b) && Run(ident, b, actions)
    ensures BundlerOk(ident, Final(ident, b, actions))
    decreases |actions|
  {
    if actions != [] {
      NextOk(ident, b, actions[0]);
      RunOk(ident, Next(ident, b, actions[0]), actions[1..]);
    }
  }

  lemma ReachableOk(ident: Identity, b: Bundler, actions: seq<Action>)
    requires Initial(b) && Run(ident, b, actions)
    ensures BundlerOk(ident, Final(ident, b, actions))
  {
    EmptyLaneOk(ident);
    RunOk(ident, b, actions);
  }

  // Conservation

  /** In every reachable state each admitted operation is in exactly one place, once: pooled, in
      the round, in the send queue, or departed for exactly one reason; and nothing else is
      anywhere. */
  lemma ExactlyOnePlace(ident: Identity, b: Bundler, actions: seq<Action>, i: nat, op: Operation)
    requires Initial(b) && Run(ident, b, actions) && i < |b.lanes|
    ensures |Final(ident, b, actions).lanes| == |b.lanes|
    ensures var lane := Final(ident, b, actions).lanes[i];
            var (pooled, inRound) := (Pooled(lane.senders)[op], InRound(lane.round)[op]);
            var (queued, departed) := (multiset(lane.queue)[op], Departures(lane.ledger.gone, op));
            pooled + inRound + queued + departed == if op in lane.ledger.admitted then 1 else 0
  {
    ReachableOk(ident, b, actions);
    SameLanes(ident, b, actions);
    var lane := Final(ident, b, actions).lanes[i];
    assert Everywhere(lane, op) == multiset(lane.ledger.admitted)[op];
    AdmittedOnce(lane.ledger.admitted, op);
  }

  lemma {:induction false} SameLanes(ident: Identity, b: Bundler, actions: seq<Action>)
    requires Run(ident, b, actions)
    ensures |Final(ident, b, actions).lanes| == |b.lanes|
    decreases |actions|
  {
    if actions != [] {
      SameLanes(ident, Next(ident, b, actions[0]), actions[1..]);
    }
  }

  lemma {:induction false} AdmittedOnce(admitted: seq<Operation>, op: Operation)
    requires Numbered(admitted)
    ensures multiset(admitted)[op] == if op in admitted then 1 else 0
  {
    if admitted != [] {
      var n := |admitted| - 1;
      AdmittedOnce(admitted[..n], op);
      assert admitted == admitted[..n] + [admitted[n]];
    }
  }

  /** Departures are final: the record only grows at its end, as does the list of admissions. */
  lemma {:induction false} FatesAreFinal(ident: Identity, b: Bundler, actions: seq<Action>, i: nat)
    requires Run(ident, b, actions) && i < |b.lanes|
    ensures |Final(ident, b, actions).lanes| == |b.lanes|
    ensures var (was, now) := (b.lanes[i].ledger, Final(ident, b, actions).lanes[i].ledger);
            was.gone <= now.gone && was.admitted <= now.admitted && was.gossiped <= now.gossiped
    ensures b.lanes[i].seen <= Final(ident, b, actions).lanes[i].seen
    decreases |actions|
  {
    if actions != [] {
      StepGrows(ident, b.lanes[actions[0].lane], b.multiplier, actions[0].event);
      FatesAreFinal(ident, Next(ident, b, actions[0]), actions[1..], i);
    }
  }

  lemma GossipGrows(ident: Identity, lane: Lane, m: nat, e: Event)
    requires Enabled(ident, lane, e)
    ensures lane.ledger.gossiped <= Step(ident, lane, m, e).0.ledger.gossiped
    ensures lane.seen <= Step(ident, lane, m, e).0.seen
  {
  }

  lemma StepGrows(ident: Identity, lane: Lane, m: nat, e: Event)
    requires Enabled(ident, lane, e)
    ensures var (was, now) := (lane.ledger, Step(ident, lane, m, e).0.ledger);
            was.gone <= now.gone && was.admitted <= now.admitted && was.gossiped <= now.gossiped
    ensures lane.seen <= Step(ident, lane, m, e).0.seen
  {
    GossipGrows(ident, lane, m, e);
  }

  // Losses

  ghost function LostIn(gone: seq<Departure>): seq<Operation> {
    if gone == [] then [] else (if gone[0].fate == Lost then [gone[0].op] else []) + LostIn(gone[1..])
  }

  lemma {:induction false} LostConcat(a: seq<Departure>, b: seq<Departure>)
    ensures LostIn(a + b) == LostIn(a) + LostIn(b)
  {
    if a == [] {
      assert a + b == b;
    } else {
      LostConcat(a[1..], b);
      assert (a + b)[0] == a[0] && (a + b)[1..] == a[1..] + b;
      Associates(if a[0].fate == Lost then [a[0].op] else [], LostIn(a[1..]), LostIn(b));
    }
  }

  lemma {:induction false} LostDeparting(ops: seq<Operation>, fate: Fate)
    ensures LostIn(Departing(ops, fate)) == if fate == Lost then ops else []
  {
    if ops != [] {
      LostDeparting(ops[1..], fate);
      assert Departing(ops, fate)[1..] == Departing(ops[1..], fate);
      assert ops == [ops[0]] + ops[1..];
    }
  }

  lemma LostByLeave(lane: Lane, ops: seq<Operation>, fate: Fate)
    ensures LostIn(Leave(lane, ops, fate).ledger.gone) == LostIn(lane.ledger.gone) + if fate == Lost then ops else []
  {
    LostConcat(lane.ledger.gone, Departing(ops, fate));
    LostDeparting(ops, fate);
  }

  lemma LostByCommit(lane: Lane, e: Entry, staked: bool)
    ensures LostIn(Commit(lane, e, staked).ledger.gone) == LostIn(lane.ledger.gone)
  {
    var outcome := OutcomeOf(PoolFor(lane.senders, e.op.sender), e.op, staked);
    if outcome.Replaced? {
      LostByLeave(lane, [outcome.previous.op], Fate.Replaced);
    } else if outcome.Ignored? {
      LostByLeave(lane, [e.op], Fate.Ignored);
    }
  }

  /** What an exception in a round takes with it: all that was collected, and the popped operation. */
  ghost function TakenAlong(ident: Identity, lane: Lane, e: Event): seq<Operation>
    requires Enabled(ident, lane, e)
  {
    if e.AbortRound? then lane.round.bundle + [lane.round.held.value] else []
  }

  lemma LostByStep(ident: Identity, lane: Lane, m: nat, e: Event)
    requires Enabled(ident, lane, e)
    ensures LostIn(Step(ident, lane, m, e).0.ledger.gone) == LostIn(lane.ledger.gone) + TakenAlong(ident, lane, e)
  {
    match e
    case Submit(entry, staked) => LostByCommit(lane, entry, staked);
    case Gossip(entry, staked) => LostByCommit(Marked(lane, entry.hash), entry, staked);
    case CodeHash(answer) => LostByLeave(lane, [lane.round.held.value], CodeChanged);
    case AbortRound => LostByLeave(lane, lane.round.bundle + [lane.round.held.value], Lost);
    case SendQueue(replies) =>
      var r := Send(lane.queue, m, replies, 0);
      LostByLeave(lane, r.sent, Fate.Sent);
      LostByLeave(Leave(lane, r.sent, Fate.Sent), r.dropped, NotSent);
    case Clear => LostByLeave(lane, PooledOps(lane.senders), Cleared);
    case Gate(_, _) =>
    case StartRound =>
    case TakeNext =>
    case FinishRound =>
  }

  lemma LostByNext(ident: Identity, b: Bundler, a: Action, i: nat)
    requires Can(ident, b, a) && i < |b.lanes|
    ensures LostIn(Next(ident, b, a).lanes[i].ledger.gone)
            == LostIn(b.lanes[i].ledger.gone) + if a.lane == i then TakenAlong(ident, b.lanes[i], a.event) else []
  {
    if a.lane == i {
      LostByStep(ident, b.lanes[i], b.multiplier, a.event);
    }
  }

  /** What the exceptions in a run take along on one lane, in order. */
  ghost function Abandoned(ident: Identity, b: Bundler, actions: seq<Action>, i: nat): seq<Operation>
    requires Run(ident, b, actions) && i < |b.lanes|
    decreases |actions|
  {
    if actions == [] then []
    else
      var a := actions[0];
      (if a.lane == i then TakenAlong(ident, b.lanes[i], a.event) else [])
      + Abandoned(ident, Next(ident, b, a), actions[1..], i)
  }

  /** The operations lost over a run are exactly those: at each exception in a round, what the
      round had collected and the operation whose code hash it was waiting for; nothing else is
      ever lost. */
  lemma {:induction false} LostExactlyAtAborts(ident: Identity, b: Bundler, actions: seq<Action>, i: nat)
    requires Run(ident, b, actions) && i < |b.lanes|
    ensures |Final(ident, b, actions).lanes| == |b.lanes|
    ensures LostIn(Final(ident, b, actions).lanes[i].ledger.gone)
            == LostIn(b.lanes[i].ledger.gone) + Abandoned(ident, b, actions, i)
    decreases |actions|
  {
    if actions != [] {
      var a := actions[0];
      LostByNext(ident, b, a, i);
      LostExactlyAtAborts(ident, Next(ident, b, a), actions[1..], i);
      Associates(LostIn(b.lanes[i].ledger.gone), if a.lane == i then TakenAlong(ident, b.lanes[i], a.event) else [],
                 Abandoned(ident, Next(ident, b, a), actions[1..], i));
    }
  }

  // Rounds

  lemma {:induction false} SubsequenceKeeps(a: seq<Operation>, b: seq<Operation>)
    requires SubsequenceOf(a, b) && NoDuplicates(SendersOf(b))
    ensures NoDuplicates(SendersOf(a)) && forall op :: op in a ==> op in b
    decreases |b|
  {
    if a != [] {
      var (a', b') := (a[..|a| - 1], b[..|b| - 1]);
      assert SendersOf(b') == SendersOf(b)[..|b| - 1];
      if a[|a| - 1] == b[|b| - 1] && SubsequenceOf(a', b') {
        SubsequenceKeeps(a', b');
        forall i | 0 <= i < |a| - 1 ensures a[i].sender != a[|a| - 1].sender {
          assert a'[i] in b';
          var j :| 0 <= j < |b'| && b'[j] == a'[i];
          assert SendersOf(b)[j] == a[i].sender && SendersOf(b)[|b| - 1] == a[|a| - 1].sender;
        }
        assert a == a' + [a[|a| - 1]];
        assert SendersOf(a) == SendersOf(a') + [a[|a| - 1].sender];
      } else {
        SubsequenceKeeps(a, b');
      }
    }
  }

  /** When a round ends, it has popped one operation, and only one, of every sender that had any
      at the snapshot, in the order of the dictionary: the oldest, unless that was replaced in the
      meantime. Its bundle is what it popped, in that order, without the operations whose code had
      changed; so no sender text occurs twice in a bundle. */
  lemma FinishedRound(ident: Identity, lane: Lane)
    requires Inv(ident, lane) && Enabled(ident, lane, FinishRound)
    ensures var r := lane.round;
            && NoDuplicates(SendersOf(r.taken)) && SubsequenceOf(SendersOf(r.taken), Addresses(r.start))
            && (forall a :: PoolFor(r.start, a) != [] ==> a in SendersOf(r.taken))
            && (forall a :: PoolFor(r.start, a) != [] ==>
                              var oldest := PoolFor(r.start, a)[0].op;
                              oldest in r.taken || Departure(oldest, Fate.Replaced) in lane.ledger.gone)
            && SubsequenceOf(r.bundle, r.taken)
            && (forall op :: op in r.taken ==> op in r.bundle || Departure(op, CodeChanged) in lane.ledger.gone)
            && NoDuplicates(SendersOf(r.bundle))
  {
    var r := lane.round;
    assert r.todo + SendersOf(r.taken) == SendersOf(r.taken);
    assert Addresses(r.start)[..|r.start|] == Addresses(r.start);
    SubsequenceKeeps(r.bundle, r.taken);
  }

  /** The operation is at this index of its sender's pool. */
  ghost predicate PooledAt(lane: Lane, op: Operation, i: nat) {
    var pool := PoolFor(lane.senders, op.sender);
    i < |pool| && pool[i].op == op
  }

  /** How many more rounds have to end before the operation has left its pool: one per place in
      the pool, and the running one on top when it has already passed this sender. */
  ghost function Patience(lane: Lane, op: Operation, i: nat): nat {
    i + 1 + (if lane.round.Collecting? && op.sender !in lane.round.todo then 1 else 0)
  }

  /** Where an entry is after an addition, unless it was replaced. */
  lemma MovesUp(pool: Pool, e: Entry, staked: bool, i: nat) returns (moved: Option<nat>)
    requires i < |pool|
    ensures var next := After(pool, e, staked);
            if moved.Some? then moved.value <= i && moved.value < |next| && next[moved.value] == pool[i]
            else OutcomeOf(pool, e.op, staked).Replaced? && NonceIndex(pool, e.op.nonce) == i
  {
    AfterKeepsOrder(pool, e, staked, i);
    var next := After(pool, e, staked);
    if i < |next| && next[i] == pool[i] {
      return Some(i);
    } else if 0 < i <= |next| && next[i - 1] == pool[i] {
      return Some(i - 1);
    }
    return None;
  }

  lemma CommitPatience(ident: Identity, lane: Lane, e: Entry, staked: bool, op: Operation, i: nat) returns (i': nat)
    requires DirectoryOk(ident, lane.senders) && PooledAt(lane, op, i) && Coherent(ident, e)
    ensures var after := Commit(lane, e, staked);
            PooledAt(after, op, i') ==> Patience(after, op, i') <= Patience(lane, op, i)
    ensures PooledAt(Commit(lane, e, staked), op, i')
            || Departure(op, Fate.Replaced) in Commit(lane, e, staked).ledger.gone
  {
    var (d, a) := (lane.senders, e.op.sender);
    var pool := PoolFor(d, a);
    var after := Commit(lane, e, staked);
    i' := i;
    if !OutcomeOf(pool, e.op, staked).Rejected? {
      PoolForSet(d, a, After(pool, e, staked), op.sender);
      if a == op.sender {
        var moved := MovesUp(pool, e, staked, i);
        if moved.None? {
          assert after.ledger.gone[|lane.ledger.gone|] == Departure(op, Fate.Replaced);
        } else {
          i' := moved.value;
        }
      }
    }
  }

  lemma TakePatience(ident: Identity, lane: Lane, op: Operation, i: nat) returns (i': nat)
    requires DistinctSenders(lane.senders) && Enabled(ident, lane, TakeNext) && PooledAt(lane, op, i)
    ensures var after := Take(lane);
            || (after.round.held == Some(op))
            || (PooledAt(after, op, i') && Patience(after, op, i') <= Patience(lane, op, i))
  {
    var a := lane.round.todo[0];
    assert lane.round.todo == [a] + lane.round.todo[1..];
    var pool := PoolFor(lane.senders, a);
    i' := i;
    if pool != [] {
      PoolForSet(lane.senders, a, pool[1..], op.sender);
      if a == op.sender && i > 0 {
        i' := i - 1;
      }
    }
  }

  lemma SettlePatience(ident: Identity, lane: Lane, answer: Option<string>, op: Operation, i: nat)
    requires DistinctSenders(lane.senders) && Enabled(ident, lane, CodeHash(answer)) && PooledAt(lane, op, i)
    ensures PooledAt(Settle(lane, answer), op, i) && Patience(Settle(lane, answer), op, i) == Patience(lane, op, i)
  {
    var held := lane.round.held.value;
    if CodeUnchanged(held, answer) && PoolFor(lane.senders, held.sender) == [] {
      PoolForRemove(lane.senders, held.sender, op.sender);
    }
  }

  /** The operation is out of its pool, or at an index that needs no more patience. */
  ghost predicate NoLonger(before: Lane, after: Lane, op: Operation, i: nat, i': nat) {
    Pooled(after.senders)[op] == 0 || (PooledAt(after, op, i') && Patience(after, op, i') <= Patience(before, op, i))
  }

  lemma CommitStep(ident: Identity, lane: Lane, e: Entry, staked: bool, op: Operation, i: nat) returns (i': nat)
    requires DirectoryOk(ident, lane.senders) && PooledAt(lane, op, i) && Coherent(ident, e)
    requires Inv(ident, Commit(lane, e, staked))
    ensures NoLonger(lane, Commit(lane, e, staked), op, i, i')
  {
    i' := CommitPatience(ident, lane, e, staked, op, i);
    DepartedNotPooled(ident, Commit(lane, e, staked), op);
  }

  lemma TakeStep(ident: Identity, lane: Lane, op: Operation, i: nat) returns (i': nat)
    requires DistinctSenders(lane.senders) && Enabled(ident, lane, TakeNext) && PooledAt(lane, op, i)
    requires Inv(ident, Take(lane))
    ensures NoLonger(lane, Take(lane), op, i, i')
  {
    i' := TakePatience(ident, lane, op, i);
    if Take(lane).round.held == Some(op) {
      HeldNotPooled(ident, Take(lane), op);
    }
  }

  /** One step later the operation has left its pool or is at an index that needs no more
      patience, and less by one if the step ended a round. */
  lemma StepPatience(ident: Identity, lane: Lane, m: nat, e: Event, op: Operation, i: nat) returns (i': nat)
    requires Inv(ident, lane) && Enabled(ident, lane, e) && PooledAt(lane, op, i)
    ensures var after := Step(ident, lane, m, e).0;
            || Pooled(after.senders)[op] == 0
            || (PooledAt(after, op, i') &&
                Patience(after, op, i') + (if e.FinishRound? then 1 else 0) <= Patience(lane, op, i))
  {
    StepInv(ident, lane, m, e);
    i' := i;
    match e
    case Submit(entry, staked) => i' := CommitStep(ident, lane, entry, staked, op, i);
    case Gossip(entry, staked) =>
      if entry.hash !in lane.seen {
        i' := CommitStep(ident, Marked(lane, entry.hash), entry, staked, op, i);
      }
    case TakeNext => i' := TakeStep(ident, lane, op, i);
    case CodeHash(answer) => SettlePatience(ident, lane, answer, op, i);
    case StartRound =>
      assert Addresses(lane.senders)[Index(lane.senders, op.sender)] == op.sender;
    case Clear =>
    case Gate(_, _) =>
    case AbortRound =>
    case FinishRound =>
    case SendQueue(_) =>
  }

  lemma CommitKeepsOut(lane: Lane, e: Entry, staked: bool, op: Operation)
    requires DistinctSenders(lane.senders) && e.op != op && Pooled(lane.senders)[op] == 0
    ensures Pooled(Commit(lane, e, staked).senders)[op] == 0
  {
    AddedToPool(lane.senders, e, staked, op);
  }

  /** An admitted operation that is not pooled is never pooled again. */
  lemma StaysOut(ident: Identity, lane: Lane, m: nat, e: Event, op: Operation)
    requires Inv(ident, lane) && Enabled(ident, lane, e)
    requires op in lane.ledger.admitted && Pooled(lane.senders)[op] == 0
    ensures var after := Step(ident, lane, m, e).0;
            op in after.ledger.admitted && Pooled(after.senders)[op] == 0
  {
    StepGrows(ident, lane, m, e);
    match e
    case Submit(entry, staked) => CommitKeepsOut(lane, entry, staked, op);
    case Gossip(entry, staked) => CommitKeepsOut(Marked(lane, entry.hash), entry, staked, op);
    case TakeNext =>
      var a := lane.round.todo[0];
      if PoolFor(lane.senders, a) != [] {
        TakenFromPool(lane.senders, a, op);
      }
    case CodeHash(answer) =>
      var held := lane.round.held.value;
      if PoolFor(lane.senders, held.sender) == [] {
        PooledRemoveEmpty(lane.senders, held.sender);
      }
    case Clear =>
    case Gate(_, _) =>
    case StartRound =>
    case AbortRound =>
    case FinishRound =>
    case SendQueue(_) =>
  }

  ghost function RoundsEnded(actions: seq<Action>, i: nat): nat {
    if actions == [] then 0
    else (if actions[0] == Action(i, FinishRound) then 1 else 0) + RoundsEnded(actions[1..], i)
  }

  lemma {:induction false} OutForever(ident: Identity, b: Bundler, actions: seq<Action>, i: nat, op: Operation)
    requires Run(ident, b, actions) && i < |b.lanes| && Inv(ident, b.lanes[i])
    requires op in b.lanes[i].ledger.admitted && Pooled(b.lanes[i].senders)[op] == 0
    ensures |Final(ident, b, actions).lanes| == |b.lanes|
    ensures Pooled(Final(ident, b, actions).lanes[i].senders)[op] == 0
    decreases |actions|
  {
    if actions != [] {
      if actions[0].lane == i {
        StepInv(ident, b.lanes[i], b.multiplier, actions[0].event);
        StaysOut(ident, b.lanes[i], b.multiplier, actions[0].event, op);
      }
      OutForever(ident, Next(ident, b, actions[0]), actions[1..], i, op);
    }
  }

  /** No starvation: whatever is admitted in between, an operation at index `k` of its pool has
      left it for good once `k + 1` rounds have ended (one more if a running round had already
      passed its sender). */
  lemma {:induction false} LeavesWithinRounds(
    ident: Identity, b: Bundler, actions: seq<Action>, i: nat, op: Operation, k: nat)
    requires Run(ident, b, actions) && i < |b.lanes| && Inv(ident, b.lanes[i])
    requires PooledAt(b.lanes[i], op, k)
    ensures |Final(ident, b, actions).lanes| == |b.lanes|
    ensures RoundsEnded(actions, i) >= Patience(b.lanes[i], op, k) ==>
              Pooled(Final(ident, b, actions).lanes[i].senders)[op] == 0
    decreases |actions|
  {
    if actions != [] {
      var (a, rest, next) := (actions[0], actions[1..], Next(ident, b, actions[0]));
      if a.lane != i {
        LeavesWithinRounds(ident, next, rest, i, op, k);
      } else {
        StepInv(ident, b.lanes[i], b.multiplier, a.event);
        var k' := StepPatience(ident, b.lanes[i], b.multiplier, a.event, op, k);
        if Pooled(next.lanes[i].senders)[op] == 0 {
          PooledIsAdmitted(ident, b.lanes[i], op, k);
          StepGrows(ident, b.lanes[i], b.multiplier, a.event);
          OutForever(ident, next, rest, i, op);
        } else {
          LeavesWithinRounds(ident, next, rest, i, op, k');
        }
      }
    }
  }

  lemma PooledIsAdmitted(ident: Identity, lane: Lane, op: Operation, k: nat)
    requires Inv(ident, lane) && PooledAt(lane, op, k)
    ensures op in lane.ledger.admitted
  {
    var j := Index(lane.senders, op.sender);
    PooledSplit(lane.senders, j);
    assert Ops(lane.senders[j].pool)[k] == op;
    assert Everywhere(lane, op) == multiset(lane.ledger.admitted)[op];
  }

  lemma DepartedNotPooled(ident: Identity, lane: Lane, op: Operation)
    requires Inv(ident, lane)
    ensures Departure(op, Fate.Replaced) in lane.ledger.gone ==> Pooled(lane.senders)[op] == 0
  {
    AdmittedOnce(lane.ledger.admitted, op);
    assert Everywhere(lane, op) == multiset(lane.ledger.admitted)[op];
    if Departure(op, Fate.Replaced) in lane.ledger.gone {
      DepartureCounts(lane.ledger.gone, op);
    }
  }

  lemma HeldNotPooled(ident: Identity, lane: Lane, op: Operation)
    requires Inv(ident, lane) && lane.round.Collecting? && lane.round.held == Some(op)
    ensures Pooled(lane.senders)[op] == 0
  {
    AdmittedOnce(lane.ledger.admitted, op);
    assert Everywhere(lane, op) == multiset(lane.ledger.admitted)[op];
  }

  lemma {:induction false} DepartureCounts(gone: seq<Departure>, op: Operation)
    requires exists j :: 0 <= j < |gone| && gone[j].op == op
    ensures Departures(gone, op) > 0
  {
    if gone[0].op != op {
      var j :| 0 <= j < |gone| && gone[j].op == op;
      assert gone[1..][j - 1].op == op;
      DepartureCounts(gone[1..], op);
    }
  }

  // Sending on all entrypoints

  /** The sends that `send_next_bundle` makes from entrypoint `i` on. */
  ghost function SendActions(s: Sending, replies: seq<Replies>, i: nat): seq<Action>
    requires |replies| == |s.queues| && i <= |s.queues|
    decreases |s.queues| - i
  {
    if i == |s.queues| || s.raised then []
    else if s.queues[i] == [] then SendActions(s, replies, i + 1)
    else
      var r := Send(s.queues[i], s.multiplier, replies[i], 0);
      [Action(i, SendQueue(replies[i]))]
      + SendActions(Sending(s.queues[i := r.kept], r.multiplier, Rated(s.entries, r), r.raised), replies, i + 1)
  }

  ghost predicate Queues(b: Bundler, s: Sending) {
    b.multiplier == s.multiplier && |b.lanes| == |s.queues|
    && forall j :: 0 <= j < |b.lanes| ==> b.lanes[j].queue == s.queues[j]
  }

  /** `send_next_bundle` is a run: one send on each lane with a queue, in order, up to the first
      that raises an exception. So whatever holds over runs holds over it. */
  lemma {:induction false} SendNextIsRun(ident: Identity, b: Bundler, s: Sending, replies: seq<Replies>, i: nat)
    requires Queues(b, s) && |replies| == |s.queues| && i <= |s.queues|
    ensures Run(ident, b, SendActions(s, replies, i))
    ensures Queues(Final(ident, b, SendActions(s, replies, i)), SendFrom(s, replies, i))
    decreases |s.queues| - i
  {
    if i < |s.queues| && !s.raised {
      if s.queues[i] == [] {
        SendNextIsRun(ident, b, s, replies, i + 1);
      } else {
        var r := Send(s.queues[i], s.multiplier, replies[i], 0);
        var s' := Sending(s.queues[i := r.kept], r.multiplier, Rated(s.entries, r), r.raised);
        var a := Action(i, SendQueue(replies[i]));
        SendNextIsRun(ident, Next(ident, b, a), s', replies, i + 1);
        assert SendActions(s, replies, i)[1..] == SendActions(s', replies, i + 1);
      }
    }
  }

  // Retries

  ghost predicate Requeues(ident: Identity, b: Bundler, a: Action)
    requires Can(ident, b, a)
  {
    a.event.SendQueue? &&
    var r := Send(b.lanes[a.lane].queue, b.multiplier, a.event.replies, 0);
    !r.raised && r.kept != []
  }

  ghost predicate Succeeds(ident: Identity, b: Bundler, a: Action)
    requires Can(ident, b, a)
  {
    a.event.SendQueue? && Send(b.lanes[a.lane].queue, b.multiplier, a.event.replies, 0).sent != []
  }

  ghost function RequeueCount(ident: Identity, b: Bundler, actions: seq<Action>): nat
    requires Run(ident, b, actions)
    decreases |actions|
  {
    if actions == [] then 0
    else (if Requeues(ident, b, actions[0]) then 1 else 0)
         + RequeueCount(ident, Next(ident, b, actions[0]), actions[1..])
  }

  ghost predicate NoneSucceeds(ident: Identity, b: Bundler, actions: seq<Action>)
    requires Run(ident, b, actions)
    decreases |actions|
  {
    actions == [] ||
    (!Succeeds(ident, b, actions[0]) && NoneSucceeds(ident, Next(ident, b, actions[0]), actions[1..]))
  }

  lemma {:induction false} RequeuesRaisePrice(ident: Identity, b: Bundler, actions: seq<Action>)
    requires BundlerOk(ident, b) && Run(ident, b, actions) && NoneSucceeds(ident, b, actions)
    ensures Final(ident, b, actions).multiplier >= b.multiplier + 10 * RequeueCount(ident, b, actions)
    decreases |actions|
  {
    if actions != [] {
      var a := actions[0];
      if a.event.SendQueue? {
        SendMultiplier(b.lanes[a.lane].queue, b.multiplier, a.event.replies, 0);
      }
      NextOk(ident, b, a);
      RequeuesRaisePrice(ident, Next(ident, b, a), actions[1..]);
    }
  }

  /** Across all entrypoints at most eleven bundles are requeued without a successful send. */
  lemma RetryBound(ident: Identity, b: Bundler, actions: seq<Action>)
    requires BundlerOk(ident, b) && Run(ident, b, actions) && NoneSucceeds(ident, b, actions)
    ensures RequeueCount(ident, b, actions) <= 11
  {
    RequeuesRaisePrice(ident, b, actions);
    RunOk(ident, b, actions);
  }

  // Gossip

  /** How many gossip steps of a run commit an operation with this hash to this lane. */
  ghost function GossipCommits(ident: Identity, b: Bundler, actions: seq<Action>, i: nat, h: Hash): nat
    requires Run(ident, b, actions)
    decreases |actions|
  {
    if actions == [] then 0
    else
      var a := actions[0];
      (if a.lane == i && a.event.Gossip? && a.event.entry.hash == h && h !in b.lanes[i].seen then 1 else 0)
      + GossipCommits(ident, Next(ident, b, a), actions[1..], i, h)
  }

  /** Gossip commits a hash at most once over a whole run, and never a hash it has seen. */
  lemma {:induction false} GossipAtMostOnce(ident: Identity, b: Bundler, actions: seq<Action>, i: nat, h: Hash)
    requires Run(ident, b, actions) && i < |b.lanes|
    ensures GossipCommits(ident, b, actions, i, h) <= if h in b.lanes[i].seen then 0 else 1
    decreases |actions|
  {
    if actions != [] {
      var a := actions[0];
      StepGrows(ident, b.lanes[a.lane], b.multiplier, a.event);
      GossipAtMostOnce(ident, Next(ident, b, a), actions[1..], i, h);
    }
  }

  // Counters, the gate and the pool size

  lemma {:induction false} RolesMonotone(a: seq<Operation>, b: seq<Operation>, e: Address)
    requires multiset(a) <= multiset(b)
    ensures Roles(a, e) <= Roles(b, e)
    decreases |a|
  {
    if a != [] {
      assert a == [a[0]] + a[1..];
      assert multiset(a)[a[0]] > 0 && a[0] in b;
      var j :| 0 <= j < |b| && b[j] == a[0];
      var rest := b[..j] + b[j + 1..];
      assert b == b[..j] + [b[j]] + b[j + 1..];
      assert multiset(b) == multiset(rest) + multiset{a[0]};
      assert multiset(a) == multiset(a[1..]) + multiset{a[0]};
      CancelOne(multiset(a[1..]), multiset(rest), a[0]);
      RolesMonotone(a[1..], rest, e);
      RolesOfSplit(b, j, e);
    }
  }

  lemma CancelOne(a: multiset<Operation>, b: multiset<Operation>, x: Operation)
    requires a + multiset{x} <= b + multiset{x}
    ensures a <= b
  {
    forall y ensures a[y] <= b[y] {
      assert (a + multiset{x})[y] <= (b + multiset{x})[y];
    }
  }

  lemma RolesOfSplit(b: seq<Operation>, j: nat, e: Address)
    requires j < |b|
    ensures Roles(b, e) == Roles(b[..j] + b[j + 1..], e) + RolesOf(b[j], e)
  {
    assert b == b[..j] + [b[j]] + b[j + 1..];
    RolesConcat(b[..j] + [b[j]], b[j + 1..], e);
    RolesConcat(b[..j], [b[j]], e);
    RolesConcat(b[..j], b[j + 1..], e);
    assert Roles([b[j]], e) == RolesOf(b[j], e) + Roles([], e);
  }

  /** The counter of an entity is never below the pooled operations that name it. */
  lemma CounterBoundsPool(ident: Identity, lane: Lane, e: Address)
    requires Inv(ident, lane)
    ensures Roles(PooledOps(lane.senders), e) <= CountFor(lane.counters, e)
  {
    PooledOpsAreAll(lane.senders);
    forall op ensures multiset(PooledOps(lane.senders))[op] <= multiset(lane.ledger.admitted)[op] {
      assert Everywhere(lane, op) == multiset(lane.ledger.admitted)[op];
    }
    RolesMonotone(PooledOps(lane.senders), lane.ledger.admitted, e);
  }

  lemma {:induction false} PassesMeans(
    counters: map<Address, nat>, entities: seq<Address>, statuses: Address -> Reputation.Status)
    ensures Passes(counters, entities, statuses) <==>
              forall i :: 0 <= i < |entities| ==> Admissible(counters, entities[i], statuses(entities[i]))
    decreases |entities|
  {
    if entities != [] {
      var next := counters[entities[0] := CountFor(counters, entities[0])];
      PassesMeans(next, entities[1..], statuses);
      assert forall e :: CountFor(next, e) == CountFor(counters, e);
      assert forall i :: 1 <= i < |entities| ==> entities[i] == entities[1..][i - 1];
    }
  }

  /** The gate in terms of the past: it refuses banned entities, and throttled ones exactly when
      some admission has ever completed that names them as factory or paymaster. In particular a
      throttled sender that never was one of those is always let through. */
  lemma GateRemembers(ident: Identity, lane: Lane, entities: seq<Address>, statuses: Address -> Reputation.Status)
    requires Inv(ident, lane)
    ensures Passes(lane.counters, entities, statuses) <==>
              forall i :: 0 <= i < |entities| ==>
                && statuses(entities[i]) != Reputation.BANNED
                && (statuses(entities[i]) == Reputation.THROTTLED ==> Roles(lane.ledger.admitted, entities[i]) == 0)
  {
    PassesMeans(lane.counters, entities, statuses);
    assert forall e :: CountFor(lane.counters, e) == Roles(lane.ledger.admitted, e);
  }

  /** Whichever way it arrives, an unstaked operation leaves every pool no larger than it was, or
      no larger than four. */
  lemma UnstakedAdmissionBound(ident: Identity, lane: Lane, m: nat, e: Event, a: Address)
    requires Inv(ident, lane) && Enabled(ident, lane, e)
    requires (e.Submit? || e.Gossip?) && !e.staked
    ensures var size := |PoolFor(Step(ident, lane, m, e).0.senders, a)|;
            size <= |PoolFor(lane.senders, a)| || size <= MAX_MEMPOOL_USEROPS_PER_SENDER
  {
    var (d, s) := (lane.senders, e.entry.op.sender);
    UnstakedBound(PoolFor(d, s), e.entry);
    PoolForSet(d, s, After(PoolFor(d, s), e.entry, false), a);
  }
}
