/**
 One turn of the cron job: a bundling round on every entrypoint, then a send on every entrypoint. The
 mempool managers and the bundle manager are separate objects; together they are a run of the model.
 */
module Cron {
  import opened Basics
  import opened SenderMempools
  import opened BundleSending
  import opened Lifecycle
  import opened Runs
  import opened MempoolManagers
  import Reputation

  // What a mempool manager can see of a lane

  /** The lanes agree on everything but the queue and the departures. */
  ghost predicate SameMempool(a: Lane, b: Lane) {
    && a.senders == b.senders && a.counters == b.counters && a.seen == b.seen && a.round == b.round
    && a.ledger.admitted == b.ledger.admitted && a.ledger.gossiped == b.ledger.gossiped
  }

  /** What a step adds to the send queue. */
  ghost function Handed(lane: Lane, e: Event): seq<Operation> {
    if e.FinishRound? && lane.round.Collecting? then lane.round.bundle else []
  }

  lemma SameCommit(a: Lane, b: Lane, e: Entry, staked: bool)
    requires SameMempool(a, b)
    ensures SameMempool(Commit(a, e, staked), Commit(b, e, staked))
    ensures Commit(a, e, staked).queue == a.queue && Commit(b, e, staked).queue == b.queue
  {
  }

  lemma SameStep(ident: Identity, a: Lane, b: Lane, m: nat, e: Event)
    requires SameMempool(a, b) && Enabled(ident, a, e) && !e.SendQueue?
    ensures Enabled(ident, b, e)
    ensures var (a', b') := (Step(ident, a, 100, e).0, Step(ident, b, m, e).0);
            && SameMempool(a', b') && a'.queue == a.queue + Handed(a, e) && b'.queue == b.queue + Handed(a, e)
    ensures Step(ident, b, m, e).1 == m
  {
    match e
    case Submit(entry, staked) => SameCommit(a, b, entry, staked);
    case Gossip(entry, staked) => SameCommit(Marked(a, entry.hash), Marked(b, entry.hash), entry, staked);
    case _ =>
  }

  // Steps of one lane as a run of all

  ghost function On(i: nat, events: seq<Event>): seq<Action> {
    seq(|events|, k requires 0 <= k < |events| => Action(i, events[k]))
  }

  ghost predicate Along(ident: Identity, events: seq<Event>, lanes: seq<Lane>) {
    |lanes| == |events| + 1 && forall k :: 0 <= k < |events| ==> FollowsAt(ident, events, lanes, k)
  }

  lemma {:induction false} SamePath(
    ident: Identity, e1: seq<Event>, l1: seq<Lane>, e2: seq<Event>, l2: seq<Lane>, k: nat)
    requires Path(ident, e1, l1) && Path(ident, e2, l2) && k <= |e1| && k <= |e2| && e1[..k] == e2[..k]
    ensures l1[k] == l2[k]
  {
    if k > 0 {
      assert e1[..k - 1] == e1[..k][..k - 1] && e2[..k - 1] == e2[..k][..k - 1];
      SamePath(ident, e1, l1, e2, l2, k - 1);
      assert FollowsAt(ident, e1, l1, k - 1) && FollowsAt(ident, e2, l2, k - 1);
      assert e1[k - 1] == e1[..k][k - 1] && e2[k - 1] == e2[..k][k - 1];
    }
  }

  /** A manager that was somewhere before some steps and is somewhere after them went there. */
  lemma Segment(ident: Identity, before: seq<Event>, lane: Lane, events: seq<Event>, lane': Lane)
    returns (lanes: seq<Lane>)
    requires Reached(ident, before, lane) && Reached(ident, before + events, lane')
    ensures Along(ident, events, lanes) && lanes[0] == lane && lanes[|events|] == lane'
  {
    var all := before + events;
    var l1 :| Path(ident, before, l1) && l1[|before|] == lane;
    var l2 :| Path(ident, all, l2) && l2[|all|] == lane';
    assert before[..|before|] == all[..|before|];
    SamePath(ident, before, l1, all, l2, |before|);
    lanes := l2[|before|..];
    forall k | 0 <= k < |events| ensures FollowsAt(ident, events, lanes, k) {
      assert FollowsAt(ident, all, l2, |before| + k);
      assert lanes[k + 1] == l2[|before| + k + 1];
    }
  }

  /** What happened to the other lanes and the multiplier, and what was handed over on this one. */
  ghost predicate Replayed(b: Bundler, b': Bundler, i: nat, lane': Lane, handed: seq<Operation>) {
    && |b'.lanes| == |b.lanes| && i < |b.lanes| && b'.multiplier == b.multiplier
    && (forall j :: 0 <= j < |b.lanes| && j != i ==> b'.lanes[j] == b.lanes[j])
    && SameMempool(lane', b'.lanes[i]) && b'.lanes[i].queue == b.lanes[i].queue + handed
  }

  lemma {:induction false} Replay(ident: Identity, b: Bundler, i: nat, events: seq<Event>, lanes: seq<Lane>)
    returns (handed: seq<Operation>)
    requires i < |b.lanes| && Along(ident, events, lanes) && SameMempool(lanes[0], b.lanes[i])
    requires forall k :: 0 <= k < |events| ==> !events[k].SendQueue?
    ensures Run(ident, b, On(i, events))
    ensures Replayed(b, Final(ident, b, On(i, events)), i, lanes[|events|], handed)
    ensures lanes[|events|].queue == lanes[0].queue + handed
    decreases |events|
  {
    if events == [] {
      handed := [];
    } else {
      var (e, rest) := (events[0], events[1..]);
      assert FollowsAt(ident, events, lanes, 0);
      SameStep(ident, lanes[0], b.lanes[i], b.multiplier, e);
      var next := Next(ident, b, Action(i, e));
      forall k | 0 <= k < |rest| ensures FollowsAt(ident, rest, lanes[1..], k) {
        assert FollowsAt(ident, events, lanes, k + 1);
      }
      var more := Replay(ident, next, i, rest, lanes[1..]);
      handed := Handed(lanes[0], e) + more;
      assert On(i, events)[1..] == On(i, rest);
      Associates(b.lanes[i].queue, Handed(lanes[0], e), more);
      Associates(lanes[0].queue, Handed(lanes[0], e), more);
    }
  }

  lemma {:induction false} RunConcat(
    ident: Identity, b: Bundler, first: seq<Action>, mid: Bundler, second: seq<Action>, all: seq<Action>)
    requires Run(ident, b, first) && mid == Final(ident, b, first) && Run(ident, mid, second)
    requires |all| == |first| + |second| && all[..|first|] == first && all[|first|..] == second
    ensures Run(ident, b, all) && Final(ident, b, all) == Final(ident, mid, second)
    decreases |first|
  {
    if first == [] {
      assert all[0..] == all;
    } else {
      var (tail, rest) := (first[1..], all[1..]);
      assert all[0] == all[..|first|][0] && rest[..|tail|] == all[..|first|][1..] && rest[|tail|..] == second;
      RunConcat(ident, Next(ident, b, first[0]), tail, mid, second, rest);
    }
  }

  // The objects

  lemma {:induction false} NoSends(turns: seq<Turn>, isUnsafe: bool, waits: seq<Wait>)
    requires |turns| <= |waits| && Turns(turns, isUnsafe, waits)
    ensures forall k :: 0 <= k < |StepsOf(turns)| ==> !StepsOf(turns)[k].SendQueue?
  {
    if turns != [] {
      var (front, last) := (turns[..|turns| - 1], turns[|turns| - 1]);
      NoSends(front, isUnsafe, waits);
      VisitSendsNothing(last, isUnsafe, waits[|Popped(front)|]);
    }
  }

  lemma VisitSendsNothing(turn: Turn, isUnsafe: bool, wait: Wait)
    requires Visits(turn, isUnsafe, wait)
    ensures forall k :: 0 <= k < |turn.steps| ==> !turn.steps[k].SendQueue?
  {
    if turn.popped.Some? {
      var rest := turn.steps[1..];
      var middle := rest[..|rest| - 1];
      forall k | 1 <= k < |turn.steps| ensures !turn.steps[k].SendQueue? {
        assert turn.steps[k] == rest[k - 1];
        assert k - 1 < |rest| - 1 ==> rest[k - 1] == middle[k - 1];
      }
    }
  }

  lemma Cancel<T>(a: seq<T>, b: seq<T>, c: seq<T>)
    requires a + b == a + c
    ensures b == c
  {
    assert b == (a + b)[|a|..] && c == (a + c)[|a|..];
  }

  /** The steps of a round. */
  ghost function RoundEvents(turns: seq<Turn>, raised: bool): seq<Event> {
    [StartRound] + StepsOf(turns) + if raised then [] else [FinishRound]
  }

  lemma Recorded(before: seq<Event>, turns: seq<Turn>, raised: bool)
    ensures before + [StartRound] + StepsOf(turns) + (if raised then [] else [FinishRound])
            == before + RoundEvents(turns, raised)
  {
  }

  lemma RoundAsRun(
    ident: Identity, b: Bundler, i: nat, before: seq<Event>, lane: Lane, events: seq<Event>, lane': Lane,
    handed: seq<Operation>)
    requires i < |b.lanes| && Reached(ident, before, lane) && Reached(ident, before + events, lane')
    requires SameMempool(lane, b.lanes[i]) && lane'.queue == lane.queue + handed
    requires forall k :: 0 <= k < |events| ==> !events[k].SendQueue?
    ensures Run(ident, b, On(i, events)) && Replayed(b, Final(ident, b, On(i, events)), i, lane', handed)
  {
    var lanes := Segment(ident, before, lane, events, lane');
    var all := Replay(ident, b, i, events, lanes);
    Cancel(lane.queue, all, handed);
  }

  /** The round visits as the waits say, and is broken off exactly when the node fails to answer for an
      operation it waits for. */
  ghost predicate RoundOf(turns: seq<Turn>, isUnsafe: bool, waits: seq<Wait>, raised: bool) {
    && |turns| <= |waits| && Turns(turns, isUnsafe, waits)
    && (raised <==> exists k :: 0 <= k < |Popped(turns)| && k < |waits| && Fails(isUnsafe, waits[k].reply))
  }

  /** A round of a manager is a run of the model on its lane. */
  method CollectRound(
    m: MempoolManager, waits: seq<Wait>, ghost ident: Identity, ghost b: Bundler, ghost i: nat)
    returns (raised: bool, bundle: seq<Operation>, ghost turns: seq<Turn>)
    requires m.Valid(ident) && m.lane.round.Idle? && |m.senders| <= |waits|
    requires forall k :: 0 <= k < |waits| ==> ArrivalsCoherent(ident, waits[k].arrivals)
    requires i < |b.lanes| && SameMempool(m.lane, b.lanes[i])
    modifies m, m.repr, m.reputation
    ensures m.Valid(ident) && m.lane.round.Idle? && fresh(m.repr - old(m.repr))
    ensures RoundOf(turns, m.isUnsafe, waits, raised)
    ensures raised ==> bundle == []
    ensures Run(ident, b, On(i, RoundEvents(turns, raised)))
    ensures Replayed(b, Final(ident, b, On(i, RoundEvents(turns, raised))), i, m.lane, bundle)
  {
    ghost var (before, lane) := (m.history, m.lane);
    raised, bundle, turns := m.GetUserOperationsToBundle(waits, ident);
    if raised {
      bundle := [];
    }
    NoSends(turns, m.isUnsafe, waits);
    Recorded(before, turns, raised);
    RoundAsRun(ident, b, i, before, lane, RoundEvents(turns, raised), m.lane, bundle);
  }

  ghost predicate Separate(managers: seq<MempoolManager>)
    reads managers
  {
    forall i, j :: 0 <= i < j < |managers| ==> managers[i] != managers[j] && managers[i].repr !! managers[j].repr
  }

  ghost function Pools(managers: seq<MempoolManager>): set<SenderMempool>
    reads managers
  {
    set i, o | 0 <= i < |managers| && o in managers[i].repr :: o
  }

  ghost function Reputations(managers: seq<MempoolManager>): set<Reputation.ReputationManager> {
    set i | 0 <= i < |managers| :: managers[i].reputation
  }

  /** Every manager is between rounds. */
  ghost predicate Ready(managers: seq<MempoolManager>, ident: Identity)
    reads managers, Pools(managers)
  {
    forall i :: 0 <= i < |managers| ==> managers[i].Valid(ident) && managers[i].lane.round.Idle?
  }

  /** The managers and the bundle manager together show a state of the model. */
  ghost predicate Tied(managers: seq<MempoolManager>, bundler: BundlerManager, b: Bundler)
    reads managers, bundler
  {
    && |managers| == |bundler.queues| == |b.lanes| && bundler.multiplier == b.multiplier
    && forall i :: 0 <= i < |managers| ==>
                     SameMempool(managers[i].lane, b.lanes[i]) && b.lanes[i].queue == bundler.queues[i]
  }

  /** The actions of the rounds on the first managers, the last of which may have been broken off. */
  ghost function Gathered(rounds: seq<seq<Turn>>, raised: bool): seq<Action> {
    if rounds == [] then []
    else
      var n := |rounds| - 1;
      Gathered(rounds[..n], false) + On(n, RoundEvents(rounds[n], raised))
  }

  /** A round on one entrypoint leaves the managers of the others alone. */
  method CollectOn(
    managers: seq<MempoolManager>, i: nat, waits: seq<Wait>, ghost ident: Identity, ghost b: Bundler)
    returns (raised: bool, bundle: seq<Operation>, ghost turns: seq<Turn>)
    requires i < |managers| && Separate(managers) && Ready(managers, ident)
    requires |managers[i].senders| <= |waits|
    requires forall k :: 0 <= k < |waits| ==> ArrivalsCoherent(ident, waits[k].arrivals)
    requires i < |b.lanes| && SameMempool(managers[i].lane, b.lanes[i])
    modifies managers[i], managers[i].repr, managers[i].reputation
    ensures Separate(managers) && Ready(managers, ident) && fresh(managers[i].repr - old(managers[i].repr))
    ensures RoundOf(turns, managers[i].isUnsafe, waits, raised)
    ensures raised ==> bundle == []
    ensures Run(ident, b, On(i, RoundEvents(turns, raised)))
    ensures Replayed(b, Final(ident, b, On(i, RoundEvents(turns, raised))), i, managers[i].lane, bundle)
  {
    raised, bundle, turns := CollectRound(managers[i], waits, ident, b, i);
  }

  /** What was collected goes behind the entrypoint's queue; after an exception there is nothing. */
  method EnqueueFor(
    managers: seq<MempoolManager>, bundler: BundlerManager, i: nat, bundle: seq<Operation>, raised: bool,
    ghost ident: Identity)
    requires i < |bundler.queues| && Ready(managers, ident) && (raised ==> bundle == [])
    modifies bundler`queues
    ensures Ready(managers, ident)
    ensures bundler.queues == old(bundler.queues)[i := old(bundler.queues)[i] + bundle]
  {
    if !raised {
      bundler.Enqueue(i, bundle);
    } else {
      assert bundler.queues[i] + bundle == bundler.queues[i];
    }
  }

  /** One turn of the loop in `update_send_queue`: a round on one entrypoint, and what it collected
      goes behind the entrypoint's queue. */
  method CollectFor(
    managers: seq<MempoolManager>, bundler: BundlerManager, i: nat, waits: seq<Wait>, ghost ident: Identity,
    ghost b: Bundler)
    returns (raised: bool, ghost turns: seq<Turn>)
    requires i < |managers| && Separate(managers) && Ready(managers, ident) && Tied(managers, bundler, b)
    requires |managers[i].senders| <= |waits|
    requires forall k :: 0 <= k < |waits| ==> ArrivalsCoherent(ident, waits[k].arrivals)
    modifies managers[i], managers[i].repr, managers[i].reputation, bundler`queues
    ensures Separate(managers) && Ready(managers, ident) && fresh(managers[i].repr - old(managers[i].repr))
    ensures RoundOf(turns, managers[i].isUnsafe, waits, raised)
    ensures Run(ident, b, On(i, RoundEvents(turns, raised)))
    ensures Tied(managers, bundler, Final(ident, b, On(i, RoundEvents(turns, raised))))
  {
    var bundle;
    raised, bundle, turns := CollectOn(managers, i, waits, ident, b);
    EnqueueFor(managers, bundler, i, bundle, raised, ident);
  }

  lemma GatheredLast(rounds: seq<seq<Turn>>, turns: seq<Turn>, raised: bool)
    ensures Gathered(rounds + [turns], raised) == Gathered(rounds, false) + On(|rounds|, RoundEvents(turns, raised))
  {
    assert (rounds + [turns])[..|rounds|] == rounds;
  }

  lemma GatherOneMore(ident: Identity, b: Bundler, rounds: seq<seq<Turn>>, turns: seq<Turn>, raised: bool)
    requires Run(ident, b, Gathered(rounds, false))
    requires Run(ident, Final(ident, b, Gathered(rounds, false)), On(|rounds|, RoundEvents(turns, raised)))
    ensures Run(ident, b, Gathered(rounds + [turns], raised))
    ensures Final(ident, b, Gathered(rounds + [turns], raised))
            == Final(ident, Final(ident, b, Gathered(rounds, false)), On(|rounds|, RoundEvents(turns, raised)))
  {
    GatheredLast(rounds, turns, raised);
    var (first, second) := (Gathered(rounds, false), On(|rounds|, RoundEvents(turns, raised)));
    RunConcat(ident, b, first, Final(ident, b, first), second, first + second);
  }

  /** The objects show where the rounds so far have taken the model. */
  ghost predicate Gathers(
    managers: seq<MempoolManager>, bundler: BundlerManager, ident: Identity, b: Bundler, rounds: seq<seq<Turn>>,
    raised: bool)
    reads managers, bundler
  {
    Run(ident, b, Gathered(rounds, raised)) && Tied(managers, bundler, Final(ident, b, Gathered(rounds, raised)))
  }

  method CollectMore(
    managers: seq<MempoolManager>, bundler: BundlerManager, i: nat, waits: seq<Wait>, ghost ident: Identity,
    ghost b: Bundler, ghost rounds: seq<seq<Turn>>)
    returns (raised: bool, ghost turns: seq<Turn>)
    requires i == |rounds| < |managers| && Separate(managers) && Ready(managers, ident)
    requires Gathers(managers, bundler, ident, b, rounds, false)
    requires |managers[i].senders| <= |waits|
    requires forall k :: 0 <= k < |waits| ==> ArrivalsCoherent(ident, waits[k].arrivals)
    modifies managers[i], managers[i].repr, managers[i].reputation, bundler`queues
    ensures Separate(managers) && Ready(managers, ident)
    ensures RoundOf(turns, managers[i].isUnsafe, waits, raised)
    ensures Gathers(managers, bundler, ident, b, rounds + [turns], raised)
  {
    raised, turns := CollectFor(managers, bundler, i, waits, ident, Final(ident, b, Gathered(rounds, false)));
    GatherOneMore(ident, b, rounds, turns, raised);
  }

  /** The rounds made on the first entrypoints; none but the last was broken off. */
  ghost predicate RoundsOf(
    rounds: seq<seq<Turn>>, managers: seq<MempoolManager>, waits: seq<seq<Wait>>, raised: bool)
  {
    && |rounds| <= |managers| == |waits| && (raised ==> rounds != [])
    && forall k :: 0 <= k < |rounds| ==>
                     RoundOf(rounds[k], managers[k].isUnsafe, waits[k], raised && k == |rounds| - 1)
  }

  lemma RoundsOneMore(
    rounds: seq<seq<Turn>>, managers: seq<MempoolManager>, waits: seq<seq<Wait>>, turns: seq<Turn>, raised: bool)
    requires RoundsOf(rounds, managers, waits, false) && |rounds| < |managers|
    requires RoundOf(turns, managers[|rounds|].isUnsafe, waits[|rounds|], raised)
    ensures RoundsOf(rounds + [turns], managers, waits, raised)
  {
  }

  /** The node's answers suffice for the rounds still to come, which stay within the footprint. */
  ghost predicate Awaited(
    managers: seq<MempoolManager>, waits: seq<seq<Wait>>, ident: Identity, pools: set<SenderMempool>, i: nat)
    reads managers
  {
    |waits| == |managers| &&
    forall j :: i <= j < |managers| ==>
                  && |managers[j].senders| <= |waits[j]| && managers[j].repr <= pools
                  && forall k :: 0 <= k < |waits[j]| ==> ArrivalsCoherent(ident, waits[j][k].arrivals)
  }

  method CollectNext(
    managers: seq<MempoolManager>, bundler: BundlerManager, i: nat, waits: seq<seq<Wait>>, ghost ident: Identity,
    ghost b: Bundler, ghost rounds: seq<seq<Turn>>, ghost pools: set<SenderMempool>)
    returns (raised: bool, ghost rounds': seq<seq<Turn>>)
    requires i == |rounds| < |managers| && Separate(managers) && Ready(managers, ident)
    requires Gathers(managers, bundler, ident, b, rounds, false)
    requires RoundsOf(rounds, managers, waits, false) && Awaited(managers, waits, ident, pools, i)
    modifies managers[i], managers[i].repr, managers[i].reputation, bundler`queues
    ensures |rounds'| == i + 1 && Separate(managers) && Ready(managers, ident)
    ensures Gathers(managers, bundler, ident, b, rounds', raised)
    ensures RoundsOf(rounds', managers, waits, raised) && Awaited(managers, waits, ident, pools, i + 1)
  {
    ghost var turns;
    raised, turns := CollectMore(managers, bundler, i, waits[i], ident, b, rounds);
    rounds' := rounds + [turns];
    RoundsOneMore(rounds, managers, waits, turns, raised);
  }

  /** A round on each entrypoint in order, up to the first exception, is a run of the model. */
  method UpdateSendQueue(
    managers: seq<MempoolManager>, bundler: BundlerManager, waits: seq<seq<Wait>>, ghost ident: Identity,
    ghost b: Bundler)
    returns (raised: bool, ghost rounds: seq<seq<Turn>>)
    requires Separate(managers) && Ready(managers, ident) && Tied(managers, bundler, b)
    requires Awaited(managers, waits, ident, Pools(managers), 0)
    modifies managers, Pools(managers), Reputations(managers), bundler`queues
    ensures Separate(managers) && Ready(managers, ident) && Gathers(managers, bundler, ident, b, rounds, raised)
    ensures RoundsOf(rounds, managers, waits, raised) && (!raised ==> |rounds| == |managers|)
  {
    raised, rounds := false, [];
    for i := 0 to |managers|
      invariant !raised && |rounds| == i && Separate(managers) && Ready(managers, ident)
      invariant Gathers(managers, bundler, ident, b, rounds, false)
      invariant RoundsOf(rounds, managers, waits, false) && Awaited(managers, waits, ident, old(Pools(managers)), i)
    {
      raised, rounds := CollectNext(managers, bundler, i, waits, ident, b, rounds, old(Pools(managers)));
      if raised {
        return;
      }
    }
  }

  /** The mempools of two states agree. */
  ghost predicate SameMempools(b: Bundler, b': Bundler) {
    |b'.lanes| == |b.lanes| && forall j :: 0 <= j < |b.lanes| ==> SameMempool(b.lanes[j], b'.lanes[j])
  }

  lemma SendKeepsOne(ident: Identity, b: Bundler, a: Action)
    requires Can(ident, b, a) && a.event.SendQueue?
    ensures SameMempools(b, Next(ident, b, a))
  {
  }

  lemma SameThrough(b: Bundler, mid: Bundler, b': Bundler)
    requires SameMempools(b, mid) && SameMempools(mid, b')
    ensures SameMempools(b, b')
  {
  }

  /** Sending touches no mempool. */
  lemma {:induction false} SendKeepsMempools(ident: Identity, b: Bundler, s: Sending, replies: seq<Replies>, i: nat)
    requires Queues(b, s) && |replies| == |s.queues| && i <= |s.queues|
    requires Run(ident, b, SendActions(s, replies, i))
    ensures SameMempools(b, Final(ident, b, SendActions(s, replies, i)))
    decreases |s.queues| - i
  {
    if i < |s.queues| && !s.raised {
      if s.queues[i] == [] {
        SendKeepsMempools(ident, b, s, replies, i + 1);
      } else {
        var r := Send(s.queues[i], s.multiplier, replies[i], 0);
        var s' := Sending(s.queues[i := r.kept], r.multiplier, Rated(s.entries, r), r.raised);
        var a := Action(i, SendQueue(replies[i]));
        var (actions, next) := (SendActions(s, replies, i), Next(ident, b, a));
        assert actions[0] == a && actions[1..] == SendActions(s', replies, i + 1);
        SendKeepsMempools(ident, next, s', replies, i + 1);
        SendKeepsOne(ident, b, a);
        SameThrough(b, next, Final(ident, next, actions[1..]));
      }
    }
  }

  /** `send_next_bundle` leaves the managers alone. */
  method SendAll(
    managers: seq<MempoolManager>, bundler: BundlerManager, replies: seq<Replies>, ghost ident: Identity)
    returns (raised: bool)
    requires Separate(managers) && Ready(managers, ident) && |replies| == |bundler.queues|
    modifies bundler`queues, bundler`multiplier, bundler.reputation
    ensures Separate(managers) && Ready(managers, ident)
    ensures Sending(bundler.queues, bundler.multiplier, bundler.reputation.entries, raised)
            == SendFrom(
                 Sending(old(bundler.queues), old(bundler.multiplier), old(bundler.reputation.entries), false),
                 replies, 0)
  {
    raised := bundler.SendNextBundle(replies);
  }

  /** `send_next_bundle` on the objects is a run of the model that touches no mempool. */
  method SendQueues(
    managers: seq<MempoolManager>, bundler: BundlerManager, replies: seq<Replies>, ghost ident: Identity,
    ghost b: Bundler)
    returns (raised: bool, ghost start: Sending)
    requires Separate(managers) && Ready(managers, ident) && Tied(managers, bundler, b) && |replies| == |managers|
    modifies bundler`queues, bundler`multiplier, bundler.reputation
    ensures Separate(managers) && Ready(managers, ident)
    ensures start == Sending(old(bundler.queues), old(bundler.multiplier), old(bundler.reputation.entries), false)
    ensures Queues(b, start) && Run(ident, b, SendActions(start, replies, 0))
    ensures Tied(managers, bundler, Final(ident, b, SendActions(start, replies, 0)))
  {
    start := Sending(bundler.queues, bundler.multiplier, bundler.reputation.entries, false);
    SendNextIsRun(ident, b, start, replies, 0);
    SendKeepsMempools(ident, b, start, replies, 0);
    raised := SendAll(managers, bundler, replies, ident);
  }

  /** What a turn of the cron job does: the rounds, and then the sends unless a round was broken off. */
  ghost predicate TurnOf(
    ident: Identity, b: Bundler, rounds: seq<seq<Turn>>, broken: bool, replies: seq<Replies>, actions: seq<Action>)
  {
    var first := Gathered(rounds, broken);
    Run(ident, b, first) &&
    if broken then actions == first
    else
      exists start: Sending ::
        && Queues(Final(ident, b, first), start) && !start.raised && |replies| == |start.queues|
        && actions == first + SendActions(start, replies, 0)
  }

  /** One turn of the cron job is a run of the model from the state the objects show to the state they
      show afterwards: a round on each entrypoint up to the first exception, and if there was none a send
      on each entrypoint with a queue up to the first exception. */
  method CronTurn(
    managers: seq<MempoolManager>, bundler: BundlerManager, waits: seq<seq<Wait>>, replies: seq<Replies>,
    ghost ident: Identity, ghost b: Bundler)
    returns (raised: bool, ghost rounds: seq<seq<Turn>>, ghost broken: bool, ghost actions: seq<Action>)
    requires Separate(managers) && Ready(managers, ident) && Tied(managers, bundler, b)
    requires Awaited(managers, waits, ident, Pools(managers), 0) && |replies| == |managers|
    modifies managers, Pools(managers), Reputations(managers), bundler, bundler.reputation
    ensures Separate(managers) && Ready(managers, ident)
    ensures RoundsOf(rounds, managers, waits, broken) && (!broken ==> |rounds| == |managers|)
    ensures TurnOf(ident, b, rounds, broken, replies, actions)
    ensures Run(ident, b, actions) && Tied(managers, bundler, Final(ident, b, actions))
  {
    raised, rounds := UpdateSendQueue(managers, bundler, waits, ident, b);
    broken, actions := raised, Gathered(rounds, raised);
    if !raised {
      ghost var (first, mid) := (actions, Final(ident, b, actions));
      ghost var start;
      raised, start := SendQueues(managers, bundler, replies, ident, mid);
      actions := first + SendActions(start, replies, 0);
      RunConcat(ident, b, first, mid, SendActions(start, replies, 0), actions);
    }
  }
}
