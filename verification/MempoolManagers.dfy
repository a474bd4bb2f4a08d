/**
 The mempool manager of one entrypoint: the dictionary of sender pools, the entity counters and
 the seen hashes, updated in place, with the bundling round as a loop that other admissions may
 interrupt at every await. `history` records the steps taken; the object is valid when its fields
 are what the lane model has after exactly those steps.
 */
module MempoolManagers {
  import opened Basics
  import opened SenderMempools
  import opened SenderDirectory
  import opened BundleSending
  import opened Lifecycle
  import Runs
  import Reputation

  // Runs of one lane, from the empty lane

  /** Step `i` is enabled and leads from one lane to the next. */
  ghost predicate FollowsAt(ident: Identity, events: seq<Event>, lanes: seq<Lane>, i: int)
    requires 0 <= i < |events| && |lanes| == |events| + 1
  {
    Enabled(ident, lanes[i], events[i]) && lanes[i + 1] == Step(ident, lanes[i], 100, events[i]).0
  }

  ghost predicate Path(ident: Identity, events: seq<Event>, lanes: seq<Lane>) {
    && |lanes| == |events| + 1 && lanes[0] == EMPTY_LANE
    && forall i :: 0 <= i < |events| ==> FollowsAt(ident, events, lanes, i)
  }

  /** The lane is what the empty lane becomes after these events, each of them enabled. */
  ghost predicate Reached(ident: Identity, events: seq<Event>, lane: Lane) {
    exists lanes :: Path(ident, events, lanes) && lanes[|events|] == lane
  }

  lemma Extend(ident: Identity, events: seq<Event>, lane: Lane, e: Event)
    requires Reached(ident, events, lane) && Enabled(ident, lane, e)
    ensures Reached(ident, events + [e], Step(ident, lane, 100, e).0)
  {
    var lanes :| Path(ident, events, lanes) && lanes[|events|] == lane;
    var (events', lanes') := (events + [e], lanes + [Step(ident, lane, 100, e).0]);
    forall i | 0 <= i < |events'| ensures FollowsAt(ident, events', lanes', i) {
      assert i < |events| ==> FollowsAt(ident, events, lanes, i);
    }
    assert Path(ident, events', lanes');
  }

  lemma ExtendSubmit(ident: Identity, events: seq<Event>, lane: Lane, e: Entry, staked: bool)
    requires Reached(ident, events, lane) && Coherent(ident, e) && e.op.id == |lane.ledger.admitted|
    ensures Reached(ident, events + [Submit(e, staked)], Commit(lane, e, staked))
    ensures Commit(lane, e, staked).round == lane.round && Commit(lane, e, staked).queue == lane.queue
    ensures var accepted := !OutcomeOf(PoolFor(lane.senders, e.op.sender), e.op, staked).Rejected?;
            Commit(lane, e, staked).ledger.admitted == lane.ledger.admitted + if accepted then [e.op] else []
  {
    Extend(ident, events, lane, Submit(e, staked));
  }

  lemma ExtendGossip(ident: Identity, events: seq<Event>, lane: Lane, e: Entry, staked: bool)
    requires Reached(ident, events, lane) && Coherent(ident, e) && e.op.id == |lane.ledger.admitted|
    requires e.hash !in lane.seen
    ensures var after := Commit(Marked(lane, e.hash), e, staked);
            && Reached(ident, events + [Gossip(e, staked)], after)
            && after.round == lane.round && after.queue == lane.queue && after.seen == lane.seen + {e.hash}
  {
    Extend(ident, events, lane, Gossip(e, staked));
  }

  lemma ExtendSeen(ident: Identity, events: seq<Event>, lane: Lane, e: Entry, staked: bool)
    requires Reached(ident, events, lane) && Coherent(ident, e) && e.op.id == |lane.ledger.admitted|
    requires e.hash in lane.seen
    ensures Reached(ident, events + [Gossip(e, staked)], lane)
  {
    Extend(ident, events, lane, Gossip(e, staked));
  }

  lemma ExtendSettle(ident: Identity, events: seq<Event>, lane: Lane, answer: Option<string>)
    requires Reached(ident, events, lane) && lane.round.Collecting? && lane.round.held.Some?
    ensures Reached(ident, events + [CodeHash(answer)], Settle(lane, answer))
    ensures var (after, op) := (Settle(lane, answer), lane.round.held.value);
            && after.counters == lane.counters && after.seen == lane.seen && after.queue == lane.queue
            && after.ledger.admitted == lane.ledger.admitted
            && after.round == lane.round.(
                 held := None, bundle := lane.round.bundle + if CodeUnchanged(op, answer) then [op] else [])
            && after.senders == if CodeUnchanged(op, answer) && PoolFor(lane.senders, op.sender) == []
                                then Remove(lane.senders, op.sender) else lane.senders
  {
    Extend(ident, events, lane, CodeHash(answer));
  }

  lemma {:induction false} PathInv(ident: Identity, events: seq<Event>, lanes: seq<Lane>, i: nat)
    requires Path(ident, events, lanes) && i < |lanes|
    ensures Inv(ident, lanes[i])
  {
    if i == 0 {
      EmptyLaneOk(ident);
    } else {
      PathInv(ident, events, lanes, i - 1);
      assert FollowsAt(ident, events, lanes, i - 1);
      StepInv(ident, lanes[i - 1], 100, events[i - 1]);
    }
  }

  lemma ReachedInv(ident: Identity, events: seq<Event>, lane: Lane)
    requires Reached(ident, events, lane)
    ensures Inv(ident, lane)
  {
    var lanes :| Path(ident, events, lanes) && lanes[|events|] == lane;
    PathInv(ident, events, lanes, |events|);
  }

  lemma ReachedDirectory(ident: Identity, events: seq<Event>, lane: Lane)
    requires Reached(ident, events, lane)
    ensures DirectoryOk(ident, lane.senders)
    ensures lane.round.Collecting? ==> forall a :: a in lane.round.todo ==> Has(lane.senders, a)
    ensures lane.round.Collecting? && lane.round.held.Some? ==> Has(lane.senders, lane.round.held.value.sender)
  {
    ReachedInv(ident, events, lane);
  }

  // Reputation

  ghost function See(entries: Reputation.Entries, entity: Address): Reputation.Entries {
    var was := if entity in entries then entries[entity] else Reputation.FRESH_ENTRY;
    entries[entity := was.(opsSeen := was.opsSeen + 1)]
  }

  ghost function SeeAll(entries: Reputation.Entries, entities: seq<Address>): Reputation.Entries {
    if entities == [] then entries else See(SeeAll(entries, entities[..|entities| - 1]), entities[|entities| - 1])
  }

  /** The entity has been seen `n` more times and is otherwise as it was; without any it is not created. */
  ghost predicate GainsSeen(before: Reputation.Entries, after: Reputation.Entries, e: Address, n: nat) {
    var was := if e in before then before[e] else Reputation.ReputationEntry(0, 0, Reputation.OK);
    && (e in after <==> e in before || n > 0)
    && (e in after ==> after[e] == Reputation.ReputationEntry(was.opsSeen + n, was.opsIncluded, was.status))
  }

  /** Every entity has been seen once for each role it has in the operation. */
  ghost predicate OpSeen(before: Reputation.Entries, after: Reputation.Entries, op: Operation) {
    forall e :: GainsSeen(before, after, e, Mentions(op, e))
  }

  lemma {:induction false} SeeAllGains(entries: Reputation.Entries, entities: seq<Address>, e: Address)
    ensures GainsSeen(entries, SeeAll(entries, entities), e, multiset(entities)[e])
  {
    if entities != [] {
      var (front, last) := (entities[..|entities| - 1], entities[|entities| - 1]);
      SeeAllGains(entries, front, e);
      assert entities == front + [last];
    }
  }

  lemma NamedSeen(entries: Reputation.Entries, op: Operation)
    ensures OpSeen(entries, SeeAll(entries, Named(op)), op)
  {
    forall e ensures GainsSeen(entries, SeeAll(entries, Named(op)), e, Mentions(op, e)) {
      NamedMentions(op, e);
      SeeAllGains(entries, Named(op), e);
    }
  }

  /** Factory and paymaster have one more operation each, if it was counted, and no other entity has. */
  ghost predicate Tallied(before: map<Address, nat>, after: map<Address, nat>, op: Operation, counted: bool) {
    forall x :: CountFor(after, x) == CountFor(before, x)
                  + (if counted && op.factory == Some(x) then 1 else 0)
                  + (if counted && op.paymaster == Some(x) then 1 else 0)
  }

  lemma TalliedUp(counters: map<Address, nat>, op: Operation)
    ensures Tallied(counters, CountUp(CountUp(counters, op.factory), op.paymaster), op, true)
  {
  }

  // The reputation gate, in numbers

  /** With d = seen - 10 included: d is below 510, and if it is above 109 no admitted operation ever named
      the entity as factory or paymaster. */
  ghost predicate Welcome(entries: Reputation.Entries, admitted: seq<Operation>, e: Address) {
    var d := if e in entries then entries[e].opsSeen - 10 * entries[e].opsIncluded else 0;
    && d < 510
    && (d > 109 ==>
          forall k :: 0 <= k < |admitted| ==> admitted[k].factory != Some(e) && admitted[k].paymaster != Some(e))
  }

  ghost predicate AllWelcome(entries: Reputation.Entries, admitted: seq<Operation>, op: Operation) {
    && Welcome(entries, admitted, op.sender)
    && (op.factory.Some? ==> Welcome(entries, admitted, op.factory.value))
    && (op.paymaster.Some? ==> Welcome(entries, admitted, op.paymaster.value))
  }

  lemma {:induction false} RolesZero(ops: seq<Operation>, e: Address)
    ensures Roles(ops, e) == 0 <==>
              forall k :: 0 <= k < |ops| ==> ops[k].factory != Some(e) && ops[k].paymaster != Some(e)
  {
    if ops != [] {
      RolesZero(ops[1..], e);
      assert forall k :: 1 <= k < |ops| ==> ops[k] == ops[1..][k - 1];
      assert RolesOf(ops[0], e) == 0 <==> ops[0].factory != Some(e) && ops[0].paymaster != Some(e);
    }
  }

  lemma WelcomeIs(entries: Reputation.Entries, admitted: seq<Operation>, e: Address)
    ensures Welcome(entries, admitted, e) <==>
              && Reputation.StatusOf(entries, e) != Reputation.BANNED
              && (Reputation.StatusOf(entries, e) == Reputation.THROTTLED ==> Roles(admitted, e) == 0)
  {
    RolesZero(admitted, e);
    if e in entries {
      Reputation.StatusBands(entries[e]);
    }
  }

  lemma AllWelcomeIs(entries: Reputation.Entries, admitted: seq<Operation>, op: Operation)
    ensures AllWelcome(entries, admitted, op) <==>
              forall i :: 0 <= i < |Named(op)| ==> Welcome(entries, admitted, Named(op)[i])
  {
    var named := Named(op);
    assert named[0] == op.sender;
    assert op.factory.Some? ==> named[1] == op.factory.value;
    assert op.paymaster.Some? ==> named[|named| - 1] == op.paymaster.value;
  }

  ghost function Statuses(entries: Reputation.Entries): Address -> Reputation.Status {
    e => Reputation.StatusOf(entries, e)
  }

  /** The gate lets an operation through if and only if its sender, its factory and its paymaster are welcome. */
  lemma GateWelcomes(ident: Identity, lane: Lane, entries: Reputation.Entries, op: Operation)
    requires Inv(ident, lane)
    ensures Passes(lane.counters, Named(op), Statuses(entries)) <==> AllWelcome(entries, lane.ledger.admitted, op)
  {
    var (named, admitted) := (Named(op), lane.ledger.admitted);
    Runs.GateRemembers(ident, lane, named, Statuses(entries));
    AllWelcomeIs(entries, admitted, op);
    forall i | 0 <= i < |named|
      ensures Welcome(entries, admitted, named[i]) <==>
                && Statuses(entries)(named[i]) != Reputation.BANNED
                && (Statuses(entries)(named[i]) == Reputation.THROTTLED ==> Roles(admitted, named[i]) == 0)
    {
      WelcomeIs(entries, admitted, named[i]);
    }
  }

  lemma GateStep(counters: map<Address, nat>, e: Address, rest: seq<Address>, statuses: Address -> Reputation.Status)
    ensures var next := counters[e := CountFor(counters, e)];
            && Gated(counters, [e] + rest, statuses)
               == (if Admissible(counters, e, statuses(e)) then Gated(next, rest, statuses) else next)
            && Passes(counters, [e] + rest, statuses)
               == (Admissible(counters, e, statuses(e)) && Passes(next, rest, statuses))
  {
    assert ([e] + rest)[1..] == rest;
  }

  lemma RejectedChangesNothing(d: Directory, e: Entry, staked: bool)
    requires OutcomeOf(PoolFor(d, e.op.sender), e.op, staked).Rejected?
    ensures SetPool(d, e.op.sender, After(PoolFor(d, e.op.sender), e, staked)) == d
  {
  }

  lemma CommitFields(lane: Lane, e: Entry, staked: bool)
    requires !OutcomeOf(PoolFor(lane.senders, e.op.sender), e.op, staked).Rejected?
    ensures var after := Commit(lane, e, staked);
            && after.senders == SetPool(lane.senders, e.op.sender, After(PoolFor(lane.senders, e.op.sender), e, staked))
            && after.counters == CountUp(CountUp(lane.counters, e.op.factory), e.op.paymaster)
            && after.seen == lane.seen && after.ledger.admitted == lane.ledger.admitted + [e.op]
  {
  }

  /** What the node answers when asked for the current code hash. */
  datatype CodeReply = CodeReply(hash: string) | Failure

  /** An admission that commits while the round is suspended. */
  datatype Interruption = Interruption(entry: Entry, staked: bool, byGossip: bool)

  /** What is answered and what arrives while the round waits for one code hash. */
  datatype Wait = Wait(reply: CodeReply, arrivals: seq<Interruption>)

  /** The event is the admission of this arrival, under the number that was next. */
  ghost predicate Commits(e: Event, a: Interruption) {
    && (if a.byGossip then e.Gossip? else e.Submit?)
    && e.staked == a.staked && e.entry == a.entry.(op := a.entry.op.(id := e.entry.op.id))
  }

  ghost predicate CommitAll(events: seq<Event>, arrivals: seq<Interruption>) {
    |events| == |arrivals| && forall k :: 0 <= k < |arrivals| ==> Commits(events[k], arrivals[k])
  }

  /** Whether the wait for a code hash raises an exception. Unsafe mode does not wait. */
  ghost predicate Fails(isUnsafe: bool, reply: CodeReply) { !isUnsafe && reply.Failure? }

  /** Whether a popped operation is bundled. */
  ghost predicate Accepts(isUnsafe: bool, op: Operation, reply: CodeReply) {
    isUnsafe || (reply.CodeReply? && op.codeHash == Some(reply.hash))
  }

  /** How a wait ends. */
  ghost function Ending(isUnsafe: bool, reply: CodeReply): Event {
    if isUnsafe then CodeHash(None) else if reply.Failure? then AbortRound else CodeHash(Some(reply.hash))
  }

  /** The steps from a pop on: exactly the arrivals, in order, and the end of the wait. */
  ghost predicate Waits(events: seq<Event>, isUnsafe: bool, wait: Wait) {
    && events != [] && events[|events| - 1] == Ending(isUnsafe, wait.reply)
    && CommitAll(events[..|events| - 1], if isUnsafe then [] else wait.arrivals)
  }

  /** One turn of a round: what the visited sender had to offer, and the steps of the visit. */
  datatype Turn = Turn(popped: Option<Operation>, steps: seq<Event>)

  ghost predicate Visits(turn: Turn, isUnsafe: bool, wait: Wait) {
    && turn.steps != [] && turn.steps[0] == TakeNext
    && if turn.popped.None? then |turn.steps| == 1 else Waits(turn.steps[1..], isUnsafe, wait)
  }

  ghost function Popped(turns: seq<Turn>): (popped: seq<Operation>)
    ensures |popped| <= |turns|
  {
    if turns == [] then []
    else
      var last := turns[|turns| - 1];
      Popped(turns[..|turns| - 1]) + if last.popped.Some? then [last.popped.value] else []
  }

  ghost function StepsOf(turns: seq<Turn>): seq<Event> {
    if turns == [] then [] else StepsOf(turns[..|turns| - 1]) + turns[|turns| - 1].steps
  }

  /** Turn after turn, each pop with the next wait. */
  ghost predicate Turns(turns: seq<Turn>, isUnsafe: bool, waits: seq<Wait>)
    requires |turns| <= |waits|
  {
    turns == [] ||
    var (front, last) := (turns[..|turns| - 1], turns[|turns| - 1]);
    Turns(front, isUnsafe, waits) && Visits(last, isUnsafe, waits[|Popped(front)|])
  }

  /** What a round bundles of the operations it pops. */
  ghost function Kept(isUnsafe: bool, popped: seq<Operation>, waits: seq<Wait>): seq<Operation>
    requires |popped| <= |waits|
  {
    if popped == [] then []
    else
      var k := |popped| - 1;
      Kept(isUnsafe, popped[..k], waits) + if Accepts(isUnsafe, popped[k], waits[k].reply) then [popped[k]] else []
  }

  /** The answer was the code hash noted for the operation, or none was needed. */
  ghost predicate Stays(isUnsafe: bool, op: Operation, wait: Wait) {
    isUnsafe || (wait.reply.CodeReply? && op.codeHash == Some(wait.reply.hash))
  }

  /** What is at the places `picks`, in order. */
  ghost predicate Selects(popped: seq<Operation>, bundle: seq<Operation>, picks: seq<nat>) {
    && |picks| == |bundle|
    && (forall i, j :: 0 <= i < j < |picks| ==> picks[i] < picks[j])
    && (forall j :: 0 <= j < |picks| ==> picks[j] < |popped| && bundle[j] == popped[picks[j]])
  }

  /** The bundle is what was popped at exactly the places where the operation stays, in order. */
  ghost predicate Picked(
    isUnsafe: bool, popped: seq<Operation>, waits: seq<Wait>, bundle: seq<Operation>, picks: seq<nat>)
    requires |popped| <= |waits|
  {
    && Selects(popped, bundle, picks)
    && forall k :: 0 <= k < |popped| ==> (k in picks <==> Stays(isUnsafe, popped[k], waits[k]))
  }

  lemma SelectsMore(popped: seq<Operation>, op: Operation, bundle: seq<Operation>, picks: seq<nat>)
    requires Selects(popped, bundle, picks)
    ensures Selects(popped + [op], bundle, picks) && Selects(popped + [op], bundle + [op], picks + [|popped|])
    ensures |popped| !in picks
  {
  }

  lemma {:induction false} KeptPicks(isUnsafe: bool, popped: seq<Operation>, waits: seq<Wait>) returns (picks: seq<nat>)
    requires |popped| <= |waits|
    ensures Picked(isUnsafe, popped, waits, Kept(isUnsafe, popped, waits), picks)
    decreases |popped|
  {
    if popped == [] {
      picks := [];
    } else {
      var k := |popped| - 1;
      var (front, op) := (popped[..k], popped[k]);
      var before := KeptPicks(isUnsafe, front, waits);
      assert popped == front + [op];
      SelectsMore(front, op, Kept(isUnsafe, front, waits), before);
      picks := if Stays(isUnsafe, op, waits[k]) then before + [k] else before;
      forall i | 0 <= i < |popped| ensures i in picks <==> Stays(isUnsafe, popped[i], waits[i]) {
        assert i < k ==> front[i] == popped[i] && (i in picks <==> i in before);
      }
    }
  }

  /** A round on its way: no query has failed, and its bundle is what the answers so far allow. */
  ghost predicate Underway(turns: seq<Turn>, isUnsafe: bool, waits: seq<Wait>, bundle: seq<Operation>)
    requires |turns| <= |waits|
  {
    && Turns(turns, isUnsafe, waits)
    && (forall k :: 0 <= k < |Popped(turns)| ==> !Fails(isUnsafe, waits[k].reply))
    && bundle == Kept(isUnsafe, Popped(turns), waits)
  }

  /** A round that an exception has ended: the last query failed, and what was bundled before it and
      the operation it was for are the latest departures. */
  ghost predicate BrokenOff(turns: seq<Turn>, isUnsafe: bool, waits: seq<Wait>, gone: seq<Departure>)
    requires |turns| <= |waits|
  {
    var (n, popped) := (|Popped(turns)| - 1, Popped(turns));
    && Turns(turns, isUnsafe, waits)
    && n >= 0 && Fails(isUnsafe, waits[n].reply) && (forall k :: 0 <= k < n ==> !Fails(isUnsafe, waits[k].reply))
    && EndsWith(gone, Departing(Kept(isUnsafe, popped[..n], waits) + [popped[n]], Lost))
  }

  lemma OneMore(turns: seq<Turn>, turn: Turn, isUnsafe: bool, waits: seq<Wait>)
    requires |turns| < |waits| && Turns(turns, isUnsafe, waits) && Visits(turn, isUnsafe, waits[|Popped(turns)|])
    ensures Turns(turns + [turn], isUnsafe, waits)
    ensures Popped(turns + [turn]) == Popped(turns) + (if turn.popped.Some? then [turn.popped.value] else [])
    ensures StepsOf(turns + [turn]) == StepsOf(turns) + turn.steps
  {
    assert (turns + [turn])[..|turns|] == turns;
  }

  lemma KeptOneMore(isUnsafe: bool, popped: seq<Operation>, op: Operation, waits: seq<Wait>)
    requires |popped| < |waits|
    ensures Kept(isUnsafe, popped + [op], waits)
            == Kept(isUnsafe, popped, waits) + if Accepts(isUnsafe, op, waits[|popped|].reply) then [op] else []
  {
    assert (popped + [op])[..|popped|] == popped;
  }

  lemma NoneFails(isUnsafe: bool, waits: seq<Wait>, k: nat)
    requires k < |waits| && !Fails(isUnsafe, waits[k].reply)
    requires forall j :: 0 <= j < k ==> !Fails(isUnsafe, waits[j].reply)
    ensures forall j :: 0 <= j < k + 1 ==> !Fails(isUnsafe, waits[j].reply)
  {
  }

  lemma GoesOn(
    turns: seq<Turn>, turn: Turn, isUnsafe: bool, waits: seq<Wait>, bundle: seq<Operation>, taken: seq<Operation>)
    requires |turns| < |waits| && Underway(turns, isUnsafe, waits, bundle)
    requires Visits(turn, isUnsafe, waits[|Popped(turns)|])
    requires turn.popped.Some? ==> !Fails(isUnsafe, waits[|Popped(turns)|].reply)
    requires taken == if turn.popped.Some? && Accepts(isUnsafe, turn.popped.value, waits[|Popped(turns)|].reply)
                      then [turn.popped.value] else []
    ensures Underway(turns + [turn], isUnsafe, waits, bundle + taken)
  {
    OneMore(turns, turn, isUnsafe, waits);
    if turn.popped.Some? {
      KeptOneMore(isUnsafe, Popped(turns), turn.popped.value, waits);
      NoneFails(isUnsafe, waits, |Popped(turns)|);
    } else {
      assert Popped(turns) + [] == Popped(turns) && bundle + [] == bundle;
    }
  }

  lemma BreaksOff(
    turns: seq<Turn>, turn: Turn, isUnsafe: bool, waits: seq<Wait>, bundle: seq<Operation>, gone: seq<Departure>)
    requires |turns| < |waits| && Underway(turns, isUnsafe, waits, bundle)
    requires Visits(turn, isUnsafe, waits[|Popped(turns)|])
    requires turn.popped.Some? && Fails(isUnsafe, waits[|Popped(turns)|].reply)
    requires EndsWith(gone, Departing(bundle + [turn.popped.value], Lost))
    ensures BrokenOff(turns + [turn], isUnsafe, waits, gone)
  {
    OneMore(turns, turn, isUnsafe, waits);
    var popped := Popped(turns);
    assert (popped + [turn.popped.value])[..|popped|] == popped;
  }

  /** What a finished round has done: popped at most one operation per sender text, in the order of
      the dictionary; of every sender that had any the oldest, unless that was replaced meanwhile;
      and bundled them in that order, except where the code had changed. */
  ghost predicate Served(start: Directory, popped: seq<Operation>, bundle: seq<Operation>, gone: seq<Departure>) {
    && NoDuplicates(SendersOf(popped)) && SubsequenceOf(SendersOf(popped), Addresses(start))
    && (forall a :: PoolFor(start, a) != [] ==> a in SendersOf(popped))
    && (forall a :: PoolFor(start, a) != [] ==>
                      var oldest := PoolFor(start, a)[0].op;
                      oldest in popped || Departure(oldest, Fate.Replaced) in gone)
    && SubsequenceOf(bundle, popped) && NoDuplicates(SendersOf(bundle))
    && (forall op :: op in popped ==> op in bundle || Departure(op, CodeChanged) in gone)
  }

  ghost predicate EndsWith<T>(s: seq<T>, t: seq<T>) { |t| <= |s| && s[|s| - |t|..] == t }

  ghost predicate ArrivalsCoherent(ident: Identity, arrivals: seq<Interruption>) {
    forall k :: 0 <= k < |arrivals| ==> Coherent(ident, arrivals[k].entry)
  }

  /** The directory is what the pool objects hold. */
  ghost predicate Shows(senders: seq<SenderMempool>, d: Directory)
    reads senders
  {
    |senders| == |d| && forall i :: 0 <= i < |d| ==> d[i] == Sender(senders[i].address, senders[i].entries)
  }

  lemma ShowsWithout(senders: seq<SenderMempool>, d: Directory, a: Address, i: nat)
    requires i < |senders| && Shows(senders, d) && Has(d, a) && i == Index(d, a)
    ensures Shows(senders[..i] + senders[i + 1..], Remove(d, a))
  {
    Removed(d, a);
  }

  lemma DistinctWithout(senders: seq<SenderMempool>, i: nat, repr: set<SenderMempool>)
    requires i < |senders| && DistinctObjects(senders) && AllIn(senders, repr)
    ensures DistinctObjects(senders[..i] + senders[i + 1..]) && AllIn(senders[..i] + senders[i + 1..], repr)
  {
    var rest := senders[..i] + senders[i + 1..];
    assert forall j :: 0 <= j < |rest| ==> rest[j] == senders[if j < i then j else j + 1];
  }

  ghost predicate AllIn(senders: seq<SenderMempool>, repr: set<SenderMempool>) {
    forall i :: 0 <= i < |senders| ==> senders[i] in repr
  }

  ghost predicate DistinctObjects(senders: seq<SenderMempool>) {
    forall i, j :: 0 <= i < j < |senders| ==> senders[i] != senders[j]
  }

  /** The turn that a pop and a wait make up. */
  lemma VisitOf(op: Operation, begun: seq<Event>, before: seq<Event>, after: seq<Event>, isUnsafe: bool, wait: Wait)
    returns (turn: Turn)
    requires before == begun + [TakeNext] && before <= after && Waits(after[|before|..], isUnsafe, wait)
    ensures after == begun + turn.steps && turn.popped == Some(op) && Visits(turn, isUnsafe, wait)
  {
    var later := after[|before|..];
    turn := Turn(Some(op), [TakeNext] + later);
    assert after == begun + [TakeNext] + later;
    Associates(begun, [TakeNext], later);
    assert turn.steps[1..] == later;
  }

  class MempoolManager {
    var senders: seq<SenderMempool>
    var counters: map<Address, nat>
    var seen: set<Hash>
    var admissions: nat
    const isUnsafe: bool
    const reputation: Reputation.ReputationManager
    ghost var history: seq<Event>
    ghost var lane: Lane
    ghost var repr: set<SenderMempool>  // the pool objects

    ghost predicate Valid(ident: Identity)
      reads this, repr
    {
      && Owned() && DistinctObjects(senders)
      && Shows(senders, lane.senders) && lane.counters == counters && lane.seen == seen
      && admissions == |lane.ledger.admitted|
      && Reached(ident, history, lane)
    }

    ghost predicate Owned()
      reads this
    {
      AllIn(senders, repr)
    }

    constructor (isUnsafe: bool, reputation: Reputation.ReputationManager, ghost ident: Identity)
      ensures Valid(ident) && history == [] && senders == [] && repr == {}
      ensures this.isUnsafe == isUnsafe && this.reputation == reputation
    {
      this.isUnsafe, this.reputation := isUnsafe, reputation;
      senders, counters, seen, admissions, lane, history, repr := [], map[], {}, 0, EMPTY_LANE, [], {};
      assert Path(ident, [], [EMPTY_LANE]);
    }

    /** The position of a sender in the dictionary, or its length when it is not there. */
    method Find(a: Address, ghost d: Directory) returns (i: nat)
      requires Shows(senders, d)
      ensures i <= |senders|
      ensures i == |senders| <==> !Has(d, a)
      ensures i < |senders| ==> Has(d, a) && i == Index(d, a) && PoolFor(d, a) == senders[i].entries
    {
      i := 0;
      while i < |senders| && senders[i].address != a
        invariant i <= |senders| && forall j :: 0 <= j < i ==> d[j].address != a
      {
        i := i + 1;
      }
      assert i < |senders| ==> d[i].address == a;
    }

    method UpdateAllSeenStatus(op: Operation)
      modifies reputation
      ensures reputation.entries == SeeAll(old(reputation.entries), Named(op))
      ensures OpSeen(old(reputation.entries), reputation.entries, op)
    {
      NamedSeen(reputation.entries, op);
      ghost var was := reputation.entries;
      ghost var named := [op.sender];
      reputation.UpdateSeenStatus(op.sender);
      assert reputation.entries == SeeAll(was, named);
      if op.factory.Some? {
        named := named + [op.factory.value];
        assert named[..|named| - 1] == [op.sender];
        reputation.UpdateSeenStatus(op.factory.value);
      }
      assert reputation.entries == SeeAll(was, named);
      if op.paymaster.Some? {
        ghost var before := named;
        named := named + [op.paymaster.value];
        assert named[..|named| - 1] == before;
        reputation.UpdateSeenStatus(op.paymaster.value);
      }
      assert named == Named(op);
    }

    /** Finds or creates the sender's pool and adds to it. */
    method Store(e: Entry, staked: bool, ghost ident: Identity, ghost d: Directory) returns (outcome: Outcome)
      requires Owned() && DistinctObjects(senders) && Shows(senders, d) && DirectoryOk(ident, d) && Coherent(ident, e)
      modifies this`senders, this`repr, repr
      ensures Owned() && DistinctObjects(senders) && fresh(repr - old(repr))
      ensures var pool := PoolFor(d, e.op.sender);
              && outcome == OutcomeOf(pool, e.op, staked)
              && Shows(senders, SetPool(d, e.op.sender, After(pool, e, staked)))
    {
      PoolForOk(ident, d, e.op.sender);
      var i := Find(e.op.sender, d);
      if i == |senders| {
        var sender := new SenderMempool(e.op.sender);
        senders, repr := senders + [sender], repr + {sender};
      }
      var sender := senders[i];
      outcome := sender.AddUserOperation(e, staked, ident);
    }

    /** The part of an admission after validation, which never suspends. */
    method CommitAdmission(e: Entry, staked: bool, ghost ident: Identity, ghost from: Lane) returns (outcome: Outcome)
      requires Owned() && DistinctObjects(senders) && DirectoryOk(ident, from.senders) && Coherent(ident, e)
      requires Shows(senders, from.senders) && from.counters == counters && admissions == |from.ledger.admitted|
      modifies this`senders, this`counters, this`admissions, this`repr, repr, reputation
      ensures Owned() && DistinctObjects(senders) && fresh(repr - old(repr))
      ensures outcome == OutcomeOf(PoolFor(from.senders, e.op.sender), e.op, staked)
      ensures var after := Commit(from, e, staked);
              && Shows(senders, after.senders) && after.counters == counters && after.seen == from.seen
              && admissions == |after.ledger.admitted|
      ensures reputation.entries == if outcome.Rejected? then old(reputation.entries)
                                    else SeeAll(old(reputation.entries), Named(e.op))
      ensures outcome.Rejected? <==> Refuses(PoolFor(from.senders, e.op.sender), e, staked)
      ensures Tallied(old(counters), counters, e.op, !outcome.Rejected?)
      ensures !outcome.Rejected? ==> OpSeen(old(reputation.entries), reputation.entries, e.op)
    {
      RefusesExactly(PoolFor(from.senders, e.op.sender), e, staked);
      TalliedUp(counters, e.op);
      outcome := Store(e, staked, ident, from.senders);
      if outcome.Rejected? {
        RejectedChangesNothing(from.senders, e, staked);
        return;
      }
      CommitFields(from, e, staked);
      UpdateAllSeenStatus(e.op);
      counters := CountUp(counters, e.op.factory);
      counters := CountUp(counters, e.op.paymaster);
      admissions := admissions + 1;
    }

    method AddUserOperation(e: Entry, staked: bool, ghost ident: Identity) returns (accepted: bool)
      requires Valid(ident) && Coherent(ident, e) && e.op.id == admissions
      modifies this, repr, reputation
      ensures Valid(ident) && history == old(history) + [Submit(e, staked)]
      ensures lane.round == old(lane).round && lane.queue == old(lane).queue
      ensures fresh(repr - old(repr))
      ensures lane.ledger.admitted == old(lane).ledger.admitted + if accepted then [e.op] else []
      ensures accepted <==> !Refuses(PoolFor(old(lane).senders, e.op.sender), e, staked)
      ensures Tallied(old(counters), counters, e.op, accepted)
      ensures if accepted then OpSeen(old(reputation.entries), reputation.entries, e.op)
              else reputation.entries == old(reputation.entries)
    {
      ReachedDirectory(ident, history, lane);
      ExtendSubmit(ident, history, lane, e, staked);
      var outcome := CommitAdmission(e, staked, ident, lane);
      accepted := !outcome.Rejected?;
      history, lane := history + [Submit(e, staked)], Commit(lane, e, staked);
    }

    method MarkAndCommit(e: Entry, staked: bool, ghost ident: Identity)
      requires Valid(ident) && Coherent(ident, e) && e.op.id == admissions && e.hash !in seen
      modifies this, repr, reputation
      ensures Valid(ident) && history == old(history) + [Gossip(e, staked)]
      ensures lane.round == old(lane).round && lane.queue == old(lane).queue
      ensures fresh(repr - old(repr))
      ensures seen == old(seen) + {e.hash}
      ensures var accepted := !Refuses(PoolFor(old(lane).senders, e.op.sender), e, staked);
              && Tallied(old(counters), counters, e.op, accepted)
              && if accepted then OpSeen(old(reputation.entries), reputation.entries, e.op)
                 else reputation.entries == old(reputation.entries)
    {
      ReachedDirectory(ident, history, lane);
      ExtendGossip(ident, history, lane, e, staked);
      ghost var after := Commit(Marked(lane, e.hash), e, staked);
      var _ := CommitAdmission(e, staked, ident, Marked(lane, e.hash));
      seen := seen + {e.hash};
      history, lane := history + [Gossip(e, staked)], after;
    }

    /** Test, mark and commit in one step. A refusal by the pool leaves the hash marked. */
    method AddUserOperationP2P(e: Entry, staked: bool, ghost ident: Identity) returns (committed: bool)
      requires Valid(ident) && Coherent(ident, e) && e.op.id == admissions
      modifies this, repr, reputation
      ensures Valid(ident) && history == old(history) + [Gossip(e, staked)]
      ensures lane.round == old(lane).round && lane.queue == old(lane).queue
      ensures fresh(repr - old(repr))
      ensures committed <==> e.hash !in old(seen)
      ensures seen == old(seen) + {e.hash}
      ensures var accepted := committed && !Refuses(PoolFor(old(lane).senders, e.op.sender), e, staked);
              && Tallied(old(counters), counters, e.op, accepted)
              && if accepted then OpSeen(old(reputation.entries), reputation.entries, e.op)
                 else reputation.entries == old(reputation.entries)
    {
      committed := e.hash !in seen;
      if committed {
        MarkAndCommit(e, staked, ident);
      } else {
        ExtendSeen(ident, history, lane, e, staked);
        history := history + [Gossip(e, staked)];
      }
    }

    method VerifyEntityReputation(e: Address) returns (passed: bool)
      modifies this`counters
      ensures counters == old(counters)[e := CountFor(old(counters), e)]
      ensures passed <==> Admissible(old(counters), e, Reputation.StatusOf(reputation.entries, e))
    {
      if e !in counters {
        counters := counters[e := 0];
      }
      var numberOfOps := counters[e];
      var status := Reputation.StatusOf(reputation.entries, e);
      passed := status != Reputation.BANNED && !(status == Reputation.THROTTLED && numberOfOps > 0);
    }

    /** Sender, then factory, then paymaster; the first one refused ends the check. */
    method VerifyEntities(op: Operation) returns (passed: bool)
      modifies this`counters
      ensures counters == Gated(old(counters), Named(op), Statuses(reputation.entries))
      ensures passed <==> Passes(old(counters), Named(op), Statuses(reputation.entries))
    {
      ghost var statuses := Statuses(reputation.entries);
      ghost var paymaster := if op.paymaster.Some? then [op.paymaster.value] else [];
      ghost var factory := if op.factory.Some? then [op.factory.value] else [];
      assert Named(op) == [op.sender] + (factory + paymaster);
      GateStep(counters, op.sender, factory + paymaster, statuses);
      passed := VerifyEntityReputation(op.sender);
      if passed && op.factory.Some? {
        GateStep(counters, op.factory.value, paymaster, statuses);
        passed := VerifyEntityReputation(op.factory.value);
      }
      assert op.factory.None? ==> factory + paymaster == paymaster;
      if passed && op.paymaster.Some? {
        assert paymaster == [op.paymaster.value] + [];
        GateStep(counters, op.paymaster.value, [], statuses);
        passed := VerifyEntityReputation(op.paymaster.value);
      }
    }

    /** The reputation gate of an admission, in terms of the admissions completed so far. */
    method VerifyEntitiesReputation(op: Operation, ghost ident: Identity) returns (passed: bool)
      requires Valid(ident)
      modifies this`counters, this`lane, this`history
      ensures Valid(ident) && history == old(history) + [Gate(Named(op), Statuses(reputation.entries))]
      ensures passed <==> AllWelcome(reputation.entries, lane.ledger.admitted, op)
    {
      ghost var gate := Gate(Named(op), Statuses(reputation.entries));
      ReachedInv(ident, history, lane);
      GateWelcomes(ident, lane, reputation.entries, op);
      Extend(ident, history, lane, gate);
      passed := VerifyEntities(op);
      history, lane := history + [gate], lane.(counters := counters);
    }

    function Snapshot(): seq<Address>
      reads this, senders
    {
      seq(|senders|, i requires 0 <= i < |senders| reads this, senders => senders[i].address)
    }

    /** Pops the oldest operation of a sender, if it has any. */
    method PopOldest(a: Address, ghost d: Directory) returns (op: Option<Operation>)
      requires Owned() && DistinctObjects(senders) && Shows(senders, d) && Has(d, a)
      modifies repr
      ensures var pool := PoolFor(d, a);
              if pool == [] then op == None && Shows(senders, d)
              else op == Some(pool[0].op) && Shows(senders, SetPool(d, a, pool[1..]))
    {
      var i := Find(a, d);
      var sender := senders[i];
      op := None;
      if |sender.entries| > 0 {
        op := Some(sender.entries[0].op);
        sender.entries := sender.entries[1..];
      }
    }

    method DeleteIfEmpty(a: Address, ghost d: Directory)
      requires Owned() && DistinctObjects(senders) && Shows(senders, d) && Has(d, a)
      modifies this`senders
      ensures Owned() && DistinctObjects(senders)
      ensures Shows(senders, if PoolFor(d, a) == [] then Remove(d, a) else d)
    {
      var i := Find(a, d);
      if |senders[i].entries| == 0 {
        ShowsWithout(senders, d, a, i);
        DistinctWithout(senders, i, repr);
        senders := senders[..i] + senders[i + 1..];
      }
    }

    method Pop(ghost ident: Identity, a: Address) returns (op: Option<Operation>)
      requires Valid(ident) && Enabled(ident, lane, TakeNext) && a == lane.round.todo[0]
      modifies this`lane, this`history, repr
      ensures Valid(ident) && history == old(history) + [TakeNext] && lane.queue == old(lane).queue
      ensures lane.round == old(lane).round.(
                todo := old(lane).round.todo[1..],
                held := op,
                taken := old(lane).round.taken + if op.Some? then [op.value] else [])
    {
      ReachedDirectory(ident, history, lane);
      Extend(ident, history, lane, TakeNext);
      op := PopOldest(a, lane.senders);
      history, lane := history + [TakeNext], Take(lane);
    }

    /** Resumes with the code hash: the sender's pool is deleted if it is empty, but only when the
        code is unchanged. */
    method SettleHeld(ghost ident: Identity, op: Operation, answer: Option<string>)
      requires Valid(ident) && lane.round.Collecting? && lane.round.held == Some(op)
      modifies this`lane, this`history, this`senders
      ensures Valid(ident) && history == old(history) + [CodeHash(answer)] && lane.queue == old(lane).queue
      ensures lane.round == old(lane).round.(
                held := None,
                bundle := old(lane).round.bundle + if CodeUnchanged(op, answer) then [op] else [])
    {
      ReachedDirectory(ident, history, lane);
      ExtendSettle(ident, history, lane, answer);
      ghost var after := Settle(lane, answer);
      if CodeUnchanged(op, answer) {
        DeleteIfEmpty(op.sender, lane.senders);
      }
      history, lane := history + [CodeHash(answer)], after;
    }

    /** Admissions that commit while the round is suspended. */
    method Interrupt(arrivals: seq<Interruption>, ghost ident: Identity)
      requires Valid(ident) && ArrivalsCoherent(ident, arrivals)
      modifies this, repr, reputation
      ensures Valid(ident) && lane.round == old(lane).round && lane.queue == old(lane).queue
      ensures old(history) <= history && CommitAll(history[|old(history)|..], arrivals)
      ensures fresh(repr - old(repr))
    {
      for k := 0 to |arrivals|
        invariant Valid(ident) && lane.round == old(lane).round && lane.queue == old(lane).queue
        invariant old(history) <= history && CommitAll(history[|old(history)|..], arrivals[..k])
        invariant fresh(repr - old(repr))
      {
        var a := arrivals[k];
        var e := a.entry.(op := a.entry.op.(id := admissions));
        if a.byGossip {
          var _ := AddUserOperationP2P(e, a.staked, ident);
        } else {
          var _ := AddUserOperation(e, a.staked, ident);
        }
      }
      assert arrivals[..|arrivals|] == arrivals;
    }

    /** Waits for the code hash of the popped operation, admitting whatever arrives, and settles. A
        failing query ends the round and loses what it had. */
    method Await(op: Operation, wait: Wait, ghost ident: Identity)
      returns (raised: bool, taken: seq<Operation>)
      requires Valid(ident) && ArrivalsCoherent(ident, wait.arrivals)
      requires lane.round.Collecting? && lane.round.held == Some(op)
      modifies this, repr, reputation
      ensures Valid(ident) && fresh(repr - old(repr)) && lane.queue == old(lane).queue
      ensures raised <==> !isUnsafe && wait.reply.Failure?
      ensures taken
              == if isUnsafe || (wait.reply.CodeReply? && op.codeHash == Some(wait.reply.hash)) then [op] else []
      ensures old(history) <= history && Waits(history[|old(history)|..], isUnsafe, wait)
      ensures raised ==>
                && lane.round.Idle?
                && EndsWith(lane.ledger.gone, Departing(old(lane).round.bundle + [op], Lost))
      ensures !raised ==> lane.round == old(lane).round.(held := None, bundle := old(lane).round.bundle + taken)
    {
      var answer := None;
      if !isUnsafe {
        Interrupt(wait.arrivals, ident);
        if wait.reply.Failure? {
          Record(ident, AbortRound);
          return true, [];
        }
        answer := Some(wait.reply.hash);
      }
      SettleHeld(ident, op, answer);
      return false, if CodeUnchanged(op, answer) then [op] else [];
    }

    /** The visit to one sender: pop its oldest operation, wait for the code hash, settle. */
    method Visit(a: Address, wait: Wait, ghost ident: Identity)
      returns (raised: bool, popped: Option<Operation>, taken: seq<Operation>, ghost turn: Turn)
      requires Valid(ident) && ArrivalsCoherent(ident, wait.arrivals)
      requires Enabled(ident, lane, TakeNext) && a == lane.round.todo[0]
      modifies this, repr, reputation
      ensures Valid(ident) && fresh(repr - old(repr)) && lane.queue == old(lane).queue
      ensures history == old(history) + turn.steps && turn.popped == popped && Visits(turn, isUnsafe, wait)
      ensures raised <==> popped.Some? && Fails(isUnsafe, wait.reply)
      ensures taken == if popped.Some? && Accepts(isUnsafe, popped.value, wait.reply) then [popped.value] else []
      ensures raised ==>
                && lane.round.Idle?
                && EndsWith(lane.ledger.gone, Departing(old(lane).round.bundle + [popped.value], Lost))
      ensures !raised ==> lane.round == old(lane).round.(
                todo := old(lane).round.todo[1..],
                bundle := old(lane).round.bundle + taken,
                taken := old(lane).round.taken + if popped.Some? then [popped.value] else [])
    {
      popped := Pop(ident, a);
      raised, taken := false, [];
      turn := Turn(popped, [TakeNext]);
      if popped.Some? {
        ghost var before := history;
        raised, taken := Await(popped.value, wait, ident);
        turn := VisitOf(popped.value, old(history), before, history, isUnsafe, wait);
      }
    }

    /** Where the loop over the snapshot is after some turns, or where an exception left it; `begun`
        and `start` are the history and the directory when it began. */
    ghost predicate Midway(
      snapshot: seq<Address>, begun: seq<Event>, start: Directory, turns: seq<Turn>, waits: seq<Wait>,
      bundle: seq<Operation>, raised: bool)
      requires |turns| <= |snapshot| <= |waits|
      reads this
    {
      && history == begun + StepsOf(turns)
      && if raised then lane.round.Idle? && BrokenOff(turns, isUnsafe, waits, lane.ledger.gone)
         else
           && Underway(turns, isUnsafe, waits, bundle)
           && lane.round == Collecting(snapshot[|turns|..], None, bundle, start, Popped(turns))
    }

    /** One turn of the loop. */
    method TakeTurn(
      snapshot: seq<Address>, n: nat, pops: nat, waits: seq<Wait>, bundle: seq<Operation>,
      ghost begun: seq<Event>, ghost start: Directory, ghost turns: seq<Turn>, ghost ident: Identity)
      returns (raised: bool, bundle': seq<Operation>, pops': nat, ghost turns': seq<Turn>)
      requires Valid(ident) && |turns| == n < |snapshot| <= |waits| && pops == |Popped(turns)|
      requires ArrivalsCoherent(ident, waits[pops].arrivals)
               && Midway(snapshot, begun, start, turns, waits, bundle, false)
      modifies this, repr, reputation
      ensures Valid(ident) && fresh(repr - old(repr)) && lane.queue == old(lane).queue
      ensures |turns'| == n + 1 && pops' == |Popped(turns')|
      ensures Midway(snapshot, begun, start, turns', waits, bundle', raised)
    {
      var popped, taken;
      ghost var turn;
      raised, popped, taken, turn := Visit(snapshot[n], waits[pops], ident);
      bundle', pops', turns' := bundle + taken, pops + if popped.Some? then 1 else 0, turns + [turn];
      OneMore(turns, turn, isUnsafe, waits);
      Associates(begun, StepsOf(turns), turn.steps);
      if raised {
        BreaksOff(turns, turn, isUnsafe, waits, bundle, lane.ledger.gone);
      } else {
        GoesOn(turns, turn, isUnsafe, waits, bundle, taken);
      }
    }

    /** The loop over the senders of the snapshot. */
    method Collect(snapshot: seq<Address>, waits: seq<Wait>, ghost ident: Identity)
      returns (raised: bool, bundle: seq<Operation>, ghost turns: seq<Turn>)
      requires Valid(ident) && lane.round == Collecting(snapshot, None, [], lane.senders, []) && |snapshot| <= |waits|
      requires forall k :: 0 <= k < |waits| ==> ArrivalsCoherent(ident, waits[k].arrivals)
      modifies this, repr, reputation
      ensures Valid(ident) && fresh(repr - old(repr)) && lane.queue == old(lane).queue
      ensures |turns| <= |snapshot| && (!raised ==> |turns| == |snapshot|)
      ensures Midway(snapshot, old(history), old(lane).senders, turns, waits, bundle, raised)
    {
      bundle, raised, turns := [], false, [];
      ghost var (begun, start) := (history, lane.senders);
      var n, pops := 0, 0;
      while n < |snapshot| && !raised
        invariant Valid(ident) && fresh(repr - old(repr)) && lane.queue == old(lane).queue
        invariant |turns| == n <= |snapshot| && pops == |Popped(turns)|
        invariant Midway(snapshot, begun, start, turns, waits, bundle, raised)
        decreases |snapshot| - n
      {
        raised, bundle, pops, turns := TakeTurn(snapshot, n, pops, waits, bundle, begun, start, turns, ident);
        n := n + 1;
      }
    }

    /** One bundling round. `waits` is what happens at the successive waits, one per sender at most;
        in unsafe mode there are none. `turns` are the visits it makes, up to the one whose query
        fails.
        An exception is raised exactly when a query fails, and then what was collected and the
        operation waited for are lost. Otherwise the bundle is handed over: of the popped operations
        exactly those whose code is unchanged, at most one per sender text, and of every sender that
        had operations at the start one was popped, the oldest unless it was replaced meanwhile. */
    method GetUserOperationsToBundle(waits: seq<Wait>, ghost ident: Identity)
      returns (raised: bool, bundle: seq<Operation>, ghost turns: seq<Turn>)
      requires Valid(ident) && lane.round.Idle? && |senders| <= |waits|
      requires forall k :: 0 <= k < |waits| ==> ArrivalsCoherent(ident, waits[k].arrivals)
      modifies this, repr, reputation
      ensures Valid(ident) && fresh(repr - old(repr)) && lane.round.Idle?
      ensures |turns| <= |waits| && Turns(turns, isUnsafe, waits)
      ensures history == old(history) + [StartRound] + StepsOf(turns) + if raised then [] else [FinishRound]
      ensures raised <==> exists k :: 0 <= k < |Popped(turns)| && !isUnsafe && waits[k].reply.Failure?
      ensures raised ==> lane.queue == old(lane).queue && BrokenOff(turns, isUnsafe, waits, lane.ledger.gone)
      ensures !raised ==>
                && |turns| == |old(lane).senders|
                && bundle == Kept(isUnsafe, Popped(turns), waits)
                && (exists picks :: Picked(isUnsafe, Popped(turns), waits, bundle, picks))
                && lane.queue == old(lane).queue + bundle
                && Served(old(lane).senders, Popped(turns), bundle, lane.ledger.gone)
    {
      var snapshot := Snapshot();
      Record(ident, StartRound);
      raised, bundle, turns := Collect(snapshot, waits, ident);
      if !raised {
        FinishCollecting(ident);
        ghost var _ := KeptPicks(isUnsafe, Popped(turns), waits);
      }
    }

    ghost method FinishCollecting(ident: Identity)
      requires Valid(ident) && Enabled(ident, lane, FinishRound)
      modifies this`lane, this`history
      ensures Valid(ident) && history == old(history) + [FinishRound]
      ensures lane.round.Idle? && lane.queue == old(lane).queue + old(lane).round.bundle
      ensures var r := old(lane).round; Served(r.start, r.taken, r.bundle, lane.ledger.gone)
    {
      ReachedInv(ident, history, lane);
      Runs.FinishedRound(ident, lane);
      Record(ident, FinishRound);
    }

    /** Notes a step that changes none of the fields. */
    ghost method Record(ident: Identity, e: Event)
      requires Valid(ident) && Enabled(ident, lane, e)
      requires e.StartRound? || e.AbortRound? || e.FinishRound?
      modifies this`lane, this`history
      ensures Valid(ident) && history == old(history) + [e] && lane == Step(ident, old(lane), 100, e).0
    {
      Extend(ident, history, lane, e);
      history, lane := history + [e], Step(ident, lane, 100, e).0;
    }

    method ClearUserOperations(ghost ident: Identity)
      requires Valid(ident) && lane.round.Idle?
      modifies this
      ensures Valid(ident) && history == old(history) + [Clear]
      ensures senders == [] && counters == old(counters) && seen == old(seen)
    {
      Extend(ident, history, lane, Clear);
      senders := [];
      history, lane := history + [Clear], Step(ident, lane, 100, Clear).0;
    }
  }
}
