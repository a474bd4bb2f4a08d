/**
 Sending a bundle: the node's replies, the recursion after a failed operation, the requeue at a
 higher gas price and the shared price multiplier.
 */
module BundleSending {
  import opened Basics
  import opened SenderMempools
  import opened Reputation
  import opened Strings

  /** What the node answers to one attempt. `FeesUnavailable` is a failed fee or nonce query,
      `Raised` any exception that leaves `send_bundle`. */
  datatype Reply =
    | Sent
    | FailedOp(index: nat, reason: string)
    | Underpriced
    | AlreadyKnown
    | OtherError
    | FeesUnavailable
    | Raised

  /** The reply to the attempt at each depth of the recursion. */
  type Replies = nat -> Reply

  /** `kept` is what the send queue holds afterwards. */
  datatype SendResult = SendResult(
    kept: seq<Operation>, raised: bool, multiplier: nat,
    sent: seq<Operation>, dropped: seq<Operation>, banned: seq<Address>)

  /** The entity blamed for a failed operation. */
  function Blamed(op: Operation, reason: string): Option<Address> {
    if Contains(reason, "AA3") && op.paymaster.Some? then op.paymaster
    else if Contains(reason, "AA2") then Some(op.sender)
    else if Contains(reason, "AA1") && op.factory.Some? then op.factory
    else None
  }

  function Without(ops: seq<Operation>, i: nat): seq<Operation>
    requires i < |ops|
  {
    ops[..i] + ops[i + 1..]
  }

  ghost function Send(ops: seq<Operation>, m: nat, replies: Replies, depth: nat): SendResult
    decreases |ops|
  {
    match replies(depth)
    case Sent => SendResult([], false, 100, ops, [], [])
    case Underpriced =>
      if m <= 200 then SendResult(ops, false, m + 10, [], [], [])
      else SendResult([], false, m, [], ops, [])
    case AlreadyKnown => SendResult([], false, m, [], ops, [])
    case OtherError => SendResult([], false, m, [], ops, [])
    case FeesUnavailable => SendResult([], false, m, [], ops, [])
    case Raised => SendResult(ops, true, m, [], [], [])
    case FailedOp(i, reason) =>
      if i >= |ops| then SendResult(ops, true, m, [], [], [])
      else
        var blamed := Blamed(ops[i], reason);
        var banned := if blamed.Some? then [blamed.value] else [];
        if |ops| == 1 then SendResult([], false, m, [], ops, banned)
        else
          // The inner call's return value is ignored: what it would have requeued is dropped.
          var inner := Send(Without(ops, i), m, replies, depth + 1);
          if inner.raised then inner.(dropped := [ops[i]] + inner.dropped, banned := banned + inner.banned)
          else SendResult([], false, inner.multiplier, inner.sent,
                          [ops[i]] + inner.dropped + inner.kept, banned + inner.banned)
  }

  lemma WithoutOne(ops: seq<Operation>, i: nat)
    requires i < |ops|
    ensures multiset(Without(ops, i)) + multiset([ops[i]]) == multiset(ops)
  {
    assert ops == ops[..i] + [ops[i]] + ops[i + 1..];
  }

  ghost function Accounted(r: SendResult): multiset<Operation> {
    multiset(r.kept) + multiset(r.sent) + multiset(r.dropped)
  }

  lemma AccountedAfterFailure(op: Operation, inner: SendResult, outer: SendResult)
    requires outer.sent == inner.sent
    requires || (outer.kept == inner.kept && outer.dropped == [op] + inner.dropped)
             || (outer.kept == [] && outer.dropped == [op] + inner.dropped + inner.kept)
    ensures Accounted(outer) == Accounted(inner) + multiset([op])
  {
    assert multiset([op] + inner.dropped) == multiset([op]) + multiset(inner.dropped);
    assert multiset([op] + inner.dropped + inner.kept) == multiset([op] + inner.dropped) + multiset(inner.kept);
  }

  /** The attempt is repeated without one of the operations. */
  ghost predicate Repeats(ops: seq<Operation>, reply: Reply) {
    reply.FailedOp? && reply.index < |ops| && |ops| > 1
  }

  lemma AccountedAtOnce(ops: seq<Operation>, m: nat, replies: Replies, depth: nat)
    requires !Repeats(ops, replies(depth))
    ensures Accounted(Send(ops, m, replies, depth)) == multiset(ops)
  {
    var r := Send(ops, m, replies, depth);
    assert (r.kept == ops && r.sent == [] && r.dropped == []) || (r.kept == [] && r.sent == ops && r.dropped == [])
        || (r.kept == [] && r.sent == [] && r.dropped == ops);
  }

  /** Every operation of the bundle ends up kept, sent or dropped, once. */
  lemma {:induction false} SendConserves(ops: seq<Operation>, m: nat, replies: Replies, depth: nat)
    ensures Accounted(Send(ops, m, replies, depth)) == multiset(ops)
    decreases |ops|
  {
    var reply := replies(depth);
    if !Repeats(ops, reply) {
      AccountedAtOnce(ops, m, replies, depth);
    } else {
      var i := reply.index;
      var (inner, outer) := (Send(Without(ops, i), m, replies, depth + 1), Send(ops, m, replies, depth));
      SendConserves(Without(ops, i), m, replies, depth + 1);
      WithoutOne(ops, i);
      AccountedAfterFailure(ops[i], inner, outer);
    }
  }

  ghost predicate MultiplierOk(m: nat) { 100 <= m <= 210 && m % 10 == 0 }

  /** The multiplier stays a multiple of ten between 100 and 210; a successful send resets it and
      nothing else lowers it; a requeue raises it. */
  lemma {:induction false} SendMultiplier(ops: seq<Operation>, m: nat, replies: Replies, depth: nat)
    requires MultiplierOk(m) && ops != []
    ensures var r := Send(ops, m, replies, depth);
            && MultiplierOk(r.multiplier)
            && (r.sent != [] ==> r.multiplier == 100)
            && (r.sent == [] ==> r.multiplier >= m)
            && (r.kept != [] && !r.raised ==> r.multiplier == m + 10)
    decreases |ops|
  {
    var reply := replies(depth);
    if reply.FailedOp? && reply.index < |ops| && |ops| > 1 {
      SendMultiplier(Without(ops, reply.index), m, replies, depth + 1);
    }
  }

  /** The bundles that are tried, one after the other: as long as an operation fails and is not the only
      one, the next is without it. */
  ghost function Attempts(ops: seq<Operation>, replies: Replies, depth: nat): (lists: seq<seq<Operation>>)
    ensures lists != []
    decreases |ops|
  {
    match replies(depth)
    case FailedOp(i, _) =>
      if i < |ops| && |ops| > 1 then [ops] + Attempts(ops[..i] + ops[i + 1..], replies, depth + 1) else [ops]
    case _ => [ops]
  }

  /** The recursion in closed form: after `n` failures the deciding reply alone settles what is sent, the
      multiplier and whether an exception is raised. A bundle is requeued only when the first attempt
      itself was underpriced; after a failure what is underpriced is dropped, although the price goes up. */
  ghost predicate Decided(left: seq<Operation>, n: nat, last: Reply, m: nat, r: SendResult) {
    && left != [] && !(last.FailedOp? && last.index < |left| && |left| > 1)
    && (r.raised <==> last.Raised? || (last.FailedOp? && last.index >= |left|))
    && r.sent == (if last.Sent? then left else [])
    && r.kept == (if r.raised || (n == 0 && last.Underpriced? && m <= 200) then left else [])
    && r.multiplier == (if last.Sent? then 100 else if last.Underpriced? && m <= 200 then m + 10 else m)
  }

  lemma DecidedAtOnce(ops: seq<Operation>, m: nat, replies: Replies, depth: nat)
    requires ops != [] && !Repeats(ops, replies(depth))
    ensures Attempts(ops, replies, depth) == [ops]
    ensures Decided(ops, 0, replies(depth), m, Send(ops, m, replies, depth))
  {
  }

  /** The last of the bundles tried and the reply to it decide. */
  ghost predicate DecidedBy(
    lists: seq<seq<Operation>>, size: nat, replies: Replies, depth: nat, m: nat, r: SendResult)
  {
    lists != [] &&
    var n := |lists| - 1;
    |lists[n]| + n == size && Decided(lists[n], n, replies(depth + n), m, r)
  }

  lemma DecidedLater(
    ops: seq<Operation>, inner: seq<seq<Operation>>, size: nat, replies: Replies, depth: nat, m: nat,
    r: SendResult, deeper: SendResult)
    requires DecidedBy(inner, size, replies, depth + 1, m, deeper)
    requires r.sent == deeper.sent && r.raised == deeper.raised && r.multiplier == deeper.multiplier
    requires r.kept == if deeper.raised then deeper.kept else []
    ensures DecidedBy([ops] + inner, size + 1, replies, depth, m, r)
  {
    var (lists, n) := ([ops] + inner, |inner| - 1);
    assert lists[n + 1] == inner[n] && depth + (n + 1) == depth + 1 + n;
  }

  lemma SendAgain(ops: seq<Operation>, m: nat, replies: Replies, depth: nat, rest: seq<Operation>)
    requires Repeats(ops, replies(depth)) && rest == Without(ops, replies(depth).index)
    ensures Attempts(ops, replies, depth) == [ops] + Attempts(rest, replies, depth + 1)
    ensures var (r, deeper) := (Send(ops, m, replies, depth), Send(rest, m, replies, depth + 1));
            && r.sent == deeper.sent && r.raised == deeper.raised && r.multiplier == deeper.multiplier
            && r.kept == if deeper.raised then deeper.kept else []
  {
  }

  lemma {:induction false} SendDecided(ops: seq<Operation>, m: nat, replies: Replies, depth: nat)
    requires ops != []
    ensures DecidedBy(Attempts(ops, replies, depth), |ops|, replies, depth, m, Send(ops, m, replies, depth))
    decreases |ops|
  {
    var reply := replies(depth);
    if Repeats(ops, reply) {
      var rest := Without(ops, reply.index);
      SendDecided(rest, m, replies, depth + 1);
      SendAgain(ops, m, replies, depth, rest);
      DecidedLater(ops, Attempts(rest, replies, depth + 1), |rest|, replies, depth, m,
                   Send(ops, m, replies, depth), Send(rest, m, replies, depth + 1));
    } else {
      DecidedAtOnce(ops, m, replies, depth);
    }
  }

  // Reputation

  ghost function BanAll(entries: Entries, entities: seq<Address>): Entries
    decreases |entities|
  {
    if entities == [] then entries else BanAll(entries[entities[0] := BANNED_ENTRY], entities[1..])
  }

  function Named(op: Operation): seq<Address> {
    [op.sender]
    + (if op.factory.Some? then [op.factory.value] else [])
    + (if op.paymaster.Some? then [op.paymaster.value] else [])
  }

  ghost function Include(entries: Entries, entity: Address): Entries {
    var was := if entity in entries then entries[entity] else FRESH_ENTRY;
    entries[entity := was.(opsIncluded := was.opsIncluded + 1)]
  }

  ghost function IncludeAll(entries: Entries, entities: seq<Address>): Entries
    decreases |entities|
  {
    if entities == [] then entries else IncludeAll(Include(entries, entities[0]), entities[1..])
  }

  ghost function IncludeOps(entries: Entries, ops: seq<Operation>): Entries
    decreases |ops|
  {
    if ops == [] then entries else IncludeOps(IncludeAll(entries, Named(ops[0])), ops[1..])
  }

  ghost function Rated(entries: Entries, r: SendResult): Entries {
    IncludeOps(BanAll(entries, r.banned), r.sent)
  }

  /** How many of the three roles of an operation an entity has. */
  ghost function Mentions(op: Operation, e: Address): nat {
    (if op.sender == e then 1 else 0)
    + (if op.factory == Some(e) then 1 else 0)
    + (if op.paymaster == Some(e) then 1 else 0)
  }

  ghost function TimesNamed(ops: seq<Operation>, e: Address): nat {
    if ops == [] then 0 else Mentions(ops[0], e) + TimesNamed(ops[1..], e)
  }

  /** The entity has `n` more inclusions and is otherwise as it was; without any it is not created. */
  ghost predicate GainsIncluded(before: Entries, after: Entries, e: Address, n: nat) {
    var was := if e in before then before[e] else ReputationEntry(0, 0, OK);
    && (e in after <==> e in before || n > 0)
    && (e in after ==> after[e] == ReputationEntry(was.opsSeen, was.opsIncluded + n, was.status))
  }

  lemma GainsTwice(a: Entries, b: Entries, c: Entries, e: Address, n: nat, m: nat)
    requires GainsIncluded(a, b, e, n) && GainsIncluded(b, c, e, m)
    ensures GainsIncluded(a, c, e, n + m)
  {
  }

  lemma {:induction false} IncludeAllGains(entries: Entries, entities: seq<Address>, e: Address)
    ensures GainsIncluded(entries, IncludeAll(entries, entities), e, multiset(entities)[e])
    decreases |entities|
  {
    if entities != [] {
      var next := Include(entries, entities[0]);
      IncludeAllGains(next, entities[1..], e);
      assert entities == [entities[0]] + entities[1..];
      GainsTwice(entries, next, IncludeAll(next, entities[1..]), e, if entities[0] == e then 1 else 0,
                 multiset(entities[1..])[e]);
    }
  }

  lemma OptionCount(o: Option<Address>, named: seq<Address>, e: Address)
    requires named == if o.Some? then [o.value] else []
    ensures multiset(named)[e] == if o == Some(e) then 1 else 0
  {
  }

  lemma NamedMentions(op: Operation, e: Address)
    ensures multiset(Named(op))[e] == Mentions(op, e)
  {
    var f := if op.factory.Some? then [op.factory.value] else [];
    var p := if op.paymaster.Some? then [op.paymaster.value] else [];
    OptionCount(op.factory, f, e);
    OptionCount(op.paymaster, p, e);
    assert Named(op) == ([op.sender] + f) + p;
    assert multiset([op.sender] + f)[e] == multiset([op.sender])[e] + multiset(f)[e];
    assert multiset(([op.sender] + f) + p)[e] == multiset([op.sender] + f)[e] + multiset(p)[e];
  }

  /** Every entity is included once for each role it has in the operation. */
  ghost predicate OpIncluded(before: Entries, after: Entries, op: Operation) {
    forall e :: GainsIncluded(before, after, e, Mentions(op, e))
  }

  lemma NamedGain(entries: Entries, op: Operation)
    ensures OpIncluded(entries, IncludeAll(entries, Named(op)), op)
  {
    forall e ensures GainsIncluded(entries, IncludeAll(entries, Named(op)), e, Mentions(op, e)) {
      NamedMentions(op, e);
      IncludeAllGains(entries, Named(op), e);
    }
  }

  /** An entity is included as often as the sent operations name it, and nothing else changes. */
  lemma {:induction false} IncludeOpsGains(entries: Entries, ops: seq<Operation>, e: Address)
    ensures GainsIncluded(entries, IncludeOps(entries, ops), e, TimesNamed(ops, e))
    decreases |ops|
  {
    if ops != [] {
      var next := IncludeAll(entries, Named(ops[0]));
      NamedMentions(ops[0], e);
      IncludeAllGains(entries, Named(ops[0]), e);
      IncludeOpsGains(next, ops[1..], e);
      GainsTwice(entries, next, IncludeOps(next, ops[1..]), e, Mentions(ops[0], e), TimesNamed(ops[1..], e));
    }
  }

  // Who is banned

  /** AA3 blames the paymaster if there is one, otherwise AA2 the sender, otherwise AA1 the factory. */
  ghost predicate Blames(op: Operation, reason: string, e: Address) {
    || (Occurs(reason, "AA3") && op.paymaster == Some(e))
    || ((!Occurs(reason, "AA3") || op.paymaster == None) && Occurs(reason, "AA2") && op.sender == e)
    || ((!Occurs(reason, "AA3") || op.paymaster == None) && !Occurs(reason, "AA2") && Occurs(reason, "AA1")
        && op.factory == Some(e))
  }

  ghost predicate BlamedIn(ops: seq<Operation>, reply: Reply, e: Address) {
    reply.FailedOp? && reply.index < |ops| && Blames(ops[reply.index], reply.reason, e)
  }

  ghost predicate BlamedSomewhere(lists: seq<seq<Operation>>, replies: Replies, depth: nat, e: Address) {
    exists k :: 0 <= k < |lists| && BlamedIn(lists[k], replies(depth + k), e)
  }

  /** What sending does to an entity's record: if a failed attempt blames it, the record is the fixed one of
      100 seen and none included; and then it is included as often as the operations of the last attempt
      name it, if that was sent. */
  ghost predicate Judged(
    before: Entries, ops: seq<Operation>, replies: Replies, depth: nat, after: Entries, e: Address)
  {
    var lists := Attempts(ops, replies, depth);
    var n := if replies(depth + |lists| - 1).Sent? then TimesNamed(lists[|lists| - 1], e) else 0;
    if BlamedSomewhere(lists, replies, depth, e) then e in after && after[e] == ReputationEntry(100, n, BANNED)
    else GainsIncluded(before, after, e, n)
  }

  ghost predicate AllJudged(before: Entries, ops: seq<Operation>, replies: Replies, depth: nat, after: Entries) {
    forall e :: Judged(before, ops, replies, depth, after, e)
  }

  lemma BlamedIs(op: Operation, reason: string, e: Address)
    ensures Blamed(op, reason) == Some(e) <==> Blames(op, reason, e)
  {
    ContainsMeansOccurs(reason, "AA3");
    ContainsMeansOccurs(reason, "AA2");
    ContainsMeansOccurs(reason, "AA1");
  }

  lemma BlamedFirst(ops: seq<Operation>, rest: seq<seq<Operation>>, replies: Replies, depth: nat, e: Address)
    ensures BlamedSomewhere([ops] + rest, replies, depth, e) <==>
              BlamedIn(ops, replies(depth), e) || BlamedSomewhere(rest, replies, depth + 1, e)
  {
    var lists := [ops] + rest;
    if k :| 0 <= k < |lists| && BlamedIn(lists[k], replies(depth + k), e) {
      assert k > 0 ==> lists[k] == rest[k - 1] && depth + k == depth + 1 + (k - 1);
    }
    if BlamedIn(ops, replies(depth), e) {
      assert lists[0] == ops && depth + 0 == depth;
    }
    if k :| 0 <= k < |rest| && BlamedIn(rest[k], replies(depth + 1 + k), e) {
      assert lists[k + 1] == rest[k] && depth + (k + 1) == depth + 1 + k;
    }
  }

  lemma BannedNow(ops: seq<Operation>, m: nat, replies: Replies, depth: nat, e: Address)
    ensures var (r, now) := (Send(ops, m, replies, depth), BlamedIn(ops, replies(depth), e));
            if Repeats(ops, replies(depth))
            then e in r.banned <==> now || e in Send(Without(ops, replies(depth).index), m, replies, depth + 1).banned
            else e in r.banned <==> now
  {
    var reply := replies(depth);
    if reply.FailedOp? && reply.index < |ops| {
      BlamedIs(ops[reply.index], reply.reason, e);
    }
  }

  /** Banned are exactly the entities that some failed attempt blames. */
  lemma {:induction false} BannedAreBlamed(ops: seq<Operation>, m: nat, replies: Replies, depth: nat, e: Address)
    ensures e in Send(ops, m, replies, depth).banned <==>
              BlamedSomewhere(Attempts(ops, replies, depth), replies, depth, e)
    decreases |ops|
  {
    var reply := replies(depth);
    BannedNow(ops, m, replies, depth, e);
    if Repeats(ops, reply) {
      var rest := Without(ops, reply.index);
      BannedAreBlamed(rest, m, replies, depth + 1, e);
      BlamedFirst(ops, Attempts(rest, replies, depth + 1), replies, depth, e);
    } else {
      BlamedFirst(ops, [], replies, depth, e);
      assert [ops] + [] == [ops];
    }
  }

  lemma {:induction false} BanAllIs(entries: Entries, entities: seq<Address>, e: Address)
    ensures var after := BanAll(entries, entities);
            if e in entities then e in after && after[e] == ReputationEntry(100, 0, BANNED)
            else (e in after <==> e in entries) && (e in entries ==> after[e] == entries[e])
    decreases |entities|
  {
    if entities != [] {
      BanAllIs(entries[entities[0] := BANNED_ENTRY], entities[1..], e);
      assert entities == [entities[0]] + entities[1..];
    }
  }

  lemma SendJudges(entries: Entries, ops: seq<Operation>, m: nat, replies: Replies, depth: nat)
    requires ops != []
    ensures AllJudged(entries, ops, replies, depth, Rated(entries, Send(ops, m, replies, depth)))
  {
    var r := Send(ops, m, replies, depth);
    SendDecided(ops, m, replies, depth);
    forall e ensures Judged(entries, ops, replies, depth, Rated(entries, r), e) {
      BannedAreBlamed(ops, m, replies, depth, e);
      BanAllIs(entries, r.banned, e);
      IncludeOpsGains(BanAll(entries, r.banned), r.sent, e);
    }
  }

  // All entrypoints

  datatype Sending = Sending(queues: seq<seq<Operation>>, multiplier: nat, entries: Entries, raised: bool)

  /** `send_next_bundle` from entrypoint `i` on: an exception leaves the later queues alone. */
  ghost function SendFrom(s: Sending, replies: seq<Replies>, i: nat): Sending
    requires |replies| == |s.queues| && i <= |s.queues|
    decreases |s.queues| - i
  {
    if i == |s.queues| || s.raised then s
    else if s.queues[i] == [] then SendFrom(s, replies, i + 1)
    else
      var r := Send(s.queues[i], s.multiplier, replies[i], 0);
      SendFrom(Sending(s.queues[i := r.kept], r.multiplier, Rated(s.entries, r), r.raised), replies, i + 1)
  }

  /** The reply that decides the bundle raises an exception. */
  ghost predicate Raises(ops: seq<Operation>, replies: Replies) {
    ops != [] &&
    var lists := Attempts(ops, replies, 0);
    var (left, last) := (lists[|lists| - 1], replies(|lists| - 1));
    last.Raised? || (last.FailedOp? && last.index >= |left|)
  }

  lemma SendRaises(ops: seq<Operation>, m: nat, replies: Replies, depth: nat)
    requires ops != [] && depth == 0
    ensures Send(ops, m, replies, depth).raised <==> Raises(ops, replies)
  {
    SendDecided(ops, m, replies, depth);
  }

  /** An exception is raised if and only if some entrypoint's bundle raises one, and the queues behind the first
      such entrypoint stay as they were. */
  ghost predicate Stops(queues: seq<seq<Operation>>, replies: seq<Replies>, i: nat, r: Sending)
    requires |replies| == |queues|
  {
    && |r.queues| == |queues|
    && (forall j :: 0 <= j < i && j < |queues| ==> r.queues[j] == queues[j])
    && (r.raised <==> exists k :: i <= k < |queues| && Raises(queues[k], replies[k]))
    && (forall j, k :: i <= k < j < |queues| && Raises(queues[k], replies[k]) ==> r.queues[j] == queues[j])
  }

  lemma StopsBefore(
    queues: seq<seq<Operation>>, kept: seq<Operation>, replies: seq<Replies>, i: nat, r: Sending)
    requires |replies| == |queues| && i < |queues| && !Raises(queues[i], replies[i])
    requires Stops(queues[i := kept], replies, i + 1, r)
    ensures Stops(queues, replies, i, r)
  {
    assert forall k :: i < k < |queues| ==> queues[i := kept][k] == queues[k];
  }

  lemma {:induction false} SendStops(s: Sending, replies: seq<Replies>, i: nat)
    requires |replies| == |s.queues| && i <= |s.queues| && !s.raised
    ensures Stops(s.queues, replies, i, SendFrom(s, replies, i))
    decreases |s.queues| - i
  {
    if i < |s.queues| {
      if s.queues[i] == [] {
        SendStops(s, replies, i + 1);
        assert s.queues[i := []] == s.queues;
        StopsBefore(s.queues, [], replies, i, SendFrom(s, replies, i));
      } else {
        var r := Send(s.queues[i], s.multiplier, replies[i], 0);
        var next := Sending(s.queues[i := r.kept], r.multiplier, Rated(s.entries, r), r.raised);
        SendRaises(s.queues[i], s.multiplier, replies[i], 0);
        if !r.raised {
          SendStops(next, replies, i + 1);
          StopsBefore(s.queues, r.kept, replies, i, SendFrom(next, replies, i + 1));
        }
      }
    }
  }

  class BundlerManager {
    var queues: seq<seq<Operation>>  // one per entrypoint
    var multiplier: nat
    const reputation: ReputationManager

    constructor (entrypoints: nat, reputation: ReputationManager)
      ensures this.reputation == reputation && multiplier == 100
      ensures |queues| == entrypoints && forall i :: 0 <= i < entrypoints ==> queues[i] == []
    {
      this.reputation := reputation;
      queues := seq(entrypoints, _ => []);
      multiplier := 100;
    }

    /** What `update_send_queue` does with the bundle of one entrypoint. */
    method Enqueue(entrypoint: nat, bundle: seq<Operation>)
      requires entrypoint < |queues|
      modifies this`queues
      ensures queues == old(queues)[entrypoint := old(queues)[entrypoint] + bundle]
    {
      queues := queues[entrypoint := queues[entrypoint] + bundle];
    }

    method UpdateIncludedStatus(op: Operation)
      modifies reputation
      ensures reputation.entries == IncludeAll(old(reputation.entries), Named(op))
      ensures OpIncluded(old(reputation.entries), reputation.entries, op)
    {
      ghost var was := reputation.entries;
      ghost var named := [op.sender];
      reputation.UpdateIncludedStatus(op.sender);
      IncludeLast(was, [], op.sender);
      if op.factory.Some? {
        reputation.UpdateIncludedStatus(op.factory.value);
        IncludeLast(was, named, op.factory.value);
        named := named + [op.factory.value];
      }
      if op.paymaster.Some? {
        reputation.UpdateIncludedStatus(op.paymaster.value);
        IncludeLast(was, named, op.paymaster.value);
        named := named + [op.paymaster.value];
      }
      assert named == Named(op);
      NamedGain(was, op);
    }

    method MarkIncluded(ops: seq<Operation>)
      modifies reputation
      ensures reputation.entries == IncludeOps(old(reputation.entries), ops)
    {
      ghost var before := reputation.entries;
      for i := 0 to |ops|
        invariant IncludeOps(before, ops) == IncludeOps(reputation.entries, ops[i..])
      {
        assert ops[i..][1..] == ops[i + 1..];
        UpdateIncludedStatus(ops[i]);
      }
    }

    /** The list being sent is the queue of the entrypoint, shortened in place by failures. The
        caller stores `returned` into the queue when no exception was raised. */
    method SendBundle(entrypoint: nat, replies: Replies, depth: nat) returns (raised: bool, returned: seq<Operation>)
      requires entrypoint < |queues| && queues[entrypoint] != []
      modifies this`queues, this`multiplier, reputation
      ensures |queues| == |old(queues)|
      ensures forall j :: 0 <= j < |queues| && j != entrypoint ==> queues[j] == old(queues)[j]
      ensures var r := Send(old(queues)[entrypoint], old(multiplier), replies, depth);
              && raised == r.raised && multiplier == r.multiplier
              && (if raised then queues[entrypoint] else returned) == r.kept
              && reputation.entries == Rated(old(reputation.entries), r)
      ensures AllJudged(old(reputation.entries), old(queues)[entrypoint], replies, depth, reputation.entries)
      decreases |queues[entrypoint]|
    {
      SendJudges(reputation.entries, queues[entrypoint], multiplier, replies, depth);
      var reply := replies(depth);
      match reply {
        case FeesUnavailable => return false, [];
        case AlreadyKnown => return false, [];
        case OtherError => return false, [];
        case Raised => return true, [];
        case Underpriced =>
          if multiplier <= 200 {
            multiplier := multiplier + 10;
            return false, queues[entrypoint];
          }
          return false, [];
        case FailedOp(index, reason) =>
          if index >= |queues[entrypoint]| {
            return true, [];
          }
          var op := queues[entrypoint][index];
          var blamed := Blamed(op, reason);
          if blamed.Some? {
            reputation.BanEntity(blamed.value);
          }
          ghost var banned := if blamed.Some? then [blamed.value] else [];
          BanOne(old(reputation.entries), banned);
          queues := queues[entrypoint := Without(queues[entrypoint], index)];
          if queues[entrypoint] != [] {
            var innerRaised, _ := SendBundle(entrypoint, replies, depth + 1);
            BanConcat(old(reputation.entries), banned,
                      Send(Without(old(queues)[entrypoint], index), old(multiplier), replies, depth + 1).banned);
            return innerRaised, [];
          }
          return false, [];
        case Sent =>
          multiplier := 100;
          MarkIncluded(queues[entrypoint]);
          return false, [];
      }
    }

    /** Sends the queue of one entrypoint and stores what is returned. */
    method SendQueue(entrypoint: nat, replies: Replies) returns (raised: bool)
      requires entrypoint < |queues| && queues[entrypoint] != []
      modifies this`queues, this`multiplier, reputation
      ensures var r := Send(old(queues)[entrypoint], old(multiplier), replies, 0);
              && queues == old(queues)[entrypoint := r.kept]
              && raised == r.raised && multiplier == r.multiplier
              && reputation.entries == Rated(old(reputation.entries), r)
    {
      var returned;
      raised, returned := SendBundle(entrypoint, replies, 0);
      if !raised {
        queues := queues[entrypoint := returned];
      }
    }

    method SendNextBundle(replies: seq<Replies>) returns (raised: bool)
      requires |replies| == |queues|
      modifies this`queues, this`multiplier, reputation
      ensures Sending(queues, multiplier, reputation.entries, raised)
              == SendFrom(Sending(old(queues), old(multiplier), old(reputation.entries), false), replies, 0)
      ensures Stops(old(queues), replies, 0, Sending(queues, multiplier, reputation.entries, raised))
    {
      SendStops(Sending(queues, multiplier, reputation.entries, false), replies, 0);
      raised := false;
      ghost var now := Sending(queues, multiplier, reputation.entries, false);
      ghost var end := SendFrom(now, replies, 0);
      for i := 0 to |queues|
        invariant |queues| == |replies| && !raised && now == Sending(queues, multiplier, reputation.entries, false)
        invariant end == SendFrom(now, replies, i)
      {
        if queues[i] != [] {
          raised := SendQueue(i, replies[i]);
          now := Sending(queues, multiplier, reputation.entries, raised);
          if raised {
            return;
          }
        }
      }
    }
  }

  lemma BanOne(entries: Entries, banned: seq<Address>)
    requires |banned| <= 1
    ensures BanAll(entries, banned) == if banned == [] then entries else entries[banned[0] := BANNED_ENTRY]
  {
  }

  lemma BanConcat(entries: Entries, first: seq<Address>, rest: seq<Address>)
    requires |first| <= 1
    ensures BanAll(BanAll(entries, first), rest) == BanAll(entries, first + rest)
  {
    BanOne(entries, first);
    if first == [] {
      assert first + rest == rest;
    } else {
      assert (first + rest)[1..] == rest;
    }
  }

  lemma {:induction false} IncludeLast(entries: Entries, front: seq<Address>, last: Address)
    ensures IncludeAll(entries, front + [last]) == Include(IncludeAll(entries, front), last)
    decreases |front|
  {
    if front == [] {
      assert front + [last] == [last];
    } else {
      IncludeLast(Include(entries, front[0]), front[1..], last);
      assert (front + [last])[1..] == front[1..] + [last];
    }
  }
}
