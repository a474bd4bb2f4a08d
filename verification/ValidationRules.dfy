/**
 The validation rules as a book of rules: on what happens during a validation, in the numbers and names of
 the rules themselves, without reference to the tracer's counters, its call records or the checks.
 */
module ValidationRules {
  import opened Basics
  import opened Strings
  import opened Tracer
  import opened OpcodeRules
  import opened StorageAccess
  import opened CallStack

  /** What is validated: lower-case addresses, the size of the init code, stakes and the addresses
      that are exempt from the storage rules. */
  datatype Request = Request(
    sender: string, factory: Option<string>, paymaster: Option<string>, entrypoint: string, initCodeSize: nat,
    senderStake: StakeInfo, factoryStake: StakeInfo, paymasterStake: StakeInfo, whitelist: set<string>)

  // Parts

  ghost function NumbersBefore(t: Trace, n: nat): set<int>
    requires n <= |t|
  {
    set j | 0 <= j < n && t[j].depth == 1 && t[j].op == "NUMBER"
  }

  /** The part a step belongs to: the number of NUMBERs of the top-level call up to it. */
  ghost function PartOf(t: Trace, i: nat): nat
    requires i < |t|
  {
    |NumbersBefore(t, i + 1)|
  }

  ghost predicate HasPart(t: Trace, n: nat) {
    exists i :: 0 <= i < |t| && t[i].depth == 1 && PartOf(t, i) == n
  }

  ghost predicate HasParts(t: Trace) { HasPart(t, 0) && HasPart(t, 1) && HasPart(t, 2) }

  lemma SplitsAt(t: Trace, m: nat)
    requires m < |t|
    ensures Splits(t[..m + 1]) == Splits(t[..m]) + if t[m].depth == 1 && t[m].op == "NUMBER" then 1 else 0
  {
    assert t[..m + 1] == t[..m] + [t[m]];
    LevelsBelow(t[..m], t[m], 0);
  }

  lemma NumbersAt(t: Trace, m: nat)
    requires m < |t|
    ensures |NumbersBefore(t, m + 1)|
            == |NumbersBefore(t, m)| + if t[m].depth == 1 && t[m].op == "NUMBER" then 1 else 0
  {
    var (before, after) := (NumbersBefore(t, m), NumbersBefore(t, m + 1));
    if t[m].depth == 1 && t[m].op == "NUMBER" {
      assert after == before + {m};
    } else {
      assert after == before;
    }
  }

  lemma {:induction false} NumbersAreSplits(t: Trace, n: nat)
    requires n <= |t|
    ensures |NumbersBefore(t, n)| == Splits(t[..n])
  {
    if n > 0 {
      NumbersAreSplits(t, n - 1);
      NumbersAt(t, n - 1);
      SplitsAt(t, n - 1);
    }
  }

  lemma PartsAreLevels(t: Trace)
    ensures forall i :: 0 <= i < |t| ==> PartOf(t, i) == LevelOf(t, i)
    ensures HasParts(t) <==> HasThreeParts(t)
  {
    forall i | 0 <= i < |t| ensures PartOf(t, i) == LevelOf(t, i) {
      NumbersAreSplits(t, i + 1);
    }
    assert forall n :: HasPart(t, n) <==> HasLevel(t, n);
  }

  // Opcodes

  /** A GAS below the top-level call, right before this step, that is not followed by a call. */
  ghost predicate GasBefore(t: Trace, i: nat)
    requires i < |t|
  {
    i > 0 && t[i - 1].depth != 1 && t[i - 1].op == "GAS" && !Occurs(t[i].op, "CALL")
  }

  /** The rule for one step. */
  ghost predicate ObeysAt(t: Trace, i: nat)
    requires i < |t|
  {
    t[i].depth != 1 && PartOf(t, i) <= 2 ==>
      && t[i].op !in {"NUMBER", "TIMESTAMP", "COINBASE", "DIFFICULTY", "BASEFEE", "GASLIMIT", "GASPRICE", "SELFBALANCE",
                      "BALANCE", "ORIGIN", "BLOCKHASH", "CREATE", "SELFDESTRUCT", "RANDOM", "PREVRANDAO"}
      && !GasBefore(t, i)
      && (t[i].op == "CREATE2" ==> PartOf(t, i) == 0)
  }

  ghost predicate CreatesFirst(t: Trace, i: nat)
    requires i < |t|
  {
    t[i].depth != 1 && t[i].op == "CREATE2" && PartOf(t, i) == 0
  }

  /** Below the top-level call, in the first three parts: none of fifteen opcodes, no GAS without a call,
      CREATE2 only in the first part and there at most once. */
  ghost predicate ObeysOpcodeRules(t: Trace) {
    && (forall i :: 0 <= i < |t| ==> ObeysAt(t, i))
    && (forall i, j :: 0 <= i < j < |t| ==> !(CreatesFirst(t, i) && CreatesFirst(t, j)))
  }

  /** The same for one step, in terms of the trace's levels. */
  ghost predicate FollowsAt(t: Trace, i: nat)
    requires i < |t|
  {
    LevelOf(t, i) <= 2 ==> !UsesBanned(t, i) && !RevealsGas(t, i) && (Creates(t, i) ==> LevelOf(t, i) == 0)
  }

  ghost predicate CreatesInZero(t: Trace, i: nat)
    requires i < |t|
  {
    LevelOf(t, i) == 0 && Creates(t, i)
  }

  lemma ObeysAtIs(t: Trace, i: nat)
    requires i < |t|
    ensures ObeysAt(t, i) <==> FollowsAt(t, i)
    ensures CreatesFirst(t, i) <==> CreatesInZero(t, i)
  {
    NumbersAreSplits(t, i + 1);
    ContainsMeansOccurs(t[i].op, "CALL");
  }

  lemma FollowsPointwise(t: Trace)
    ensures FollowsOpcodeRules(t) <==>
              && (forall i :: 0 <= i < |t| ==> FollowsAt(t, i))
              && (forall i, j :: 0 <= i < j < |t| ==> !(CreatesInZero(t, i) && CreatesInZero(t, j)))
  {
    if FollowsOpcodeRules(t) {
      forall i | 0 <= i < |t| ensures FollowsAt(t, i) {
      }
    }
    if forall i :: 0 <= i < |t| ==> FollowsAt(t, i) {
      forall i | 0 <= i < |t| && LevelOf(t, i) <= 2
        ensures !UsesBanned(t, i) && !RevealsGas(t, i) && (Creates(t, i) ==> LevelOf(t, i) == 0)
      {
        assert FollowsAt(t, i);
      }
      forall i, j | 0 <= i < j < |t| && LevelOf(t, i) == 0 && LevelOf(t, j) == 0
        ensures !(CreatesInZero(t, i) && CreatesInZero(t, j)) <==> !(Creates(t, i) && Creates(t, j))
      {
      }
    }
  }

  lemma OpcodeRulesAre(t: Trace)
    ensures ObeysOpcodeRules(t) <==> FollowsOpcodeRules(t)
  {
    FollowsPointwise(t);
    forall i | 0 <= i < |t|
      ensures ObeysAt(t, i) <==> FollowsAt(t, i)
      ensures CreatesFirst(t, i) <==> CreatesInZero(t, i)
    {
      ObeysAtIs(t, i);
    }
  }

  // Storage

  /** Step `k` hashes a text that starts with the address, padded with 24 zeros, and the slot is among the
      18 from the hash on. */
  ghost predicate Anchors(t: Trace, k: int, address: string, slot: nat, keccak: Keccak) {
    && 0 <= k < |t| && t[k].depth != 1 && t[k].op == "KECCAK256" && 20 < t[k].second < 512
    && "0x000000000000000000000000" + (if |address| >= 2 then address[2..] else "") <= t[k].memory
    && keccak(t[k].memory) <= slot < keccak(t[k].memory) + 18
  }

  ghost predicate BelongsTo(t: Trace, address: string, slot: nat, keccak: Keccak) {
    exists k :: Anchors(t, k, address, slot, keccak)
  }

  /** The storage of the sender and of the entrypoint is free. Slots that belong to the sender are free as
      long as there are at most two bytes of init code. With stake and delay both above one the entity may
      use them anyway, and slots that belong to itself, and its own storage. */
  ghost predicate MayAccess(q: Request, entity: string, stake: StakeInfo, t: Trace, log: Log, keccak: Keccak) {
    || log.contract == q.sender
    || log.contract == q.entrypoint
    || (BelongsTo(t, q.sender, log.top, keccak) && q.initCodeSize <= 2)
    || (stake.stake > 1 && stake.unstakeDelaySec > 1
        && (log.contract == entity || BelongsTo(t, q.sender, log.top, keccak) || BelongsTo(t, entity, log.top, keccak)))
  }

  ghost predicate AccessesAt(t: Trace, i: nat, part: nat)
    requires i < |t|
  {
    t[i].depth != 1 && (t[i].op == "SLOAD" || t[i].op == "SSTORE") && PartOf(t, i) == part
  }

  ghost predicate ObeysStorageRule(q: Request, t: Trace, part: nat, entity: string, stake: StakeInfo, keccak: Keccak) {
    entity in q.whitelist ||
    forall i :: 0 <= i < |t| && AccessesAt(t, i, part) ==> MayAccess(q, entity, stake, t, t[i], keccak)
  }

  ghost predicate ObeysStorageRules(q: Request, t: Trace, keccak: Keccak) {
    && ObeysStorageRule(q, t, 1, q.sender, q.senderStake, keccak)
    && (q.factory.Some? ==> ObeysStorageRule(q, t, 0, q.factory.value, q.factoryStake, keccak))
    && (q.paymaster.Some? ==> ObeysStorageRule(q, t, 2, q.paymaster.value, q.paymasterStake, keccak))
  }

  // The same in terms of what the check is given

  function SubjectOf(q: Request, entity: string, stake: StakeInfo): Subject {
    Subject(entity, q.sender, q.entrypoint, IsStaked(stake), q.initCodeSize > 2, entity in q.whitelist)
  }

  /** Every load and store of a level is allowed to the entity. */
  ghost predicate StorageAllowed(t: Trace, level: nat, s: Subject, keccak: Keccak) {
    s.whitelisted ||
    forall i :: 0 <= i < |t| && LevelOf(t, i) == level && (t[i].Loads() || t[i].Stores()) ==>
                  StepAllowed(s, t[i], PreimageSet(t), keccak)
  }

  ghost predicate FollowsStorageRules(q: Request, t: Trace, keccak: Keccak) {
    && StorageAllowed(t, 1, SubjectOf(q, q.sender, q.senderStake), keccak)
    && (q.factory.Some? ==> StorageAllowed(t, 0, SubjectOf(q, q.factory.value, q.factoryStake), keccak))
    && (q.paymaster.Some? ==> StorageAllowed(t, 2, SubjectOf(q, q.paymaster.value, q.paymasterStake), keccak))
  }

  ghost predicate HashesAt(t: Trace, k: int, p: string) {
    && 0 <= k < |t| && t[k].depth != 1 && t[k].op == "KECCAK256" && 20 < t[k].second < 512 && t[k].memory == p
  }

  lemma {:induction false} PreimageIs(t: Trace, p: string)
    ensures p in Preimages(t) <==> exists k :: HashesAt(t, k, p)
  {
    if t != [] {
      var m := |t| - 1;
      PreimageIs(t[..m], p);
      if k :| HashesAt(t[..m], k, p) {
        assert HashesAt(t, k, p);
      }
      if k :| HashesAt(t, k, p) {
        assert k < m ==> HashesAt(t[..m], k, p);
      }
      assert HashesAt(t, m, p) <==> p == t[m].memory && t[m].Deep() && t[m].op == "KECCAK256" && 20 < t[m].second < 512;
    }
  }

  lemma BelongsIsDerived(t: Trace, address: string, slot: nat, keccak: Keccak)
    ensures BelongsTo(t, address, slot, keccak) <==> Derived(slot, address, PreimageSet(t), keccak)
  {
    if k :| Anchors(t, k, address, slot, keccak) {
      var p := t[k].memory;
      assert HashesAt(t, k, p);
      PreimageIs(t, p);
      assert p in PreimageSet(t) && PaddedAddress(address) <= p && Near(slot, keccak(p));
    }
    if p :| p in PreimageSet(t) && PaddedAddress(address) <= p && Near(slot, keccak(p)) {
      PreimageIs(t, p);
      var k :| HashesAt(t, k, p);
      assert Anchors(t, k, address, slot, keccak);
    }
  }

  lemma MayAccessIs(q: Request, entity: string, stake: StakeInfo, t: Trace, log: Log, keccak: Keccak)
    ensures MayAccess(q, entity, stake, t, log, keccak) <==>
              StepAllowed(SubjectOf(q, entity, stake), log, PreimageSet(t), keccak)
  {
    BelongsIsDerived(t, q.sender, log.top, keccak);
    BelongsIsDerived(t, entity, log.top, keccak);
  }

  lemma StorageRuleIs(q: Request, t: Trace, part: nat, entity: string, stake: StakeInfo, keccak: Keccak)
    ensures ObeysStorageRule(q, t, part, entity, stake, keccak) <==>
              StorageAllowed(t, part, SubjectOf(q, entity, stake), keccak)
  {
    forall i | 0 <= i < |t|
      ensures AccessesAt(t, i, part) <==> LevelOf(t, i) == part && (t[i].Loads() || t[i].Stores())
      ensures MayAccess(q, entity, stake, t, t[i], keccak) <==>
                StepAllowed(SubjectOf(q, entity, stake), t[i], PreimageSet(t), keccak)
    {
      NumbersAreSplits(t, i + 1);
      MayAccessIs(q, entity, stake, t, t[i], keccak);
    }
  }

  lemma StorageRulesAre(q: Request, t: Trace, keccak: Keccak)
    ensures ObeysStorageRules(q, t, keccak) <==> FollowsStorageRules(q, t, keccak)
  {
    StorageRuleIs(q, t, 1, q.sender, q.senderStake, keccak);
    if q.factory.Some? {
      StorageRuleIs(q, t, 0, q.factory.value, q.factoryStake, keccak);
    }
    if q.paymaster.Some? {
      StorageRuleIs(q, t, 2, q.paymaster.value, q.paymasterStake, keccak);
    }
  }
}
