/**
 The validation of a traced UserOperation as a whole: tracer, opcode check, storage checks of the
 three entities and the context rule for unstaked paymasters, against one predicate on the trace.
 */
module TraceValidation {
  import opened Basics
  import opened Tracer
  import opened OpcodeRules
  import opened StorageAccess
  import opened CallStack
  import opened ValidationRules
  import opened CallForests

  /** `Crashed` is any failure other than a refusal. */
  datatype Verdict = Crashed | Refused | Accepted

  const MAX_CONTEXT: nat := 194

  function Entities(q: Request): seq<string> {
    (if q.factory.Some? then [q.factory.value] else [])
    + [q.sender]
    + (if q.paymaster.Some? then [q.paymaster.value] else [])
  }

  ghost function PaymasterCall(q: Request, records: seq<Record>): Option<Call>
    requires q.paymaster.Some?
  {
    LastPaymasterCall(Finished(records, []), q.paymaster.value)
  }

  /** An unstaked paymaster must not return a context. */
  ghost predicate FollowsContextRule(q: Request, records: seq<Record>) {
    q.paymaster.Some? ==>
      PaymasterCall(q, records).Some? &&
      (|PaymasterCall(q, records).value.data| > MAX_CONTEXT ==> IsStaked(q.paymasterStake))
  }

  ghost predicate Sound(t: Trace) {
    StartsCleanly(t) && forall i :: 0 <= i < |t| ==> IsMemoryText(t[i].memory)
  }

  /** One entity's storage check on its level. */
  method CheckEntity(
    q: Request, entity: string, stake: StakeInfo, level: Level, slots: map<string, seq<nat>>,
    ghost t: Trace, ghost n: nat, ghost keccak: Keccak) returns (allowed: bool)
    requires Sound(t) && LevelOk(t, n, level)
    requires Stands(slots, SubjectOf(q, entity, stake), PreimageSet(t), keccak)
    ensures allowed <==> StorageAllowed(t, n, SubjectOf(q, entity, stake), keccak)
  {
    CheckIsTheRule(t, n, level, SubjectOf(q, entity, stake), keccak);
    allowed := ValidateEntityStorageAccess(SubjectOf(q, entity, stake), level.access, slots, PreimageSet(t), keccak);
  }

  /** The paymaster's storage check, and then what it returned. */
  method CheckPaymaster(
    q: Request, calls: seq<Record>, level: Level, slots: map<string, seq<nat>>, ghost t: Trace, ghost keccak: Keccak)
    returns (verdict: Verdict)
    requires q.paymaster.Some? && Sound(t) && LevelOk(t, 2, level)
    requires Stands(slots, SubjectOf(q, q.paymaster.value, q.paymasterStake), PreimageSet(t), keccak)
    ensures var allowed := StorageAllowed(t, 2, SubjectOf(q, q.paymaster.value, q.paymasterStake), keccak);
            && (verdict == Accepted <==> allowed && FollowsContextRule(q, calls))
            && (verdict == Crashed <==> allowed && PaymasterCall(q, calls).None?)
  {
    var _, paymasterCall := ParseCallStack(calls, q.paymaster.value);
    var allowed := CheckEntity(q, q.paymaster.value, q.paymasterStake, level, slots, t, 2, keccak);
    if !allowed {
      return Refused;
    }
    if paymasterCall.None? {
      return Crashed;
    }
    if |paymasterCall.value.data| > MAX_CONTEXT && !IsStaked(q.paymasterStake) {
      return Refused;
    }
    return Accepted;
  }

  ghost predicate StandForAll(q: Request, slots: map<string, seq<nat>>, preimages: set<string>, keccak: Keccak) {
    && Stands(slots, SubjectOf(q, q.sender, q.senderStake), preimages, keccak)
    && (q.factory.Some? ==> Stands(slots, SubjectOf(q, q.factory.value, q.factoryStake), preimages, keccak))
    && (q.paymaster.Some? ==> Stands(slots, SubjectOf(q, q.paymaster.value, q.paymasterStake), preimages, keccak))
  }

  lemma SlotsStand(q: Request, slots: map<string, seq<nat>>, preimages: set<string>, keccak: Keccak)
    requires forall e :: e in slots <==> e in Entities(q) && preimages != {}
    requires forall e, n :: e in slots ==> (n in slots[e] <==> n in HashedSlots(e, preimages, keccak))
    ensures StandForAll(q, slots, preimages, keccak)
  {
    var entities := Entities(q);
    assert q.sender in entities;
    assert q.factory.Some? ==> entities[0] == q.factory.value;
    assert q.paymaster.Some? ==> entities[|entities| - 1] == q.paymaster.value;
  }

  /** The storage checks of the three entities, and the context rule. */
  method CheckEntities(
    q: Request, calls: seq<Record>, levels: map<nat, Level>, slots: map<string, seq<nat>>,
    ghost t: Trace, ghost keccak: Keccak)
    returns (verdict: Verdict)
    requires Sound(t) && LevelsOk(t, levels) && 0 in levels && 1 in levels && 2 in levels
    requires StandForAll(q, slots, PreimageSet(t), keccak)
    ensures verdict == Accepted <==> FollowsStorageRules(q, t, keccak) && FollowsContextRule(q, calls)
    ensures verdict == Crashed <==>
              FollowsStorageRules(q, t, keccak) && q.paymaster.Some? && PaymasterCall(q, calls).None?
  {
    var allowed := CheckEntity(q, q.sender, q.senderStake, levels[1], slots, t, 1, keccak);
    if !allowed {
      return Refused;
    }
    if q.factory.Some? {
      allowed := CheckEntity(q, q.factory.value, q.factoryStake, levels[0], slots, t, 0, keccak);
      if !allowed {
        return Refused;
      }
    }
    if q.paymaster.Some? {
      verdict := CheckPaymaster(q, calls, levels[2], slots, t, keccak);
      return;
    }
    return Accepted;
  }

  /** The verdict in terms of what the checks are given: trace and call records. */
  ghost predicate VerdictOn(verdict: Verdict, q: Request, t: Trace, records: seq<Record>, keccak: Keccak) {
    && (verdict == Accepted <==>
          && HasThreeParts(t) && FollowsOpcodeRules(t)
          && FollowsStorageRules(q, t, keccak) && FollowsContextRule(q, records))
    && (verdict == Crashed <==>
          || !HasThreeParts(t)
          || (FollowsOpcodeRules(t) && FollowsStorageRules(q, t, keccak)
              && q.paymaster.Some? && PaymasterCall(q, records).None?))
  }

  /** The verdict on a validation, by the book: accepted if and only if it has the three parts and obeys the
      opcode rules, the storage rules and the context rule. It crashes if and only if a part is missing, or
      all other rules are obeyed and the paymaster was never asked. */
  ghost predicate ByTheBook(verdict: Verdict, q: Request, ps: seq<Piece>, end: Log, keccak: Keccak) {
    var t := StepsIn(ps) + [end];
    && (verdict == Accepted <==>
          HasParts(t) && ObeysOpcodeRules(t) && ObeysStorageRules(q, t, keccak) && ObeysContextRule(q, ps))
    && (verdict == Crashed <==>
          !HasParts(t) || (ObeysOpcodeRules(t) && ObeysStorageRules(q, t, keccak) && NeverAsked(q, ps)))
  }

  /** The checks on what the tracer collected. */
  method CheckTrace(q: Request, hs: seq<Happening>, keccak: Keccak) returns (verdict: Verdict)
    requires Sound(TraceOf(hs))
    ensures VerdictOn(verdict, q, TraceOf(hs), RecordsOf(hs), keccak)
  {
    var tracer := RunTracer(hs);
    ghost var t := TraceOf(hs);
    var levels := tracer.numberLevels;
    CheckIsTheRules(t, levels);
    var outcome := CheckBannedOpcodes(levels);
    if outcome == Malformed {
      return Crashed;
    }
    if outcome == Banned {
      return Refused;
    }
    var preimages := set p | p in tracer.keccak;
    assert preimages == PreimageSet(t);
    var slots := ParseEntitySlots(Entities(q), preimages, keccak);
    SlotsStand(q, slots, preimages, keccak);
    verdict := CheckEntities(q, tracer.calls, levels, slots, t, keccak);
  }

  /** From what happens to the verdict. When what happens is a forest of calls with steps between them and
      the end of the top-level call, the verdict is the one by the book. */
  method ValidateTraceResults(q: Request, hs: seq<Happening>, keccak: Keccak) returns (verdict: Verdict)
    requires Sound(TraceOf(hs))
    ensures VerdictOn(verdict, q, TraceOf(hs), RecordsOf(hs), keccak)
    ensures forall ps, end :: IsValidation(hs, ps, end) ==> ByTheBook(verdict, q, ps, end, keccak)
  {
    verdict := CheckTrace(q, hs, keccak);
    forall ps, end | IsValidation(hs, ps, end) ensures ByTheBook(verdict, q, ps, end, keccak) {
      VerdictByTheBook(verdict, q, hs, ps, end, keccak);
    }
  }

  lemma VerdictByTheBook(
    verdict: Verdict, q: Request, hs: seq<Happening>, ps: seq<Piece>, end: Log, keccak: Keccak)
    requires IsValidation(hs, ps, end) && VerdictOn(verdict, q, TraceOf(hs), RecordsOf(hs), keccak)
    ensures ByTheBook(verdict, q, ps, end, keccak)
  {
    var t := StepsIn(ps) + [end];
    ForestEnds(hs, ps, end);
    PartsAreLevels(t);
    OpcodeRulesAre(t);
    StorageRulesAre(q, t, keccak);
    if q.paymaster.Some? {
      ContextRuleOnForest(q, hs, ps, end);
    }
  }

  lemma ForestEnds(hs: seq<Happening>, ps: seq<Piece>, end: Log)
    requires IsValidation(hs, ps, end)
    ensures TraceOf(hs) == StepsIn(ps) + [end]
    ensures |Recorded(Stepped(end))| == 1 && Recorded(Stepped(end))[0].Exits()
    ensures RecordsOf(hs) == Records(FramesOf(ps)) + [Recorded(Stepped(end))[0]]
  {
    ForestSteps(ps);
    ForestRecords(ps);
    OneMore(Happenings(ps), Stepped(end));
  }

  /** The context rule on what happens: on whom the calls call, with what, and what they return. */
  lemma ContextRuleOnForest(q: Request, hs: seq<Happening>, ps: seq<Piece>, end: Log)
    requires q.paymaster.Some? && IsValidation(hs, ps, end)
    ensures FollowsContextRule(q, RecordsOf(hs)) <==> ObeysContextRule(q, ps)
    ensures PaymasterCall(q, RecordsOf(hs)).None? <==> NeverAsked(q, ps)
  {
    var (p, frames, calls) := (q.paymaster.value, Frames(FramesOf(ps)), CallsIn(ps));
    var last := Recorded(Stepped(end))[0];
    ForestEnds(hs, ps, end);
    ForestNested(ps);
    FramesAreCalls(ps);
    LastIsLast(frames, calls, p);
    ContextRuleOnCalls(q, hs, FramesOf(ps), last);
    PaymasterCallIsLastFrame(FramesOf(ps), last, p);
    NoneAsked(frames, calls, p);
  }

  /** The context rule on the calls themselves: when what happens is a well-nested forest of calls
      and the end of the top-level call, the last frame that calls the paymaster's validation
      method returns no context, or the paymaster is staked. */
  lemma ContextRuleOnCalls(q: Request, hs: seq<Happening>, fs: seq<Frame>, last: Record)
    requires q.paymaster.Some? && WellNested(fs) && last.Exits() && RecordsOf(hs) == Records(fs) + [last]
    ensures FollowsContextRule(q, RecordsOf(hs)) <==>
              exists i :: IsLastCall(Frames(fs), i, q.paymaster.value)
                          && (|Frames(fs)[i].exit.data| > MAX_CONTEXT ==> IsStaked(q.paymasterStake))
  {
    PaymasterCallIsLastFrame(fs, last, q.paymaster.value);
    DataOfCall(Frames(fs), q.paymaster.value);
  }

  lemma DataOfCall(frames: seq<Frame>, paymaster: string)
    ensures forall i :: IsLastCall(frames, i, paymaster) ==>
                          Paired(frames[i].enter, frames[i].exit).data == frames[i].exit.data
  {
  }
}
