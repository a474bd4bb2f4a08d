/**
 The tracer that runs inside the node while a UserOperation is validated. It sees every EVM step
 and sorts what it sees into levels, separated by the NUMBER opcodes of the top-level call; and it
 sees every call begin and end. The specification speaks of what happens itself: which steps fall
 into which level, which of them are counted, which storage slots they touch, which hash preimages
 they compute, and which records the calls leave.
 */
module Tracer {
  import opened Basics
  import CallStack
  import opened Hex
  import opened Strings

  /** One step as the tracer can read it: the opcode name, the call depth, whether the gas left is
      less than the cost, the executing contract, the two topmost stack items and the memory those
      delimit, as hexadecimal text with its 0x prefix. */
  datatype Log = Log(op: string, depth: nat, short: bool, contract: string, top: nat, second: nat, memory: string) {
    predicate Deep() { depth != 1 }

    predicate Splits() { depth == 1 && op == "NUMBER" }

    predicate Loads() { Deep() && op == "SLOAD" }

    predicate Stores() { Deep() && op == "SSTORE" }
  }

  type Trace = seq<Log>

  // Opcode names

  predicate IsDecimal(s: string) { s != "" && forall i :: 0 <= i < |s| ==> '0' <= s[i] <= '9' }

  predicate Numbered(op: string, stem: string) { stem <= op && IsDecimal(op[|stem|..]) }

  const PLAIN: set<string> := {
    "POP", "ADD", "SUB", "MUL", "DIV", "EQ", "LT", "LTE", "GT", "GTE", "SGT", "SGTE", "SLT",
    "SHL", "SHR", "AND", "OR", "NOT", "ISZERO"
  }

  /** The opcodes the tracer does not count. */
  predicate Unimportant(op: string) {
    Numbered(op, "DUP") || Numbered(op, "PUSH") || Numbered(op, "SWAP") || op in PLAIN
  }

  /** The opcodes whose target's code size is recorded. */
  predicate NamesContract(op: string) {
    "EXT" <= op || op in {"CALL", "CALLCODE", "DELEGATECALL", "STATICCALL"}
  }

  // The trace

  /** The number of splits in a trace, which is the level its last step belongs to. */
  ghost function Splits(t: Trace): nat {
    if t == [] then 0 else Splits(t[..|t| - 1]) + if t[|t| - 1].Splits() then 1 else 0
  }

  ghost function LevelOf(t: Trace, i: nat): nat
    requires i < |t|
  {
    Splits(t[..i + 1])
  }

  ghost predicate HasLevel(t: Trace, level: nat) {
    exists i :: 0 <= i < |t| && !t[i].Deep() && LevelOf(t, i) == level
  }

  /** The step is counted under its own name: it is below the top-level call and important. */
  ghost predicate CountsItself(t: Trace, i: nat)
    requires i < |t|
  {
    t[i].Deep() && t[i].op != "GAS" && !Unimportant(t[i].op)
  }

  /** The step reveals a GAS that was not meant for a call: the step before it was a GAS, both are
      below the top-level call and its own name does not contain CALL. */
  ghost predicate RevealsGas(t: Trace, i: nat)
    requires i < |t|
  {
    t[i].Deep() && i > 0 && t[i - 1].Deep() && t[i - 1].op == "GAS" && !Contains(t[i].op, "CALL")
  }

  ghost predicate Counts(t: Trace, i: nat, key: string)
    requires i < |t|
  {
    (CountsItself(t, i) && t[i].op == key) || (RevealsGas(t, i) && key == "GAS")
  }

  /** How many steps of a level are counted under a key. */
  ghost function Tally(t: Trace, level: nat, key: string): nat {
    if t == [] then 0
    else
      var n := |t| - 1;
      Tally(t[..n], level, key) + if Splits(t) == level && Counts(t, n, key) then 1 else 0
  }

  /** How many steps of a level load (or store) a slot of a contract. */
  ghost function Accesses(t: Trace, level: nat, stores: bool, contract: string, slot: string): nat {
    if t == [] then 0
    else
      var last := t[|t| - 1];
      Accesses(t[..|t| - 1], level, stores, contract, slot)
      + if Splits(t) == level && (if stores then last.Stores() else last.Loads())
           && last.contract == contract && ToHex(last.top) == slot then 1 else 0
  }

  /** The preimages of hashes computed below the top-level call, of more than 20 and fewer than 512
      bytes. */
  ghost function Preimages(t: Trace): seq<string> {
    if t == [] then []
    else
      var last := t[|t| - 1];
      Preimages(t[..|t| - 1])
      + if last.Deep() && last.op == "KECCAK256" && 20 < last.second < 512 then [last.memory] else []
  }

  /** A trace the tracer can follow: it starts in the top-level call, with a step that does not
      need a level yet. */
  ghost predicate StartsCleanly(t: Trace) {
    t != [] ==> !t[0].Deep() && !t[0].short && !NamesContract(t[0].op)
  }

  // What the tracer has collected

  type Counter = map<string, nat>

  function CountOf(c: Counter, key: string): nat { if key in c then c[key] else 0 }

  /** `countSlot` */
  function CountUp(c: Counter, key: string): Counter { c[key := CountOf(c, key) + 1] }

  datatype Access = Access(loads: Counter, stores: Counter)

  datatype Level = Level(opcodes: Counter, access: map<string, Access>)

  const EMPTY_LEVEL := Level(map[], map[])

  function LoadsOf(level: Level, contract: string): Counter {
    if contract in level.access then level.access[contract].loads else map[]
  }

  function StoresOf(level: Level, contract: string): Counter {
    if contract in level.access then level.access[contract].stores else map[]
  }

  /** Counters hold positive numbers only. */
  ghost predicate Positive(c: Counter) { forall k :: k in c ==> c[k] > 0 }

  ghost predicate LevelOk(t: Trace, n: nat, level: Level) {
    && Positive(level.opcodes)
    && (forall key :: CountOf(level.opcodes, key) == Tally(t, n, key))
    && (forall c :: c in level.access ==> Positive(level.access[c].loads) && Positive(level.access[c].stores))
    && (forall c, slot :: CountOf(LoadsOf(level, c), slot) == Accesses(t, n, false, c, slot))
    && (forall c, slot :: CountOf(StoresOf(level, c), slot) == Accesses(t, n, true, c, slot))
  }

  ghost predicate LevelsThere(t: Trace, levels: map<nat, Level>) {
    forall n :: n in levels <==> HasLevel(t, n)
  }

  ghost predicate LevelsRight(t: Trace, levels: map<nat, Level>) {
    forall n :: n in levels ==> LevelOk(t, n, levels[n])
  }

  ghost predicate LevelsOk(t: Trace, levels: map<nat, Level>) {
    LevelsThere(t, levels) && LevelsRight(t, levels)
  }

  // One step later

  lemma LevelsBelow(t: Trace, log: Log, n: nat)
    ensures Splits(t + [log]) == Splits(t) + if log.Splits() then 1 else 0
    ensures HasLevel(t + [log], n) <==> HasLevel(t, n) || (!log.Deep() && Splits(t + [log]) == n)
  {
    var t' := t + [log];
    assert t'[..|t|] == t;
    assert t'[..|t| + 1] == t';
    forall i | 0 <= i < |t| ensures LevelOf(t', i) == LevelOf(t, i) {
      assert t'[..i + 1] == t[..i + 1];
    }
    if HasLevel(t, n) {
      var i :| 0 <= i < |t| && !t[i].Deep() && LevelOf(t, i) == n;
      assert LevelOf(t', i) == n;
    }
    if !log.Deep() && Splits(t') == n {
      assert LevelOf(t', |t|) == n;
    }
    if HasLevel(t', n) {
      var i :| 0 <= i < |t'| && !t'[i].Deep() && LevelOf(t', i) == n;
      if i < |t| {
        assert LevelOf(t, i) == n;
      }
    }
  }

  ghost function LastOp(t: Trace): string {
    if t == [] || !t[|t| - 1].Deep() then "" else t[|t| - 1].op
  }

  lemma TallyStep(t: Trace, log: Log, n: nat, key: string)
    ensures var t' := t + [log];
            Tally(t', n, key) == Tally(t, n, key)
              + if Splits(t') == n && log.Deep()
                   && ((log.op != "GAS" && !Unimportant(log.op) && key == log.op)
                       || (LastOp(t) == "GAS" && !Contains(log.op, "CALL") && key == "GAS"))
                then 1 else 0
  {
    var t' := t + [log];
    assert t'[..|t|] == t;
  }

  lemma AccessStep(t: Trace, log: Log, n: nat, stores: bool, contract: string, slot: string)
    ensures var t' := t + [log];
            Accesses(t', n, stores, contract, slot) == Accesses(t, n, stores, contract, slot)
              + if Splits(t') == n && (if stores then log.Stores() else log.Loads())
                   && log.contract == contract && ToHex(log.top) == slot then 1 else 0
  {
    assert (t + [log])[..|t|] == t;
  }

  lemma PreimagesStep(t: Trace, log: Log)
    ensures Preimages(t + [log])
            == Preimages(t) + if log.Deep() && log.op == "KECCAK256" && 20 < log.second < 512 then [log.memory] else []
  {
    assert (t + [log])[..|t|] == t;
  }

  lemma {:induction false} NothingWithoutLevel(t: Trace, n: nat)
    requires StartsCleanly(t) && !HasLevel(t, n)
    ensures forall key :: Tally(t, n, key) == 0
    ensures forall stores, c, slot :: Accesses(t, n, stores, c, slot) == 0
  {
    if t != [] {
      var (prefix, last) := (t[..|t| - 1], t[|t| - 1]);
      assert t == prefix + [last];
      LevelsBelow(prefix, last, n);
      NothingWithoutLevel(prefix, n);
      if last.Deep() {
        CurrentLevelExists(prefix);
      }
    }
  }

  /** Once started, the level of the latest step exists. */
  lemma {:induction false} CurrentLevelExists(t: Trace)
    requires StartsCleanly(t) && t != []
    ensures HasLevel(t, Splits(t))
  {
    var (prefix, last) := (t[..|t| - 1], t[|t| - 1]);
    assert t == prefix + [last];
    LevelsBelow(prefix, last, Splits(t));
    if prefix != [] {
      CurrentLevelExists(prefix);
    }
  }

  // The counters after one step below the top-level call

  function OpcodesAfter(opcodes: Counter, lastOp: string, op: string): Counter {
    var gas := if lastOp == "GAS" && !Contains(op, "CALL") then CountUp(opcodes, "GAS") else opcodes;
    if op != "GAS" && !Unimportant(op) then CountUp(gas, op) else gas
  }

  function AccessAfter(access: map<string, Access>, log: Log): map<string, Access> {
    if log.op != "SLOAD" && log.op != "SSTORE" then access
    else
      var slot := ToHex(log.top);
      var was := if log.contract in access then access[log.contract] else Access(map[], map[]);
      access[log.contract :=
        if log.op == "SLOAD" then was.(loads := CountUp(was.loads, slot))
        else was.(stores := CountUp(was.stores, slot))]
  }

  lemma OpcodesStep(t: Trace, log: Log, opcodes: Counter)
    requires log.Deep() && Positive(opcodes)
    requires forall key :: CountOf(opcodes, key) == Tally(t, Splits(t), key)
    ensures var after := OpcodesAfter(opcodes, LastOp(t), log.op);
            && Positive(after)
            && forall key :: CountOf(after, key) == Tally(t + [log], Splits(t), key)
  {
    var after := OpcodesAfter(opcodes, LastOp(t), log.op);
    LevelsBelow(t, log, 0);
    forall key ensures CountOf(after, key) == Tally(t + [log], Splits(t), key) {
      TallyStep(t, log, Splits(t), key);
    }
  }

  /** One step moves one counter of one contract. */
  lemma AccessCount(level: Level, log: Log, c: string, slot: string)
    requires log.Deep()
    ensures var (after, here) :=
        (level.(access := AccessAfter(level.access, log)), c == log.contract && slot == ToHex(log.top));
            && CountOf(LoadsOf(after, c), slot)
               == CountOf(LoadsOf(level, c), slot) + (if log.Loads() && here then 1 else 0)
            && CountOf(StoresOf(after, c), slot)
               == CountOf(StoresOf(level, c), slot) + (if log.Stores() && here then 1 else 0)
  {
  }

  lemma AccessPositive(access: map<string, Access>, log: Log, c: string)
    requires forall c :: c in access ==> Positive(access[c].loads) && Positive(access[c].stores)
    requires c in AccessAfter(access, log)
    ensures var after := AccessAfter(access, log)[c]; Positive(after.loads) && Positive(after.stores)
  {
  }

  lemma AccessesStep(t: Trace, log: Log, level: Level)
    requires log.Deep() && LevelOk(t, Splits(t), level)
    ensures var after := level.(access := AccessAfter(level.access, log));
            && (forall c :: c in after.access ==> Positive(after.access[c].loads) && Positive(after.access[c].stores))
            && (forall c, slot :: CountOf(LoadsOf(after, c), slot) == Accesses(t + [log], Splits(t), false, c, slot))
            && (forall c, slot :: CountOf(StoresOf(after, c), slot) == Accesses(t + [log], Splits(t), true, c, slot))
  {
    var after := level.(access := AccessAfter(level.access, log));
    LevelsBelow(t, log, 0);
    forall c | c in after.access ensures Positive(after.access[c].loads) && Positive(after.access[c].stores) {
      AccessPositive(level.access, log, c);
    }
    forall c, slot
      ensures CountOf(LoadsOf(after, c), slot) == Accesses(t + [log], Splits(t), false, c, slot)
      ensures CountOf(StoresOf(after, c), slot) == Accesses(t + [log], Splits(t), true, c, slot)
    {
      AccessStep(t, log, Splits(t), false, c, slot);
      AccessStep(t, log, Splits(t), true, c, slot);
      AccessCount(level, log, c, slot);
    }
  }

  /** A step leaves the levels it does not belong to alone. */
  lemma OtherLevels(t: Trace, log: Log, n: nat, level: Level)
    requires LevelOk(t, n, level) && (n != Splits(t + [log]) || !log.Deep())
    ensures LevelOk(t + [log], n, level)
  {
    forall key ensures Tally(t + [log], n, key) == Tally(t, n, key) {
      TallyStep(t, log, n, key);
    }
    forall stores, c, slot ensures Accesses(t + [log], n, stores, c, slot) == Accesses(t, n, stores, c, slot) {
      AccessStep(t, log, n, stores, c, slot);
    }
  }

  lemma TopThere(t: Trace, log: Log, levels: map<nat, Level>)
    requires LevelsThere(t, levels) && !log.Deep()
    ensures var n := Splits(t + [log]);
            LevelsThere(t + [log], if n in levels then levels else levels[n := EMPTY_LEVEL])
  {
    forall m ensures HasLevel(t + [log], m) <==> HasLevel(t, m) || m == Splits(t + [log]) {
      LevelsBelow(t, log, m);
    }
  }

  lemma TopRight(t: Trace, log: Log, levels: map<nat, Level>)
    requires LevelsRight(t, levels) && !log.Deep()
    ensures LevelsRight(t + [log], levels)
  {
    forall m | m in levels ensures LevelOk(t + [log], m, levels[m]) {
      OtherLevels(t, log, m, levels[m]);
    }
  }

  lemma NewLevel(t: Trace, log: Log, n: nat)
    requires StartsCleanly(t) && !HasLevel(t, n) && !log.Deep()
    ensures LevelOk(t + [log], n, EMPTY_LEVEL)
  {
    NothingWithoutLevel(t, n);
    OtherLevels(t, log, n, EMPTY_LEVEL);
  }

  lemma TopStep(t: Trace, log: Log, levels: map<nat, Level>)
    requires LevelsOk(t, levels) && StartsCleanly(t) && !log.Deep()
    ensures var n := Splits(t + [log]);
            LevelsOk(t + [log], if n in levels then levels else levels[n := EMPTY_LEVEL])
  {
    TopThere(t, log, levels);
    TopRight(t, log, levels);
    if Splits(t + [log]) !in levels {
      NewLevel(t, log, Splits(t + [log]));
    }
  }

  function LevelAfter(level: Level, lastOp: string, log: Log): Level {
    Level(OpcodesAfter(level.opcodes, lastOp, log.op), AccessAfter(level.access, log))
  }

  lemma LevelStep(t: Trace, log: Log, level: Level)
    requires LevelOk(t, Splits(t), level) && log.Deep()
    ensures LevelOk(t + [log], Splits(t), LevelAfter(level, LastOp(t), log))
  {
    OpcodesStep(t, log, level.opcodes);
    AccessesStep(t, log, level);
    var (after, half) := (LevelAfter(level, LastOp(t), log), level.(access := AccessAfter(level.access, log)));
    assert forall c :: LoadsOf(after, c) == LoadsOf(half, c) && StoresOf(after, c) == StoresOf(half, c);
  }

  lemma DeepThere(t: Trace, log: Log, levels: map<nat, Level>)
    requires LevelsThere(t, levels) && log.Deep()
    ensures LevelsThere(t + [log], levels)
  {
    forall m ensures HasLevel(t + [log], m) <==> HasLevel(t, m) {
      LevelsBelow(t, log, m);
    }
  }

  lemma DeepRight(t: Trace, log: Log, levels: map<nat, Level>, level: Level)
    requires LevelsRight(t, levels) && log.Deep() && LevelOk(t + [log], Splits(t), level)
    ensures LevelsRight(t + [log], levels[Splits(t) := level])
  {
    LevelsBelow(t, log, 0);
    forall m | m in levels && m != Splits(t) ensures LevelOk(t + [log], m, levels[m]) {
      OtherLevels(t, log, m, levels[m]);
    }
  }

  lemma DeepStep(t: Trace, log: Log, levels: map<nat, Level>)
    requires LevelsOk(t, levels) && log.Deep() && Splits(t) in levels
    ensures LevelsOk(t + [log], levels[Splits(t) := LevelAfter(levels[Splits(t)], LastOp(t), log)])
  {
    DeepThere(t, log, levels);
    LevelStep(t, log, levels[Splits(t)]);
    DeepRight(t, log, levels, LevelAfter(levels[Splits(t)], LastOp(t), log));
  }

  // Calls

  /** What the node tells the tracer: a step, or that a call below the top-level one begins or
      ends. Inputs and outputs are hexadecimal texts with their prefix. */
  datatype Happening =
    | Stepped(log: Log)
    | Entered(kind: string, source: string, target: string, input: string, gas: string)
    | Exited(failed: bool, gasUsed: string, output: string)

  function Cut(s: string, n: nat): string { if |s| <= n then s else s[..n] }

  /** The record a happening leaves. The end of the top-level call is not announced, so it is read
      off its last step. */
  function Recorded(h: Happening): seq<CallStack.Record> {
    match h
    case Entered(kind, source, target, input, gas) =>
      [CallStack.Record(kind, source, target, Cut(input, 10), gas, "", "")]
    case Exited(failed, gasUsed, output) =>
      [CallStack.Record(if failed then "REVERT" else "RETURN", "", "", "", "", gasUsed, Cut(output, 1000))]
    case Stepped(log) =>
      if !log.Deep() && (log.op == "REVERT" || log.op == "RETURN")
      then [CallStack.Record(log.op, "", "", "", "", "0", Cut(log.memory, 1000))]
      else []
  }

  ghost function RecordsOf(hs: seq<Happening>): seq<CallStack.Record> {
    Collect(Recorded, hs)
  }

  /** The steps among what happens. */
  ghost function TraceOf(hs: seq<Happening>): Trace {
    if hs == [] then []
    else
      var last := hs[|hs| - 1];
      TraceOf(hs[..|hs| - 1]) + if last.Stepped? then [last.log] else []
  }

  lemma OneMore(hs: seq<Happening>, h: Happening)
    ensures RecordsOf(hs + [h]) == RecordsOf(hs) + Recorded(h)
    ensures TraceOf(hs + [h]) == TraceOf(hs) + if h.Stepped? then [h.log] else []
  {
    assert (hs + [h])[..|hs|] == hs;
  }

  lemma {:induction false} CleanPrefix(hs: seq<Happening>, i: nat)
    requires i <= |hs| && StartsCleanly(TraceOf(hs))
    ensures StartsCleanly(TraceOf(hs[..i]))
    decreases |hs|
  {
    if i < |hs| {
      var front := hs[..|hs| - 1];
      assert TraceOf(front) <= TraceOf(hs);
      assert front[..i] == hs[..i];
      CleanPrefix(front, i);
    } else {
      assert hs[..i] == hs;
    }
  }

  lemma Grow<T>(s: seq<T>, i: nat)
    requires i < |s|
    ensures s[..i] + [s[i]] == s[..i + 1]
  {
  }

  class BundlerCollectorTracer {
    var numberLevels: map<nat, Level>
    var keccak: seq<string>
    var calls: seq<CallStack.Record>
    var lastOp: string
    var numberCounter: nat
    ghost var trace: Trace
    ghost var seen: seq<Happening>

    /** The fields are what has happened so far determines. */
    ghost predicate Valid()
      reads this
    {
      Counted() && trace == TraceOf(seen) && calls == RecordsOf(seen)
    }

    /** The current level is the one numbered `numberCounter`, once there is one. */
    ghost predicate Counted()
      reads this
    {
      && StartsCleanly(trace)
      && numberCounter == Splits(trace)
      && lastOp == LastOp(trace)
      && keccak == Preimages(trace)
      && LevelsOk(trace, numberLevels)
    }

    constructor ()
      ensures Valid() && seen == []
    {
      numberLevels, keccak, calls, lastOp, numberCounter, trace, seen := map[], [], [], "", 0, [], [];
    }

    method Enter(kind: string, source: string, target: string, input: string, gas: string)
      requires Valid()
      modifies this`calls, this`seen
      ensures Valid() && seen == old(seen) + [Entered(kind, source, target, input, gas)]
    {
      OneMore(seen, Entered(kind, source, target, input, gas));
      calls := calls + [CallStack.Record(kind, source, target, Cut(input, 10), gas, "", "")];
      seen := seen + [Entered(kind, source, target, input, gas)];
    }

    method Exit(failed: bool, gasUsed: string, output: string)
      requires Valid()
      modifies this`calls, this`seen
      ensures Valid() && seen == old(seen) + [Exited(failed, gasUsed, output)]
    {
      OneMore(seen, Exited(failed, gasUsed, output));
      var kind := if failed then "REVERT" else "RETURN";
      calls := calls + [CallStack.Record(kind, "", "", "", "", gasUsed, Cut(output, 1000))];
      seen := seen + [Exited(failed, gasUsed, output)];
    }

    method Step(log: Log)
      requires Valid() && StartsCleanly(trace + [log])
      modifies this
      ensures Valid() && seen == old(seen) + [Stepped(log)]
    {
      OneMore(seen, Stepped(log));
      if log.op == "REVERT" || log.op == "RETURN" {
        if log.depth == 1 {
          calls := calls + [CallStack.Record(log.op, "", "", "", "", "0", Cut(log.memory, 1000))];
        }
      }
      Count(log);
      seen := seen + [Stepped(log)];
    }

    method Feed(h: Happening)
      requires Valid() && StartsCleanly(TraceOf(seen + [h]))
      modifies this
      ensures Valid() && seen == old(seen) + [h]
    {
      OneMore(seen, h);
      match h
      case Stepped(log) => Step(log);
      case Entered(kind, source, target, input, gas) => Enter(kind, source, target, input, gas);
      case Exited(failed, gasUsed, output) => Exit(failed, gasUsed, output);
    }

    /** The levels and what is counted in them. */
    method Count(log: Log)
      requires Counted() && StartsCleanly(trace + [log])
      modifies this`numberLevels, this`keccak, this`lastOp, this`numberCounter, this`trace
      ensures Counted() && trace == old(trace) + [log]
    {
      ghost var t := trace;
      LevelsBelow(t, log, 0);
      PreimagesStep(t, log);
      trace := trace + [log];
      if log.depth == 1 {
        TopStep(t, log, numberLevels);
        if log.op == "NUMBER" {
          numberCounter := numberCounter + 1;
        }
        if numberCounter !in numberLevels {
          numberLevels := numberLevels[numberCounter := EMPTY_LEVEL];
        }
        lastOp := "";
        return;
      }
      CurrentLevelExists(t);
      DeepStep(t, log, numberLevels);
      var level := numberLevels[numberCounter];
      level := level.(opcodes := OpcodesAfter(level.opcodes, lastOp, log.op));
      lastOp := log.op;
      level := level.(access := AccessAfter(level.access, log));
      numberLevels := numberLevels[numberCounter := level];
      if log.op == "KECCAK256" && 20 < log.second < 512 {
        keccak := keccak + [log.memory];
      }
    }
  }

  method RunTracer(hs: seq<Happening>) returns (tracer: BundlerCollectorTracer)
    requires StartsCleanly(TraceOf(hs))
    ensures fresh(tracer) && tracer.Valid() && tracer.seen == hs
  {
    tracer := new BundlerCollectorTracer();
    for i := 0 to |hs|
      invariant tracer.Valid() && tracer.seen == hs[..i] && fresh(tracer)
    {
      CleanPrefix(hs, i + 1);
      Grow(hs, i);
      tracer.Feed(hs[i]);
    }
    assert hs[..|hs|] == hs;
  }
}
