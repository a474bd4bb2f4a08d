/**
 The opcode check of the validation manager, and what it means for the trace: tracer and check
 together accept exactly the traces that follow the opcode rules.
 */
module OpcodeRules {
  import opened Tracer

  const BANNED: set<string> := {
    "GAS", "NUMBER", "TIMESTAMP", "COINBASE", "DIFFICULTY", "BASEFEE", "GASLIMIT", "GASPRICE",
    "SELFBALANCE", "BALANCE", "ORIGIN", "BLOCKHASH", "CREATE", "SELFDESTRUCT", "RANDOM", "PREVRANDAO"
  }

  /** `verify_banned_opcodes`: true when nothing is raised. */
  predicate OpcodesAllowed(opcodes: Counter, isFactory: bool) {
    && opcodes.Keys * BANNED == {}
    && !("CREATE2" in opcodes && (opcodes["CREATE2"] > 1 || (opcodes["CREATE2"] == 1 && !isFactory)))
  }

  /** `format_debug_traceCall_data` fails when one of the first three levels is missing. */
  datatype Outcome = Malformed | Banned | Allowed

  function CheckBannedOpcodes(levels: map<nat, Level>): Outcome {
    if 0 !in levels || 1 !in levels || 2 !in levels then Malformed
    else if OpcodesAllowed(levels[0].opcodes, true) && OpcodesAllowed(levels[1].opcodes, false)
            && OpcodesAllowed(levels[2].opcodes, false) then Allowed
    else Banned
  }

  // The rules, on the trace

  /** A step below the top-level call uses a banned opcode other than GAS. */
  ghost predicate UsesBanned(t: Trace, i: nat)
    requires i < |t|
  {
    t[i].Deep() && t[i].op != "GAS" && t[i].op in BANNED
  }

  ghost predicate Creates(t: Trace, i: nat)
    requires i < |t|
  {
    t[i].Deep() && t[i].op == "CREATE2"
  }

  /** In the factory's, the account's and the paymaster's part (levels 0, 1 and 2): no banned
      opcode, no GAS that is not followed by a call, and CREATE2 at most once by the factory and
      never by the others. */
  ghost predicate FollowsOpcodeRules(t: Trace) {
    && (forall i :: 0 <= i < |t| && LevelOf(t, i) <= 2 ==> !UsesBanned(t, i) && !RevealsGas(t, i))
    && (forall i :: 0 <= i < |t| && 1 <= LevelOf(t, i) <= 2 ==> !Creates(t, i))
    && (forall i, j :: 0 <= i < j < |t| && LevelOf(t, i) == 0 && LevelOf(t, j) == 0 ==>
          !(Creates(t, i) && Creates(t, j)))
  }

  /** The top-level call executes a step before its first NUMBER and at least two NUMBERs. */
  ghost predicate HasThreeParts(t: Trace) {
    HasLevel(t, 0) && HasLevel(t, 1) && HasLevel(t, 2)
  }

  // Counting and quantifying

  lemma {:induction false} TallyZero(t: Trace, n: nat, key: string)
    ensures Tally(t, n, key) == 0 <==> forall i :: 0 <= i < |t| && LevelOf(t, i) == n ==> !Counts(t, i, key)
  {
    if t != [] {
      var m := |t| - 1;
      var prefix := t[..m];
      TallyZero(prefix, n, key);
      assert t[..m + 1] == t;
      assert LevelOf(t, m) == Splits(t);
      forall i | 0 <= i < m ensures LevelOf(t, i) == LevelOf(prefix, i) && Counts(t, i, key) == Counts(prefix, i, key) {
        assert t[..i + 1] == prefix[..i + 1];
      }
    }
  }

  lemma {:induction false} TallyAtMostOne(t: Trace, n: nat, key: string)
    ensures Tally(t, n, key) <= 1 <==>
              forall i, j :: 0 <= i < j < |t| && LevelOf(t, i) == n && LevelOf(t, j) == n ==>
                               !(Counts(t, i, key) && Counts(t, j, key))
  {
    if t != [] {
      var m := |t| - 1;
      var prefix := t[..m];
      TallyAtMostOne(prefix, n, key);
      TallyZero(prefix, n, key);
      assert t[..m + 1] == t;
      assert LevelOf(t, m) == Splits(t);
      forall i | 0 <= i < m ensures LevelOf(t, i) == LevelOf(prefix, i) && Counts(t, i, key) == Counts(prefix, i, key) {
        assert t[..i + 1] == prefix[..i + 1];
      }
      if Tally(t, n, key) > 1 && Tally(prefix, n, key) <= 1 {
        var i :| 0 <= i < m && LevelOf(prefix, i) == n && Counts(prefix, i, key);
        assert Counts(t, i, key) && Counts(t, m, key);
      }
    }
  }

  // No banned opcode is one of those the tracer does not count

  lemma PlainNames(op: string)
    requires op in PLAIN
    ensures 2 <= |op| <= 6 && (|op| == 3 ==> op[1] != 'A') && (|op| == 6 ==> op[0] == 'I')
  {
  }

  lemma BannedNames(op: string)
    requires op in BANNED || op == "CREATE2"
    ensures |op| == 3 || |op| >= 6
    ensures |op| == 3 ==> op[0] == 'G' && op[1] == 'A'
    ensures |op| == 6 ==> op[0] != 'I'
    ensures op[0] == 'D' ==> op[1] == 'I'
    ensures op[0] == 'P' ==> op[1] == 'R'
    ensures op[0] == 'S' ==> op[1] == 'E'
  {
  }

  lemma BannedAreCounted(op: string)
    requires op in BANNED || op == "CREATE2"
    ensures !Unimportant(op)
  {
    BannedNames(op);
    if op in PLAIN {
      PlainNames(op);
    }
    Stem(op, "DUP");
    Stem(op, "PUSH");
    Stem(op, "SWAP");
  }

  lemma Stem(op: string, stem: string)
    requires |stem| >= 2
    ensures Numbered(op, stem) ==> |op| >= 2 && op[0] == stem[0] && op[1] == stem[1]
  {
  }

  /** A banned opcode is in the counters of a level exactly when some step of the level breaks a
      rule with it. */
  lemma BannedInLevel(t: Trace, n: nat, level: Level)
    requires LevelOk(t, n, level)
    ensures level.opcodes.Keys * BANNED == {} <==>
              forall i :: 0 <= i < |t| && LevelOf(t, i) == n ==> !UsesBanned(t, i) && !RevealsGas(t, i)
  {
    forall key ensures key in level.opcodes <==> exists i :: 0 <= i < |t| && LevelOf(t, i) == n && Counts(t, i, key) {
      TallyZero(t, n, key);
      assert CountOf(level.opcodes, key) == Tally(t, n, key);
    }
    if level.opcodes.Keys * BANNED == {} {
      assert forall key :: key in BANNED ==> key !in level.opcodes.Keys * BANNED;
      assert "GAS" in BANNED && "GAS" !in level.opcodes;
      forall i | 0 <= i < |t| && LevelOf(t, i) == n ensures !UsesBanned(t, i) && !RevealsGas(t, i) {
        if UsesBanned(t, i) {
          BannedAreCounted(t[i].op);
        }
      }
    } else {
      var key :| key in level.opcodes.Keys * BANNED;
      var i :| 0 <= i < |t| && LevelOf(t, i) == n && Counts(t, i, key);
      assert UsesBanned(t, i) || RevealsGas(t, i);
    }
  }

  lemma CreatesAreCounted(t: Trace, i: nat)
    requires i < |t|
    ensures Counts(t, i, "CREATE2") <==> Creates(t, i)
  {
    BannedAreCounted("CREATE2");
  }

  lemma CreatesInLevel(t: Trace, n: nat, level: Level)
    requires LevelOk(t, n, level)
    ensures "CREATE2" in level.opcodes <==> exists i :: 0 <= i < |t| && LevelOf(t, i) == n && Creates(t, i)
    ensures CountOf(level.opcodes, "CREATE2") > 1 <==>
              exists i, j :: 0 <= i < j < |t| && LevelOf(t, i) == n && LevelOf(t, j) == n
                && Creates(t, i) && Creates(t, j)
  {
    TallyZero(t, n, "CREATE2");
    TallyAtMostOne(t, n, "CREATE2");
    forall i | 0 <= i < |t| ensures Counts(t, i, "CREATE2") <==> Creates(t, i) {
      CreatesAreCounted(t, i);
    }
    assert CountOf(level.opcodes, "CREATE2") == Tally(t, n, "CREATE2");
  }

  /** End to end: for every trace that starts in the top-level call, the check on what the tracer
      collected passes exactly when the trace has its three parts and follows the opcode rules. */
  lemma CheckIsTheRules(t: Trace, levels: map<nat, Level>)
    requires LevelsOk(t, levels)
    ensures CheckBannedOpcodes(levels) == Malformed <==> !HasThreeParts(t)
    ensures CheckBannedOpcodes(levels) == Allowed <==> HasThreeParts(t) && FollowsOpcodeRules(t)
  {
    if HasThreeParts(t) {
      BannedInLevel(t, 0, levels[0]);
      BannedInLevel(t, 1, levels[1]);
      BannedInLevel(t, 2, levels[2]);
      CreatesInLevel(t, 0, levels[0]);
      CreatesInLevel(t, 1, levels[1]);
      CreatesInLevel(t, 2, levels[2]);
    }
  }

  /** The tracer run over a whole trace, followed by the check. */
  method TraceAndCheck(hs: seq<Happening>) returns (outcome: Outcome)
    requires StartsCleanly(TraceOf(hs))
    ensures outcome == Malformed <==> !HasThreeParts(TraceOf(hs))
    ensures outcome == Allowed <==> HasThreeParts(TraceOf(hs)) && FollowsOpcodeRules(TraceOf(hs))
  {
    var tracer := RunTracer(hs);
    outcome := CheckBannedOpcodes(tracer.numberLevels);
    CheckIsTheRules(TraceOf(hs), tracer.numberLevels);
  }
}
