/**
 Reputation of senders, factories, paymasters and peers: counters of operations seen and
 included, a status computed from them, and the hourly backoff.
 */
module Reputation {

  datatype Status = OK | THROTTLED | BANNED

  /** `status` is what is stored; `StatusOf` never reads it. */
  datatype ReputationEntry = ReputationEntry(opsSeen: nat, opsIncluded: nat, status: Status)

  type Entries = map<string, ReputationEntry>

  const MIN_INCLUSION_RATE_DENOMINATOR: nat := 10
  const THROTTLING_SLACK: nat := 10
  const BAN_SLACK: nat := 50

  const FRESH_ENTRY := ReputationEntry(0, 0, OK)
  const BANNED_ENTRY := ReputationEntry(100, 0, BANNED)

  function EntryStatus(e: ReputationEntry): Status {
    var minExpectedIncluded := e.opsSeen / MIN_INCLUSION_RATE_DENOMINATOR;
    if minExpectedIncluded <= e.opsIncluded + THROTTLING_SLACK then OK
    else if minExpectedIncluded <= e.opsIncluded + BAN_SLACK then THROTTLED
    else BANNED
  }

  function StatusOf(entries: Entries, entity: string): Status {
    if entity in entries then EntryStatus(entries[entity]) else OK
  }

  /** `floor(x * 23 / 24)` */
  function Decay(x: nat): nat { x * 23 / 24 }

  function DecayEntry(e: ReputationEntry): ReputationEntry {
    e.(opsSeen := Decay(e.opsSeen), opsIncluded := Decay(e.opsIncluded))
  }

  predicate Spent(e: ReputationEntry) { e.opsSeen == 0 && e.opsIncluded == 0 }

  /** One backoff: every entry decays and the ones that reach zero are gone. */
  ghost function Backoff(entries: Entries): Entries {
    map k | k in entries && !Spent(DecayEntry(entries[k])) :: DecayEntry(entries[k])
  }

  ghost function Backoffs(entries: Entries, n: nat): Entries {
    if n == 0 then entries else Backoffs(Backoff(entries), n - 1)
  }

  /** The statuses are bands of the single number seen - 10 * included. */
  lemma StatusBands(e: ReputationEntry)
    ensures EntryStatus(e) == OK <==> e.opsSeen - 10 * e.opsIncluded <= 109
    ensures EntryStatus(e) == BANNED <==> e.opsSeen - 10 * e.opsIncluded >= 510
  {
  }

  lemma DecayBounds(x: nat)
    ensures 24 * Decay(x) <= 23 * x <= 24 * Decay(x) + 23
    ensures x > 0 ==> Decay(x) < x
    ensures Decay(x) == x - x / 24 - (if x % 24 == 0 then 0 else 1)
  {
    var (q, r) := (x / 24, x % 24);
    assert x == 24 * q + r;
    assert 23 * x == 24 * (23 * q) + 23 * r;
    assert 23 * r == 24 * (if r == 0 then 0 else r - 1) + (if r == 0 then 0 else 24 - r);
  }

  /** No number of backoffs alone turns an entity that is not BANNED into a BANNED one. */
  lemma {:induction false} BackoffsNeverBan(entries: Entries, entity: string, n: nat)
    requires StatusOf(entries, entity) != BANNED
    ensures StatusOf(Backoffs(entries, n), entity) != BANNED
  {
    if n > 0 {
      var next := Backoff(entries);
      if entity in next {
        var e := entries[entity];
        StatusBands(e);
        StatusBands(next[entity]);
        DecayBounds(e.opsSeen);
        DecayBounds(e.opsIncluded);
      }
      BackoffsNeverBan(next, entity, n - 1);
    }
  }

  /** A backoff can throttle an entity that was OK, and exactly when: included is not a multiple
      of 24 and 23 * (seen - 10 * included) reaches 2400 + 10 * (included mod 24). */
  lemma BackoffKeepsOk(e: ReputationEntry)
    requires EntryStatus(e) == OK
    ensures EntryStatus(DecayEntry(e)) == OK <==>
              || e.opsIncluded % 24 == 0
              || 23 * (e.opsSeen - 10 * e.opsIncluded) < 2400 + 10 * (e.opsIncluded % 24)
  {
    var (q, r) := (e.opsIncluded / 24, e.opsIncluded % 24);
    var d := e.opsSeen - 10 * e.opsIncluded;
    StatusBands(e);
    StatusBands(DecayEntry(e));
    DecayBounds(e.opsIncluded);
    DecayBounds(e.opsSeen);
    assert 23 * e.opsSeen == 24 * (230 * q) + 230 * r + 23 * d;
    assert Decay(e.opsIncluded) == 23 * q + (if r == 0 then 0 else r - 1);
  }

  lemma BackoffCanThrottle()
    ensures EntryStatus(ReputationEntry(119, 1, OK)) == OK
    ensures EntryStatus(DecayEntry(ReputationEntry(119, 1, OK))) == THROTTLED
  {
  }

  /** An idle entry is deleted within max(seen, included) backoffs, and after at least one. */
  lemma {:induction false} IdleEntriesDisappear(entries: Entries, entity: string, n: nat)
    requires n > 0
    requires entity in entries ==> entries[entity].opsSeen <= n && entries[entity].opsIncluded <= n
    ensures entity !in Backoffs(entries, n)
  {
    var next := Backoff(entries);
    if entity in entries {
      DecayBounds(entries[entity].opsSeen);
      DecayBounds(entries[entity].opsIncluded);
    }
    if n > 1 {
      IdleEntriesDisappear(next, entity, n - 1);
    }
  }

  /** `ban_entity` does not ban: whatever the entity's record was, its status becomes OK, and it
      stays OK until ten more operations have been seen without one being included. */
  lemma BanMeansOk(entries: Entries, entity: string, moreSeen: nat)
    ensures StatusOf(entries[entity := ReputationEntry(100, 0, BANNED)], entity) == OK
    ensures EntryStatus(ReputationEntry(100 + moreSeen, 0, BANNED)) == OK <==> moreSeen < 10
  {
  }

  class ReputationManager {
    var entries: Entries

    constructor ()
      ensures entries == map[]
    {
      entries := map[];
    }

    method UpdateSeenStatus(entity: string)
      modifies this
      ensures var was := if entity in old(entries) then old(entries)[entity] else ReputationEntry(0, 0, OK);
              entries == old(entries)[entity := was.(opsSeen := was.opsSeen + 1)]
    {
      if entity !in entries {
        entries := entries[entity := FRESH_ENTRY];
      }
      entries := entries[entity := entries[entity].(opsSeen := entries[entity].opsSeen + 1)];
    }

    method UpdateIncludedStatus(entity: string)
      modifies this
      ensures var was := if entity in old(entries) then old(entries)[entity] else ReputationEntry(0, 0, OK);
              entries == old(entries)[entity := was.(opsIncluded := was.opsIncluded + 1)]
    {
      if entity !in entries {
        entries := entries[entity := FRESH_ENTRY];
      }
      entries := entries[entity := entries[entity].(opsIncluded := entries[entity].opsIncluded + 1)];
    }

    method BanEntity(entity: string)
      modifies this
      ensures entries == old(entries)[entity := ReputationEntry(100, 0, BANNED)]
    {
      entries := entries[entity := BANNED_ENTRY];
    }

    /** The cron job: decay every entry in place, note the spent ones, then delete those. */
    method BackoffCronJob()
      modifies this
      ensures entries == Backoff(old(entries))
      ensures forall k :: k in entries <==>
                && k in old(entries)
                && !(old(entries)[k].opsSeen * 23 / 24 == 0 && old(entries)[k].opsIncluded * 23 / 24 == 0)
      ensures forall k :: k in entries ==>
                entries[k] == ReputationEntry(old(entries)[k].opsSeen * 23 / 24, old(entries)[k].opsIncluded * 23 / 24,
                                              old(entries)[k].status)
    {
      var toDelete: set<string> := {};
      var todo := entries.Keys;
      while todo != {}
        invariant todo <= entries.Keys == old(entries).Keys
        invariant forall k :: k in entries ==>
                    entries[k] == if k in todo then old(entries)[k] else DecayEntry(old(entries)[k])
        invariant forall k :: k in toDelete <==> k in entries && k !in todo && Spent(entries[k])
        decreases todo
      {
        var entity :| entity in todo;
        entries := entries[entity := DecayEntry(entries[entity])];
        if Spent(entries[entity]) {
          toDelete := toDelete + {entity};
        }
        todo := todo - {entity};
      }
      ghost var decayed := entries;
      while toDelete != {}
        invariant toDelete <= entries.Keys <= decayed.Keys
        invariant forall k :: k in toDelete ==> Spent(decayed[k])
        invariant forall k :: k in decayed ==> (k in entries <==> k in toDelete || !Spent(decayed[k]))
        invariant forall k :: k in entries ==> entries[k] == decayed[k]
        decreases toDelete
      {
        var entity :| entity in toDelete;
        entries := entries - {entity};
        toDelete := toDelete - {entity};
      }
    }
  }
}
