/**
 Which storage slots an entity may touch during validation: the slots associated with an address
 through hash preimages, the check over everything the tracer recorded, and the rule on the trace
 that the two together amount to.
 */
module StorageAccess {
  import opened Basics
  import opened Hex
  import opened Strings
  import opened Tracer

  /** The hash function: from a preimage's text to the slot number. */
  type Keccak = string -> nat

  const PAD: string := "0x000000000000000000000000"

  /** An address as it starts a preimage. */
  function PaddedAddress(address: string): string {
    PAD + if |address| >= 2 then address[2..] else ""
  }

  /** `int(slot, 16)`, for a slot with or without the prefix. */
  function SlotNumber(slot: string): Option<nat> {
    if "0x" <= slot then ParseInt(slot[2..]) else ParseInt(slot)
  }

  datatype StakeInfo = StakeInfo(stake: nat, unstakeDelaySec: nat)

  predicate IsStaked(s: StakeInfo) { s.stake > 1 && s.unstakeDelaySec > 1 }

  // Slots associated with an address

  /** The hashes of the preimages that contain the padded address. */
  ghost function HashedSlots(address: string, preimages: set<string>, keccak: Keccak): set<nat> {
    set p | p in preimages && Contains(p, PaddedAddress(address)) :: keccak(p)
  }

  ghost predicate Near(slot: nat, base: nat) { base <= slot < base + 18 }

  /** What association means: the slot is the padded address itself, as text, or lies among the 18
      slots from the hash of a preimage that contains the padded address. Without any preimage
      nothing is associated. */
  ghost predicate Associated(slot: string, address: string, preimages: set<string>, keccak: Keccak)
    requires SlotNumber(slot).Some?
  {
    && preimages != {}
    && (slot == PaddedAddress(address)
        || exists base :: base in HashedSlots(address, preimages, keccak) && Near(SlotNumber(slot).value, base))
  }

  method UpdateCurrentEntitySlot(preimage: string, padded: string, keccak: Keccak, slots: seq<nat>)
    returns (updated: seq<nat>)
    requires forall i, j :: 0 <= i < j < |slots| ==> slots[i] != slots[j]
    ensures forall i, j :: 0 <= i < j < |updated| ==> updated[i] != updated[j]
    ensures forall n :: n in updated <==> n in slots || (Contains(preimage, padded) && n == keccak(preimage))
  {
    updated := slots;
    if Contains(preimage, padded) {
      var slot := keccak(preimage);
      if slot !in slots {
        updated := slots + [slot];
      }
    }
  }

  /** The slots of one entity, from all preimages in any order. */
  method ParseSlotsOf(address: string, preimages: set<string>, keccak: Keccak) returns (slots: seq<nat>)
    ensures forall n :: n in slots <==> n in HashedSlots(address, preimages, keccak)
    ensures forall i, j :: 0 <= i < j < |slots| ==> slots[i] != slots[j]
  {
    slots := [];
    var todo := preimages;
    while todo != {}
      invariant todo <= preimages
      invariant forall n :: n in slots <==> n in HashedSlots(address, preimages - todo, keccak)
      invariant forall i, j :: 0 <= i < j < |slots| ==> slots[i] != slots[j]
      decreases todo
    {
      var p :| p in todo;
      HashedSlotsAdd(address, preimages - todo, p, keccak);
      assert preimages - (todo - {p}) == preimages - todo + {p};
      slots := UpdateCurrentEntitySlot(p, PaddedAddress(address), keccak, slots);
      todo := todo - {p};
    }
  }

  lemma HashedSlotsAdd(address: string, preimages: set<string>, p: string, keccak: Keccak)
    ensures forall n :: n in HashedSlots(address, preimages + {p}, keccak) <==>
                          n in HashedSlots(address, preimages, keccak)
                          || (Contains(p, PaddedAddress(address)) && n == keccak(p))
  {
    if Contains(p, PaddedAddress(address)) {
      assert p in preimages + {p};
    }
  }

  /** The dictionary stays empty when there are no preimages, since an entity gets its entry while
      the first preimage is looked at. */
  method ParseEntitySlots(entities: seq<string>, preimages: set<string>, keccak: Keccak)
    returns (slots: map<string, seq<nat>>)
    ensures forall e :: e in slots <==> e in entities && preimages != {}
    ensures forall e, n :: e in slots ==> (n in slots[e] <==> n in HashedSlots(e, preimages, keccak))
  {
    slots := map[];
    for i := 0 to |entities|
      invariant forall e :: e in slots <==> e in entities[..i] && preimages != {}
      invariant forall e, n :: e in slots ==> (n in slots[e] <==> n in HashedSlots(e, preimages, keccak))
    {
      if preimages != {} {
        var of := ParseSlotsOf(entities[i], preimages, keccak);
        slots := slots[entities[i] := of];
      }
    }
  }

  method IsSlotAssociatedWithAddress(slot: string, address: string, associated: seq<nat>) returns (yes: bool)
    requires SlotNumber(slot).Some?
    ensures yes <==> slot == PaddedAddress(address) || exists n :: n in associated && Near(SlotNumber(slot).value, n)
  {
    if slot == PaddedAddress(address) {
      return true;
    }
    var number := SlotNumber(slot).value;
    for i := 0 to |associated|
      invariant forall n :: n in associated[..i] ==> !Near(number, n)
    {
      if associated[i] <= number < associated[i] + 18 {
        assert Near(number, associated[i]);
        return true;
      }
    }
    return false;
  }

  // The check

  /** Who is being validated, against what. */
  datatype Subject = Subject(
    entity: string, sender: string, entrypoint: string, staked: bool, hasInitCode: bool, whitelisted: bool)

  /** The rule for one access. The sender's and the entrypoint's own storage is free. An unstaked
      entity may only touch slots associated with the sender, and only when there is no init code.
      A staked one may touch slots associated with the sender or with itself, and its own storage. */
  ghost predicate MayTouch(s: Subject, contract: string, slot: string, preimages: set<string>, keccak: Keccak)
    requires SlotNumber(slot).Some?
  {
    || contract == s.sender
    || contract == s.entrypoint
    || (if s.staked
        then Associated(slot, s.sender, preimages, keccak) || Associated(slot, s.entity, preimages, keccak)
             || contract == s.entity
        else Associated(slot, s.sender, preimages, keccak) && !s.hasInitCode)
  }

  ghost predicate Readable(access: map<string, Access>) {
    forall c, slot :: c in access && (slot in access[c].loads || slot in access[c].stores) ==> SlotNumber(slot).Some?
  }

  ghost predicate MayTouchAll(
    s: Subject, access: map<string, Access>, preimages: set<string>, keccak: Keccak)
    requires Readable(access)
  {
    s.whitelisted ||
    forall c, slot :: c in access && (slot in access[c].loads || slot in access[c].stores) ==>
                        MayTouch(s, c, slot, preimages, keccak)
  }

  /** The slot dictionary stands for the preimages, for the two addresses the check looks up. */
  ghost predicate Stands(slots: map<string, seq<nat>>, s: Subject, preimages: set<string>, keccak: Keccak) {
    forall e :: e == s.sender || e == s.entity ==>
                  && (e in slots <==> preimages != {})
                  && (e in slots ==> forall n :: n in slots[e] <==> n in HashedSlots(e, preimages, keccak))
  }

  method CheckSlot(
    s: Subject, contract: string, slot: string, slots: map<string, seq<nat>>,
    ghost preimages: set<string>, ghost keccak: Keccak) returns (allowed: bool)
    requires SlotNumber(slot).Some? && Stands(slots, s, preimages, keccak)
    requires contract != s.sender && contract != s.entrypoint
    ensures allowed <==> MayTouch(s, contract, slot, preimages, keccak)
  {
    var requiresStake := false;
    var ofSender, ofEntity := false, false;
    if s.sender in slots {
      ofSender := IsSlotAssociatedWithAddress(slot, s.sender, slots[s.sender]);
    }
    assert ofSender <==> Associated(slot, s.sender, preimages, keccak);
    if ofSender {
      if s.hasInitCode {
        requiresStake := true;
      }
    } else {
      if s.entity in slots {
        ofEntity := IsSlotAssociatedWithAddress(slot, s.entity, slots[s.entity]);
      }
      assert ofEntity <==> Associated(slot, s.entity, preimages, keccak);
      if ofEntity {
        requiresStake := true;
      } else if contract == s.entity {
        requiresStake := true;
      } else {
        return false;
      }
    }
    return s.staked || !requiresStake;
  }

  method CheckContract(
    s: Subject, contract: string, access: map<string, Access>, slots: map<string, seq<nat>>,
    ghost preimages: set<string>, ghost keccak: Keccak) returns (allowed: bool)
    requires Readable(access) && contract in access && Stands(slots, s, preimages, keccak)
    requires contract != s.sender && contract != s.entrypoint
    ensures allowed <==> forall slot :: slot in access[contract].loads || slot in access[contract].stores ==>
                                          MayTouch(s, contract, slot, preimages, keccak)
  {
    var touched := access[contract].loads.Keys + access[contract].stores.Keys;
    var todo := touched;
    while todo != {}
      invariant todo <= touched
      invariant forall slot :: slot in touched && slot !in todo ==> MayTouch(s, contract, slot, preimages, keccak)
      decreases todo
    {
      var slot :| slot in todo;
      var ok := CheckSlot(s, contract, slot, slots, preimages, keccak);
      if !ok {
        return false;
      }
      todo := todo - {slot};
    }
    return true;
  }

  /** `validate_entity_storage_access`: accepts exactly when every recorded access may be made. */
  method ValidateEntityStorageAccess(
    s: Subject, access: map<string, Access>, slots: map<string, seq<nat>>,
    ghost preimages: set<string>, ghost keccak: Keccak) returns (accepted: bool)
    requires Readable(access) && Stands(slots, s, preimages, keccak)
    ensures accepted <==> MayTouchAll(s, access, preimages, keccak)
  {
    if s.whitelisted {
      return true;
    }
    var todo := access.Keys;
    while todo != {}
      invariant todo <= access.Keys
      invariant forall c, slot ::
                  c in access && c !in todo && (slot in access[c].loads || slot in access[c].stores) ==>
                    MayTouch(s, c, slot, preimages, keccak)
      decreases todo
    {
      var contract :| contract in todo;
      if contract != s.sender && contract != s.entrypoint {
        var ok := CheckContract(s, contract, access, slots, preimages, keccak);
        if !ok {
          return false;
        }
      }
      todo := todo - {contract};
    }
    return true;
  }

  // What the rule keeps

  /** More preimages, or a stake, never turn an allowed access into a forbidden one. */
  lemma MayTouchMonotone(
    s: Subject, s': Subject, contract: string, slot: string, p: set<string>, p': set<string>, keccak: Keccak)
    requires SlotNumber(slot).Some? && MayTouch(s, contract, slot, p, keccak)
    requires p <= p' && (s' == s || s' == s.(staked := true))
    ensures MayTouch(s', contract, slot, p', keccak)
  {
    assert HashedSlots(s.sender, p, keccak) <= HashedSlots(s.sender, p', keccak);
    assert HashedSlots(s.entity, p, keccak) <= HashedSlots(s.entity, p', keccak);
  }

  /** Acceptance grows with stake and preimages and shrinks with accesses. */
  lemma AcceptanceMonotone(
    s: Subject, s': Subject, access: map<string, Access>, access': map<string, Access>,
    p: set<string>, p': set<string>, keccak: Keccak)
    requires Readable(access) && Readable(access') && MayTouchAll(s, access, p, keccak)
    requires p <= p' && (s' == s || s' == s.(staked := true))
    requires forall c :: c in access' ==>
               c in access && access'[c].loads.Keys <= access[c].loads.Keys
               && access'[c].stores.Keys <= access[c].stores.Keys
    ensures MayTouchAll(s', access', p', keccak)
  {
    if !s.whitelisted {
      forall c, slot | c in access' && (slot in access'[c].loads || slot in access'[c].stores)
        ensures MayTouch(s', c, slot, p', keccak)
      {
        MayTouchMonotone(s, s', c, slot, p, p', keccak);
      }
    }
  }

  // Texts that the tracer produces

  /** Text of memory: the prefix and hexadecimal digits. */
  ghost predicate IsMemoryText(p: string) { "0x" <= p && AllDigits(p[2..]) }

  lemma PaddedStarts(address: string)
    ensures |PaddedAddress(address)| >= 2 && PaddedAddress(address)[1] == 'x'
  {
    assert PAD[1] == 'x' && PaddedAddress(address)[1] == PAD[1];
  }

  lemma DigitsBehind(p: string, k: nat)
    requires IsMemoryText(p) && 2 <= k < |p|
    ensures IsDigit(p[k])
  {
    assert p[k] == p[2..][k - 2];
  }

  /** In the text of a preimage the search for a padded address only ever finds it in front. */
  lemma SearchIsPrefixTest(p: string, address: string)
    requires IsMemoryText(p)
    ensures Contains(p, PaddedAddress(address)) <==> PaddedAddress(address) <= p
  {
    var t := PaddedAddress(address);
    ContainsMeansOccurs(p, t);
    assert p[0..] == p;
    if i :| 0 <= i <= |p| && t <= p[i..] {
      PaddedStarts(address);
      assert p[i..][1] == t[1];
      if i > 0 {
        DigitsBehind(p, i + 1);
      }
    }
  }

  /** The tracer prints slots without a prefix, so a recorded slot is never the padded address as
      text, and its number is the stack item it was printed from. */
  lemma TracedSlots(n: nat, address: string)
    ensures SlotNumber(ToHex(n)) == Some(n)
    ensures ToHex(n) != PaddedAddress(address)
  {
    var s := ToHex(n);
    assert PaddedAddress(address)[1] == 'x';
    if |s| >= 2 {
      assert IsDigit(s[1]);
    }
    ParseIntOfToHex(n);
  }

  // End to end

  /** Association of a number: among the 18 slots from the hash of a preimage that starts with the
      padded address. */
  ghost predicate Derived(slot: nat, address: string, preimages: set<string>, keccak: Keccak) {
    exists p :: p in preimages && PaddedAddress(address) <= p && Near(slot, keccak(p))
  }

  /** The rule for a load or store in the trace. */
  ghost predicate StepAllowed(s: Subject, log: Log, preimages: set<string>, keccak: Keccak) {
    || log.contract == s.sender
    || log.contract == s.entrypoint
    || (if s.staked
        then Derived(log.top, s.sender, preimages, keccak) || Derived(log.top, s.entity, preimages, keccak)
             || log.contract == s.entity
        else Derived(log.top, s.sender, preimages, keccak) && !s.hasInitCode)
  }

  lemma AssociatedIsDerived(n: nat, address: string, preimages: set<string>, keccak: Keccak)
    requires forall p :: p in preimages ==> IsMemoryText(p)
    ensures SlotNumber(ToHex(n)).Some?
    ensures Associated(ToHex(n), address, preimages, keccak) <==> Derived(n, address, preimages, keccak)
  {
    TracedSlots(n, address);
    forall p | p in preimages ensures Contains(p, PaddedAddress(address)) <==> PaddedAddress(address) <= p {
      SearchIsPrefixTest(p, address);
    }
    if Derived(n, address, preimages, keccak) {
      var p :| p in preimages && PaddedAddress(address) <= p && Near(n, keccak(p));
      assert keccak(p) in HashedSlots(address, preimages, keccak);
    }
  }

  /** Step `i` of the level loads (or stores) this slot of this contract. */
  ghost predicate AccessAt(t: Trace, i: int, n: nat, stores: bool, c: string, slot: string) {
    && 0 <= i < |t| && LevelOf(t, i) == n && (if stores then t[i].Stores() else t[i].Loads())
    && t[i].contract == c && ToHex(t[i].top) == slot
  }

  lemma AccessAtPrefix(t: Trace, i: int, n: nat, stores: bool, c: string, slot: string)
    requires t != [] && i < |t| - 1
    ensures AccessAt(t[..|t| - 1], i, n, stores, c, slot) <==> AccessAt(t, i, n, stores, c, slot)
  {
    if i >= 0 {
      assert t[..|t| - 1][..i + 1] == t[..i + 1];
    }
  }

  lemma {:induction false} AccessesZero(t: Trace, n: nat, stores: bool, c: string, slot: string)
    ensures Accesses(t, n, stores, c, slot) > 0 <==> exists i :: AccessAt(t, i, n, stores, c, slot)
  {
    if t != [] {
      var m := |t| - 1;
      AccessesZero(t[..m], n, stores, c, slot);
      assert t[..m + 1] == t;
      assert AccessAt(t, m, n, stores, c, slot) <==>
               Splits(t) == n && (if stores then t[m].Stores() else t[m].Loads())
               && t[m].contract == c && ToHex(t[m].top) == slot;
      forall i | i < m ensures AccessAt(t[..m], i, n, stores, c, slot) <==> AccessAt(t, i, n, stores, c, slot) {
        AccessAtPrefix(t, i, n, stores, c, slot);
      }
    }
  }

  ghost function PreimageSet(t: Trace): set<string> { set p | p in Preimages(t) }

  lemma {:induction false} PreimagesAreTexts(t: Trace)
    requires forall i :: 0 <= i < |t| ==> IsMemoryText(t[i].memory)
    ensures forall p :: p in PreimageSet(t) ==> IsMemoryText(p)
  {
    if t != [] {
      PreimagesAreTexts(t[..|t| - 1]);
      assert forall p :: p in Preimages(t) ==> p in PreimageSet(t[..|t| - 1]) || p == t[|t| - 1].memory;
    }
  }

  /** Some step of the level loads or stores this slot of this contract. */
  ghost predicate Touched(t: Trace, n: nat, c: string, slot: string) {
    exists i :: 0 <= i < |t| && LevelOf(t, i) == n && (t[i].Loads() || t[i].Stores())
                && t[i].contract == c && ToHex(t[i].top) == slot
  }

  lemma TouchedIsAccessed(t: Trace, n: nat, c: string, slot: string)
    ensures Touched(t, n, c, slot) <==>
              (exists i :: AccessAt(t, i, n, false, c, slot)) || exists i :: AccessAt(t, i, n, true, c, slot)
  {
    if i :| 0 <= i < |t| && LevelOf(t, i) == n && (t[i].Loads() || t[i].Stores())
            && t[i].contract == c && ToHex(t[i].top) == slot {
      assert AccessAt(t, i, n, t[i].Stores(), c, slot);
    }
    if i :| AccessAt(t, i, n, false, c, slot) {
      assert LevelOf(t, i) == n && t[i].contract == c;
    }
    if i :| AccessAt(t, i, n, true, c, slot) {
      assert LevelOf(t, i) == n && t[i].contract == c;
    }
  }

  lemma RecordedIsTouched(t: Trace, n: nat, level: Level, c: string, slot: string)
    requires LevelOk(t, n, level)
    ensures (c in level.access && (slot in level.access[c].loads || slot in level.access[c].stores))
            <==> Touched(t, n, c, slot)
  {
    TouchedIsAccessed(t, n, c, slot);
    AccessesZero(t, n, false, c, slot);
    AccessesZero(t, n, true, c, slot);
    assert CountOf(LoadsOf(level, c), slot) == Accesses(t, n, false, c, slot);
    assert CountOf(StoresOf(level, c), slot) == Accesses(t, n, true, c, slot);
  }

  lemma StepAllowedIsMayTouch(s: Subject, log: Log, preimages: set<string>, keccak: Keccak)
    requires forall p :: p in preimages ==> IsMemoryText(p)
    ensures SlotNumber(ToHex(log.top)).Some?
    ensures MayTouch(s, log.contract, ToHex(log.top), preimages, keccak) <==> StepAllowed(s, log, preimages, keccak)
  {
    AssociatedIsDerived(log.top, s.sender, preimages, keccak);
    AssociatedIsDerived(log.top, s.entity, preimages, keccak);
  }

  /** End to end: on what the tracer recorded for a level, the check accepts exactly when every
      load and store of that level in the trace is allowed. */
  lemma CheckIsTheRule(t: Trace, n: nat, level: Level, s: Subject, keccak: Keccak)
    requires LevelOk(t, n, level) && forall i :: 0 <= i < |t| ==> IsMemoryText(t[i].memory)
    ensures Readable(level.access)
    ensures MayTouchAll(s, level.access, PreimageSet(t), keccak) <==>
              s.whitelisted ||
              forall i :: 0 <= i < |t| && LevelOf(t, i) == n && (t[i].Loads() || t[i].Stores()) ==>
                            StepAllowed(s, t[i], PreimageSet(t), keccak)
  {
    var preimages := PreimageSet(t);
    PreimagesAreTexts(t);
    forall c, slot
      ensures (c in level.access && (slot in level.access[c].loads || slot in level.access[c].stores))
              <==> Touched(t, n, c, slot)
    {
      RecordedIsTouched(t, n, level, c, slot);
    }
    forall i | 0 <= i < |t|
      ensures SlotNumber(ToHex(t[i].top)).Some?
      ensures MayTouch(s, t[i].contract, ToHex(t[i].top), preimages, keccak)
              <==> StepAllowed(s, t[i], preimages, keccak)
    {
      StepAllowedIsMayTouch(s, t[i], preimages, keccak);
    }
    assert forall i :: 0 <= i < |t| && LevelOf(t, i) == n && (t[i].Loads() || t[i].Stores()) ==>
                         Touched(t, n, t[i].contract, ToHex(t[i].top));
  }
}
