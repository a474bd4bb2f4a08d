/**
 The time-based duplicate cache of the peer-to-peer network: a hash set of keys next to a
 queue of keys ordered by the instant they were last inserted.

 The specification is the history of calls. `Run` says what a history leaves in the queue in
 terms of whole-queue filters, `RunCharacterized` says what that means for one key in terms of
 the call that last mentioned it, and the class proves that the set, the queue and the loops
 that pop from its front implement it. Instants are clock readings passed in by the caller.
 */
module LruTimeCache {

  datatype Element<K> = Element(key: K, inserted: nat)

  /** One call, with the clock readings it made. `update`, `remove_expired` and `contains` all
      purge at one instant and differ only in what they return. */
  datatype Event<K> =
    | Insert(key: K, purgeAt: nat, touchAt: nat)
    | RawInsert(key: K, touchAt: nat)
    | RawRemove(key: K)
    | Purge(purgeAt: nat)
  {
    ghost predicate Purges() { Insert? || Purge? }

    ghost predicate Mentions(k: K) { !Purge? && key == k }

    ghost predicate Touches(k: K) { (Insert? || RawInsert?) && key == k }

    /** The first and the last clock reading of the call, given the reading before it. */
    ghost function First(clock: nat): nat { if Purges() then purgeAt else if RawInsert? then touchAt else clock }

    ghost function Last(clock: nat): nat { if RawRemove? then clock else if Purge? then purgeAt else touchAt }
  }

  type History<K> = seq<Event<K>>

  ghost function Clock<K>(h: History<K>): nat {
    if h == [] then 0 else h[|h| - 1].Last(Clock(h[..|h| - 1]))
  }

  /** Every clock reading is at least the one before it. */
  ghost predicate Monotone<K>(h: History<K>) {
    h == [] ||
    var (prefix, e) := (h[..|h| - 1], h[|h| - 1]);
    Monotone(prefix) && Clock(prefix) <= e.First(Clock(prefix)) <= e.Last(Clock(prefix))
  }

  // The queue as the specification sees it

  ghost function Keep<K>(list: seq<Element<K>>, wanted: Element<K> -> bool): seq<Element<K>> {
    if list == [] then []
    else (if wanted(list[0]) then [list[0]] else []) + Keep(list[1..], wanted)
  }

  ghost function Unexpired<K>(list: seq<Element<K>>, ttl: nat, now: nat): seq<Element<K>> {
    Keep(list, (e: Element<K>) => e.inserted + ttl > now)
  }

  ghost function Drop<K>(list: seq<Element<K>>, key: K): seq<Element<K>> {
    Keep(list, (e: Element<K>) => e.key != key)
  }

  ghost function Touch<K>(list: seq<Element<K>>, key: K, at: nat): seq<Element<K>> {
    Drop(list, key) + [Element(key, at)]
  }

  ghost function Apply<K>(list: seq<Element<K>>, ttl: nat, e: Event<K>): seq<Element<K>> {
    match e
    case Insert(k, p, t) => Touch(Unexpired(list, ttl, p), k, t)
    case RawInsert(k, t) => Touch(list, k, t)
    case RawRemove(k) => Drop(list, k)
    case Purge(p) => Unexpired(list, ttl, p)
  }

  ghost function Run<K>(h: History<K>, ttl: nat): seq<Element<K>> {
    if h == [] then [] else Apply(Run(h[..|h| - 1], ttl), ttl, h[|h| - 1])
  }

  ghost predicate Sorted<K>(list: seq<Element<K>>) {
    forall i, j :: 0 <= i < j < |list| ==> list[i].inserted <= list[j].inserted
  }

  ghost predicate Distinct<K>(list: seq<Element<K>>) {
    forall i, j :: 0 <= i < j < |list| ==> list[i].key != list[j].key
  }

  ghost function Keys<K>(list: seq<Element<K>>): set<K> {
    set e | e in list :: e.key
  }

  ghost function KeySeq<K>(list: seq<Element<K>>): seq<K> {
    seq(|list|, i requires 0 <= i < |list| => list[i].key)
  }

  // The history as a caller sees it

  /** The index of the insertion that is the last call to mention `k`, or -1 when there is none. */
  ghost function LastTouch<K>(h: History<K>, k: K): (i: int)
    ensures -1 <= i < |h|
    ensures i >= 0 ==> h[i].Touches(k) && forall j :: i < j < |h| ==> !h[j].Mentions(k)
    ensures i < 0 ==> forall j :: 0 <= j < |h| && h[j].Touches(k) ==>
                                    exists m :: j < m < |h| && h[m].Mentions(k)
  {
    if h == [] then -1
    else
      var n := |h| - 1;
      assert forall j :: 0 <= j < n ==> h[..n][j] == h[j];
      if h[n].Touches(k) then n
      else if h[n].Mentions(k) then -1
      else
        var i := LastTouch(h[..n], k);
        assert i < 0 ==> forall j :: 0 <= j < |h| && h[j].Touches(k) ==>
          exists m :: j < m < |h| && h[m].Mentions(k) by {
          if i < 0 {
            forall j | 0 <= j < |h| && h[j].Touches(k) ensures exists m :: j < m < |h| && h[m].Mentions(k) {
              assert h[..n][j].Touches(k);
              var m :| j < m < n && h[..n][m].Mentions(k);
              assert h[m].Mentions(k);
            }
          }
        }
        i
  }

  /** The insertion at `i` has not expired at any purge that came after it. */
  ghost predicate OutlivesPurges<K>(h: History<K>, ttl: nat, i: nat)
    requires i < |h| && (h[i].Insert? || h[i].RawInsert?)
  {
    forall j :: i < j < |h| && h[j].Purges() ==> h[i].touchAt + ttl > h[j].purgeAt
  }

  ghost predicate Present<K>(h: History<K>, ttl: nat, k: K) {
    LastTouch(h, k) >= 0 && OutlivesPurges(h, ttl, LastTouch(h, k))
  }

  ghost function TouchTime<K>(h: History<K>, k: K): nat {
    var i := LastTouch(h, k);
    if i >= 0 then h[i].touchAt else 0
  }

  /** What `contains` promises: last mentioned by an insertion whose lifetime ends after `now`. */
  ghost predicate FreshAt<K>(h: History<K>, ttl: nat, k: K, now: nat) {
    LastTouch(h, k) >= 0 && TouchTime(h, k) + ttl > now
  }

  /** A key is fresh if and only if some call inserted it less than the lifetime ago and no later one mentions it. */
  lemma FreshMeans<K>(h: History<K>, ttl: nat, k: K, now: nat)
    ensures FreshAt(h, ttl, k, now) <==>
              exists i :: 0 <= i < |h| && h[i].Touches(k) && h[i].touchAt + ttl > now
                          && forall j :: i < j < |h| ==> !h[j].Mentions(k)
  {
    if i :| 0 <= i < |h| && h[i].Touches(k) && h[i].touchAt + ttl > now
            && forall j :: i < j < |h| ==> !h[j].Mentions(k) {
      assert LastTouch(h, k) == i;
    }
  }

  // Filters

  lemma {:induction false} KeepElements<K>(list: seq<Element<K>>, wanted: Element<K> -> bool)
    ensures forall e :: e in Keep(list, wanted) ==> e in list && wanted(e)
    ensures forall e :: e in list && wanted(e) ==> e in Keep(list, wanted)
  {
    if list != [] {
      KeepElements(list[1..], wanted);
      assert list == [list[0]] + list[1..];
    }
  }

  lemma {:induction false} KeepOrdered<K>(list: seq<Element<K>>, wanted: Element<K> -> bool)
    requires Sorted(list) && Distinct(list)
    ensures Sorted(Keep(list, wanted)) && Distinct(Keep(list, wanted))
  {
    if list != [] {
      KeepOrdered(list[1..], wanted);
      KeepElements(list[1..], wanted);
      var tail := Keep(list[1..], wanted);
      forall i | 0 <= i < |tail| ensures list[0].inserted <= tail[i].inserted && list[0].key != tail[i].key {
        assert tail[i] in list[1..];
      }
    }
  }

  lemma {:induction false} KeepAll<K>(list: seq<Element<K>>, wanted: Element<K> -> bool)
    requires forall i :: 0 <= i < |list| ==> wanted(list[i])
    ensures Keep(list, wanted) == list
  {
    if list != [] {
      KeepAll(list[1..], wanted);
    }
  }

  /** On a sorted queue whose front is unexpired, the filter keeps everything. */
  lemma UnexpiredFront<K>(list: seq<Element<K>>, ttl: nat, now: nat)
    requires Sorted(list)
    requires list != [] && list[0].inserted + ttl > now
    ensures Unexpired(list, ttl, now) == list
  {
    KeepAll(list, (e: Element<K>) => e.inserted + ttl > now);
  }

  lemma DropAbsent<K>(list: seq<Element<K>>, key: K)
    requires key !in Keys(list)
    ensures Drop(list, key) == list
  {
    assert forall i :: 0 <= i < |list| ==> list[i] in list;
    KeepAll(list, (e: Element<K>) => e.key != key);
  }

  /** With distinct keys, removing the one position that holds the key is the filter. */
  lemma {:induction false} DropAtPosition<K>(list: seq<Element<K>>, key: K, p: nat)
    requires Distinct(list) && p < |list| && list[p].key == key
    ensures Drop(list, key) == list[..p] + list[p + 1..]
  {
    if p == 0 {
      DropAbsent(list[1..], key);
    } else {
      DropAtPosition(list[1..], key, p - 1);
      assert list[..p] == [list[0]] + list[1..][..p - 1];
    }
  }

  // Histories

  /** The queue after any history: sorted, free of duplicates, and holding exactly the keys whose
      last mention was an insertion that every later purge still found unexpired, each with the
      instant of that insertion. */
  lemma {:induction false} RunCharacterized<K(!new)>(h: History<K>, ttl: nat)
    requires Monotone(h)
    ensures var list := Run(h, ttl);
            && Sorted(list) && Distinct(list)
            && (forall k :: k in Keys(list) <==> Present(h, ttl, k))
            && (forall e :: e in list ==> e.inserted == TouchTime(h, e.key) && e.inserted <= Clock(h))
  {
    if h != [] {
      var (n, prefix, e) := (|h| - 1, h[..|h| - 1], h[|h| - 1]);
      var (before, after) := (Run(prefix, ttl), Run(h, ttl));
      RunCharacterized(prefix, ttl);
      FilterStep(before, ttl, e);
      assert forall j :: 0 <= j < n ==> prefix[j] == h[j];
      forall x | x in after
        ensures x.inserted == TouchTime(h, x.key) && x.inserted <= Clock(h)
      {
        assert x in before || x.key == e.key;
      }
      forall k ensures k in Keys(after) <==> Present(h, ttl, k) {
        PresentStep(h, ttl, k);
        KeyStep(before, ttl, e, k);
        if k in Keys(before) {
          var x :| x in before && x.key == k;
          assert x.inserted == TouchTime(prefix, k);
        }
      }
    }
  }

  lemma UnexpiredStep<K>(list: seq<Element<K>>, ttl: nat, now: nat)
    requires Sorted(list) && Distinct(list)
    ensures Sorted(Unexpired(list, ttl, now)) && Distinct(Unexpired(list, ttl, now))
    ensures forall x :: x in Unexpired(list, ttl, now) ==> x in list && x.inserted + ttl > now
    ensures forall x :: x in list && x.inserted + ttl > now ==> x in Unexpired(list, ttl, now)
  {
    KeepElements(list, (x: Element<K>) => x.inserted + ttl > now);
    KeepOrdered(list, (x: Element<K>) => x.inserted + ttl > now);
  }

  lemma DropStep<K>(list: seq<Element<K>>, key: K)
    requires Sorted(list) && Distinct(list)
    ensures Sorted(Drop(list, key)) && Distinct(Drop(list, key))
    ensures forall x :: x in Drop(list, key) ==> x in list && x.key != key
    ensures forall x :: x in list && x.key != key ==> x in Drop(list, key)
  {
    KeepElements(list, (x: Element<K>) => x.key != key);
    KeepOrdered(list, (x: Element<K>) => x.key != key);
  }

  lemma TouchStep<K>(list: seq<Element<K>>, key: K, now: nat)
    requires Sorted(list) && Distinct(list)
    requires forall x :: x in list ==> x.inserted <= now
    ensures Sorted(Touch(list, key, now)) && Distinct(Touch(list, key, now))
    ensures forall x :: x in Touch(list, key, now) <==> x == Element(key, now) || (x in list && x.key != key)
  {
    DropStep(list, key);
    var dropped := Drop(list, key);
    forall i | 0 <= i < |dropped| ensures dropped[i].inserted <= now && dropped[i].key != key {
      assert dropped[i] in dropped;
    }
  }

  /** What one call does to a well-formed queue, element by element. */
  lemma FilterStep<K>(list: seq<Element<K>>, ttl: nat, e: Event<K>)
    requires Sorted(list) && Distinct(list)
    requires (e.Insert? || e.RawInsert?) ==> forall x :: x in list ==> x.inserted <= e.touchAt
    ensures Sorted(Apply(list, ttl, e)) && Distinct(Apply(list, ttl, e))
    ensures forall x :: x in Apply(list, ttl, e) <==>
                          || ((e.Insert? || e.RawInsert?) && x == Element(e.key, e.touchAt))
                          || (x in list && !e.Mentions(x.key) && (e.Purges() ==> x.inserted + ttl > e.purgeAt))
  {
    match e
    case Insert(k, p, t) =>
      UnexpiredStep(list, ttl, p);
      TouchStep(Unexpired(list, ttl, p), k, t);
    case RawInsert(k, t) => TouchStep(list, k, t);
    case RawRemove(k) => DropStep(list, k);
    case Purge(p) => UnexpiredStep(list, ttl, p);
  }

  lemma KeysTail<K>(list: seq<Element<K>>)
    requires Distinct(list) && list != []
    ensures Keys(list[1..]) == Keys(list) - {list[0].key}
  {
    assert list == [list[0]] + list[1..];
    assert forall e :: e in list[1..] ==> exists i :: 1 <= i < |list| && list[i] == e;
  }

  lemma PrefixKeys<K>(list: seq<Element<K>>, n: nat)
    requires Distinct(list) && n <= |list|
    ensures forall k :: k in KeySeq(list[..n]) <==> k in Keys(list) && k !in Keys(list[n..])
    ensures forall i, j :: 0 <= i < j < n ==> KeySeq(list[..n])[i] != KeySeq(list[..n])[j]
  {
    forall k ensures k in KeySeq(list[..n]) <==> k in Keys(list) && k !in Keys(list[n..]) {
      if k in KeySeq(list[..n]) {
        var i :| 0 <= i < n && list[i].key == k;
        assert list[i] in list;
      }
      if k in Keys(list) && k !in Keys(list[n..]) {
        assert list == list[..n] + list[n..];
        assert forall e :: e in list ==> e in list[..n] || e in list[n..];
        var i :| 0 <= i < n && list[i].key == k;
        assert KeySeq(list[..n])[i] == k;
      }
    }
  }

  lemma KeyStep<K>(list: seq<Element<K>>, ttl: nat, e: Event<K>, k: K)
    requires Sorted(list) && Distinct(list)
    requires (e.Insert? || e.RawInsert?) ==> forall x :: x in list ==> x.inserted <= e.touchAt
    ensures e.Touches(k) ==> k in Keys(Apply(list, ttl, e))
    ensures e.Mentions(k) && !e.Touches(k) ==> k !in Keys(Apply(list, ttl, e))
    ensures !e.Mentions(k) ==>
              (k in Keys(Apply(list, ttl, e)) <==>
               exists x :: x in list && x.key == k && (e.Purges() ==> x.inserted + ttl > e.purgeAt))
  {
    FilterStep(list, ttl, e);
    if e.Touches(k) {
      assert Element(k, e.touchAt) in Apply(list, ttl, e);
    }
  }

  lemma PresentStep<K>(h: History<K>, ttl: nat, k: K)
    requires h != []
    ensures var (n, prefix) := (|h| - 1, h[..|h| - 1]);
            && (h[n].Touches(k) ==> Present(h, ttl, k))
            && (h[n].Mentions(k) && !h[n].Touches(k) ==> !Present(h, ttl, k))
            && (!h[n].Mentions(k) ==>
                  (Present(h, ttl, k) <==>
                   Present(prefix, ttl, k) &&
                   (h[n].Purges() ==> TouchTime(prefix, k) + ttl > h[n].purgeAt)))
  {
    var (n, prefix) := (|h| - 1, h[..|h| - 1]);
    assert forall j :: 0 <= j < n ==> prefix[j] == h[j];
    if !h[n].Mentions(k) && LastTouch(prefix, k) >= 0 {
      var i := LastTouch(prefix, k);
      assert LastTouch(h, k) == i;
      assert OutlivesPurges(prefix, ttl, i)
             <==> forall j :: i < j < n && h[j].Purges() ==> h[i].touchAt + ttl > h[j].purgeAt;
    }
  }

  /** Refinement of the plain history: once purged at `now`, membership only depends on the last
      call that mentioned the key, however many purges ran before. */
  lemma PurgedMembership<K(!new)>(h: History<K>, ttl: nat, now: nat)
    requires Monotone(h) && Clock(h) <= now
    ensures forall k :: k in Keys(Unexpired(Run(h, ttl), ttl, now)) <==> FreshAt(h, ttl, k, now)
  {
    RunCharacterized(h, ttl);
    var list := Run(h, ttl);
    KeepElements(list, (e: Element<K>) => e.inserted + ttl > now);
    forall k ensures k in Keys(Unexpired(list, ttl, now)) <==> FreshAt(h, ttl, k, now) {
      var i := LastTouch(h, k);
      if FreshAt(h, ttl, k, now) {
        forall j | i < j < |h| && h[j].Purges() ensures h[i].touchAt + ttl > h[j].purgeAt {
          PurgeWithinClock(h, j);
        }
        assert Present(h, ttl, k);
        var x :| x in list && x.key == k;
        assert x in Unexpired(list, ttl, now);
      }
      if k in Keys(Unexpired(list, ttl, now)) {
        var x :| x in Unexpired(list, ttl, now) && x.key == k;
        assert x in list && k in Keys(list);
      }
    }
  }

  lemma {:induction false} PurgeWithinClock<K>(h: History<K>, j: nat)
    requires Monotone(h) && j < |h| && h[j].Purges()
    ensures h[j].purgeAt <= Clock(h)
  {
    if j < |h| - 1 {
      PurgeWithinClock(h[..|h| - 1], j);
    }
  }

  lemma RunStep<K>(h: History<K>, ttl: nat, e: Event<K>)
    requires Monotone(h) && Clock(h) <= e.First(Clock(h)) <= e.Last(Clock(h))
    ensures Monotone(h + [e]) && Run(h + [e], ttl) == Apply(Run(h, ttl), ttl, e)
    ensures Clock(h + [e]) == e.Last(Clock(h))
  {
    assert (h + [e])[..|h|] == h;
  }

  /** What an insertion starts from after its purge, and what it leads to. */
  lemma InsertStep<K(!new)>(h: History<K>, ttl: nat, key: K, purgeAt: nat, touchAt: nat)
    requires Monotone(h) && Clock(h) <= purgeAt <= touchAt
    ensures var purged := Unexpired(Run(h, ttl), ttl, purgeAt);
            && Sorted(purged) && Distinct(purged) && (forall x :: x in purged ==> x.inserted <= touchAt)
            && (key in Keys(purged) <==> FreshAt(h, ttl, key, purgeAt))
    ensures var h' := h + [Event.Insert(key, purgeAt, touchAt)];
            && Monotone(h') && Run(h', ttl) == Touch(Unexpired(Run(h, ttl), ttl, purgeAt), key, touchAt)
            && Sorted(Run(h', ttl)) && Distinct(Run(h', ttl))
  {
    RunCharacterized(h, ttl);
    PurgedMembership(h, ttl, purgeAt);
    UnexpiredStep(Run(h, ttl), ttl, purgeAt);
    RunStep(h, ttl, Event.Insert(key, purgeAt, touchAt));
    TouchStep(Unexpired(Run(h, ttl), ttl, purgeAt), key, touchAt);
  }

  class LRUTimeCache<Key(!new, ==)> {
    var members: set<Key>
    var list: seq<Element<Key>>
    const ttl: nat
    ghost var history: History<Key>

    ghost predicate Valid()
      reads this
    {
      && Monotone(history)
      && list == Run(history, ttl)
      && members == Keys(list)
      && Sorted(list) && Distinct(list)
    }

    constructor (ttl: nat)
      ensures Valid() && history == [] && this.ttl == ttl && list == []
    {
      this.ttl := ttl;
      members, list, history := {}, [], [];
    }

    /** `list.iter().position(..)` */
    method Position(key: Key) returns (p: nat)
      requires key in Keys(list)
      ensures p < |list| && list[p].key == key && forall i :: 0 <= i < p ==> list[i].key != key
    {
      p := 0;
      ghost var there :| 0 <= there < |list| && list[there].key == key;
      while list[p].key != key
        invariant p <= there && forall i :: 0 <= i < p ==> list[i].key != key
        decreases there - p
      {
        p := p + 1;
      }
    }

    /** The part `raw_insert` and `insert` share: note the key, then append or move it. */
    method TouchKey(key: Key, now: nat) returns (isNew: bool)
      requires members == Keys(list) && Sorted(list) && Distinct(list)
      requires forall x :: x in list ==> x.inserted <= now
      modifies this`members, this`list
      ensures isNew <==> key !in old(Keys(list))
      ensures list == Touch(old(list), key, now) && members == Keys(list)
    {
      isNew := key !in members;
      members := members + {key};
      if isNew {
        DropAbsent(list, key);
        list := list + [Element(key, now)];
      } else {
        var p := Position(key);
        DropAtPosition(list, key, p);
        var element := list[p];
        list := list[..p] + list[p + 1..];
        list := list + [element.(inserted := now)];
      }
      KeepElements(old(list), (e: Element<Key>) => e.key != key);
      assert Element(key, now) in list;
      assert forall x :: x in list <==> x in Drop(old(list), key) || x == Element(key, now);
      assert members == Keys(list);
    }

    /** The pop loop of `update` and of `remove_expired`. */
    method PopExpired(now: nat) returns (removed: seq<Key>)
      requires members == Keys(list) && Sorted(list) && Distinct(list)
      modifies this`members, this`list
      ensures list == Unexpired(old(list), ttl, now) && members == Keys(list)
      ensures exists n :: 0 <= n <= |old(list)| && list == old(list)[n..] && removed == KeySeq(old(list)[..n])
      ensures forall k :: k in removed <==> k in old(members) && k !in members
      ensures forall i, j :: 0 <= i < j < |removed| ==> removed[i] != removed[j]
    {
      removed := [];
      ghost var n := 0;
      ghost var start := list;
      while list != []
        invariant 0 <= n <= |start| && list == start[n..]
        invariant removed == KeySeq(start[..n])
        invariant members == Keys(list)
        invariant Unexpired(list, ttl, now) == Unexpired(start, ttl, now)
        decreases |list|
      {
        var element := list[0];
        if element.inserted + ttl > now {
          UnexpiredFront(list, ttl, now);
          break;
        }
        KeysTail(list);
        list := list[1..];
        members := members - {element.key};
        removed := removed + [element.key];
        assert start[..n + 1] == start[..n] + [element];
        n := n + 1;
      }
      PrefixKeys(start, n);
    }

    method RawInsert(key: Key, now: nat) returns (isNew: bool)
      requires Valid() && Clock(history) <= now
      modifies this
      ensures Valid() && history == old(history) + [Event.RawInsert(key, now)]
      ensures isNew <==> !Present(old(history), ttl, key)
    {
      RunCharacterized(history, ttl);
      isNew := TouchKey(key, now);
      RunStep(history, ttl, Event.RawInsert(key, now));
      history := history + [Event.RawInsert(key, now)];
      RunCharacterized(history, ttl);
    }

    /** Removes the key from the set and from its position in the queue. */
    method RemoveKey(key: Key) returns (existed: bool)
      requires members == Keys(list) && Sorted(list) && Distinct(list)
      modifies this`members, this`list
      ensures existed <==> key in old(Keys(list))
      ensures list == Drop(old(list), key) && members == Keys(list)
    {
      existed := key in members;
      DropStep(list, key);
      if existed {
        var p := Position(key);
        members := members - {key};
        DropAtPosition(list, key, p);
        list := list[..p] + list[p + 1..];
      } else {
        DropAbsent(list, key);
      }
    }

    method RawRemove(key: Key) returns (existed: bool)
      requires Valid()
      modifies this
      ensures Valid() && history == old(history) + [Event.RawRemove(key)]
      ensures existed <==> Present(old(history), ttl, key)
    {
      RunCharacterized(history, ttl);
      existed := RemoveKey(key);
      RunStep(history, ttl, Event.RawRemove(key));
      history := history + [Event.RawRemove(key)];
      RunCharacterized(history, ttl);
    }

    /** Returns exactly the keys that were present and have expired, in order of insertion. */
    method RemoveExpired(now: nat) returns (removed: seq<Key>)
      requires Valid() && Clock(history) <= now
      modifies this
      ensures Valid() && history == old(history) + [Event.Purge(now)]
      ensures forall k :: k in removed <==> Present(old(history), ttl, k) && !FreshAt(old(history), ttl, k, now)
      ensures forall i, j :: 0 <= i < j < |removed| ==>
                removed[i] != removed[j] && TouchTime(old(history), removed[i]) <= TouchTime(old(history), removed[j])
    {
      RunCharacterized(history, ttl);
      PurgedMembership(history, ttl, now);
      removed := PopExpired(now);
      ghost var h, was := history, old(list);
      forall i, j | 0 <= i < j < |removed|
        ensures TouchTime(h, removed[i]) <= TouchTime(h, removed[j])
      {
        assert was[i] in was && was[j] in was;
      }
      RunStep(history, ttl, Event.Purge(now));
      history := history + [Event.Purge(now)];
      RunCharacterized(history, ttl);
    }

    method Update(now: nat)
      requires Valid() && Clock(history) <= now
      modifies this
      ensures Valid() && history == old(history) + [Event.Purge(now)]
      ensures forall k :: k in members <==> FreshAt(old(history), ttl, k, now)
    {
      PurgedMembership(history, ttl, now);
      var _ := PopExpired(now);
      RunStep(history, ttl, Event.Purge(now));
      history := history + [Event.Purge(now)];
      RunCharacterized(history, ttl);
    }

    /** Purges at `purgeAt`, then inserts at the later reading `touchAt`. */
    method Insert(key: Key, purgeAt: nat, touchAt: nat) returns (isNew: bool)
      requires Valid() && Clock(history) <= purgeAt <= touchAt
      modifies this
      ensures Valid() && history == old(history) + [Event.Insert(key, purgeAt, touchAt)]
      ensures isNew <==> !FreshAt(old(history), ttl, key, purgeAt)
    {
      InsertStep(history, ttl, key, purgeAt, touchAt);
      var _ := PopExpired(purgeAt);
      isNew := TouchKey(key, touchAt);
      history := history + [Event.Insert(key, purgeAt, touchAt)];
    }

    method Contains(key: Key, now: nat) returns (present: bool)
      requires Valid() && Clock(history) <= now
      modifies this
      ensures Valid() && history == old(history) + [Event.Purge(now)]
      ensures present <==> FreshAt(old(history), ttl, key, now)
    {
      Update(now);
      present := key in members;
    }
  }
}
