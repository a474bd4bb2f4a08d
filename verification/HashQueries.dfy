/**
 What peers ask a mempool for: pages of operation hashes, and operations by hash across the
 mempools of all entrypoints.
 */
module HashQueries {
  import opened Basics
  import opened Hex
  import opened SenderMempools
  import opened SenderDirectory

  const MAX_OPS_PER_REQUEST: nat := 4096

  /** A hash as text: the prefix and 64 lower-case digits. */
  ghost predicate IsHash(h: Hash) {
    && |h| == 66 && h[..2] == "0x" && AllDigits(h[2..])
    && forall i :: 0 <= i < 64 ==> !IsUpper(h[2..][i])
  }

  /** A hash on the wire: `bytes.fromhex(hash[2:])`, and back. */
  function ToWire(h: Hash): seq<byte>
    requires |h| >= 2 && FromHex(h[2..]).Some?
  {
    FromHex(h[2..]).value
  }

  function FromWire(b: seq<byte>): Hash { "0x" + BytesToHex(b) }

  /** A peer that asks for a hash it was told gets the hash it stands for. */
  lemma WireRoundTrip(h: Hash)
    requires IsHash(h)
    ensures FromHex(h[2..]).Some? && FromWire(ToWire(h)) == h
  {
    BytesOfFromHex(h[2..]);
    assert h == "0x" + h[2..];
  }

  // All entries of a mempool, in the order in which the dictionaries list them

  ghost function Entries(d: Directory): seq<Entry> {
    if d == [] then [] else d[0].pool + Entries(d[1..])
  }

  ghost function HashIn(e: Entry, mempoolId: string): seq<Hash> {
    if mempoolId in e.op.mempoolIds then [e.hash] else []
  }

  ghost function HashesIn(entries: seq<Entry>, mempoolId: string): seq<Hash> {
    if entries == [] then [] else HashIn(entries[0], mempoolId) + HashesIn(entries[1..], mempoolId)
  }

  lemma {:induction false} HashesConcat(a: seq<Entry>, b: seq<Entry>, mempoolId: string)
    ensures HashesIn(a + b, mempoolId) == HashesIn(a, mempoolId) + HashesIn(b, mempoolId)
  {
    if a == [] {
      assert a + b == b;
    } else {
      HashesConcat(a[1..], b, mempoolId);
      assert (a + b)[0] == a[0] && (a + b)[1..] == a[1..] + b;
      Associates(HashIn(a[0], mempoolId), HashesIn(a[1..], mempoolId), HashesIn(b, mempoolId));
    }
  }

  lemma {:induction false} EntriesUpTo(d: Directory, i: nat)
    requires i < |d|
    ensures Entries(d[..i + 1]) == Entries(d[..i]) + d[i].pool
  {
    if i == 0 {
      assert d[..1] == [d[0]] && d[..0] == [] && Entries([d[0]]) == d[0].pool + Entries([]);
    } else {
      EntriesUpTo(d[1..], i - 1);
      assert d[..i + 1][1..] == d[1..][..i] && d[..i][1..] == d[1..][..i - 1];
    }
  }

  // Pages

  function Min(a: nat, b: nat): nat { if a < b then a else b }

  ghost function Page<T>(list: seq<T>, offset: nat): seq<T> {
    var start := offset * MAX_OPS_PER_REQUEST;
    if start >= |list| then [] else list[start..Min(start + MAX_OPS_PER_REQUEST, |list|)]
  }

  /** The cursor counts the full pages behind a page: those pages are full and the next is not. */
  ghost predicate IsCursor(length: nat, offset: nat, cursor: nat) {
    forall k :: k > offset ==> (IsFullPage(length, k) <==> k <= offset + cursor)
  }

  ghost predicate IsFullPage(length: nat, k: nat) { (k + 1) * MAX_OPS_PER_REQUEST <= length }

  function NextCursor(length: nat, offset: nat): nat {
    var end := (offset + 1) * MAX_OPS_PER_REQUEST;
    if offset * MAX_OPS_PER_REQUEST >= length || end > length then 0 else (length - end) / MAX_OPS_PER_REQUEST
  }

  lemma NextCursorIs(length: nat, offset: nat)
    ensures IsCursor(length, offset, NextCursor(length, offset))
  {
    forall k | k > offset
      ensures IsFullPage(length, k) <==> k <= offset + NextCursor(length, offset)
    {
      assert (k + 1) * MAX_OPS_PER_REQUEST == (offset + 1) * MAX_OPS_PER_REQUEST + (k - offset) * MAX_OPS_PER_REQUEST;
    }
  }

  method GetUserOperationsHashesWithMempoolId(d: Directory, mempoolId: string, offset: nat)
    returns (page: seq<Hash>, nextCursor: nat)
    ensures page == Page(HashesIn(Entries(d), mempoolId), offset)
    ensures IsCursor(|HashesIn(Entries(d), mempoolId)|, offset, nextCursor)
  {
    var hashes := [];
    for i := 0 to |d|
      invariant hashes == HashesIn(Entries(d[..i]), mempoolId)
    {
      EntriesUpTo(d, i);
      var pool := d[i].pool;
      assert Entries(d[..i]) + pool[..0] == Entries(d[..i]);
      for j := 0 to |pool|
        invariant hashes == HashesIn(Entries(d[..i]) + pool[..j], mempoolId)
      {
        var e := pool[j];
        assert Entries(d[..i]) + pool[..j + 1] == (Entries(d[..i]) + pool[..j]) + [e];
        HashesConcat(Entries(d[..i]) + pool[..j], [e], mempoolId);
        assert HashesIn([e], mempoolId)
               == (if mempoolId in e.op.mempoolIds then [e.hash] else []) + HashesIn([], mempoolId);
        if mempoolId in e.op.mempoolIds {
          hashes := hashes + [e.hash];
        }
      }
      assert pool[..|pool|] == pool;
    }
    assert d[..|d|] == d;
    NextCursorIs(|hashes|, offset);
    var start := offset * MAX_OPS_PER_REQUEST;
    var end := start + MAX_OPS_PER_REQUEST;
    if |hashes| == 0 || start >= |hashes| {
      return [], 0;
    }
    nextCursor := 0;
    if end > |hashes| {
      end := |hashes|;
    } else {
      nextCursor := (|hashes| - end) / MAX_OPS_PER_REQUEST;
    }
    return hashes[start..end], nextCursor;
  }

  ghost function Pages<T>(list: seq<T>, n: nat): seq<T> {
    if n == 0 then [] else Pages(list, n - 1) + Page(list, n - 1)
  }

  lemma PageExtends<T>(list: seq<T>, offset: nat)
    ensures var (start, end) := (offset * MAX_OPS_PER_REQUEST, (offset + 1) * MAX_OPS_PER_REQUEST);
            list[..Min(start, |list|)] + Page(list, offset) == list[..Min(end, |list|)]
    ensures |Page(list, offset)| <= MAX_OPS_PER_REQUEST
  {
    var start := offset * MAX_OPS_PER_REQUEST;
    assert (offset + 1) * MAX_OPS_PER_REQUEST == start + MAX_OPS_PER_REQUEST;
    if start < |list| {
      var end := Min(start + MAX_OPS_PER_REQUEST, |list|);
      assert list[..start] + list[start..end] == list[..end];
    }
  }

  /** The first pages, put together, are the front of the list: no gap, no overlap, and everything
      once there are enough of them. A page has at most 4096 entries. */
  lemma {:induction false} PagesAreTheList<T>(list: seq<T>, n: nat)
    ensures Pages(list, n) == list[..Min(n * 4096, |list|)]
    ensures |Page(list, n)| <= 4096
    ensures n * 4096 >= |list| ==> Pages(list, n) == list
  {
    PageExtends(list, n);
    if n > 0 {
      PagesAreTheList(list, n - 1);
      PageExtends(list, n - 1);
    }
  }

  /** What a peer would see that asks for the next page as long as the cursor is positive. */
  ghost function Followed<T>(list: seq<T>, offset: nat): seq<T>
    decreases NextCursor(|list|, offset)
  {
    var cursor := NextCursor(|list|, offset);
    if cursor == 0 then Page(list, offset)
    else
      CursorCountsDown(|list|, offset);
      Page(list, offset) + Followed(list, offset + 1)
  }

  lemma CursorCountsDown(length: nat, offset: nat)
    requires NextCursor(length, offset) > 0
    ensures NextCursor(length, offset + 1) == NextCursor(length, offset) - 1
  {
    var end := (offset + 1) * MAX_OPS_PER_REQUEST;
    assert (offset + 2) * MAX_OPS_PER_REQUEST == end + MAX_OPS_PER_REQUEST;
  }

  lemma {:induction false} FollowedIs<T>(list: seq<T>, offset: nat)
    requires offset * MAX_OPS_PER_REQUEST <= |list|
    ensures var start := offset * MAX_OPS_PER_REQUEST;
            Followed(list, offset) ==
              if start + MAX_OPS_PER_REQUEST > |list| then list[start..]
              else list[start..|list| - |list| % MAX_OPS_PER_REQUEST]
    decreases NextCursor(|list|, offset)
  {
    var start := offset * MAX_OPS_PER_REQUEST;
    var end := start + MAX_OPS_PER_REQUEST;
    assert (offset + 1) * MAX_OPS_PER_REQUEST == end;
    if end <= |list| {
      assert |list| - end
             == (|list| - end) / MAX_OPS_PER_REQUEST * MAX_OPS_PER_REQUEST + (|list| - end) % MAX_OPS_PER_REQUEST;
      SameRemainder(|list|, offset + 1);
      if NextCursor(|list|, offset) > 0 {
        CursorCountsDown(|list|, offset);
        FollowedIs(list, offset + 1);
        assert (offset + 2) * MAX_OPS_PER_REQUEST == end + MAX_OPS_PER_REQUEST;
        assert list[start..end] + list[end..|list| - |list| % MAX_OPS_PER_REQUEST]
               == list[start..|list| - |list| % MAX_OPS_PER_REQUEST];
      }
    }
  }

  lemma {:induction false} SameRemainder(n: nat, k: nat)
    requires k * MAX_OPS_PER_REQUEST <= n
    ensures (n - k * MAX_OPS_PER_REQUEST) % MAX_OPS_PER_REQUEST == n % MAX_OPS_PER_REQUEST
  {
    if k > 0 {
      SameRemainder(n, k - 1);
      assert k * MAX_OPS_PER_REQUEST == (k - 1) * MAX_OPS_PER_REQUEST + MAX_OPS_PER_REQUEST;
      var m := n - (k - 1) * MAX_OPS_PER_REQUEST;
      assert (m - MAX_OPS_PER_REQUEST) % MAX_OPS_PER_REQUEST == m % MAX_OPS_PER_REQUEST;
    }
  }

  /** Because the cursor only counts full pages, following it misses a last partial page that has a
      full one before it: everything is seen exactly when the list is shorter than a page or fills
      its pages. */
  lemma FollowingMissesPartialPage<T>(list: seq<T>)
    ensures Followed(list, 0) == list <==> |list| < 4096 || |list| % 4096 == 0
  {
    FollowedIs(list, 0);
    if |list| >= MAX_OPS_PER_REQUEST {
      assert |Followed(list, 0)| == |list| - |list| % MAX_OPS_PER_REQUEST;
    }
  }

  /** A peer that has been answered the first page, and asks for no other, has the whole list exactly
      when that fits on the page. */
  lemma FirstPageIsAll<T>(list: seq<T>)
    ensures Page(list, 0) == list <==> |list| <= 4096
  {
    PageExtends(list, 0);
    assert list[..0] + Page(list, 0) == Page(list, 0);
  }

  // What is on the pages

  lemma {:induction false} EntryIn(d: Directory, e: Entry)
    ensures e in Entries(d) <==> exists i :: 0 <= i < |d| && e in d[i].pool
  {
    if d != [] {
      EntryIn(d[1..], e);
      if i :| 0 <= i < |d[1..]| && e in d[1..][i].pool {
        assert e in d[i + 1].pool;
      }
      if i :| 0 <= i < |d| && e in d[i].pool {
        assert i > 0 ==> e in d[1..][i - 1].pool;
      }
    }
  }

  lemma {:induction false} HashIs(entries: seq<Entry>, mempoolId: string, h: Hash)
    ensures h in HashesIn(entries, mempoolId) <==>
              exists e :: e in entries && e.hash == h && mempoolId in e.op.mempoolIds
  {
    if entries != [] {
      HashIs(entries[1..], mempoolId, h);
      assert entries == [entries[0]] + entries[1..];
    }
  }

  lemma OnSomePage<T>(list: seq<T>, x: T)
    ensures x in list <==> exists offset: nat :: x in Page(list, offset)
  {
    if k :| 0 <= k < |list| && list[k] == x {
      var offset := k / MAX_OPS_PER_REQUEST;
      var start := offset * MAX_OPS_PER_REQUEST;
      assert start <= k < start + MAX_OPS_PER_REQUEST;
      assert Page(list, offset)[k - start] == x;
    }
  }

  /** A hash is on some page if and only if an operation pooled under it lists the mempool. */
  lemma HashesOnPages(d: Directory, mempoolId: string, h: Hash)
    ensures (exists offset: nat :: h in Page(HashesIn(Entries(d), mempoolId), offset)) <==>
              exists i, j :: 0 <= i < |d| && 0 <= j < |d[i].pool| && d[i].pool[j].hash == h
                             && mempoolId in d[i].pool[j].op.mempoolIds
  {
    OnSomePage(HashesIn(Entries(d), mempoolId), h);
    HashIs(Entries(d), mempoolId, h);
    if e :| e in Entries(d) && e.hash == h && mempoolId in e.op.mempoolIds {
      EntryIn(d, e);
      var i :| 0 <= i < |d| && e in d[i].pool;
      var j :| 0 <= j < |d[i].pool| && d[i].pool[j] == e;
    }
    if i, j :| 0 <= i < |d| && 0 <= j < |d[i].pool| && d[i].pool[j].hash == h
               && mempoolId in d[i].pool[j].op.mempoolIds {
      EntryIn(d, d[i].pool[j]);
    }
  }

  // By hash

  /** How often a hash occurs. */
  ghost function Occurrences(entries: seq<Entry>, h: Hash): nat {
    if entries == [] then 0 else (if entries[0].hash == h then 1 else 0) + Occurrences(entries[1..], h)
  }

  lemma {:induction false} OccurrencesConcat(a: seq<Entry>, b: seq<Entry>, h: Hash)
    ensures Occurrences(a + b, h) == Occurrences(a, h) + Occurrences(b, h)
  {
    if a == [] {
      assert a + b == b;
    } else {
      OccurrencesConcat(a[1..], b, h);
      assert (a + b)[1..] == a[1..] + b;
    }
  }

  ghost predicate Holds(pool: Pool, h: Hash) { exists i :: 0 <= i < |pool| && pool[i].hash == h }

  /** A pool has at most one entry of a hash, since it has at most one of the nonce. */
  lemma {:induction false} PoolHashOnce(ident: Identity, a: Address, pool: Pool, h: Hash)
    requires PoolOk(ident, a, pool)
    ensures Occurrences(pool, h) == if Holds(pool, h) then 1 else 0
    ensures Holds(pool, h) ==> Account(a) == ident(h).0
  {
    if pool != [] {
      PoolHashOnce(ident, a, pool[1..], h);
      assert Holds(pool[1..], h) ==> Holds(pool, h) by {
        if i :| 0 <= i < |pool[1..]| && pool[1..][i].hash == h {
          assert pool[i + 1].hash == h;
        }
      }
      if i :| 0 <= i < |pool| && pool[i].hash == h {
        assert i > 0 ==> pool[1..][i - 1].hash == h;
        assert ident(h).1 == pool[i].op.nonce;
      }
    }
  }

  /** Two spellings of one account are keys whose pools both hold the hash. */
  ghost predicate BothHold(d: Directory, i: nat, j: nat, h: Hash)
    requires i < |d| && j < |d|
  {
    && d[i].address != d[j].address && Account(d[i].address) == Account(d[j].address)
    && Holds(d[i].pool, h) && Holds(d[j].pool, h)
  }

  ghost predicate HeldTwice(d: Directory, h: Hash) {
    exists i, j :: 0 <= i < j < |d| && BothHold(d, i, j, h)
  }

  lemma HeldTwiceShift(d: Directory, h: Hash)
    requires d != []
    ensures HeldTwice(d, h) <==> HeldTwice(d[1..], h) || exists j :: 0 < j < |d| && BothHold(d, 0, j, h)
  {
    var rest := d[1..];
    if i, j :| 0 <= i < j < |rest| && BothHold(rest, i, j, h) {
      assert BothHold(d, i + 1, j + 1, h);
    }
    if i, j :| 0 <= i < j < |d| && BothHold(d, i, j, h) {
      if i > 0 {
        assert BothHold(rest, i - 1, j - 1, h);
      }
    }
  }

  ghost predicate HeldIn(d: Directory, h: Hash) { exists j :: 0 <= j < |d| && Holds(d[j].pool, h) }

  lemma HoldsSomewhere(d: Directory, h: Hash)
    requires d != []
    ensures HeldIn(d, h) <==> Holds(d[0].pool, h) || HeldIn(d[1..], h)
  {
    if j :| 0 <= j < |d| && Holds(d[j].pool, h) {
      assert j > 0 ==> Holds(d[1..][j - 1].pool, h);
    }
    if j :| 0 <= j < |d[1..]| && Holds(d[1..][j].pool, h) {
      assert Holds(d[j + 1].pool, h);
    }
  }

  lemma SharedAccount(ident: Identity, d: Directory, i: nat, j: nat, h: Hash)
    requires DirectoryOk(ident, d) && i < j < |d| && Holds(d[i].pool, h) && Holds(d[j].pool, h)
    ensures BothHold(d, i, j, h)
  {
    PoolHashOnce(ident, d[i].address, d[i].pool, h);
    PoolHashOnce(ident, d[j].address, d[j].pool, h);
  }

  /** In a reachable mempool a hash is pooled more than once exactly when two spellings of one
      account both have it. */
  lemma {:induction false} PooledOnce(ident: Identity, d: Directory, h: Hash)
    requires DirectoryOk(ident, d)
    ensures Occurrences(Entries(d), h) <= 1 <==> !HeldTwice(d, h)
  {
    if d != [] {
      var rest := d[1..];
      PooledOnce(ident, rest, h);
      PooledSomewhere(ident, rest, h);
      OccurrencesConcat(d[0].pool, Entries(rest), h);
      PoolHashOnce(ident, d[0].address, d[0].pool, h);
      HeldTwiceShift(d, h);
      HeldWithFirst(ident, d, h);
    }
  }

  lemma {:induction false} PooledSomewhere(ident: Identity, d: Directory, h: Hash)
    requires DirectoryOk(ident, d)
    ensures Occurrences(Entries(d), h) > 0 <==> HeldIn(d, h)
  {
    if d != [] {
      PooledSomewhere(ident, d[1..], h);
      OccurrencesConcat(d[0].pool, Entries(d[1..]), h);
      PoolHashOnce(ident, d[0].address, d[0].pool, h);
      HoldsSomewhere(d, h);
    }
  }

  lemma HeldWithFirst(ident: Identity, d: Directory, h: Hash)
    requires DirectoryOk(ident, d) && d != []
    ensures (exists j :: 0 < j < |d| && BothHold(d, 0, j, h)) <==> Holds(d[0].pool, h) && HeldIn(d[1..], h)
  {
    var rest := d[1..];
    if Holds(d[0].pool, h) && HeldIn(rest, h) {
      var j :| 0 <= j < |rest| && Holds(rest[j].pool, h);
      SharedAccount(ident, d, 0, j + 1, h);
    }
    if j :| 0 < j < |d| && BothHold(d, 0, j, h) {
      assert Holds(rest[j - 1].pool, h);
    }
  }

  /** One mempool: every entry whose hash was asked for, in order; the hashes it found and the ones
      that remain divide up the request. */
  method GetUserOperationsByHashes(d: Directory, requested: set<Hash>) returns (found: seq<Entry>, remaining: set<Hash>)
    ensures forall h :: Occurrences(found, h) == if h in requested then Occurrences(Entries(d), h) else 0
    ensures forall e :: e in found ==> e in Entries(d)
    ensures forall h :: h in remaining <==> h in requested && Occurrences(Entries(d), h) == 0
  {
    found := [];
    var hashes := {};
    for i := 0 to |d|
      invariant FoundIn(Entries(d[..i]), requested, found, hashes)
    {
      EntriesUpTo(d, i);
      var pool := d[i].pool;
      assert Entries(d[..i]) + pool[..0] == Entries(d[..i]);
      for j := 0 to |pool|
        invariant FoundIn(Entries(d[..i]) + pool[..j], requested, found, hashes)
      {
        var e := pool[j];
        assert Entries(d[..i]) + pool[..j + 1] == (Entries(d[..i]) + pool[..j]) + [e];
        FoundStep(Entries(d[..i]) + pool[..j], requested, found, hashes, e);
        if e.hash in requested {
          found := found + [e];
          hashes := hashes + {e.hash};
        }
      }
      assert pool[..|pool|] == pool;
    }
    assert d[..|d|] == d;
    remaining := requested - hashes;
  }

  ghost predicate FoundIn(entries: seq<Entry>, requested: set<Hash>, found: seq<Entry>, hashes: set<Hash>) {
    && (forall h :: Occurrences(found, h) == if h in requested then Occurrences(entries, h) else 0)
    && (forall e :: e in found ==> e in entries)
    && (forall h :: h in hashes <==> h in requested && Occurrences(entries, h) > 0)
  }

  lemma FoundStep(entries: seq<Entry>, requested: set<Hash>, found: seq<Entry>, hashes: set<Hash>, e: Entry)
    requires FoundIn(entries, requested, found, hashes)
    ensures var wanted := e.hash in requested;
            FoundIn(entries + [e], requested,
                    if wanted then found + [e] else found, if wanted then hashes + {e.hash} else hashes)
  {
    forall h
      ensures Occurrences(entries + [e], h) == Occurrences(entries, h) + if e.hash == h then 1 else 0
      ensures Occurrences(found + [e], h) == Occurrences(found, h) + if e.hash == h then 1 else 0
    {
      OccurrencesConcat(entries, [e], h);
      OccurrencesConcat(found, [e], h);
      assert Occurrences([e], h) == (if e.hash == h then 1 else 0) + Occurrences([], h);
    }
  }

  ghost predicate PooledIn(d: Directory, h: Hash) { Occurrences(Entries(d), h) > 0 }

  /** The first mempool that has the hash. */
  ghost predicate FirstWith(mempools: seq<Directory>, h: Hash, i: int) {
    0 <= i < |mempools| && PooledIn(mempools[i], h) && forall k :: 0 <= k < i ==> !PooledIn(mempools[k], h)
  }

  /** How often a hash is pooled in the first mempool that has it. */
  ghost function FirstCount(mempools: seq<Directory>, h: Hash): nat {
    if mempools == [] then 0
    else
      var n := |mempools| - 1;
      if FirstCount(mempools[..n], h) > 0 then FirstCount(mempools[..n], h) else Occurrences(Entries(mempools[n]), h)
  }

  lemma {:induction false} FirstCountPositive(mempools: seq<Directory>, h: Hash)
    ensures FirstCount(mempools, h) > 0 <==> exists i :: 0 <= i < |mempools| && PooledIn(mempools[i], h)
  {
    if mempools != [] {
      var (n, front) := (|mempools| - 1, mempools[..|mempools| - 1]);
      FirstCountPositive(front, h);
      if i :| 0 <= i < |mempools| && PooledIn(mempools[i], h) {
        assert i < n ==> PooledIn(front[i], h);
      }
      if i :| 0 <= i < |front| && PooledIn(front[i], h) {
        assert PooledIn(mempools[i], h);
      }
    }
  }

  lemma {:induction false} FirstCountAt(mempools: seq<Directory>, h: Hash, i: int)
    requires FirstWith(mempools, h, i)
    ensures FirstCount(mempools, h) == Occurrences(Entries(mempools[i]), h)
  {
    var (n, front) := (|mempools| - 1, mempools[..|mempools| - 1]);
    if i < n {
      assert front[i] == mempools[i] && forall k :: 0 <= k < i ==> front[k] == mempools[k];
      FirstCountAt(front, h, i);
    } else {
      FirstCountPositive(front, h);
    }
  }

  /** All entrypoints: a requested hash is answered from the first mempool that has it, as often as
      it is pooled there; which is once exactly when not two spellings of one account both have it.
      Nothing else is returned. */
  method PooledUserOpsByHash(ghost ident: Identity, mempools: seq<Directory>, requested: seq<Hash>)
    returns (answer: seq<Entry>)
    requires forall i :: 0 <= i < |mempools| ==> DirectoryOk(ident, mempools[i])
    ensures forall h :: Occurrences(answer, h) > 0 <==>
                          h in requested && exists i :: 0 <= i < |mempools| && PooledIn(mempools[i], h)
    ensures forall h, i :: h in requested && FirstWith(mempools, h, i) ==>
                             && Occurrences(answer, h) == Occurrences(Entries(mempools[i]), h)
                             && (Occurrences(answer, h) == 1 <==> !HeldTwice(mempools[i], h))
    ensures forall e :: e in answer ==> exists i :: 0 <= i < |mempools| && e in Entries(mempools[i])
  {
    answer := CollectByHashes(mempools, requested);
    forall h ensures FirstCount(mempools, h) > 0 <==> exists i :: 0 <= i < |mempools| && PooledIn(mempools[i], h) {
      FirstCountPositive(mempools, h);
    }
    forall h, i | h in requested && FirstWith(mempools, h, i)
      ensures FirstCount(mempools, h) == Occurrences(Entries(mempools[i]), h)
      ensures FirstCount(mempools, h) == 1 <==> !HeldTwice(mempools[i], h)
    {
      FirstCountAt(mempools, h, i);
      PooledOnce(ident, mempools[i], h);
    }
  }

  method CollectByHashes(mempools: seq<Directory>, requested: seq<Hash>) returns (answer: seq<Entry>)
    ensures forall h :: Occurrences(answer, h) == if h in requested then FirstCount(mempools, h) else 0
    ensures forall e :: e in answer ==> exists i :: 0 <= i < |mempools| && e in Entries(mempools[i])
  {
    answer := [];
    var remaining := set h | h in requested;
    for i := 0 to |mempools|
      invariant forall h :: h in remaining <==> h in requested && FirstCount(mempools[..i], h) == 0
      invariant forall h :: Occurrences(answer, h) == if h in requested then FirstCount(mempools[..i], h) else 0
      invariant forall e :: e in answer ==> exists k :: 0 <= k < i && e in Entries(mempools[k])
    {
      ghost var before := answer;
      var found;
      found, remaining := GetUserOperationsByHashes(mempools[i], remaining);
      answer := answer + found;
      assert mempools[..i + 1][..i] == mempools[..i];
      forall h ensures Occurrences(answer, h) == Occurrences(before, h) + Occurrences(found, h) {
        OccurrencesConcat(before, found, h);
      }
    }
    assert mempools[..|mempools|] == mempools;
  }
}
