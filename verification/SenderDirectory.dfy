/**
 The dictionary from sender address to sender pool, in insertion order, as a value: look-up,
 update and deletion, and what they do to the multiset of pooled operations.
 */
module SenderDirectory {
  import opened Basics
  import opened SenderMempools

  datatype Sender = Sender(address: Address, pool: Pool)

  type Directory = seq<Sender>

  ghost predicate Has(d: Directory, a: Address) {
    exists i :: 0 <= i < |d| && d[i].address == a
  }

  ghost predicate IsIndex(d: Directory, a: Address, i: int) {
    0 <= i < |d| && d[i].address == a && forall j :: 0 <= j < i ==> d[j].address != a
  }

  lemma IndexExists(d: Directory, a: Address)
    requires Has(d, a)
    ensures exists i :: IsIndex(d, a, i)
  {
    var i := 0;
    while d[i].address != a
      invariant i < |d| && forall j :: 0 <= j < i ==> d[j].address != a
      decreases |d| - i
    {
      i := i + 1;
    }
    assert IsIndex(d, a, i);
  }

  /** The place of a sender in the directory. */
  ghost function Index(d: Directory, a: Address): (i: nat)
    requires Has(d, a)
    ensures IsIndex(d, a, i)
  {
    IndexExists(d, a);
    var i :| IsIndex(d, a, i);
    i
  }

  /** The sender's pool; a sender that is not in the directory has an empty one. */
  ghost function PoolFor(d: Directory, a: Address): Pool {
    if Has(d, a) then d[Index(d, a)].pool else []
  }

  /** Stores a pool, adding the sender at the end when it is new. */
  ghost function SetPool(d: Directory, a: Address, pool: Pool): Directory {
    if Has(d, a) then d[Index(d, a) := Sender(a, pool)] else d + [Sender(a, pool)]
  }

  ghost function Remove(d: Directory, a: Address): Directory {
    if Has(d, a) then d[..Index(d, a)] + d[Index(d, a) + 1..] else d
  }

  ghost function Addresses(d: Directory): seq<Address> {
    seq(|d|, i requires 0 <= i < |d| => d[i].address)
  }

  ghost predicate DistinctSenders(d: Directory) {
    forall i, j :: 0 <= i < j < |d| ==> d[i].address != d[j].address
  }

  ghost predicate DirectoryOk(ident: Identity, d: Directory) {
    DistinctSenders(d) && forall i :: 0 <= i < |d| ==> PoolOk(ident, d[i].address, d[i].pool)
  }

  /** Every pooled operation, with multiplicity. */
  ghost function Pooled(d: Directory): multiset<Operation> {
    if d == [] then multiset{} else multiset(Ops(d[0].pool)) + Pooled(d[1..])
  }

  lemma PoolForOk(ident: Identity, d: Directory, a: Address)
    requires DirectoryOk(ident, d)
    ensures PoolOk(ident, a, PoolFor(d, a))
  {
  }

  lemma SetPoolOk(ident: Identity, d: Directory, a: Address, pool: Pool)
    requires DirectoryOk(ident, d) && PoolOk(ident, a, pool)
    ensures DirectoryOk(ident, SetPool(d, a, pool))
  {
    if Has(d, a) {
      var i := Index(d, a);
      assert forall j :: 0 <= j < |d| ==> SetPool(d, a, pool)[j].address == d[j].address;
    }
  }

  /** What is left after a removal, position by position. */
  lemma Removed(d: Directory, a: Address)
    requires Has(d, a)
    ensures var (i, r) := (Index(d, a), Remove(d, a));
            && |r| == |d| - 1
            && (forall j :: 0 <= j < i ==> r[j] == d[j])
            && (forall j :: i <= j < |r| ==> r[j] == d[j + 1])
  {
  }

  lemma RemoveOk(ident: Identity, d: Directory, a: Address)
    requires DirectoryOk(ident, d)
    ensures DirectoryOk(ident, Remove(d, a))
    ensures !Has(Remove(d, a), a)
  {
    if Has(d, a) {
      Removed(d, a);
    }
  }

  /** Reading back after a store: the stored pool for that sender, the old one for any other. */
  lemma PoolForSet(d: Directory, a: Address, pool: Pool, b: Address)
    requires DistinctSenders(d)
    ensures PoolFor(SetPool(d, a, pool), b) == if a == b then pool else PoolFor(d, b)
    ensures Has(SetPool(d, a, pool), b) <==> a == b || Has(d, b)
  {
    var s := SetPool(d, a, pool);
    if Has(d, a) {
      assert forall j :: 0 <= j < |d| ==> s[j].address == d[j].address;
      assert s[Index(d, a)].address == a;
    } else {
      assert s[|d|].address == a;
      assert forall j :: 0 <= j < |d| ==> s[j] == d[j];
    }
    if Has(d, b) {
      assert s[Index(d, b)].address == b;
    }
  }

  /** The entry of a sender is the only one with its address. */
  lemma OnlyOne(d: Directory, b: Address, k: nat)
    requires DistinctSenders(d) && k < |d| && d[k].address == b
    ensures Has(d, b) && Index(d, b) == k && PoolFor(d, b) == d[k].pool
  {
  }

  lemma HasAt(d: Directory, b: Address, k: nat)
    requires k < |d| && d[k].address == b
    ensures Has(d, b)
  {
  }

  lemma HasRemoved(d: Directory, a: Address, b: Address)
    requires Has(d, a) && a != b
    ensures Has(Remove(d, a), b) <==> Has(d, b)
  {
    Removed(d, a);
    var (i, r) := (Index(d, a), Remove(d, a));
    if k :| 0 <= k < |d| && d[k].address == b {
      HasAt(r, b, if k > i then k - 1 else k);
    }
    if k :| 0 <= k < |r| && r[k].address == b {
      HasAt(d, b, if k < i then k else k + 1);
    }
  }

  lemma PoolForRemove(d: Directory, a: Address, b: Address)
    requires DistinctSenders(d) && a != b
    ensures PoolFor(Remove(d, a), b) == PoolFor(d, b) && (Has(Remove(d, a), b) <==> Has(d, b))
  {
    if Has(d, a) {
      HasRemoved(d, a, b);
      if Has(d, b) {
        Removed(d, a);
        var k := Index(Remove(d, a), b);
        OnlyOne(d, b, if k < Index(d, a) then k else k + 1);
      }
    }
  }

  lemma {:induction false} PooledSplit(d: Directory, i: nat)
    requires i < |d|
    ensures Pooled(d) == Pooled(d[..i]) + multiset(Ops(d[i].pool)) + Pooled(d[i + 1..])
  {
    if i > 0 {
      PooledSplit(d[1..], i - 1);
      assert d[1..][..i - 1] == d[..i][1..] && d[1..][i..] == d[i + 1..];
      var first := multiset(Ops(d[0].pool));
      assert Pooled(d) == first + Pooled(d[1..]) && Pooled(d[..i]) == first + Pooled(d[..i][1..]);
    }
  }

  lemma {:induction false} PooledConcat(a: Directory, b: Directory)
    ensures Pooled(a + b) == Pooled(a) + Pooled(b)
  {
    if a == [] {
      assert a + b == b;
    } else {
      var head := multiset(Ops(a[0].pool));
      calc {
        Pooled(a + b);
        { assert (a + b)[0] == a[0] && (a + b)[1..] == a[1..] + b; }
        head + Pooled(a[1..] + b);
        { PooledConcat(a[1..], b); }
        head + (Pooled(a[1..]) + Pooled(b));
        Pooled(a) + Pooled(b);
      }
    }
  }

  /** Storing a pool changes the pooled operations by exactly the difference of the two pools. */
  lemma PooledSet(d: Directory, a: Address, pool: Pool)
    requires DistinctSenders(d)
    ensures Pooled(SetPool(d, a, pool)) + multiset(Ops(PoolFor(d, a))) == Pooled(d) + multiset(Ops(pool))
  {
    if Has(d, a) {
      var (i, s) := (Index(d, a), SetPool(d, a, pool));
      PooledSplit(d, i);
      PooledSplit(s, i);
      assert s[..i] == d[..i] && s[i + 1..] == d[i + 1..];
    } else {
      var last := [Sender(a, pool)];
      PooledConcat(d, last);
      assert Pooled(last) == multiset(Ops(pool)) + Pooled([]);
      assert Ops([]) == [];
    }
  }

  lemma PooledRemoveEmpty(d: Directory, a: Address)
    requires PoolFor(d, a) == []
    ensures Pooled(Remove(d, a)) == Pooled(d)
  {
    if Has(d, a) {
      var i := Index(d, a);
      PooledSplit(d, i);
      PooledConcat(d[..i], d[i + 1..]);
      assert Ops([]) == [];
    }
  }
}
