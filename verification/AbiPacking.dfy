/**
 The argument layout of the Solidity Contract ABI Specification, section "Formal Specification of
 the Encoding", for unsigned words and byte strings: a head of 32-byte slots, in which a byte
 string is an offset, followed by the byte strings, each behind its length and padded with zeros.
 */
module AbiPacking {
  import opened Hex

  datatype Argument = Word(number: nat) | Bytes(data: seq<byte>)

  ghost function Pow256(k: nat): nat {
    if k == 0 then 1 else 256 * Pow256(k - 1)
  }

  /** The byte of `n` that has `j` bytes behind it. */
  function ByteAt(n: nat, j: nat): byte {
    if j == 0 then n % 256 else ByteAt(n / 256, j - 1)
  }

  function BigEndian(n: nat, k: nat): (b: seq<byte>)
    ensures |b| == k
  {
    seq(k, i requires 0 <= i < k => ByteAt(n, k - 1 - i))
  }

  function ToNumber(b: seq<byte>): nat {
    if b == [] then 0 else 256 * ToNumber(b[..|b| - 1]) + b[|b| - 1]
  }

  lemma {:induction false} NumberOfBigEndian(n: nat, k: nat)
    requires n < Pow256(k)
    ensures ToNumber(BigEndian(n, k)) == n
  {
    if k > 0 {
      NumberOfBigEndian(n / 256, k - 1);
      var (b, front) := (BigEndian(n, k), BigEndian(n / 256, k - 1));
      forall i | 0 <= i < k - 1 ensures b[i] == front[i] {
        assert b[i] == ByteAt(n, k - 1 - i);
        assert front[i] == ByteAt(n / 256, k - 2 - i);
      }
      assert b[..k - 1] == front && b[k - 1] == ByteAt(n, 0);
    }
  }

  function Slot(n: nat): (b: seq<byte>)
    ensures |b| == 32
  {
    BigEndian(n, 32)
  }

  function Zeros(n: nat): (b: seq<byte>)
    ensures |b| == n
  {
    seq(n, _ => 0)
  }

  /** Zeros up to the next multiple of 32 bytes. */
  function Padded(data: seq<byte>): seq<byte> {
    if data == [] then []
    else if |data| < 32 then data + Zeros(32 - |data|)
    else data[..32] + Padded(data[32..])
  }

  /** The number of 32-byte words that hold `n` bytes. */
  function Words(n: nat): nat {
    if n == 0 then 0 else if n < 32 then 1 else 1 + Words(n - 32)
  }

  lemma {:induction false} PaddedIs(data: seq<byte>)
    ensures |Padded(data)| == 32 * Words(|data|) && data <= Padded(data)
  {
    if |data| >= 32 {
      PaddedIs(data[32..]);
      assert data == data[..32] + data[32..];
    }
  }

  function Tail(a: Argument): seq<byte> {
    match a
    case Word(_) => []
    case Bytes(data) => Slot(|data|) + Padded(data)
  }

  /** What the head needs to know of an argument: the number, or the size of the tail. */
  datatype Item = Number(n: nat) | Reference(size: nat)

  function ItemOf(a: Argument): Item {
    if a.Word? then Number(a.number) else Reference(|Tail(a)|)
  }

  function Items(args: seq<Argument>): (items: seq<Item>)
    ensures |items| == |args|
  {
    seq(|args|, i requires 0 <= i < |args| => ItemOf(args[i]))
  }

  /** What the head slots hold: the number itself, or where the byte string starts. */
  function Heads(items: seq<Item>, offset: nat): (heads: seq<nat>)
    ensures |heads| == |items|
  {
    if items == [] then []
    else
      match items[0]
      case Number(n) => [n] + Heads(items[1..], offset)
      case Reference(size) => [offset] + Heads(items[1..], offset + size)
  }

  function Slots(numbers: seq<nat>): (b: seq<byte>)
    ensures |b| == 32 * |numbers|
  {
    if numbers == [] then [] else Slot(numbers[0]) + Slots(numbers[1..])
  }

  function Tails(args: seq<Argument>): (tails: seq<seq<byte>>)
    ensures |tails| == |args|
  {
    seq(|args|, i requires 0 <= i < |args| => Tail(args[i]))
  }

  function Flat(parts: seq<seq<byte>>): seq<byte> {
    if parts == [] then [] else parts[0] + Flat(parts[1..])
  }

  function Encode(args: seq<Argument>): seq<byte> {
    Slots(Heads(Items(args), 32 * |args|)) + Flat(Tails(args))
  }

  // Sequences of bytes

  lemma Associative(a: seq<byte>, b: seq<byte>, c: seq<byte>)
    ensures a + (b + c) == a + b + c
  {
  }

  lemma Middle(a: seq<byte>, b: seq<byte>, c: seq<byte>)
    ensures (a + b + c)[|a|..|a| + |b|] == b
  {
  }

  lemma SliceOfFront(a: seq<byte>, b: seq<byte>, lo: nat, hi: nat)
    requires lo <= hi <= |a|
    ensures (a + b)[lo..hi] == a[lo..hi]
  {
  }

  lemma SliceOfBack(a: seq<byte>, b: seq<byte>, lo: nat, hi: nat)
    requires lo <= hi <= |b|
    ensures (a + b)[|a| + lo..|a| + hi] == b[lo..hi]
  {
  }

  lemma SliceOfSlice(s: seq<byte>, lo: nat, hi: nat, lo': nat, hi': nat)
    requires lo <= hi <= |s| && lo' <= hi' <= hi - lo
    ensures s[lo..hi][lo'..hi'] == s[lo + lo'..lo + hi']
  {
    var (a, b) := (s[lo..hi][lo'..hi'], s[lo + lo'..lo + hi']);
    assert |a| == |b| && forall k :: 0 <= k < |a| ==> a[k] == b[k];
  }

  lemma {:induction false} FlatConcat(a: seq<seq<byte>>, b: seq<seq<byte>>)
    ensures Flat(a + b) == Flat(a) + Flat(b)
  {
    if a == [] {
      assert a + b == b;
    } else {
      assert (a + b)[0] == a[0] && (a + b)[1..] == a[1..] + b;
      FlatConcat(a[1..], b);
      Associative(a[0], Flat(a[1..]), Flat(b));
    }
  }

  lemma FlatLast(parts: seq<seq<byte>>, last: seq<byte>)
    ensures Flat(parts + [last]) == Flat(parts) + last
  {
    FlatConcat(parts, [last]);
    assert Flat([last]) == last + Flat([]);
    assert last + [] == last;
  }

  /** Each part is found where the parts before it end. */
  lemma FlatSlice(parts: seq<seq<byte>>, i: nat)
    requires i < |parts|
    ensures var start := |Flat(parts[..i])|;
            start + |parts[i]| <= |Flat(parts)| && Flat(parts)[start..start + |parts[i]|] == parts[i]
  {
    var (before, rest) := (parts[..i], parts[i + 1..]);
    assert parts == (before + [parts[i]]) + rest;
    FlatConcat(before + [parts[i]], rest);
    FlatLast(before, parts[i]);
    Middle(Flat(before), parts[i], Flat(rest));
  }

  // Reading the head

  ghost function TailStart(items: seq<Item>, i: nat): nat
    requires i <= |items|
  {
    if i == 0 then 0 else TailStart(items, i - 1) + if items[i - 1].Reference? then items[i - 1].size else 0
  }

  ghost function HeadValue(items: seq<Item>, offset: nat, i: nat): nat
    requires i < |items|
  {
    if items[i].Number? then items[i].n else offset + TailStart(items, i)
  }

  lemma {:induction false} StartShift(items: seq<Item>, i: nat)
    requires 0 < i <= |items|
    ensures TailStart(items, i) == TailStart(items, 1) + TailStart(items[1..], i - 1)
  {
    if i > 1 {
      StartShift(items, i - 1);
    }
  }

  lemma {:induction false} HeadAt(items: seq<Item>, offset: nat, i: nat)
    requires i < |items|
    ensures Heads(items, offset)[i] == HeadValue(items, offset, i)
    decreases i
  {
    if i > 0 {
      StartShift(items, i);
      HeadAt(items[1..], offset + TailStart(items, 1), i - 1);
    }
  }

  lemma {:induction false} SlotAt(numbers: seq<nat>, i: nat)
    requires i < |numbers|
    ensures Slots(numbers)[32 * i..32 * i + 32] == Slot(numbers[i])
  {
    var (first, rest) := (Slot(numbers[0]), Slots(numbers[1..]));
    if i == 0 {
      assert (first + rest)[..32] == first;
    } else {
      SlotAt(numbers[1..], i - 1);
      SliceOfBack(first, rest, 32 * (i - 1), 32 * (i - 1) + 32);
    }
  }

  lemma SlotInFront(items: seq<Item>, offset: nat, tails: seq<byte>, i: nat)
    requires i < |items|
    ensures var enc := Slots(Heads(items, offset)) + tails;
            && 32 * i + 32 <= |enc|
            && enc[32 * i..32 * i + 32] == Slot(HeadValue(items, offset, i))
  {
    var numbers := Heads(items, offset);
    HeadAt(items, offset, i);
    SlotAt(numbers, i);
    SliceOfFront(Slots(numbers), tails, 32 * i, 32 * i + 32);
  }

  /** The sizes in the head are the sizes of the parts behind it. */
  ghost predicate Matches(items: seq<Item>, parts: seq<seq<byte>>) {
    && |items| == |parts|
    && forall i :: 0 <= i < |items| ==> |parts[i]| == if items[i].Reference? then items[i].size else 0
  }

  lemma {:induction false} StartIs(items: seq<Item>, parts: seq<seq<byte>>, i: nat)
    requires Matches(items, parts) && i <= |items|
    ensures |Flat(parts[..i])| == TailStart(items, i)
  {
    if i > 0 {
      StartIs(items, parts, i - 1);
      assert parts[..i] == parts[..i - 1] + [parts[i - 1]];
      FlatLast(parts[..i - 1], parts[i - 1]);
    }
  }

  lemma PartInBack(items: seq<Item>, parts: seq<seq<byte>>, front: seq<byte>, i: nat)
    requires Matches(items, parts) && i < |items|
    ensures var (start, size) := (TailStart(items, i), |parts[i]|);
            start + size <= |Flat(parts)|
            && (front + Flat(parts))[|front| + start..|front| + (start + size)] == parts[i]
  {
    StartIs(items, parts, i);
    FlatSlice(parts, i);
    SliceOfBack(front, Flat(parts), TailStart(items, i), TailStart(items, i) + |parts[i]|);
  }

  // Reading an encoding back

  lemma ArgumentsMatch(args: seq<Argument>)
    ensures Matches(Items(args), Tails(args))
  {
  }

  /** Fits into a 32-byte slot. */
  ghost predicate Fits(n: nat) { n < Pow256(32) }

  lemma SlotReadable(n: nat)
    requires Fits(n)
    ensures ToNumber(Slot(n)) == n
  {
    NumberOfBigEndian(n, 32);
  }

  /** Where the byte string of argument `i` is. */
  ghost function Where(args: seq<Argument>, i: nat): nat
    requires i < |args|
  {
    32 * |args| + TailStart(Items(args), i)
  }

  lemma HeadValueIs(args: seq<Argument>, i: nat)
    requires i < |args|
    ensures HeadValue(Items(args), 32 * |args|, i) == if args[i].Word? then args[i].number else Where(args, i)
  {
  }

  /** A number is read back from its own slot. */
  lemma WordReadable(args: seq<Argument>, i: nat)
    requires i < |args| && args[i].Word? && Fits(args[i].number)
    ensures var enc := Encode(args);
            32 * i + 32 <= |enc| && ToNumber(enc[32 * i..32 * i + 32]) == args[i].number
  {
    HeadValueIs(args, i);
    SlotInFront(Items(args), 32 * |args|, Flat(Tails(args)), i);
    SlotReadable(args[i].number);
  }

  lemma TailThere(args: seq<Argument>, i: nat)
    requires i < |args|
    ensures var (enc, at, tail) := (Encode(args), Where(args, i), Tail(args[i]));
            at + |tail| <= |enc| && enc[at..at + |tail|] == tail
  {
    ArgumentsMatch(args);
    var front := Slots(Heads(Items(args), 32 * |args|));
    PartInBack(Items(args), Tails(args), front, i);
    assert |front| + (TailStart(Items(args), i) + |Tail(args[i])|) == Where(args, i) + |Tail(args[i])|;
  }

  lemma TailHolds(data: seq<byte>)
    ensures var tail := Tail(Bytes(data));
            |tail| >= 32 + |data| && tail[0..32] == Slot(|data|) && tail[32..32 + |data|] == data
  {
    PaddedIs(data);
    SliceOfFront(Slot(|data|), Padded(data), 0, 32);
    assert Slot(|data|)[0..32] == Slot(|data|);
    SliceOfBack(Slot(|data|), Padded(data), 0, |data|);
    assert Padded(data)[0..|data|] == data;
  }

  lemma OffsetReadable(args: seq<Argument>, i: nat)
    requires i < |args| && args[i].Bytes? && Fits(Where(args, i))
    ensures var enc := Encode(args);
            32 * i + 32 <= |enc| && ToNumber(enc[32 * i..32 * i + 32]) == Where(args, i)
  {
    HeadValueIs(args, i);
    SlotInFront(Items(args), 32 * |args|, Flat(Tails(args)), i);
    SlotReadable(HeadValue(Items(args), 32 * |args|, i));
  }

  lemma ContentsThere(args: seq<Argument>, i: nat)
    requires i < |args| && args[i].Bytes?
    ensures var (enc, at, data) := (Encode(args), Where(args, i), args[i].data);
            && at + 32 + |data| <= |enc|
            && enc[at..at + 32] == Slot(|data|) && enc[at + 32..at + 32 + |data|] == data
  {
    TailThere(args, i);
    TailHolds(args[i].data);
    ReadTail(Encode(args), Where(args, i), Tail(args[i]), args[i].data);
  }

  /** A byte string is read back by following the offset in its slot to its length and contents. */
  lemma BytesReadable(args: seq<Argument>, i: nat)
    requires i < |args| && args[i].Bytes? && Fits(Where(args, i)) && Fits(|args[i].data|)
    ensures var (enc, data) := (Encode(args), args[i].data);
            && 32 * i + 32 <= |enc|
            && var at := ToNumber(enc[32 * i..32 * i + 32]);
               && at + 32 + |data| <= |enc|
               && ToNumber(enc[at..at + 32]) == |data|
               && enc[at + 32..at + 32 + |data|] == data
  {
    OffsetReadable(args, i);
    ContentsThere(args, i);
    SlotReadable(|args[i].data|);
  }

  lemma ReadTail(enc: seq<byte>, at: nat, tail: seq<byte>, data: seq<byte>)
    requires at + |tail| <= |enc| && enc[at..at + |tail|] == tail && |tail| >= 32 + |data|
    requires tail[32..32 + |data|] == data
    ensures enc[at..at + 32] == tail[0..32] && enc[at + 32..at + 32 + |data|] == data
  {
    SliceOfSlice(enc, at, at + |tail|, 0, 32);
    SliceOfSlice(enc, at, at + |tail|, 32, 32 + |data|);
  }

  // Sizes

  function TailWords(a: Argument): nat {
    match a
    case Word(_) => 0
    case Bytes(data) => 1 + Words(|data|)
  }

  ghost function AllTailWords(args: seq<Argument>): nat {
    if args == [] then 0 else AllTailWords(args[..|args| - 1]) + TailWords(args[|args| - 1])
  }

  lemma TailInWords(a: Argument)
    ensures |Tail(a)| == 32 * TailWords(a)
  {
    if a.Bytes? {
      PaddedIs(a.data);
    }
  }

  /** The tails are a whole number of words. */
  lemma {:induction false} TailsInWords(args: seq<Argument>)
    ensures |Flat(Tails(args))| == 32 * AllTailWords(args)
  {
    if args != [] {
      var (front, last) := (args[..|args| - 1], args[|args| - 1]);
      TailsInWords(front);
      TailInWords(last);
      assert Tails(args) == Tails(front) + [Tail(last)];
      FlatLast(Tails(front), Tail(last));
    }
  }

  // Changing the last argument

  /** Where things start does not depend on the size of the last item. */
  lemma {:induction false} HeadsIgnoreLast(front: seq<Item>, x: nat, y: nat, offset: nat)
    ensures Heads(front + [Reference(x)], offset) == Heads(front + [Reference(y)], offset)
    decreases |front|
  {
    var (a, b) := (front + [Reference(x)], front + [Reference(y)]);
    if front != [] {
      assert a[1..] == front[1..] + [Reference(x)] && b[1..] == front[1..] + [Reference(y)];
      HeadsIgnoreLast(front[1..], x, y, offset + if front[0].Reference? then front[0].size else 0);
    }
  }

  /** Everything in front of the last argument's tail. */
  ghost function Front(args: seq<Argument>): seq<byte> {
    Slots(Heads(Items(args) + [Reference(0)], 32 * |args| + 32)) + Flat(Tails(args))
  }

  /** The last argument's tail ends the encoding, and the rest does not depend on it. */
  lemma EncodeLast(front: seq<Argument>, last: seq<byte>)
    ensures Encode(front + [Bytes(last)]) == Front(front) + Tail(Bytes(last))
  {
    var (args, tail) := (front + [Bytes(last)], Tail(Bytes(last)));
    assert Items(args) == Items(front) + [Reference(|tail|)];
    assert Tails(args) == Tails(front) + [tail];
    HeadsIgnoreLast(Items(front), |tail|, 0, 32 * |front| + 32);
    FlatLast(Tails(front), tail);
    Associative(Slots(Heads(Items(args), 32 * |args|)), Flat(Tails(front)), tail);
  }
}
