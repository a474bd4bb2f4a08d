/** What several components share. */
module Basics {

  datatype Option<+T> = None | Some(value: T)

  /** An address as text, in the spelling it was given in. */
  type Address = string

  function Lower(c: char): char { if 'A' <= c <= 'Z' then (c as int + 32) as char else c }

  /** The account an address stands for: the spellings of an address differ in letter case. */
  function Account(a: Address): Address {
    seq(|a|, i requires 0 <= i < |a| => Lower(a[i]))
  }

  lemma Associates<T>(a: seq<T>, b: seq<T>, c: seq<T>)
    ensures a + b + c == a + (b + c)
  {
  }

  /** What the items contribute, one after the other. */
  ghost function Collect<T, R>(f: T -> seq<R>, items: seq<T>): seq<R> {
    if items == [] then [] else Collect(f, items[..|items| - 1]) + f(items[|items| - 1])
  }

  lemma {:induction false} CollectConcat<T, R>(f: T -> seq<R>, a: seq<T>, b: seq<T>)
    ensures Collect(f, a + b) == Collect(f, a) + Collect(f, b)
  {
    if b == [] {
      assert a + b == a;
    } else {
      var (front, last) := (b[..|b| - 1], b[|b| - 1]);
      CollectConcat(f, a, front);
      assert (a + b)[..|a + b| - 1] == a + front;
      Associates(Collect(f, a), Collect(f, front), f(last));
    }
  }
}
