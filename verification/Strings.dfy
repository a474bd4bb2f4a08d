/** Substring search, as Python's `in` and JavaScript's `includes` do it. */
module Strings {

  predicate Contains(s: string, t: string)
    decreases |s|
  {
    t <= s || (s != [] && Contains(s[1..], t))
  }

  ghost predicate Occurs(s: string, t: string) { exists i :: 0 <= i <= |s| && t <= s[i..] }

  /** The recursive search finds a position exactly when there is one. */
  lemma {:induction false} ContainsMeansOccurs(s: string, t: string)
    ensures Contains(s, t) <==> Occurs(s, t)
    decreases |s|
  {
    if t <= s {
      assert t <= s[0..];
    } else if s != [] {
      ContainsMeansOccurs(s[1..], t);
      if Contains(s[1..], t) {
        var i :| 0 <= i <= |s[1..]| && t <= s[1..][i..];
        assert s[1..][i..] == s[i + 1..];
      }
      if i :| 0 <= i <= |s| && t <= s[i..] {
        assert s[0..] == s;
        assert s[i..] == s[1..][i - 1..];
      }
    }
  }
}
