/** The in-flight name lists are C# `List<string>`s: they may hold a name
    more than once, and `Remove` takes out only the first occurrence. */
module Tracker {

  /** Position of the first occurrence of `x` in `s`. */
  function IndexOf<T(==)>(s: seq<T>, x: T): (i: nat)
    requires x in s
    ensures i < |s| && s[i] == x
    ensures x !in s[..i]
  {
    if s[0] == x then 0
    else
      var j := IndexOf(s[1..], x);
      assert s[1..][..j] == s[1..j + 1];
      j + 1
  }

  /** `List<T>.Remove`: drops the first occurrence of `x`, if any. */
  function RemoveFirst<T(==)>(s: seq<T>, x: T): (r: seq<T>)
    ensures x !in s ==> r == s
    ensures x in s ==> r == s[..IndexOf(s, x)] + s[IndexOf(s, x) + 1..]
  {
    if |s| == 0 then s
    else if s[0] == x then s[1..]
    else
      var t := RemoveFirst(s[1..], x);
      assert s == [s[0]] + s[1..];
      if x in s then
        var j := IndexOf(s[1..], x);
        assert IndexOf(s, x) == j + 1;
        assert s[..j + 1] == [s[0]] + s[1..][..j];
        assert s[j + 2..] == s[1..][j + 1..];
        [s[0]] + t
      else
        [s[0]] + t
  }

  /** Removing a name takes exactly one copy of it out of the list, and only
      when there is one. */
  lemma {:induction false} RemoveFirstCount<T>(s: seq<T>, x: T)
    ensures multiset(RemoveFirst(s, x)) == multiset(s) - multiset{x}
  {
    if |s| > 0 {
      assert s == [s[0]] + s[1..];
      var m := multiset(s[1..]);
      assert multiset(s) == multiset{s[0]} + m;
      if s[0] != x {
        RemoveFirstCount(s[1..], x);
        assert RemoveFirst(s, x) == [s[0]] + RemoveFirst(s[1..], x);
        assert multiset(RemoveFirst(s, x)) == multiset{s[0]} + (m - multiset{x});
      }
    }
  }
}
