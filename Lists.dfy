/** Sequence helpers shared by the list filters of the console. */
module Lists {
  /** `s.filter(keep)`: the kept elements, in their original order. */
  function Filter<T(!new)>(s: seq<T>, keep: T -> bool): (r: seq<T>)
    ensures |r| <= |s|
    ensures forall x :: x in r <==> x in s && keep(x)
  {
    if s == [] then []
    else if keep(s[0]) then [s[0]] + Filter(s[1..], keep)
    else Filter(s[1..], keep)
  }

  /** An element that is kept and comes first stays first. */
  lemma FilterHead<T(!new)>(s: seq<T>, keep: T -> bool)
    requires s != [] && keep(s[0])
    ensures Filter(s, keep) != [] && Filter(s, keep)[0] == s[0]
  {
  }

  /** Filtering by a test and by its negation splits the sequence: nothing is lost or duplicated. */
  lemma {:induction false} FilterPartition<T(!new)>(s: seq<T>, keep: T -> bool, drop: T -> bool)
    requires forall x :: drop(x) == !keep(x)
    ensures multiset(Filter(s, keep)) + multiset(Filter(s, drop)) == multiset(s)
    ensures |Filter(s, keep)| + |Filter(s, drop)| == |s|
  {
    if s != [] {
      FilterPartition(s[1..], keep, drop);
      assert s == [s[0]] + s[1..];
    }
  }

  /** A test every element passes keeps the whole sequence. */
  lemma {:induction false} FilterKeepsAll<T(!new)>(s: seq<T>, keep: T -> bool)
    requires forall i :: 0 <= i < |s| ==> keep(s[i])
    ensures Filter(s, keep) == s
  {
    if s != [] {
      FilterKeepsAll(s[1..], keep);
    }
  }

  /** A test only the first element passes keeps just that element. */
  lemma FilterKeepsOnlyHead<T(!new)>(s: seq<T>, keep: T -> bool)
    requires s != [] && keep(s[0])
    requires forall i :: 1 <= i < |s| ==> !keep(s[i])
    ensures Filter(s, keep) == [s[0]]
  {
    assert forall x :: x in s[1..] ==> !keep(x);
    assert Filter(s[1..], keep) == [];
  }
}
