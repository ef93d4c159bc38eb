/**
 The ordered set of vertex identifiers that HarmonicField::execute builds with a
 std::set<SimplexId>. A std::set is observed only through insertion and ascending
 iteration, so its abstract value is the strictly increasing sequence of its
 elements: that sequence is what `identifiersVec` copies out of it.
 */
module OrderedIds {

  /** Sorted with no duplicates: the iteration order of a std::set. */
  predicate StrictlyIncreasing(s: seq<int>) {
    forall i, j :: 0 <= i < j < |s| ==> s[i] < s[j]
  }

  /** std::set::insert on the set whose iteration order is `s`. */
  function Insert(s: seq<int>, x: int): (r: seq<int>)
    requires StrictlyIncreasing(s)
    ensures StrictlyIncreasing(r)
    ensures forall y :: y in r <==> y in s || y == x
    ensures |r| == if x in s then |s| else |s| + 1
  {
    if s == [] then [x]
    else if x < s[0] then [x] + s
    else if x == s[0] then s
    else
      var tail := Insert(s[1..], x);
      assert forall k :: 0 <= k < |tail| ==> s[0] < tail[k] by {
        forall k | 0 <= k < |tail| ensures s[0] < tail[k] {
          assert tail[k] in tail;
        }
      }
      assert x in s <==> x in s[1..] by {
        assert s == [s[0]] + s[1..];
      }
      [s[0]] + tail
  }

  /**
   The contents of a std::set after inserting `s[0]`, `s[1]`, ... in turn into an
   empty set, in iteration order.
   */
  function SortedDistinct(s: seq<int>): (r: seq<int>)
    ensures StrictlyIncreasing(r)
    ensures forall y :: y in r <==> y in s
    ensures |r| <= |s|
  {
    if s == [] then []
    else
      var front := s[..|s| - 1];
      assert s == front + [s[|s| - 1]];
      Insert(SortedDistinct(front), s[|s| - 1])
  }

  /** A strictly increasing sequence is determined by its elements. */
  lemma {:induction false} SameElementsSame(a: seq<int>, b: seq<int>)
    requires StrictlyIncreasing(a) && StrictlyIncreasing(b)
    requires forall y :: y in a <==> y in b
    ensures a == b
  {
    if a != [] { assert a[0] in a; }
    if b != [] { assert b[0] in b; }
    if a != [] && b != [] {
      assert a[0] == b[0] by {
        assert a[0] in b;
        assert b[0] in a;
      }
      TailElements(a);
      TailElements(b);
      SameElementsSame(a[1..], b[1..]);
      assert a == [a[0]] + a[1..];
      assert b == [b[0]] + b[1..];
    }
  }

  /** The tail of a strictly increasing sequence holds every element but the first. */
  lemma TailElements(a: seq<int>)
    requires StrictlyIncreasing(a) && a != []
    ensures forall y :: y in a[1..] <==> y in a && y != a[0]
  {
  }

  /**
   SortedDistinct(s) is the only sorted, duplicate-free sequence holding exactly
   the elements of `s`: any such sequence equals it.
   */
  lemma SortedDistinctCharacterized(s: seq<int>, v: seq<int>)
    requires StrictlyIncreasing(v)
    requires forall y :: y in v <==> y in s
    ensures v == SortedDistinct(s)
  {
    SameElementsSame(v, SortedDistinct(s));
  }

  /** Deduplicating an already deduplicated vector changes nothing. */
  lemma SortedDistinctIdempotent(s: seq<int>)
    ensures SortedDistinct(SortedDistinct(s)) == SortedDistinct(s)
  {
    SortedDistinctCharacterized(SortedDistinct(s), SortedDistinct(s));
  }

  /** Without repeated ids nothing collapses: one distinct id per input entry. */
  lemma {:induction false} SortedDistinctLength(s: seq<int>)
    requires forall i, j :: 0 <= i < j < |s| ==> s[i] != s[j]
    ensures |SortedDistinct(s)| == |s|
  {
    if s != [] {
      var front := s[..|s| - 1];
      SortedDistinctLength(front);
      assert s[|s| - 1] !in front;
    }
  }
}
