/** Facts about sequences without repeated elements, shared by the keyboard and the answer session. */
module SeqUtil {

  /** No element occurs twice in `s`. */
  predicate Distinct<T(==)>(s: seq<T>)
  {
    forall i, j :: 0 <= i < j < |s| ==> s[i] != s[j]
  }

  /** The set of elements of `s`. */
  function Elems<T>(s: seq<T>): set<T>
  {
    set x | x in s
  }

  /** A sequence without repetitions has as many distinct elements as entries. */
  lemma {:induction false} DistinctCard<T>(s: seq<T>)
    requires Distinct(s)
    ensures |Elems(s)| == |s|
  {
    if s != [] {
      var init := s[..|s| - 1];
      var x := s[|s| - 1];
      assert Distinct(init);
      DistinctCard(init);
      assert Elems(s) == Elems(init) + {x} by {
        assert s == init + [x];
      }
      assert x !in Elems(init) by {
        forall k | 0 <= k < |init| ensures init[k] != x {
          assert s[k] != s[|s| - 1];
        }
      }
    }
  }

  /** In a sequence without repetitions every element is counted once. */
  lemma {:induction false} DistinctMultiplicity<T>(s: seq<T>, x: T)
    requires Distinct(s)
    ensures multiset(s)[x] == if x in s then 1 else 0
  {
    if s != [] {
      var init := s[..|s| - 1];
      var y := s[|s| - 1];
      assert s == init + [y];
      assert Distinct(init);
      DistinctMultiplicity(init, x);
      assert y !in init by {
        forall k | 0 <= k < |init| ensures init[k] != y {
          assert s[k] != s[|s| - 1];
        }
      }
      assert multiset(s) == multiset(init) + multiset{y};
    }
  }

  /** Two repetition-free sequences over the same elements are permutations of each other. */
  lemma SameElemsPermutation<T>(a: seq<T>, b: seq<T>)
    requires Distinct(a) && Distinct(b) && Elems(a) == Elems(b)
    ensures multiset(a) == multiset(b)
  {
    forall x ensures multiset(a)[x] == multiset(b)[x] {
      DistinctMultiplicity(a, x);
      DistinctMultiplicity(b, x);
      assert (x in a) == (x in Elems(a));
      assert (x in b) == (x in Elems(b));
    }
  }

  /** The indices 0 .. n-1 as a set. */
  function IndexSet(n: nat): (r: set<nat>)
    ensures forall i: int :: i in r <==> 0 <= i < n
    ensures |r| == n
  {
    if n == 0 then {} else IndexSet(n - 1) + {n - 1}
  }

  /** `order` lists each index below `n` once: an oracle for a shuffle of `n` items. */
  predicate IsIndexPermutation(order: seq<nat>, n: nat)
  {
    && |order| == n
    && (forall i :: 0 <= i < n ==> order[i] < n)
    && Distinct(order)
  }

  /** Pigeonhole: an index permutation reaches every index. */
  lemma IndexPermutationOnto(order: seq<nat>, n: nat)
    requires IsIndexPermutation(order, n)
    ensures forall j: nat :: j < n ==> j in order
  {
    DistinctCard(order);
    var reached := Elems(order);
    var all := IndexSet(n);
    assert reached <= all;
    assert reached == all by {
      if reached != all {
        var j :| j in all && j !in reached;
        assert reached <= all - {j};
        assert |all - {j}| == n - 1;
        SubsetCard(reached, all - {j});
      }
    }
    forall j: nat | j < n ensures j in order {
      assert j in all;
    }
  }

  lemma {:induction false} SubsetCard<T>(a: set<T>, b: set<T>)
    requires a <= b
    ensures |a| <= |b|
  {
    assert b == a + (b - a);
  }

  /** Each symbol has a smaller code point than the next one. */
  predicate Ascending(s: seq<char>)
  {
    forall i :: 0 <= i < |s| - 1 ==> s[i] < s[i + 1]
  }

  lemma {:induction false} AscendingBelowLast(s: seq<char>)
    requires Ascending(s)
    ensures forall i :: 0 <= i < |s| - 1 ==> s[i] < s[|s| - 1]
  {
    if |s| > 2 {
      var t := s[1..];
      assert Ascending(t);
      AscendingBelowLast(t);
      forall i | 0 <= i < |s| - 1 ensures s[i] < s[|s| - 1] {
        if i > 0 {
          assert s[i] == t[i - 1];
        } else {
          assert s[1] == t[0];
        }
      }
    }
  }

  /** An ascending sequence has no repetitions. */
  lemma {:induction false} AscendingDistinct(s: seq<char>)
    requires Ascending(s)
    ensures Distinct(s)
  {
    if s != [] {
      var init := s[..|s| - 1];
      assert Ascending(init);
      AscendingDistinct(init);
      AscendingBelowLast(s);
      forall i, j | 0 <= i < j < |s| ensures s[i] != s[j] {
        if j < |s| - 1 {
          assert s[i] == init[i] && s[j] == init[j];
        }
      }
    }
  }

  /** Joining two repetition-free sequences with no common element. */
  lemma DistinctConcat<T>(a: seq<T>, b: seq<T>)
    requires Distinct(a) && Distinct(b)
    requires forall x :: x in b ==> x !in a
    ensures Distinct(a + b)
  {
    var s := a + b;
    forall i, j | 0 <= i < j < |s| ensures s[i] != s[j] {
      if i >= |a| {
        assert s[i] == b[i - |a|] && s[j] == b[j - |a|];
      } else if j >= |a| {
        assert s[j] in b && s[i] in a;
      }
    }
  }
}
