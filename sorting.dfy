/**
 * A stable sort under a comparison "le" (Python's list.sort with a key function and
 * JavaScript's Array.prototype.sort with a comparator are both stable), written as an
 * insertion sort and specified by sortedness, permutation and stability.
 */
module Sorting {

  /** le is total and transitive, as the comparisons passed to the sorts are. */
  ghost predicate TotalPreorder<T(!new)>(le: (T, T) -> bool) {
    (forall a, b :: le(a, b) || le(b, a))
    && (forall a, b, c :: le(a, b) && le(b, c) ==> le(a, c))
  }

  predicate SortedBy<T>(s: seq<T>, le: (T, T) -> bool) {
    forall i, j :: 0 <= i < j < |s| ==> le(s[i], s[j])
  }

  predicate NoDups<T(==)>(s: seq<T>) {
    forall i, j :: 0 <= i < j < |s| ==> s[i] != s[j]
  }

  lemma {:induction false} NoDupsCount<T>(s: seq<T>, x: T)
    requires NoDups(s)
    ensures multiset(s)[x] <= 1
  {
    if s != [] {
      var front := s[..|s| - 1];
      assert s == front + [s[|s| - 1]];
      NoDupsCount(front, x);
      if x == s[|s| - 1] {
        assert x !in front;
      }
    }
  }

  lemma PairCount<T>(t: seq<T>, i: nat, j: nat)
    requires i < j < |t|
    ensures multiset(t)[t[i]] >= if t[i] == t[j] then 2 else 1
  {
    assert t == t[..i] + [t[i]] + t[i + 1..j] + [t[j]] + t[j + 1..];
  }

  /** A permutation of a sequence without duplicates has none either. */
  lemma PermutationNoDups<T>(s: seq<T>, t: seq<T>)
    requires NoDups(s) && multiset(s) == multiset(t)
    ensures NoDups(t)
  {
    forall i, j | 0 <= i < j < |t| ensures t[i] != t[j] {
      NoDupsCount(s, t[i]);
      PairCount(t, i, j);
    }
  }

  /** Places x after every element that is not strictly greater than it. */
  function Insert<T>(s: seq<T>, x: T, le: (T, T) -> bool): (r: seq<T>)
    ensures multiset(r) == multiset(s) + multiset{x}
  {
    if s != [] && !le(s[|s| - 1], x) then
      var r := Insert(s[..|s| - 1], x, le) + [s[|s| - 1]];
      assert s == s[..|s| - 1] + [s[|s| - 1]];
      r
    else s + [x]
  }

  /** The stable sort of s under le. */
  function SortBy<T>(s: seq<T>, le: (T, T) -> bool): (r: seq<T>)
    ensures |r| == |s| && multiset(r) == multiset(s)
  {
    if s == [] then []
    else
      assert s == s[..|s| - 1] + [s[|s| - 1]];
      Insert(SortBy(s[..|s| - 1], le), s[|s| - 1], le)
  }

  lemma {:induction false} InsertSorted<T(!new)>(s: seq<T>, x: T, le: (T, T) -> bool)
    requires TotalPreorder(le) && SortedBy(s, le)
    ensures SortedBy(Insert(s, x, le), le)
  {
    if s != [] && !le(s[|s| - 1], x) {
      var y := s[|s| - 1];
      var front := Insert(s[..|s| - 1], x, le);
      InsertSorted(s[..|s| - 1], x, le);
      forall z | z in front ensures le(z, y) {
        assert z in multiset(front);
        if z != x {
          assert z in multiset(s[..|s| - 1]);
          var k :| 0 <= k < |s| - 1 && s[k] == z;
        }
      }
    } else if s != [] {
      forall i | 0 <= i < |s| ensures le(s[i], x) {
        assert le(s[i], s[|s| - 1]) || i == |s| - 1;
      }
    }
  }

  /** The result of SortBy is ordered by le. */
  lemma {:induction false} SortBySorted<T(!new)>(s: seq<T>, le: (T, T) -> bool)
    requires TotalPreorder(le)
    ensures SortedBy(SortBy(s, le), le)
  {
    if s != [] {
      SortBySorted(s[..|s| - 1], le);
      InsertSorted(SortBy(s[..|s| - 1], le), s[|s| - 1], le);
    }
  }

  /** a and b compare as equal. */
  predicate Equiv<T>(le: (T, T) -> bool, a: T, b: T) {
    le(a, b) && le(b, a)
  }

  /** The elements of s that compare equal to e, in their order in s. */
  function ClassOf<T>(s: seq<T>, e: T, le: (T, T) -> bool): seq<T> {
    if s == [] then []
    else ClassOf(s[..|s| - 1], e, le) + (if Equiv(le, s[|s| - 1], e) then [s[|s| - 1]] else [])
  }

  lemma {:induction false} ClassOfConcat<T>(a: seq<T>, b: seq<T>, e: T, le: (T, T) -> bool)
    ensures ClassOf(a + b, e, le) == ClassOf(a, e, le) + ClassOf(b, e, le)
    decreases |b|
  {
    if b != [] {
      assert (a + b)[..|a + b| - 1] == a + b[..|b| - 1];
      ClassOfConcat(a, b[..|b| - 1], e, le);
    } else {
      assert a + b == a;
    }
  }

  /** Elements that compare equal to e compare equal to each other. */
  lemma EquivThrough<T(!new)>(le: (T, T) -> bool, e: T)
    requires TotalPreorder(le)
    ensures forall a, b :: Equiv(le, a, e) && Equiv(le, b, e) ==> Equiv(le, a, b)
  { }

  lemma ClassOfSingle<T>(z: T, e: T, le: (T, T) -> bool)
    ensures ClassOf([z], e, le) == if Equiv(le, z, e) then [z] else []
  {
    assert [z][..0] == [];
  }

  /** An element that sorts strictly before another is not equal to it through e. */
  lemma Apart<T>(x: T, y: T, e: T, le: (T, T) -> bool)
    requires forall a, b :: Equiv(le, a, e) && Equiv(le, b, e) ==> Equiv(le, a, b)
    requires !le(y, x)
    ensures !Equiv(le, x, e) || !Equiv(le, y, e)
  { }

  /** No element of s that sorts strictly after x shares e's class with x. */
  predicate Separated<T>(le: (T, T) -> bool, s: seq<T>, x: T, e: T) {
    forall i :: 0 <= i < |s| && !le(s[i], x) ==> !Equiv(le, x, e) || !Equiv(le, s[i], e)
  }

  /** x goes before a last element that sorts strictly after it. */
  lemma InsertAfter<T>(s: seq<T>, x: T, le: (T, T) -> bool)
    requires s != [] && !le(s[|s| - 1], x)
    ensures Insert(s, x, le) == Insert(s[..|s| - 1], x, le) + [s[|s| - 1]]
  { }

  /** x goes at the end otherwise. */
  lemma InsertAtEnd<T>(s: seq<T>, x: T, le: (T, T) -> bool)
    requires s == [] || le(s[|s| - 1], x)
    ensures Insert(s, x, le) == s + [x]
  { }

  lemma SinglesApart<T>(x: T, y: T, e: T, le: (T, T) -> bool)
    requires !Equiv(le, x, e) || !Equiv(le, y, e)
    ensures ClassOf([x], e, le) == [] || ClassOf([y], e, le) == []
  {
    ClassOfSingle(x, e, le);
    ClassOfSingle(y, e, le);
  }

  lemma SwapEmpty<T>(a: seq<T>, b: seq<T>, c: seq<T>)
    requires b == [] || c == []
    ensures a + b + c == a + c + b
  { }

  lemma {:induction false} InsertStable<T>(s: seq<T>, x: T, e: T, le: (T, T) -> bool)
    requires Separated(le, s, x, e)
    ensures ClassOf(Insert(s, x, le), e, le) == ClassOf(s, e, le) + ClassOf([x], e, le)
  {
    if s != [] && !le(s[|s| - 1], x) {
      var y := s[|s| - 1];
      var front := s[..|s| - 1];
      InsertAfter(s, x, le);
      assert Separated(le, front, x, e) by {
        forall i | 0 <= i < |front| ensures front[i] == s[i] { }
      }
      InsertStable(front, x, e, le);
      ClassOfConcat(Insert(front, x, le), [y], e, le);
      assert s == front + [y];
      ClassOfConcat(front, [y], e, le);
      assert !Equiv(le, x, e) || !Equiv(le, y, e);
      SinglesApart(x, y, e, le);
      SwapEmpty(ClassOf(front, e, le), ClassOf([x], e, le), ClassOf([y], e, le));
    } else {
      InsertAtEnd(s, x, le);
      ClassOfConcat(s, [x], e, le);
    }
  }

  /** Where equality through e is transitive, every list is separated from every element. */
  lemma AllSeparated<T>(s: seq<T>, x: T, e: T, le: (T, T) -> bool)
    requires forall a, b :: Equiv(le, a, e) && Equiv(le, b, e) ==> Equiv(le, a, b)
    ensures Separated(le, s, x, e)
  {
    forall i | 0 <= i < |s| && !le(s[i], x)
      ensures !Equiv(le, x, e) || !Equiv(le, s[i], e)
    {
      Apart(x, s[i], e, le);
    }
  }

  /** The sort of a non-empty list inserts its last element into the sort of the rest. */
  lemma SortByLast<T>(s: seq<T>, le: (T, T) -> bool)
    requires s != []
    ensures SortBy(s, le) == Insert(SortBy(s[..|s| - 1], le), s[|s| - 1], le)
  { }

  lemma {:induction false} ClassesKept<T>(s: seq<T>, e: T, le: (T, T) -> bool)
    requires forall a, b :: Equiv(le, a, e) && Equiv(le, b, e) ==> Equiv(le, a, b)
    ensures ClassOf(SortBy(s, le), e, le) == ClassOf(s, e, le)
  {
    if s != [] {
      var front := s[..|s| - 1];
      var last := s[|s| - 1];
      ClassesKept(front, e, le);
      SortByLast(s, le);
      AllSeparated(SortBy(front, le), last, e, le);
      InsertStable(SortBy(front, le), last, e, le);
      ClassOfSingle(last, e, le);
    }
  }

  /**
   * Stability: for every element e, the elements that compare equal to e appear in the sorted
   * result in the same order as in the input.
   */
  lemma SortByStable<T(!new)>(s: seq<T>, e: T, le: (T, T) -> bool)
    requires TotalPreorder(le)
    ensures ClassOf(SortBy(s, le), e, le) == ClassOf(s, e, le)
  {
    EquivThrough(le, e);
    ClassesKept(s, e, le);
  }

  /** Sorting what is already in order changes nothing. */
  lemma {:induction false} SortByOfSorted<T>(s: seq<T>, le: (T, T) -> bool)
    requires SortedBy(s, le)
    ensures SortBy(s, le) == s
  {
    if s != [] {
      var front := s[..|s| - 1];
      assert SortedBy(front, le);
      SortByOfSorted(front, le);
      if front != [] {
        assert le(s[|front| - 1], s[|s| - 1]);
      }
      assert s == front + [s[|s| - 1]];
    }
  }
}
