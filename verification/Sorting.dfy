/** Sorting without duplicates: what sort.Slice and the name order of os.ReadDir give. */
module Sorting {
  ghost predicate StrictOrder<T(!new)>(less: (T, T) -> bool) {
    && (forall a :: !less(a, a))
    && (forall a, b, c :: less(a, b) && less(b, c) ==> less(a, c))
    && (forall a, b :: a != b ==> less(a, b) || less(b, a))
  }

  ghost predicate Increasing<T>(s: seq<T>, less: (T, T) -> bool) {
    forall i, j :: 0 <= i < j < |s| ==> less(s[i], s[j])
  }

  ghost predicate Distinct<T>(s: seq<T>) {
    forall i, j :: 0 <= i < j < |s| ==> s[i] != s[j]
  }

  function Insert<T>(x: T, s: seq<T>, less: (T, T) -> bool): (r: seq<T>) {
    if s == [] || less(x, s[0]) then [x] + s else [s[0]] + Insert(x, s[1..], less)
  }

  function Sort<T>(s: seq<T>, less: (T, T) -> bool): (r: seq<T>) {
    if s == [] then [] else Insert(s[0], Sort(s[1..], less), less)
  }

  lemma {:induction false} InsertElements<T>(x: T, s: seq<T>, less: (T, T) -> bool)
    ensures multiset(Insert(x, s, less)) == multiset(s) + multiset{x}
  {
    if s != [] && !less(x, s[0]) {
      InsertElements(x, s[1..], less);
      assert s == [s[0]] + s[1..];
    }
  }

  lemma {:induction false} SortElements<T>(s: seq<T>, less: (T, T) -> bool)
    ensures multiset(Sort(s, less)) == multiset(s)
  {
    if s != [] {
      SortElements(s[1..], less);
      InsertElements(s[0], Sort(s[1..], less), less);
      assert s == [s[0]] + s[1..];
    }
  }

  /** Sorting keeps exactly the elements. */
  lemma SortMembers<T>(s: seq<T>, less: (T, T) -> bool, x: T)
    ensures x in Sort(s, less) <==> x in s
  {
    SortElements(s, less);
    assert x in Sort(s, less) <==> x in multiset(Sort(s, less));
  }

  lemma {:induction false} InsertIncreasing<T(!new)>(x: T, s: seq<T>, less: (T, T) -> bool)
    requires StrictOrder(less) && Increasing(s, less) && x !in s
    ensures Increasing(Insert(x, s, less), less)
  {
    if s != [] && !less(x, s[0]) {
      InsertIncreasing(x, s[1..], less);
      InsertElements(x, s[1..], less);
      var t := Insert(x, s[1..], less);
      forall i | 0 <= i < |t|
        ensures less(s[0], t[i])
      {
        assert t[i] in multiset(t);
        assert t[i] in s[1..] || t[i] == x;
      }
    }
  }

  /** Sorting distinct elements gives a strictly increasing sequence. */
  lemma {:induction false} SortIncreasing<T(!new)>(s: seq<T>, less: (T, T) -> bool)
    requires StrictOrder(less) && Distinct(s)
    ensures Increasing(Sort(s, less), less)
  {
    if s != [] {
      SortIncreasing(s[1..], less);
      SortMembers(s[1..], less, s[0]);
      InsertIncreasing(s[0], Sort(s[1..], less), less);
    }
  }

  /** A set has only one increasing enumeration. */
  lemma {:induction false} IncreasingUnique<T(!new)>(a: seq<T>, b: seq<T>, less: (T, T) -> bool)
    requires StrictOrder(less) && Increasing(a, less) && Increasing(b, less)
    requires forall x :: x in a <==> x in b
    ensures a == b
  {
    if a == [] || b == [] {
      HasMember(a);
      HasMember(b);
    } else {
      FirstIsLeast(a, b, less);
      FirstIsLeast(b, a, less);
      forall x
        ensures x in a[1..] <==> x in b[1..]
      {
        TailMembers(a, less, x);
        TailMembers(b, less, x);
      }
      IncreasingUnique(a[1..], b[1..], less);
      assert a == [a[0]] + a[1..] && b == [b[0]] + b[1..];
    }
  }

  lemma HasMember<T>(s: seq<T>)
    ensures s != [] ==> exists x :: x in s
  {
    assert s != [] ==> s[0] in s;
  }

  lemma FirstIsLeast<T(!new)>(a: seq<T>, b: seq<T>, less: (T, T) -> bool)
    requires StrictOrder(less) && Increasing(a, less) && a != [] && b != [] && b[0] in a
    ensures a[0] == b[0] || less(a[0], b[0])
  {
    var i :| 0 <= i < |a| && a[i] == b[0];
  }

  lemma TailMembers<T(!new)>(a: seq<T>, less: (T, T) -> bool, x: T)
    requires StrictOrder(less) && Increasing(a, less) && a != []
    ensures x in a[1..] <==> x in a && x != a[0]
  {
    if x in a && x != a[0] {
      var i :| 0 <= i < |a| && a[i] == x;
      assert a[1..][i - 1] == x;
    }
    if x in a[1..] {
      var i :| 0 <= i < |a[1..]| && a[1..][i] == x;
      assert a[i + 1] == x && less(a[0], a[i + 1]);
    }
  }

  // ---------- numbers and names ----------

  function IntLess(): (int, int) -> bool { (a: int, b: int) => a < b }

  lemma IntOrder()
    ensures StrictOrder(IntLess())
  {
  }

  /** Byte-wise comparison of names, as in Go's string order. */
  predicate NameLess(a: string, b: string) {
    if b == "" then false
    else if a == "" then true
    else a[0] < b[0] || (a[0] == b[0] && NameLess(a[1..], b[1..]))
  }

  lemma NameOrder()
    ensures StrictOrder(NameLess)
  {
    forall a
      ensures !NameLess(a, a)
    {
      NameIrreflexive(a);
    }
    forall a, b, c | NameLess(a, b) && NameLess(b, c)
      ensures NameLess(a, c)
    {
      NameTransitive(a, b, c);
    }
    forall a, b | a != b
      ensures NameLess(a, b) || NameLess(b, a)
    {
      NameTotal(a, b);
    }
  }

  lemma NameIrreflexive(a: string)
    ensures !NameLess(a, a)
  {
  }

  lemma {:induction false} NameTransitive(a: string, b: string, c: string)
    requires NameLess(a, b) && NameLess(b, c)
    ensures NameLess(a, c)
  {
    if a != "" && a[0] == b[0] == c[0] {
      NameTransitive(a[1..], b[1..], c[1..]);
    }
  }

  lemma {:induction false} NameTotal(a: string, b: string)
    requires a != b
    ensures NameLess(a, b) || NameLess(b, a)
  {
    if a != "" && b != "" && a[0] == b[0] {
      assert a == [a[0]] + a[1..] && b == [b[0]] + b[1..];
      NameTotal(a[1..], b[1..]);
    }
  }
}
