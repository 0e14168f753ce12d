/** Stable sorting under a comparison, and what a sorted sequence is determined by. */
module Ordering {

  ghost predicate Connected<T(!new)>(leq: (T, T) -> bool) {
    forall a, b :: leq(a, b) || leq(b, a)
  }

  ghost predicate Transitive<T(!new)>(leq: (T, T) -> bool) {
    forall a, b, c :: leq(a, b) && leq(b, c) ==> leq(a, c)
  }

  /** A comparison by which values can be sorted; different values may compare equal. */
  ghost predicate Ranks<T(!new)>(leq: (T, T) -> bool) {
    Connected(leq) && Transitive(leq)
  }

  /** No two different values of the sequence compare equal. */
  ghost predicate Separates<T>(leq: (T, T) -> bool, s: seq<T>) {
    forall a, b | a in s && b in s && leq(a, b) && leq(b, a) :: a == b
  }

  /** A total order. */
  ghost predicate Orders<T(!new)>(leq: (T, T) -> bool) {
    Ranks(leq) && forall a, b | leq(a, b) && leq(b, a) :: a == b
  }

  ghost predicate Sorted<T>(s: seq<T>, leq: (T, T) -> bool) {
    forall i, j | 0 <= i < j < |s| :: leq(s[i], s[j])
  }

  /** `x` goes behind everything that does not come after it. */
  function Insert<T>(s: seq<T>, x: T, leq: (T, T) -> bool): seq<T> {
    if s == [] then [x]
    else if leq(s[|s| - 1], x) then s + [x]
    else Insert(s[..|s| - 1], x, leq) + [s[|s| - 1]]
  }

  function Sort<T>(s: seq<T>, leq: (T, T) -> bool): seq<T> {
    if s == [] then [] else Insert(Sort(s[..|s| - 1], leq), s[|s| - 1], leq)
  }

  lemma Cancel<T>(a: multiset<T>, b: multiset<T>, x: T)
    requires a + multiset{x} == b + multiset{x}
    ensures a == b
  {
    assert (a + multiset{x}) - multiset{x} == a && (b + multiset{x}) - multiset{x} == b;
  }

  lemma Front<T>(s: seq<T>)
    requires s != []
    ensures multiset(s) == multiset(s[..|s| - 1]) + multiset{s[|s| - 1]}
  {
    assert s == s[..|s| - 1] + [s[|s| - 1]];
  }

  lemma {:induction false} InsertIsPermutation<T>(s: seq<T>, x: T, leq: (T, T) -> bool)
    ensures multiset(Insert(s, x, leq)) == multiset(s) + multiset{x}
  {
    if s != [] && !leq(s[|s| - 1], x) {
      InsertIsPermutation(s[..|s| - 1], x, leq);
      assert s == s[..|s| - 1] + [s[|s| - 1]];
    }
  }

  lemma {:induction false} InsertSorts<T(!new)>(s: seq<T>, x: T, leq: (T, T) -> bool)
    requires Ranks(leq) && Sorted(s, leq)
    ensures Sorted(Insert(s, x, leq), leq)
  {
    if s != [] {
      var n := |s| - 1;
      if leq(s[n], x) {
        forall i | 0 <= i < n
          ensures leq(s[i], x)
        {
          assert leq(s[i], s[n]);
        }
      } else {
        InsertSorts(s[..n], x, leq);
        InsertIsPermutation(s[..n], x, leq);
        var t := Insert(s[..n], x, leq);
        forall i | 0 <= i < |t|
          ensures leq(t[i], s[n])
        {
          assert t[i] in multiset(s[..n]) + multiset{x};
          assert t[i] == x || t[i] in s[..n];
        }
      }
    }
  }

  /** A sort only rearranges, and its result is sorted. */
  lemma {:induction false} SortSorts<T(!new)>(s: seq<T>, leq: (T, T) -> bool)
    requires Ranks(leq)
    ensures multiset(Sort(s, leq)) == multiset(s)
    ensures Sorted(Sort(s, leq), leq)
  {
    if s != [] {
      var n := |s| - 1;
      SortSorts(s[..n], leq);
      InsertIsPermutation(Sort(s[..n], leq), s[n], leq);
      InsertSorts(Sort(s[..n], leq), s[n], leq);
      Front(s);
    }
  }

  lemma InBoth<T>(s: seq<T>, t: seq<T>, x: T)
    requires multiset(s) == multiset(t)
    ensures x in s <==> x in t
    ensures |s| == |t|
  {
    SameLength(s, t);
    assert x in s <==> x in multiset(s);
  }

  lemma SameLength<T>(s: seq<T>, t: seq<T>)
    requires multiset(s) == multiset(t)
    ensures |s| == |t|
  {
    assert |multiset(s)| == |s| && |multiset(t)| == |t|;
  }

  /** Two sorted rearrangements of values that compare differently are the same. */
  lemma {:induction false} SortedIsUnique<T>(s: seq<T>, t: seq<T>, leq: (T, T) -> bool)
    requires Sorted(s, leq) && Sorted(t, leq) && multiset(s) == multiset(t) && Separates(leq, s)
    ensures s == t
  {
    if s == [] {
      SameLength(s, t);
    } else {
      var n := |s| - 1;
      InBoth(s, t, s[n]);
      InBoth(s, t, t[n]);
      LastIsGreatest(s, leq, t[n]);
      LastIsGreatest(t, leq, s[n]);
      assert s[n] == t[n];
      Front(s);
      Front(t);
      SeparatesFront(s, leq);
      Cancel(multiset(s[..n]), multiset(t[..n]), s[n]);
      SortedIsUnique(s[..n], t[..n], leq);
      assert s == s[..n] + [s[n]] && t == t[..n] + [t[n]];
    }
  }

  lemma SeparatesFront<T>(s: seq<T>, leq: (T, T) -> bool)
    requires Separates(leq, s) && s != []
    ensures Separates(leq, s[..|s| - 1])
  {
    forall a, b | a in s[..|s| - 1] && b in s[..|s| - 1] && leq(a, b) && leq(b, a)
      ensures a == b
    {
      assert a in s && b in s;
    }
  }

  lemma LastIsGreatest<T>(s: seq<T>, leq: (T, T) -> bool, x: T)
    requires Sorted(s, leq) && x in s
    ensures leq(x, s[|s| - 1]) || x == s[|s| - 1]
  {
    var i :| 0 <= i < |s| && s[i] == x;
  }

  /** Sorting forgets the order of the input. */
  lemma SortIsCanonical<T(!new)>(s: seq<T>, t: seq<T>, leq: (T, T) -> bool)
    requires Ranks(leq) && multiset(s) == multiset(t) && Separates(leq, s)
    ensures Sort(s, leq) == Sort(t, leq)
  {
    SortSorts(s, leq);
    SortSorts(t, leq);
    forall a, b | a in Sort(s, leq) && b in Sort(s, leq) && leq(a, b) && leq(b, a)
      ensures a == b
    {
      InBoth(Sort(s, leq), s, a);
      InBoth(Sort(s, leq), s, b);
    }
    SortedIsUnique(Sort(s, leq), Sort(t, leq), leq);
  }

  // -------------------------------------------------------------- mapped lists

  function Map<A, B>(f: A -> B, s: seq<A>): (r: seq<B>)
    ensures |r| == |s| && forall i | 0 <= i < |s| :: r[i] == f(s[i])
  {
    if s == [] then [] else Map(f, s[..|s| - 1]) + [f(s[|s| - 1])]
  }

  lemma MapSnoc<A, B>(f: A -> B, s: seq<A>, last: A)
    ensures Map(f, s + [last]) == Map(f, s) + [f(last)]
  {
    assert (s + [last])[..|s|] == s;
  }

  lemma MapConcat<A, B>(f: A -> B, s: seq<A>, t: seq<A>)
    ensures Map(f, s + t) == Map(f, s) + Map(f, t)
  {
  }

  function Remove<T>(t: seq<T>, i: nat): (r: seq<T>)
    requires i < |t|
    ensures |r| == |t| - 1 && forall j | 0 <= j < |r| :: r[j] == if j < i then t[j] else t[j + 1]
  {
    t[..i] + t[i + 1..]
  }

  lemma RemoveFront<T>(t: seq<T>, i: nat)
    requires i < |t|
    ensures var n := |t| - 1;
            if i < n then Remove(t, i)[..n - 1] == Remove(t[..n], i) && Remove(t, i)[n - 1] == t[n] else Remove(t, i) == t[..n]
  {
  }

  lemma Without<T>(t: seq<T>, i: nat)
    requires i < |t|
    ensures multiset(t) == multiset(Remove(t, i)) + multiset{t[i]}
  {
    assert t == t[..i] + [t[i]] + t[i + 1..];
  }

  lemma MapWithout<A, B>(f: A -> B, t: seq<A>, i: nat)
    requires i < |t|
    ensures multiset(Map(f, t)) == multiset(Map(f, Remove(t, i))) + multiset{f(t[i])}
  {
    Without(Map(f, t), i);
    MapRest(f, t, i);
  }

  lemma MapRest<A, B>(f: A -> B, t: seq<A>, i: nat)
    requires i < |t|
    ensures Map(f, Remove(t, i)) == Remove(Map(f, t), i)
  {
  }

  /** Rearranging a list rearranges its image. */
  lemma {:induction false} MapPermuted<A, B>(f: A -> B, s: seq<A>, t: seq<A>)
    requires multiset(s) == multiset(t)
    ensures multiset(Map(f, s)) == multiset(Map(f, t))
    decreases |s|
  {
    SameLength(s, t);
    if s != [] {
      var n := |s| - 1;
      InBoth(s, t, s[n]);
      var i :| 0 <= i < |t| && t[i] == s[n];
      Without(t, i);
      Front(s);
      MapWithout(f, t, i);
      Cancel(multiset(s[..n]), multiset(Remove(t, i)), s[n]);
      MapPermuted(f, s[..n], Remove(t, i));
    }
  }

  // ------------------------------------------------------------ filtered lists

  function Filter<T(!new)>(p: T -> bool, s: seq<T>): (r: seq<T>)
    ensures forall x :: x in r <==> x in s && p(x)
  {
    if s == [] then []
    else Filter(p, s[..|s| - 1]) + (if p(s[|s| - 1]) then [s[|s| - 1]] else [])
  }

  function Not<T>(p: T -> bool): T -> bool {
    (x: T) => !p(x)
  }

  /** A test and its opposite divide a list. */
  lemma {:induction false} FilterDivides<T(!new)>(p: T -> bool, s: seq<T>)
    ensures multiset(Filter(p, s)) + multiset(Filter(Not(p), s)) == multiset(s)
  {
    if s != [] {
      FilterDivides(p, s[..|s| - 1]);
      Front(s);
    }
  }

  lemma {:induction false} FilterNone<T(!new)>(p: T -> bool, s: seq<T>)
    requires forall x | x in s :: !p(x)
    ensures Filter(p, s) == []
  {
    if s != [] {
      assert s[|s| - 1] in s;
      FilterNone(p, s[..|s| - 1]);
    }
  }

  // ------------------------------------------------------------------ counting

  ghost function Count<T>(s: seq<T>, x: T): nat {
    if s == [] then 0 else Count(s[..|s| - 1], x) + (if s[|s| - 1] == x then 1 else 0)
  }

  lemma CountSnoc<T>(s: seq<T>, last: T, x: T)
    ensures Count(s + [last], x) == Count(s, x) + (if last == x then 1 else 0)
  {
    assert (s + [last])[..|s|] == s;
  }

  lemma {:induction false} CountIsMultiplicity<T>(s: seq<T>, x: T)
    ensures multiset(s)[x] == Count(s, x)
  {
    if s != [] {
      CountIsMultiplicity(s[..|s| - 1], x);
      Front(s);
    }
  }

  lemma CountPermuted<T>(s: seq<T>, t: seq<T>, x: T)
    requires multiset(s) == multiset(t)
    ensures Count(s, x) == Count(t, x)
  {
    CountIsMultiplicity(s, x);
    CountIsMultiplicity(t, x);
  }

  lemma {:induction false} CountConcat<T>(s: seq<T>, t: seq<T>, x: T)
    ensures Count(s + t, x) == Count(s, x) + Count(t, x)
  {
    if t == [] {
      assert s + t == s;
    } else {
      CountConcat(s, t[..|t| - 1], x);
      assert (s + t)[..|s + t| - 1] == s + t[..|t| - 1];
    }
  }

  /** Lists in which every value occurs equally often are rearrangements of each other. */
  lemma SameCounts<T(!new)>(s: seq<T>, t: seq<T>)
    requires forall x :: Count(s, x) == Count(t, x)
    ensures multiset(s) == multiset(t)
  {
    forall x
      ensures multiset(s)[x] == multiset(t)[x]
    {
      CountIsMultiplicity(s, x);
      CountIsMultiplicity(t, x);
    }
  }
}
