/** The default order of strings, and the sorted keys of a map. */
module Strings {
  import opened Ordering
  import opened Seqs

  /** Character by character; a prefix comes first. */
  predicate Leq(a: string, b: string) {
    a == "" || (b != "" && (a[0] < b[0] || (a[0] == b[0] && Leq(a[1..], b[1..]))))
  }

  /** Where the first dot is, or the length when there is none. */
  function FirstDot(s: string): (i: nat)
    ensures i <= |s| && '.' !in s[..i] && (i < |s| ==> s[i] == '.')
  {
    if s == "" || s[0] == '.' then 0
    else
      assert s[1..][..FirstDot(s[1..])] == s[..1 + FirstDot(s[1..])][1..];
      1 + FirstDot(s[1..])
  }

  function DefaultOrder(): (string, string) -> bool {
    (a: string, b: string) => Leq(a, b)
  }

  /** The first difference decides; without one the shorter text comes first. */
  lemma {:induction false} LeqMeans(a: string, b: string)
    ensures Leq(a, b) <==> a <= b || exists i | 0 <= i < |a| && i < |b| :: a[..i] == b[..i] && a[i] < b[i]
  {
    if a != "" && b != "" && a[0] == b[0] {
      var x, y := a[1..], b[1..];
      LeqMeans(x, y);
      assert a == [a[0]] + x && b == [b[0]] + y;
      if i :| 0 <= i < |x| && i < |y| && x[..i] == y[..i] && x[i] < y[i] {
        assert a[..i + 1] == [a[0]] + x[..i] && b[..i + 1] == [b[0]] + y[..i];
        assert a[i + 1] < b[i + 1];
      }
      if i :| 0 <= i < |a| && i < |b| && a[..i] == b[..i] && a[i] < b[i] {
        if i > 0 {
          assert x[..i - 1] == a[..i][1..] && y[..i - 1] == b[..i][1..];
          assert x[i - 1] < y[i - 1];
        }
      }
    } else if a != "" && b != "" {
      assert a[..0] == b[..0];
      forall i | 0 < i < |a| && i < |b|
        ensures a[..i] != b[..i]
      {
        assert a[..i][0] != b[..i][0];
      }
    }
  }

  lemma {:induction false} LeqTotal(a: string, b: string)
    ensures Leq(a, b) || Leq(b, a)
    ensures Leq(a, b) && Leq(b, a) ==> a == b
  {
    if a != "" && b != "" && a[0] == b[0] {
      LeqTotal(a[1..], b[1..]);
      assert a == [a[0]] + a[1..] && b == [b[0]] + b[1..];
    }
  }

  lemma {:induction false} LeqTransitive(a: string, b: string, c: string)
    requires Leq(a, b) && Leq(b, c)
    ensures Leq(a, c)
  {
    if a != "" && a[0] == b[0] == c[0] {
      LeqTransitive(a[1..], b[1..], c[1..]);
    }
  }

  lemma DefaultOrders()
    ensures Orders(DefaultOrder())
  {
    forall a, b
      ensures Leq(a, b) || Leq(b, a)
      ensures Leq(a, b) && Leq(b, a) ==> a == b
    {
      LeqTotal(a, b);
    }
    forall a, b, c | Leq(a, b) && Leq(b, c)
      ensures Leq(a, c)
    {
      LeqTransitive(a, b, c);
    }
  }

  /** The keys in the default order. */
  ghost function SortedKeys(keys: set<string>): seq<string> {
    if keys == {} then []
    else
      var k :| k in keys;
      Insert(SortedKeys(keys - {k}), k, DefaultOrder())
  }

  lemma {:induction false} SortedKeysSort(keys: set<string>)
    ensures Sorted(SortedKeys(keys), DefaultOrder()) && multiset(SortedKeys(keys)) == multiset(keys)
  {
    DefaultOrders();
    if keys != {} {
      var k :| k in keys && SortedKeys(keys) == Insert(SortedKeys(keys - {k}), k, DefaultOrder());
      SortedKeysSort(keys - {k});
      InsertSorts(SortedKeys(keys - {k}), k, DefaultOrder());
      InsertIsPermutation(SortedKeys(keys - {k}), k, DefaultOrder());
      assert multiset(keys) == multiset(keys - {k}) + multiset{k};
    }
  }

  lemma SortedKeysDiffer(keys: set<string>)
    ensures AllDifferent(SortedKeys(keys))
  {
    SortedKeysSort(keys);
    var sorted := SortedKeys(keys);
    forall i, j | 0 <= i < j < |sorted|
      ensures sorted[i] != sorted[j]
    {
      assert multiset(keys)[sorted[i]] <= 1;
      if sorted[i] == sorted[j] {
        CountedTwice(sorted, i, j);
      }
    }
  }

  lemma CountedTwice(s: seq<string>, i: nat, j: nat)
    requires i < j < |s| && s[i] == s[j]
    ensures multiset(s)[s[i]] >= 2
  {
    var x := s[i];
    assert s == s[..j] + s[j..];
    assert s[..j][i] == x && s[j..][0] == x;
    assert x in multiset(s[..j]) && x in multiset(s[j..]);
  }

  /** Keys are drawn in any order and inserted where they belong. */
  method SortKeys(keys: set<string>) returns (sorted: seq<string>)
    ensures sorted == SortedKeys(keys)
  {
    DefaultOrders();
    sorted := [];
    var left := keys;
    while left != {}
      invariant left <= keys && Sorted(sorted, DefaultOrder()) && multiset(sorted) == multiset(keys - left)
      decreases left
    {
      var k :| k in left;
      InsertSorts(sorted, k, DefaultOrder());
      InsertIsPermutation(sorted, k, DefaultOrder());
      assert keys - (left - {k}) == (keys - left) + {k};
      sorted := Insert(sorted, k, DefaultOrder());
      left := left - {k};
    }
    assert keys - left == keys;
    SortedKeysSort(keys);
    SortedIsUnique(sorted, SortedKeys(keys), DefaultOrder());
  }
}
