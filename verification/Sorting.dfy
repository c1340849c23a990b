/** Python's `sorted` over a finite collection, for any total preorder. */
module Sorting {

  ghost predicate TotalPreorder<T(!new)>(le: (T, T) -> bool) {
    && (forall x, y :: le(x, y) || le(y, x))
    && (forall x, y, z :: le(x, y) && le(y, z) ==> le(x, z))
  }

  ghost predicate SortedBy<T>(s: seq<T>, le: (T, T) -> bool) {
    forall i, j | 0 <= i < j < |s| :: le(s[i], s[j])
  }

  /** Insert behind every element that may precede `x`, so that ties keep their order. */
  method Insert<T(!new)>(s: seq<T>, x: T, le: (T, T) -> bool) returns (r: seq<T>)
    requires TotalPreorder(le) && SortedBy(s, le)
    ensures SortedBy(r, le)
    ensures multiset(r) == multiset(s) + multiset{x}
  {
    var i := |s|;
    while i > 0 && !le(s[i - 1], x)
      invariant 0 <= i <= |s|
      invariant forall k | i <= k < |s| :: le(x, s[k])
    {
      i := i - 1;
    }
    r := s[..i] + [x] + s[i..];
    assert s == s[..i] + s[i..];
    InsertedSorted(s, x, i, le);
  }

  lemma InsertedSorted<T(!new)>(s: seq<T>, x: T, i: nat, le: (T, T) -> bool)
    requires TotalPreorder(le) && SortedBy(s, le) && i <= |s|
    requires i > 0 ==> le(s[i - 1], x)
    requires forall k | i <= k < |s| :: le(x, s[k])
    ensures SortedBy(s[..i] + [x] + s[i..], le)
  {
    var r := s[..i] + [x] + s[i..];
    forall a, b | 0 <= a < b < |r| ensures le(r[a], r[b]) {
      if b == i {
        assert r[a] == s[a] && (a < i - 1 ==> le(s[a], s[i - 1]));
      } else if a == i {
        assert r[b] == s[b - 1];
      } else {
        assert r[a] == s[if a < i then a else a - 1] && r[b] == s[if b < i then b else b - 1];
      }
    }
  }

  method Sort<T(!new)>(s: seq<T>, le: (T, T) -> bool) returns (r: seq<T>)
    requires TotalPreorder(le)
    ensures SortedBy(r, le)
    ensures multiset(r) == multiset(s)
  {
    r := [];
    for i := 0 to |s|
      invariant SortedBy(r, le) && multiset(r) == multiset(s[..i])
    {
      r := Insert(r, s[i], le);
      assert s[..i + 1] == s[..i] + [s[i]];
    }
    assert s[..|s|] == s;
  }

  ghost predicate Distinct<T>(s: seq<T>) {
    forall i, j | 0 <= i < j < |s| :: s[i] != s[j]
  }

  lemma {:induction false} DistinctCounts<T>(s: seq<T>)
    requires Distinct(s)
    ensures forall x | x in multiset(s) :: multiset(s)[x] == 1
  {
    if s != [] {
      var n := |s| - 1;
      DistinctCounts(s[..n]);
      assert s == s[..n] + [s[n]];
      assert s[n] !in s[..n];
    }
  }

  lemma CountsDistinct<T>(s: seq<T>)
    requires forall x | x in multiset(s) :: multiset(s)[x] == 1
    ensures Distinct(s)
  {
    forall i, j | 0 <= i < j < |s| ensures s[i] != s[j] {
      assert s == s[..j] + s[j..];
      assert s[i] in s[..j] && s[j] in s[j..];
      assert s[i] in multiset(s[..j]) && s[j] in multiset(s[j..]);
      assert s[j] in multiset(s);
      assert multiset(s)[s[j]] == multiset(s[..j])[s[j]] + multiset(s[j..])[s[j]];
    }
  }

  /** Reordering keeps a sequence without repetitions free of them, and keeps its members. */
  lemma DistinctReordered<T>(s: seq<T>, r: seq<T>)
    requires Distinct(s) && multiset(r) == multiset(s)
    ensures Distinct(r)
    ensures forall x :: x in r <==> x in s
  {
    DistinctCounts(s);
    CountsDistinct(r);
    forall x ensures x in r <==> x in s {
      assert x in r <==> x in multiset(r);
      assert x in s <==> x in multiset(s);
    }
  }

  /** The values of an injective map in some order, each once. */
  method ValuesOf<K, V>(m: map<K, V>) returns (s: seq<V>)
    requires forall a, b | a in m && b in m && a != b :: m[a] != m[b]
    ensures Distinct(s)
    ensures forall x :: x in s <==> exists k | k in m :: m[k] == x
  {
    s := [];
    var todo := m.Keys;
    while todo != {}
      invariant todo <= m.Keys && Distinct(s)
      invariant forall x :: x in s <==> exists k | k in m && k !in todo :: m[k] == x
      decreases |todo|
    {
      var k :| k in todo;
      ghost var before := todo;
      todo := todo - {k};
      forall x ensures x in s + [m[k]] <==> exists j | j in m && j !in todo :: m[j] == x {
        if x in s {
          var j :| j in m && j !in before && m[j] == x;
        } else if x == m[k] {
          assert k in m && k !in todo;
        }
      }
      assert m[k] !in s by {
        assert forall j | j in m && j !in before :: m[j] != m[k];
      }
      s := s + [m[k]];
    }
  }
}
