/** List comprehensions over sequences: `[x for x in s if x in pool]` and
    `[x for x in s if x not in pool]`, with the facts about order and
    multiplicity that the column bookkeeping needs. */
module Lists {
  import opened Basics

  /** `[x for x in s if x in pool]`. */
  function Keep(s: seq<string>, pool: seq<string>): (r: seq<string>)
    ensures |r| <= |s|
  {
    if s == [] then [] else (if s[0] in pool then [s[0]] else []) + Keep(s[1..], pool)
  }

  /** `Keep` keeps exactly the elements of `s` in the pool. */
  lemma {:induction false} KeepMembers(s: seq<string>, pool: seq<string>)
    ensures forall x :: x in Keep(s, pool) <==> x in s && x in pool
  {
    if s != [] {
      KeepMembers(s[1..], pool);
      assert s == [s[0]] + s[1..];
    }
  }

  /** `[x for x in s if x not in pool]`. */
  function Drop(s: seq<string>, pool: seq<string>): (r: seq<string>)
    ensures |r| <= |s|
  {
    if s == [] then [] else (if s[0] in pool then [] else [s[0]]) + Drop(s[1..], pool)
  }

  /** `Drop` keeps exactly the elements of `s` outside the pool. */
  lemma {:induction false} DropMembers(s: seq<string>, pool: seq<string>)
    ensures forall x :: x in Drop(s, pool) <==> x in s && x !in pool
  {
    if s != [] {
      DropMembers(s[1..], pool);
      assert s == [s[0]] + s[1..];
    }
  }

  /** Both filters keep the order of `s`: filtering a concatenation
      filters each part. */
  lemma {:induction false} KeepConcat(a: seq<string>, b: seq<string>, pool: seq<string>)
    ensures Keep(a + b, pool) == Keep(a, pool) + Keep(b, pool)
  {
    if a == [] {
      assert a + b == b;
    } else {
      var ab := a + b;
      assert ab[0] == a[0] && ab[1..] == a[1..] + b;
      KeepConcat(a[1..], b, pool);
      var h := if a[0] in pool then [a[0]] else [];
      assert Keep(ab, pool) == h + Keep(a[1..] + b, pool);
      assert Keep(a, pool) == h + Keep(a[1..], pool);
      assert h + (Keep(a[1..], pool) + Keep(b, pool)) == (h + Keep(a[1..], pool)) + Keep(b, pool);
    }
  }

  lemma {:induction false} DropConcat(a: seq<string>, b: seq<string>, pool: seq<string>)
    ensures Drop(a + b, pool) == Drop(a, pool) + Drop(b, pool)
  {
    if a == [] {
      assert a + b == b;
    } else {
      var ab := a + b;
      assert ab[0] == a[0] && ab[1..] == a[1..] + b;
      DropConcat(a[1..], b, pool);
      var h := if a[0] in pool then [] else [a[0]];
      assert Drop(ab, pool) == h + Drop(a[1..] + b, pool);
      assert Drop(a, pool) == h + Drop(a[1..], pool);
      assert h + (Drop(a[1..], pool) + Drop(b, pool)) == (h + Drop(a[1..], pool)) + Drop(b, pool);
    }
  }

  /** Filtering a list without repetitions cannot create one. */
  lemma {:induction false} FilterDistinct(s: seq<string>, pool: seq<string>)
    requires Distinct(s)
    ensures Distinct(Keep(s, pool)) && Distinct(Drop(s, pool))
  {
    if s != [] {
      var t := s[1..];
      assert Distinct(t) by {
        forall i, j | 0 <= i < j < |t| ensures t[i] != t[j] {
          assert t[i] == s[i + 1] && t[j] == s[j + 1];
        }
      }
      FilterDistinct(t, pool);
      KeepMembers(t, pool);
      DropMembers(t, pool);
      assert s[0] !in t by {
        forall j | 0 <= j < |t| ensures t[j] != s[0] {
          assert t[j] == s[j + 1];
        }
      }
      PrependDistinct(s[0], Keep(t, pool));
      PrependDistinct(s[0], Drop(t, pool));
    }
  }

  lemma PrependDistinct(x: string, t: seq<string>)
    requires Distinct(t) && x !in t
    ensures Distinct([x] + t)
  {
    var s := [x] + t;
    forall i, j | 0 <= i < j < |s| ensures s[i] != s[j] {
      assert s[j] == t[j - 1];
      if i > 0 {
        assert s[i] == t[i - 1];
      }
    }
  }

  /** A list without repetitions holds each of its elements once. */
  lemma {:induction false} DistinctCounts(s: seq<string>, x: string)
    requires Distinct(s)
    ensures multiset(s)[x] == if x in s then 1 else 0
  {
    if s != [] {
      var t := s[1..];
      assert s == [s[0]] + t;
      assert Distinct(t) by {
        forall i, j | 0 <= i < j < |t| ensures t[i] != t[j] {
          assert t[i] == s[i + 1] && t[j] == s[j + 1];
        }
      }
      assert s[0] !in t by {
        forall j | 0 <= j < |t| ensures t[j] != s[0] {
          assert t[j] == s[j + 1];
        }
      }
      DistinctCounts(t, x);
    }
  }

  /** Two lists without repetitions and with the same members are
      permutations of each other. */
  lemma SameMembersPermutation(a: seq<string>, b: seq<string>)
    requires Distinct(a) && Distinct(b)
    requires forall x :: x in a <==> x in b
    ensures multiset(a) == multiset(b)
  {
    forall x ensures multiset(a)[x] == multiset(b)[x] {
      DistinctCounts(a, x);
      DistinctCounts(b, x);
    }
  }

  /** `Drop` only looks at which elements of `s` the pool holds. */
  lemma {:induction false} DropAgrees(s: seq<string>, p: seq<string>, q: seq<string>)
    requires forall x :: x in s ==> (x in p <==> x in q)
    ensures Drop(s, p) == Drop(s, q)
  {
    if s != [] {
      assert forall x :: x in s[1..] ==> x in s;
      DropAgrees(s[1..], p, q);
    }
  }

  /** `Keep` only looks at which elements of the pool `s` holds. */
  lemma {:induction false} KeepAgrees(s: seq<string>, p: seq<string>, q: seq<string>)
    requires forall x :: x in s ==> (x in p <==> x in q)
    ensures Keep(s, p) == Keep(s, q)
  {
    if s != [] {
      assert forall x :: x in s[1..] ==> x in s;
      KeepAgrees(s[1..], p, q);
    }
  }

  /** Dropping a pool that shares nothing with `s` changes nothing. */
  lemma {:induction false} DropDisjoint(s: seq<string>, pool: seq<string>)
    requires forall x :: x in s ==> x !in pool
    ensures Drop(s, pool) == s
  {
    if s != [] {
      assert forall x :: x in s[1..] ==> x in s;
      DropDisjoint(s[1..], pool);
      assert s == [s[0]] + s[1..];
    }
  }

  /** Dropping every element leaves nothing. */
  lemma {:induction false} DropCovered(s: seq<string>, pool: seq<string>)
    requires forall x :: x in s ==> x in pool
    ensures Drop(s, pool) == []
  {
    if s != [] {
      assert forall x :: x in s[1..] ==> x in s;
      DropCovered(s[1..], pool);
    }
  }
}
