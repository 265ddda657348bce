/** Per-category totals and the order the dashboard shows them in:
    `sort((a, b) => b.value - a.value)`, which ECMAScript requires to be
    stable, so entries with equal values keep their relative order. */
module Sorting {
  import opened Records

  datatype CategoryStat = CategoryStat(name: string, value: int)

  function StatValue(c: CategoryStat): int { c.value }

  ghost predicate SortedDesc(s: seq<CategoryStat>) {
    forall i, j :: 0 <= i < j < |s| ==> s[i].value >= s[j].value
  }

  ghost predicate DistinctNames(s: seq<CategoryStat>) {
    forall i, j :: 0 <= i < j < |s| ==> s[i].name != s[j].name
  }

  /** Inserts `x` after every entry whose value is at least its own. */
  function Insert(r: seq<CategoryStat>, x: CategoryStat): (q: seq<CategoryStat>)
    ensures |q| == |r| + 1
    ensures multiset(q) == multiset(r) + multiset{x}
  {
    if r == [] then [x]
    else if r[0].value >= x.value then
      assert r == [r[0]] + r[1..];
      [r[0]] + Insert(r[1..], x)
    else [x] + r
  }

  lemma InsertMembers(r: seq<CategoryStat>, x: CategoryStat, y: CategoryStat)
    ensures y in Insert(r, x) <==> y in r || y == x
  {
    assert y in Insert(r, x) <==> y in multiset(Insert(r, x));
    assert y in r <==> y in multiset(r);
  }

  lemma {:induction false} InsertSorted(r: seq<CategoryStat>, x: CategoryStat)
    requires SortedDesc(r)
    ensures SortedDesc(Insert(r, x))
    decreases |r|
  {
    if r != [] && r[0].value >= x.value {
      InsertSorted(r[1..], x);
      var q := Insert(r[1..], x);
      forall y | y in q ensures r[0].value >= y.value {
        InsertMembers(r[1..], x, y);
        if y != x {
          assert y in r[1..];
        }
      }
    }
  }

  lemma {:induction false} InsertDistinct(r: seq<CategoryStat>, x: CategoryStat)
    requires DistinctNames(r)
    requires forall y :: y in r ==> y.name != x.name
    ensures DistinctNames(Insert(r, x))
    decreases |r|
  {
    if r != [] && r[0].value >= x.value {
      InsertDistinct(r[1..], x);
      var q := Insert(r[1..], x);
      forall y | y in q ensures r[0].name != y.name {
        InsertMembers(r[1..], x, y);
        if y != x {
          assert y in r[1..];
          var k :| 0 <= k < |r[1..]| && r[1..][k] == y;
          assert r[k + 1] == y;
        }
      }
    }
  }

  /** The stable descending sort, as insertion sort from the left. */
  function SortDesc(s: seq<CategoryStat>): (r: seq<CategoryStat>)
    ensures |r| == |s|
    ensures multiset(r) == multiset(s)
  {
    if s == [] then []
    else
      assert s == s[..|s| - 1] + [s[|s| - 1]];
      Insert(SortDesc(s[..|s| - 1]), s[|s| - 1])
  }

  lemma SortDescMembers(s: seq<CategoryStat>, y: CategoryStat)
    ensures y in SortDesc(s) <==> y in s
  {
    assert y in SortDesc(s) <==> y in multiset(SortDesc(s));
    assert y in s <==> y in multiset(s);
  }

  /** The result is in non-increasing order of value. */
  lemma {:induction false} SortDescSorted(s: seq<CategoryStat>)
    ensures SortedDesc(SortDesc(s))
    decreases |s|
  {
    if s != [] {
      SortDescSorted(s[..|s| - 1]);
      InsertSorted(SortDesc(s[..|s| - 1]), s[|s| - 1]);
    }
  }

  /** Sorting entries with distinct names gives entries with distinct names. */
  lemma {:induction false} SortDescDistinct(s: seq<CategoryStat>)
    requires DistinctNames(s)
    ensures DistinctNames(SortDesc(s))
    decreases |s|
  {
    if s != [] {
      var p, x := s[..|s| - 1], s[|s| - 1];
      assert DistinctNames(p);
      SortDescDistinct(p);
      forall y | y in SortDesc(p) ensures y.name != x.name {
        SortDescMembers(p, y);
        var k :| 0 <= k < |p| && p[k] == y;
        assert s[k] == y;
      }
      InsertDistinct(SortDesc(p), x);
    }
  }

  /** `[x]` when `x` carries the value `v`, else nothing. */
  function IfValue(x: CategoryStat, v: int): seq<CategoryStat>
  {
    if x.value == v then [x] else []
  }

  /** The entries of `s` whose value is `v`, in their order in `s`. */
  function WithValue(s: seq<CategoryStat>, v: int): seq<CategoryStat>
  {
    if s == [] then [] else IfValue(s[0], v) + WithValue(s[1..], v)
  }

  lemma {:induction false} WithValueAppend(a: seq<CategoryStat>, b: seq<CategoryStat>, v: int)
    ensures WithValue(a + b, v) == WithValue(a, v) + WithValue(b, v)
    decreases |a|
  {
    if a != [] {
      assert (a + b)[1..] == a[1..] + b;
      WithValueAppend(a[1..], b, v);
    } else {
      assert a + b == b;
    }
  }

  lemma {:induction false} WithValueNone(s: seq<CategoryStat>, v: int)
    requires forall i :: 0 <= i < |s| ==> s[i].value < v
    ensures WithValue(s, v) == []
    decreases |s|
  {
    if s != [] {
      WithValueNone(s[1..], v);
    }
  }

  lemma WithValueCons(x: CategoryStat, s: seq<CategoryStat>, v: int)
    ensures WithValue([x] + s, v) == IfValue(x, v) + WithValue(s, v)
  {
    assert ([x] + s)[1..] == s;
  }

  /** Inserting behind the first entry is inserting into the rest. */
  lemma InsertBehind(r: seq<CategoryStat>, x: CategoryStat)
    requires r != [] && r[0].value >= x.value
    ensures Insert(r, x) == [r[0]] + Insert(r[1..], x)
  {
  }

  /** Inserting in front of a sorted list whose entries are all below `x`'s
      value adds `x`'s entry, when it has value `v`, at the end of those of value `v`. */
  lemma InsertInFrontStable(r: seq<CategoryStat>, x: CategoryStat, v: int)
    requires SortedDesc(r)
    requires r != [] && r[0].value < x.value
    ensures WithValue(Insert(r, x), v) == WithValue(r, v) + IfValue(x, v)
  {
    assert Insert(r, x) == [x] + r;
    WithValueCons(x, r, v);
    if x.value == v {
      WithValueNone(r, v);
    }
  }

  /** Putting the same entry in front of two lists keeps an equation between
      their value-`v` entries. */
  lemma WithValueConsBoth(y: CategoryStat, q: seq<CategoryStat>, t: seq<CategoryStat>, c: seq<CategoryStat>, v: int)
    requires WithValue(q, v) == WithValue(t, v) + c
    ensures WithValue([y] + q, v) == WithValue([y] + t, v) + c
  {
    WithValueCons(y, q, v);
    WithValueCons(y, t, v);
    var a, b := IfValue(y, v), WithValue(t, v);
    assert a + (b + c) == (a + b) + c;
  }

  lemma {:induction false} InsertStable(r: seq<CategoryStat>, x: CategoryStat, v: int)
    requires SortedDesc(r)
    ensures WithValue(Insert(r, x), v) == WithValue(r, v) + IfValue(x, v)
    decreases |r|
  {
    if r == [] {
      WithValueCons(x, [], v);
    } else if r[0].value >= x.value {
      assert SortedDesc(r[1..]);
      InsertStable(r[1..], x, v);
      InsertBehind(r, x);
      WithValueConsBoth(r[0], Insert(r[1..], x), r[1..], IfValue(x, v), v);
      assert [r[0]] + r[1..] == r;
    } else {
      InsertInFrontStable(r, x, v);
    }
  }

  /** Stability: for every value, the entries carrying it appear in the result
      in the same order as in the input. */
  lemma {:induction false} SortDescStable(s: seq<CategoryStat>, v: int)
    ensures WithValue(SortDesc(s), v) == WithValue(s, v)
    decreases |s|
  {
    if s != [] {
      var p, x := s[..|s| - 1], s[|s| - 1];
      SortDescStable(p, v);
      SortDescSorted(p);
      InsertStable(SortDesc(p), x, v);
      WithValueCons(x, [], v);
      assert [x] + [] == [x];
      SplitLast(s);
      WithValueAppend(p, [x], v);
    }
  }

  lemma {:induction false} InsertSum(r: seq<CategoryStat>, x: CategoryStat)
    ensures Sum(Insert(r, x), StatValue) == Sum(r, StatValue) + x.value
    decreases |r|
  {
    if r == [] {
      assert Sum([x], StatValue) == Sum([], StatValue) + x.value;
    } else if r[0].value >= x.value {
      InsertSum(r[1..], x);
      SumCons(r[0], Insert(r[1..], x), StatValue);
      SumCons(r[0], r[1..], StatValue);
      assert [r[0]] + r[1..] == r;
    } else {
      SumCons(x, r, StatValue);
    }
  }

  /** Sorting does not change the total of the values. */
  lemma {:induction false} SortDescSum(s: seq<CategoryStat>)
    ensures Sum(SortDesc(s), StatValue) == Sum(s, StatValue)
    decreases |s|
  {
    if s != [] {
      SortDescSum(s[..|s| - 1]);
      InsertSum(SortDesc(s[..|s| - 1]), s[|s| - 1]);
    }
  }

  /** `slice(0, n)`: the first `n` entries, or all of them. */
  function Take(s: seq<CategoryStat>, n: nat): (r: seq<CategoryStat>)
    ensures |r| == if |s| < n then |s| else n
    ensures r == s[..|r|]
  {
    if |s| < n then s else s[..n]
  }
}
