/** The per-category expense breakdown that both `calculateCategoryStats` and
    `analyzeTransactions` build: a `Map` from category to summed amount over
    the records whose type is exactly `"expense"`, read out in insertion order
    and then sorted by descending value. */
module Categories {
  import opened Records
  import opened Sorting

  /** A record's amount when it is an expense in category `c`, else 0. */
  function ExpenseIn(c: string): Tx -> int
  {
    (t: Tx) => if t.kind == EXPENSE && t.category == c then t.amount else 0
  }

  /** The summed expense amount of category `c`. */
  function CategorySum(txs: seq<Tx>, c: string): int
  {
    Sum(txs, ExpenseIn(c))
  }

  /** Some record of `txs` is an expense in category `c`. */
  ghost predicate HasExpenseIn(txs: seq<Tx>, c: string)
  {
    exists i :: 0 <= i < |txs| && txs[i].kind == EXPENSE && txs[i].category == c
  }

  ghost predicate Distinct(names: seq<string>)
  {
    forall i, j :: 0 <= i < j < |names| ==> names[i] != names[j]
  }

  /** The keys of the category `Map` in insertion order: each expense category
      once, where it is first met. */
  function FirstSeen(txs: seq<Tx>): (names: seq<string>)
    ensures Distinct(names)
  {
    if txs == [] then []
    else
      var p, t := FirstSeen(txs[..|txs| - 1]), txs[|txs| - 1];
      if t.kind == EXPENSE && t.category !in p then p + [t.category] else p
  }

  /** A name is among the keys exactly when some record is an expense in it. */
  lemma {:induction false} FirstSeenMembers(txs: seq<Tx>, c: string)
    ensures c in FirstSeen(txs) <==> HasExpenseIn(txs, c)
    decreases |txs|
  {
    if txs != [] {
      var p, t := txs[..|txs| - 1], txs[|txs| - 1];
      FirstSeenMembers(p, c);
      if HasExpenseIn(p, c) {
        var i :| 0 <= i < |p| && p[i].kind == EXPENSE && p[i].category == c;
        assert txs[i] == p[i];
      }
      if HasExpenseIn(txs, c) && !(t.kind == EXPENSE && t.category == c) {
        var i :| 0 <= i < |txs| && txs[i].kind == EXPENSE && txs[i].category == c;
        assert i < |p| && p[i] == txs[i];
      }
    }
  }

  /** A category with no expense record sums to 0. */
  lemma NoExpenseNoSum(txs: seq<Tx>, c: string)
    requires !HasExpenseIn(txs, c)
    ensures CategorySum(txs, c) == 0
  {
    forall i | 0 <= i < |txs| ensures ExpenseIn(c)(txs[i]) == 0 {
    }
    SumZero(txs, ExpenseIn(c));
  }

  /** One `{ name, value }` entry per name, each with its category's sum. */
  function StatsFor(names: seq<string>, txs: seq<Tx>): (r: seq<CategoryStat>)
    ensures |r| == |names|
  {
    seq(|names|, k requires 0 <= k < |names| => CategoryStat(names[k], CategorySum(txs, names[k])))
  }

  /** `Array.from(categoryMap.entries()).map(([name, value]) => ({ name, value }))`. */
  function Breakdown(txs: seq<Tx>): seq<CategoryStat>
  {
    StatsFor(FirstSeen(txs), txs)
  }

  /** `categoryMap.get(c) || 0`. */
  function SumOrZero(m: map<string, int>, c: string): int
  {
    if c in m then m[c] else 0
  }

  /** The state of the category `Map` after the records `s`: its keys are the
      first-met expense categories and each entry holds its category's sum. */
  ghost predicate Tallied(s: seq<Tx>, names: seq<string>, m: map<string, int>)
  {
    && names == FirstSeen(s)
    && (forall c :: c in m <==> c in names)
    && (forall c :: SumOrZero(m, c) == CategorySum(s, c))
  }

  /** One step of the accumulation: an expense record adds its amount under its
      category, appending the category when it is new; any other record changes nothing. */
  lemma TallyStep(s: seq<Tx>, i: int, names: seq<string>, m: map<string, int>,
                  names': seq<string>, m': map<string, int>)
    requires 0 <= i < |s|
    requires Tallied(s[..i], names, m)
    requires s[i].kind == EXPENSE ==>
               names' == (if s[i].category in m then names else names + [s[i].category])
               && m' == m[s[i].category := SumOrZero(m, s[i].category) + s[i].amount]
    requires s[i].kind != EXPENSE ==> names' == names && m' == m
    ensures Tallied(s[..i + 1], names', m')
  {
    var t := s[i];
    assert s[..i + 1][..i] == s[..i];
    assert s[..i + 1][i] == t;
    forall c ensures SumOrZero(m', c) == CategorySum(s[..i + 1], c) {
      SumStep(s, i, ExpenseIn(c));
      assert SumOrZero(m, c) == CategorySum(s[..i], c);
      if c != t.category || t.kind != EXPENSE {
        assert ExpenseIn(c)(t) == 0;
        assert SumOrZero(m', c) == SumOrZero(m, c);
      } else {
        assert ExpenseIn(c)(t) == t.amount;
      }
    }
  }

  /** Reading the finished `Map` out in key order gives the breakdown. */
  lemma TalliedBreakdown(s: seq<Tx>, names: seq<string>, m: map<string, int>)
    requires Tallied(s, names, m)
    ensures forall k :: 0 <= k < |names| ==> names[k] in m
    ensures seq(|names|, k requires 0 <= k < |names| && names[k] in m => CategoryStat(names[k], m[names[k]]))
            == Breakdown(s)
  {
    var e := seq(|names|, k requires 0 <= k < |names| && names[k] in m => CategoryStat(names[k], m[names[k]]));
    forall k | 0 <= k < |names| ensures e[k] == Breakdown(s)[k] {
      assert SumOrZero(m, names[k]) == CategorySum(s, names[k]);
    }
  }

  /** The breakdown sorted by descending value, ties in insertion order. */
  function CategoryRanking(txs: seq<Tx>): seq<CategoryStat>
  {
    SortDesc(Breakdown(txs))
  }

  /** The stats of a non-empty name list are those of its front, then its last name's. */
  lemma StatsForLast(names: seq<string>, txs: seq<Tx>)
    requires names != []
    ensures StatsFor(names, txs)
         == StatsFor(names[..|names| - 1], txs) + [CategoryStat(names[|names| - 1], CategorySum(txs, names[|names| - 1]))]
  {
  }

  /** Appending one record adds its amount to the total over `names` exactly
      when it is an expense in one of them. */
  lemma {:induction false} StatsForSnoc(names: seq<string>, p: seq<Tx>, t: Tx)
    requires Distinct(names)
    ensures Sum(StatsFor(names, p + [t]), StatValue)
         == Sum(StatsFor(names, p), StatValue) + (if t.kind == EXPENSE && t.category in names then t.amount else 0)
    decreases |names|
  {
    if names != [] {
      var m, c := names[..|names| - 1], names[|names| - 1];
      StatsForSnoc(m, p, t);
      SumSnoc(p, t, ExpenseIn(c));
      assert c !in m by { assert names == m + [c]; }
      StatsForLast(names, p + [t]);
      StatsForLast(names, p);
      SumSnoc(StatsFor(m, p + [t]), CategoryStat(c, CategorySum(p + [t], c)), StatValue);
      SumSnoc(StatsFor(m, p), CategoryStat(c, CategorySum(p, c)), StatValue);
    }
  }

  lemma StatsForAppendName(names: seq<string>, c: string, txs: seq<Tx>)
    ensures StatsFor(names + [c], txs) == StatsFor(names, txs) + [CategoryStat(c, CategorySum(txs, c))]
  {
  }

  /** The breakdown's values add up to the total of all expense amounts. */
  lemma {:induction false} BreakdownTotal(txs: seq<Tx>)
    ensures Sum(Breakdown(txs), StatValue) == Sum(txs, ExpenseAmount)
    decreases |txs|
  {
    if txs != [] {
      var p, t := txs[..|txs| - 1], txs[|txs| - 1];
      BreakdownTotal(p);
      SplitLast(txs);
      SumSnoc(p, t, ExpenseAmount);
      var names := FirstSeen(p);
      StatsForSnoc(names, p, t);
      if t.kind == EXPENSE && t.category !in names {
        var c := t.category;
        StatsForAppendName(names, c, txs);
        SumSnoc(StatsFor(names, txs), CategoryStat(c, CategorySum(txs, c)), StatValue);
        FirstSeenMembers(p, c);
        NoExpenseNoSum(p, c);
        SumSnoc(p, t, ExpenseIn(c));
      }
    }
  }

  /** The ranking is in non-increasing order of value. */
  lemma RankingSorted(txs: seq<Tx>)
    ensures SortedDesc(CategoryRanking(txs))
  {
    SortDescSorted(Breakdown(txs));
  }

  /** Each entry's value is its category's expense sum, and no name repeats. */
  lemma RankingValues(txs: seq<Tx>)
    ensures DistinctNames(CategoryRanking(txs))
    ensures forall i :: 0 <= i < |CategoryRanking(txs)| ==>
              CategoryRanking(txs)[i].value == CategorySum(txs, CategoryRanking(txs)[i].name)
  {
    var b, r := Breakdown(txs), CategoryRanking(txs);
    assert DistinctNames(b);
    SortDescDistinct(b);
    forall i | 0 <= i < |r| ensures r[i].value == CategorySum(txs, r[i].name) {
      SortDescMembers(b, r[i]);
    }
  }

  /** A name appears in the ranking exactly when some record is an expense in it. */
  lemma RankingNames(txs: seq<Tx>, c: string)
    ensures (exists i :: 0 <= i < |CategoryRanking(txs)| && CategoryRanking(txs)[i].name == c)
            <==> HasExpenseIn(txs, c)
  {
    var names, b, r := FirstSeen(txs), Breakdown(txs), CategoryRanking(txs);
    FirstSeenMembers(txs, c);
    if HasExpenseIn(txs, c) {
      var k :| 0 <= k < |names| && names[k] == c;
      SortDescMembers(b, b[k]);
      var i :| 0 <= i < |r| && r[i] == b[k];
    }
    if i :| 0 <= i < |r| && r[i].name == c {
      SortDescMembers(b, r[i]);
      var k :| 0 <= k < |b| && b[k] == r[i];
      assert names[k] == c;
    }
  }

  /** The ranking's values add up to the total of all expense amounts. */
  lemma RankingTotal(txs: seq<Tx>)
    ensures Sum(CategoryRanking(txs), StatValue) == Sum(txs, ExpenseAmount)
  {
    SortDescSum(Breakdown(txs));
    BreakdownTotal(txs);
  }

  /** Categories with equal totals keep the order in which they were first met. */
  lemma RankingStable(txs: seq<Tx>, v: int)
    ensures WithValue(CategoryRanking(txs), v) == WithValue(Breakdown(txs), v)
  {
    SortDescStable(Breakdown(txs), v);
  }

  /** Without a single expense record the ranking is empty. */
  lemma AllIncomeEmpty(txs: seq<Tx>)
    requires forall i :: 0 <= i < |txs| ==> txs[i].kind == INCOME
    ensures CategoryRanking(txs) == []
  {
    if FirstSeen(txs) != [] {
      FirstSeenMembers(txs, FirstSeen(txs)[0]);
    }
  }
}
