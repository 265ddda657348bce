/** The transaction record every aggregation consumes, and the fold that sums
    a per-record amount over a list of records. */
module Records {
  import opened Calendar

  /** `1000 * 60 * 60 * 24`, the length of a UTC day in milliseconds. */
  const MS_PER_DAY: int := 86_400_000

  const INCOME: string := "income"
  const EXPENSE: string := "expense"

  /** When a record happened: its instant in milliseconds since the Unix epoch,
      and the calendar month the platform's local calendar puts it in. */
  datatype Stamp = Stamp(ms: int, localMonth: YearMonth)

  /** A stored transaction as the dashboard receives it. `kind` is the `type`
      field, kept as the string it is, since the files disagree on how to read it. */
  datatype Tx = Tx(id: string, kind: string, amount: int, category: string,
                   description: string, date: Stamp)

  /** The UTC calendar day of an instant, counted from 1970-01-01; this is what
      the `YYYY-MM-DD` prefix of `toISOString` names. */
  function DayOf(s: Stamp): (d: int)
    ensures d * MS_PER_DAY <= s.ms < (d + 1) * MS_PER_DAY
  {
    s.ms / MS_PER_DAY
  }

  /** The amount of a record whose type is exactly `"income"`, else 0. */
  function IncomeAmount(t: Tx): int { if t.kind == INCOME then t.amount else 0 }

  /** The amount of a record whose type is exactly `"expense"`, else 0. */
  function ExpenseAmount(t: Tx): int { if t.kind == EXPENSE then t.amount else 0 }

  /** The amount of a record whose type is anything but `"income"`, else 0. */
  function NotIncomeAmount(t: Tx): int { if t.kind != INCOME then t.amount else 0 }

  /** The sum of `f` over `s`, accumulated left to right as `reduce` does. */
  function Sum<T>(s: seq<T>, f: T -> int): int
  {
    if s == [] then 0 else Sum(s[..|s| - 1], f) + f(s[|s| - 1])
  }

  /** A non-empty list is its front followed by its last element. */
  lemma SplitLast<T>(s: seq<T>)
    requires s != []
    ensures s == s[..|s| - 1] + [s[|s| - 1]]
  {
  }

  lemma SumSnoc<T>(s: seq<T>, x: T, f: T -> int)
    ensures Sum(s + [x], f) == Sum(s, f) + f(x)
  {
    assert (s + [x])[..|s|] == s;
  }

  /** One more element of a prefix adds its value. */
  lemma SumStep<T>(s: seq<T>, i: int, f: T -> int)
    requires 0 <= i < |s|
    ensures Sum(s[..i + 1], f) == Sum(s[..i], f) + f(s[i])
  {
    assert s[..i + 1][..i] == s[..i];
  }

  lemma {:induction false} SumAppend<T>(a: seq<T>, b: seq<T>, f: T -> int)
    ensures Sum(a + b, f) == Sum(a, f) + Sum(b, f)
    decreases |b|
  {
    if b == [] {
      assert a + b == a;
    } else {
      var b' := b[..|b| - 1];
      assert a + b == (a + b') + [b[|b| - 1]];
      SumSnoc(a + b', b[|b| - 1], f);
      SumSnoc(b', b[|b| - 1], f);
      assert b' + [b[|b| - 1]] == b;
      SumAppend(a, b', f);
    }
  }

  lemma SumCons<T>(x: T, s: seq<T>, f: T -> int)
    ensures Sum([x] + s, f) == f(x) + Sum(s, f)
  {
    SumAppend([x], s, f);
    assert Sum([x], f) == Sum([], f) + f(x);
  }

  /** Summing a function that is pointwise the sum of two others. */
  lemma {:induction false} SumAdd<T>(s: seq<T>, f: T -> int, g: T -> int, h: T -> int)
    requires forall i :: 0 <= i < |s| ==> h(s[i]) == f(s[i]) + g(s[i])
    ensures Sum(s, h) == Sum(s, f) + Sum(s, g)
    decreases |s|
  {
    if s != [] {
      SumAdd(s[..|s| - 1], f, g, h);
    }
  }

  /** Two functions that agree on every element have the same sum. */
  lemma {:induction false} SumExt<T>(s: seq<T>, f: T -> int, g: T -> int)
    requires forall i :: 0 <= i < |s| ==> f(s[i]) == g(s[i])
    ensures Sum(s, f) == Sum(s, g)
    decreases |s|
  {
    if s != [] {
      SumExt(s[..|s| - 1], f, g);
    }
  }

  /** A function that is 0 on every element sums to 0. */
  lemma {:induction false} SumZero<T>(s: seq<T>, f: T -> int)
    requires forall i :: 0 <= i < |s| ==> f(s[i]) == 0
    ensures Sum(s, f) == 0
    decreases |s|
  {
    if s != [] {
      SumZero(s[..|s| - 1], f);
    }
  }

  /** Taking out the element at `j` leaves the other elements, each as often. */
  lemma RemoveAtMultiset<T>(b: seq<T>, j: nat)
    requires j < |b|
    ensures multiset(b[..j] + b[j + 1..]) == multiset(b) - multiset{b[j]}
  {
    var l, r := b[..j], b[j + 1..];
    assert b == l + ([b[j]] + r);
    assert multiset(b) == multiset(l) + (multiset{b[j]} + multiset(r));
    assert multiset(l + r) == multiset(l) + multiset(r);
  }

  /** Taking out the element at `j` takes its term out of the sum. */
  lemma RemoveAtSum<T>(b: seq<T>, j: nat, f: T -> int)
    requires j < |b|
    ensures Sum(b, f) == Sum(b[..j] + b[j + 1..], f) + f(b[j])
  {
    var l, x, r := b[..j], b[j], b[j + 1..];
    assert b == (l + [x]) + r;
    SumAppend(l + [x], r, f);
    SumSnoc(l, x, f);
    SumAppend(l, r, f);
  }

  /** A sum does not depend on the order of its elements: two lists holding
      the same elements, each as often, have the same sum. */
  lemma {:induction false} SumPermutation<T>(a: seq<T>, b: seq<T>, f: T -> int)
    requires multiset(a) == multiset(b)
    ensures Sum(a, f) == Sum(b, f)
    decreases |a|
  {
    if a != [] {
      var a', x := a[..|a| - 1], a[|a| - 1];
      assert a == a' + [x];
      assert x in multiset(b);
      var j :| 0 <= j < |b| && b[j] == x;
      RemoveAtMultiset(b, j);
      RemoveAtSum(b, j, f);
      assert multiset(a') == multiset(a) - multiset{x};
      SumPermutation(a', b[..j] + b[j + 1..], f);
      SumSnoc(a', x, f);
    } else {
      assert |b| == |multiset(b)|;
    }
  }

  function AmountOf(t: Tx): int { t.amount }

  /** "Income" and "anything but income" split every amount between them. */
  lemma IncomeAndNotIncomeCoverAll(s: seq<Tx>)
    ensures Sum(s, IncomeAmount) + Sum(s, NotIncomeAmount) == Sum(s, AmountOf)
  {
    SumAdd(s, IncomeAmount, NotIncomeAmount, AmountOf);
  }

  /** When every record is typed `"income"` or `"expense"`, the "not income"
      rule and the exact `"expense"` rule give the same expense total. */
  lemma ExpenseRulesAgree(s: seq<Tx>)
    requires forall i :: 0 <= i < |s| ==> s[i].kind == INCOME || s[i].kind == EXPENSE
    ensures Sum(s, NotIncomeAmount) == Sum(s, ExpenseAmount)
  {
    SumExt(s, NotIncomeAmount, ExpenseAmount);
  }
}
