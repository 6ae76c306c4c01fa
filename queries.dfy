/** The read side of the tracker: the filters, sums, orderings and the category breakdown
    that the dashboard, the expense list and the monthly statistics compute. Each works on
    table contents (sequences of rows, in table order). Recursive definitions peel the LAST
    row, so that appending a row to a table unfolds them by one step. */
module Queries {
  import opened Tables

  // ---------------------------------------------------------------- filters

  /** `Expense.query.filter_by(user_id=uid)`: the user's expenses, in table order. */
  function OwnedBy(es: seq<Expense>, uid: nat): (r: seq<Expense>)
    ensures |r| <= |es|
    ensures forall e :: e in r <==> e in es && e.userId == uid
    ensures forall e :: multiset(r)[e] == if e.userId == uid then multiset(es)[e] else 0
  {
    if es == [] then []
    else
      assert es == es[..|es| - 1] + [es[|es| - 1]];
      OwnedBy(es[..|es| - 1], uid) + (if es[|es| - 1].userId == uid then [es[|es| - 1]] else [])
  }

  /** The month-to-date query: the user's expenses dated on or after `first`. There is no
      upper bound, so an expense dated after today is included. */
  function InMonth(es: seq<Expense>, uid: nat, first: Date): (r: seq<Expense>)
    ensures |r| <= |es|
    ensures forall e :: e in r <==> e in es && e.userId == uid && DateLe(first, e.date)
  {
    if es == [] then []
    else
      var e := es[|es| - 1];
      InMonth(es[..|es| - 1], uid, first) + (if e.userId == uid && DateLe(first, e.date) then [e] else [])
  }

  /** `category.expenses` restricted to `exp.date >= first_day`: every expense that refers
      to the category, whoever owns it. */
  function CategoryRows(es: seq<Expense>, cid: nat, first: Date): (r: seq<Expense>)
    ensures forall e :: e in r <==> e in es && e.categoryId == cid && DateLe(first, e.date)
  {
    if es == [] then []
    else
      var e := es[|es| - 1];
      CategoryRows(es[..|es| - 1], cid, first) + (if e.categoryId == cid && DateLe(first, e.date) then [e] else [])
  }

  /** `Category.query.filter_by(user_id=uid)`: the user's categories, in table order. */
  function OwnedCategories(cs: seq<Category>, uid: nat): (r: seq<Category>)
    ensures forall c :: c in r <==> c in cs && c.userId == uid
  {
    if cs == [] then []
    else OwnedCategories(cs[..|cs| - 1], uid) + (if cs[|cs| - 1].userId == uid then [cs[|cs| - 1]] else [])
  }

  lemma {:induction false} OwnedCategoriesDistinct(cs: seq<Category>, uid: nat)
    requires Distinct(CategoryIds(cs))
    ensures Distinct(CategoryIds(OwnedCategories(cs, uid)))
  {
    if cs != [] {
      var init, c := cs[..|cs| - 1], cs[|cs| - 1];
      assert cs == init + [c];
      CategoryIdsAppend(init, c);
      assert Distinct(CategoryIds(init));
      OwnedCategoriesDistinct(init, uid);
      if c.userId == uid {
        CategoryIdsAppend(OwnedCategories(init, uid), c);
        DistinctAppend(CategoryIds(OwnedCategories(init, uid)), c.id);
      }
    }
  }

  // ---------------------------------------------------------------- sums

  /** `sum(exp.amount for exp in ...)`, in cents. */
  function SumAmounts(es: seq<Expense>): int {
    if es == [] then 0 else SumAmounts(es[..|es| - 1]) + es[|es| - 1].amount
  }

  lemma SumAmountsAppend(es: seq<Expense>, e: Expense)
    ensures SumAmounts(es + [e]) == SumAmounts(es) + e.amount
  {
    assert (es + [e])[..|es|] == es;
  }

  lemma {:induction false} SumAmountsConcat(a: seq<Expense>, b: seq<Expense>)
    ensures SumAmounts(a + b) == SumAmounts(a) + SumAmounts(b)
  {
    if b != [] {
      var init, e := b[..|b| - 1], b[|b| - 1];
      assert a + b == (a + init) + [e];
      SumAmountsConcat(a, init);
      SumAmountsAppend(a + init, e);
    } else {
      assert a + b == a;
    }
  }

  /** With no negative amount among the rows, their sum is not negative. */
  lemma {:induction false} SumAmountsNonNegative(es: seq<Expense>)
    ensures (forall e :: e in es ==> e.amount >= 0) ==> SumAmounts(es) >= 0
  {
    if es != [] && forall e :: e in es ==> e.amount >= 0 {
      var init := es[..|es| - 1];
      assert forall e :: e in init ==> e in es;
      SumAmountsNonNegative(init);
    }
  }

  /** The dashboard's `total_monthly` and the `total` of the monthly statistics. */
  function MonthTotal(es: seq<Expense>, uid: nat, first: Date): (r: int)
    ensures (forall e :: e in es && e.userId == uid && DateLe(first, e.date) ==> e.amount >= 0) ==> r >= 0
  {
    SumAmountsNonNegative(InMonth(es, uid, first));
    SumAmounts(InMonth(es, uid, first))
  }

  /** The month-to-date filter distributes over the table. */
  lemma {:induction false} InMonthConcat(a: seq<Expense>, b: seq<Expense>, uid: nat, first: Date)
    ensures InMonth(a + b, uid, first) == InMonth(a, uid, first) + InMonth(b, uid, first)
  {
    if b != [] {
      var init, e := b[..|b| - 1], b[|b| - 1];
      assert a + b == (a + init) + [e];
      assert (a + b)[..|a + b| - 1] == a + init;
      InMonthConcat(a, init, uid, first);
    } else {
      assert a + b == a;
    }
  }

  /** What one row contributes to a user's month-to-date total. */
  function Contribution(e: Expense, uid: nat, first: Date): int {
    if e.userId == uid && DateLe(first, e.date) then e.amount else 0
  }

  /** Adding an expense changes a user's month-to-date total by that expense's amount when
      it is theirs and dated in the window, and not at all otherwise. */
  lemma MonthTotalAppend(es: seq<Expense>, e: Expense, uid: nat, first: Date)
    ensures MonthTotal(es + [e], uid, first) == MonthTotal(es, uid, first) + Contribution(e, uid, first)
  {
    InMonthAppend(es, e, uid, first);
    if e.userId == uid && DateLe(first, e.date) {
      SumAmountsAppend(InMonth(es, uid, first), e);
    } else {
      assert InMonth(es, uid, first) + [] == InMonth(es, uid, first);
    }
  }

  lemma InMonthAppend(es: seq<Expense>, e: Expense, uid: nat, first: Date)
    ensures InMonth(es + [e], uid, first) == InMonth(es, uid, first) + (if e.userId == uid && DateLe(first, e.date) then [e] else [])
  {
    var s := es + [e];
    assert s[..|s| - 1] == es && s[|s| - 1] == e;
  }

  lemma CategoryRowsAppend(es: seq<Expense>, e: Expense, cid: nat, first: Date)
    ensures CategoryRows(es + [e], cid, first) == CategoryRows(es, cid, first) + (if e.categoryId == cid && DateLe(first, e.date) then [e] else [])
  {
    var s := es + [e];
    assert s[..|s| - 1] == es && s[|s| - 1] == e;
  }

  /** The month-to-date total distributes over the table. */
  lemma MonthTotalConcat(a: seq<Expense>, b: seq<Expense>, uid: nat, first: Date)
    ensures MonthTotal(a + b, uid, first) == MonthTotal(a, uid, first) + MonthTotal(b, uid, first)
  {
    InMonthConcat(a, b, uid, first);
    SumAmountsConcat(InMonth(a, uid, first), InMonth(b, uid, first));
  }

  /** Removing the row at position k changes a user's month-to-date total by exactly that
      row's contribution. */
  lemma MonthTotalRemove(es: seq<Expense>, k: nat, uid: nat, first: Date)
    requires k < |es|
    ensures MonthTotal(es[..k] + es[k + 1..], uid, first) == MonthTotal(es, uid, first) - Contribution(es[k], uid, first)
  {
    var a, x, b := es[..k], es[k], es[k + 1..];
    assert es == a + ([x] + b);
    MonthTotalConcat(a, [x] + b, uid, first);
    MonthTotalConcat([x], b, uid, first);
    MonthTotalConcat(a, b, uid, first);
    MonthTotalAppend([], x, uid, first);
    assert [] + [x] == [x];
  }

  /** The total of one category in the window: `category_total` of the dashboard. */
  function CategorySum(c: Category, es: seq<Expense>, first: Date): (r: int)
    ensures (forall e :: e in es && e.categoryId == c.id && DateLe(first, e.date) ==> e.amount >= 0) ==> r >= 0
  {
    SumAmountsNonNegative(CategoryRows(es, c.id, first));
    SumAmounts(CategoryRows(es, c.id, first))
  }

  lemma CategorySumAppend(c: Category, es: seq<Expense>, e: Expense, first: Date)
    ensures CategorySum(c, es + [e], first)
         == CategorySum(c, es, first) + (if e.categoryId == c.id && DateLe(first, e.date) then e.amount else 0)
  {
    CategoryRowsAppend(es, e, c.id, first);
    if e.categoryId == c.id && DateLe(first, e.date) {
      SumAmountsAppend(CategoryRows(es, c.id, first), e);
    } else {
      assert CategoryRows(es, c.id, first) + [] == CategoryRows(es, c.id, first);
    }
  }

  // ---------------------------------------------------------------- category breakdown

  /** One entry of `category_data`: a category's name and its total in the window. */
  datatype CategoryTotal = CategoryTotal(name: string, total: int)

  /** `category_data`: for each category in order, its name and total, kept only when the
      total is greater than zero. */
  function CategoryData(cs: seq<Category>, es: seq<Expense>, first: Date): (r: seq<CategoryTotal>)
    ensures |r| <= |cs|
    ensures forall j :: 0 <= j < |r| ==> r[j].total > 0
  {
    if cs == [] then []
    else
      var c := cs[|cs| - 1];
      var t := CategorySum(c, es, first);
      CategoryData(cs[..|cs| - 1], es, first) + (if t > 0 then [CategoryTotal(c.name, t)] else [])
  }

  /** The positions of the categories whose total is positive, in increasing order. */
  ghost function Selected(cs: seq<Category>, es: seq<Expense>, first: Date): (idx: seq<nat>)
    ensures forall j :: 0 <= j < |idx| ==> idx[j] < |cs|
    ensures forall j1, j2 :: 0 <= j1 < j2 < |idx| ==> idx[j1] < idx[j2]
  {
    if cs == [] then []
    else Selected(cs[..|cs| - 1], es, first) + (if CategorySum(cs[|cs| - 1], es, first) > 0 then [|cs| - 1] else [])
  }

  lemma {:induction false} SelectedPositive(cs: seq<Category>, es: seq<Expense>, first: Date)
    ensures forall i :: 0 <= i < |cs| ==> (CategorySum(cs[i], es, first) > 0 <==> i in Selected(cs, es, first))
  {
    if cs != [] {
      var n := |cs| - 1;
      var init := cs[..n];
      SelectedPositive(init, es, first);
      var prev := Selected(init, es, first);
      var last: seq<nat> := if CategorySum(cs[n], es, first) > 0 then [n] else [];
      assert Selected(cs, es, first) == prev + last;
      forall i | 0 <= i < |cs|
        ensures CategorySum(cs[i], es, first) > 0 <==> i in prev + last
      {
        if i < n {
          assert cs[i] == init[i];
          assert i !in last;
        } else {
          assert forall j :: 0 <= j < |prev| ==> prev[j] < n;
          assert i !in prev;
        }
      }
    }
  }

  lemma {:induction false} SelectedEntries(cs: seq<Category>, es: seq<Expense>, first: Date)
    ensures var data, idx := CategoryData(cs, es, first), Selected(cs, es, first);
      |idx| == |data| &&
      forall j :: 0 <= j < |idx| ==> data[j] == CategoryTotal(cs[idx[j]].name, CategorySum(cs[idx[j]], es, first))
  {
    if cs != [] {
      var n := |cs| - 1;
      var init := cs[..n];
      SelectedEntries(init, es, first);
      var prev, d := Selected(init, es, first), CategoryData(init, es, first);
      forall j | 0 <= j < |prev|
        ensures CategoryData(cs, es, first)[j] == CategoryTotal(cs[prev[j]].name, CategorySum(cs[prev[j]], es, first))
      {
        assert CategoryData(cs, es, first)[j] == d[j];
        assert cs[prev[j]] == init[prev[j]];
      }
    }
  }

  /** The breakdown picks out, in category order, exactly the categories whose total is
      positive, each with its own name and total. The indices returned say which
      category each entry comes from. */
  lemma CategoryDataSelects(cs: seq<Category>, es: seq<Expense>, first: Date) returns (idx: seq<nat>)
    ensures var data := CategoryData(cs, es, first);
      |idx| == |data| &&
      (forall j :: 0 <= j < |idx| ==>
         idx[j] < |cs| && data[j] == CategoryTotal(cs[idx[j]].name, CategorySum(cs[idx[j]], es, first))) &&
      (forall j1, j2 :: 0 <= j1 < j2 < |idx| ==> idx[j1] < idx[j2])
    ensures forall i :: 0 <= i < |cs| ==> (CategorySum(cs[i], es, first) > 0 <==> i in idx)
  {
    idx := Selected(cs, es, first);
    SelectedPositive(cs, es, first);
    SelectedEntries(cs, es, first);
  }

  /** The sum of the totals in a breakdown. */
  function SumTotals(data: seq<CategoryTotal>): int {
    if data == [] then 0 else SumTotals(data[..|data| - 1]) + data[|data| - 1].total
  }

  /** The sum over categories of each category's total, zero totals included. */
  function CategorySums(cs: seq<Category>, es: seq<Expense>, first: Date): int {
    if cs == [] then 0 else CategorySums(cs[..|cs| - 1], es, first) + CategorySum(cs[|cs| - 1], es, first)
  }

  /** Dropping the categories with a non-positive total loses nothing from the sum when no
      amount is negative. */
  lemma {:induction false} BreakdownSumsAllCategories(cs: seq<Category>, es: seq<Expense>, first: Date)
    requires forall e :: e in es ==> e.amount >= 0
    ensures SumTotals(CategoryData(cs, es, first)) == CategorySums(cs, es, first)
  {
    if cs != [] {
      var init, c := cs[..|cs| - 1], cs[|cs| - 1];
      BreakdownSumsAllCategories(init, es, first);
      var t := CategorySum(c, es, first);
      var d := CategoryData(init, es, first);
      assert CategorySums(cs, es, first) == CategorySums(init, es, first) + t;
      assert SumTotals(CategoryData(cs, es, first)) == SumTotals(d) + t by {
        assert t >= 0;
        if t > 0 {
          var x := CategoryTotal(c.name, t);
          assert CategoryData(cs, es, first) == d + [x];
          assert (d + [x])[..|d|] == d;
        } else {
          assert CategoryData(cs, es, first) == d + [];
          assert d + [] == d;
        }
      }
    }
  }

  /** One more expense adds its amount to the sum over a set of categories with distinct
      ids exactly when it is in the window and refers to one of them. */
  lemma {:induction false} CategorySumsAppend(cs: seq<Category>, es: seq<Expense>, e: Expense, first: Date)
    requires Distinct(CategoryIds(cs))
    ensures CategorySums(cs, es + [e], first)
         == CategorySums(cs, es, first) + (if DateLe(first, e.date) && e.categoryId in CategoryIds(cs) then e.amount else 0)
  {
    if cs != [] {
      var init, c := cs[..|cs| - 1], cs[|cs| - 1];
      var ids := CategoryIds(init);
      assert cs == init + [c];
      CategoryIdsAppend(init, c);
      assert CategoryIds(cs) == ids + [c.id];
      assert Distinct(ids) by {
        forall i, j | 0 <= i < j < |ids|
          ensures ids[i] != ids[j]
        {
          assert ids[i] == CategoryIds(cs)[i] && ids[j] == CategoryIds(cs)[j];
        }
      }
      forall i | 0 <= i < |ids|
        ensures ids[i] != c.id
      {
        assert ids[i] == CategoryIds(cs)[i] && c.id == CategoryIds(cs)[|ids|];
      }
      CategorySumsAppend(init, es, e, first);
      CategorySumAppend(c, es, e, first);
    }
  }

  /** The intended cross-table rule, which the handlers do not check: every expense refers
      to an existing category owned by the expense's own user. Both an expense and a
      category point to a user, and an expense points to a category (app.py:24-25, 37). */
  predicate CategoriesMatch(cs: seq<Category>, es: seq<Expense>) {
    forall e :: e in es ==> exists c :: c in cs && c.id == e.categoryId && c.userId == e.userId
  }

  /** Adding a row to the expense table keeps the invariant exactly when the new row's
      category exists and belongs to the row's user. */
  lemma CategoriesMatchAppend(cs: seq<Category>, es: seq<Expense>, e: Expense)
    requires CategoriesMatch(cs, es)
    ensures CategoriesMatch(cs, es + [e]) <==> exists c :: c in cs && c.id == e.categoryId && c.userId == e.userId
  {
    assert e in es + [e];
  }

  /** Replacing one row keeps the invariant exactly when the replacement satisfies it. */
  lemma CategoriesMatchUpdate(cs: seq<Category>, es: seq<Expense>, k: nat, e: Expense)
    requires CategoriesMatch(cs, es) && k < |es|
    ensures CategoriesMatch(cs, es[k := e]) <==> exists c :: c in cs && c.id == e.categoryId && c.userId == e.userId
  {
    assert es[k := e][k] == e;
    forall x | x in es[k := e] && x != e ensures x in es {
      var i :| 0 <= i < |es[k := e]| && es[k := e][i] == x;
      assert es[i] == x;
    }
  }

  /** Removing an expense keeps the invariant. */
  lemma CategoriesMatchRemoveExpense(cs: seq<Category>, es: seq<Expense>, k: nat)
    requires CategoriesMatch(cs, es) && k < |es|
    ensures CategoriesMatch(cs, es[..k] + es[k + 1..])
  {
    var r := es[..k] + es[k + 1..];
    forall x | x in r ensures x in es {
      var i :| 0 <= i < |r| && r[i] == x;
      if i < k {
        assert es[i] == x;
      } else {
        assert es[i + 1] == x;
      }
    }
  }

  /** Adding categories keeps the invariant. */
  lemma CategoriesMatchMoreCategories(cs: seq<Category>, more: seq<Category>, es: seq<Expense>)
    requires CategoriesMatch(cs, es)
    ensures CategoriesMatch(cs + more, es)
  {
    forall e | e in es ensures exists c :: c in cs + more && c.id == e.categoryId && c.userId == e.userId {
      var c :| c in cs && c.id == e.categoryId && c.userId == e.userId;
      assert c in cs + more;
    }
  }

  /** Removing a category that no expense refers to keeps the invariant. */
  lemma CategoriesMatchRemoveCategory(cs: seq<Category>, k: nat, es: seq<Expense>)
    requires CategoriesMatch(cs, es) && k < |cs|
    requires forall e :: e in es ==> e.categoryId != cs[k].id
    ensures CategoriesMatch(cs[..k] + cs[k + 1..], es)
  {
    forall e | e in es ensures exists c :: c in cs[..k] + cs[k + 1..] && c.id == e.categoryId && c.userId == e.userId {
      var c :| c in cs && c.id == e.categoryId && c.userId == e.userId;
      var m :| 0 <= m < |cs| && cs[m] == c;
      assert m != k;
      if m < k {
        assert (cs[..k] + cs[k + 1..])[m] == c;
      } else {
        assert (cs[..k] + cs[k + 1..])[m - 1] == c;
      }
    }
  }

  /** Under that invariant, an expense refers to one of the user's categories exactly when
      the expense is the user's. */
  lemma RefersToOwnCategory(cs: seq<Category>, e: Expense, uid: nat)
    requires Distinct(CategoryIds(cs))
    requires exists c :: c in cs && c.id == e.categoryId && c.userId == e.userId
    ensures e.categoryId in CategoryIds(OwnedCategories(cs, uid)) <==> e.userId == uid
  {
    var c :| c in cs && c.id == e.categoryId && c.userId == e.userId;
    var ucs := OwnedCategories(cs, uid);
    if e.userId == uid {
      var i :| 0 <= i < |ucs| && ucs[i] == c;
      assert CategoryIds(ucs)[i] == e.categoryId;
    }
    if e.categoryId in CategoryIds(ucs) {
      var i :| 0 <= i < |ucs| && CategoryIds(ucs)[i] == e.categoryId;
      assert ucs[i] in cs;
      SameCategoryId(cs, ucs[i], c);
    }
  }

  lemma {:induction false} CategorySumsIsMonthTotal(cs: seq<Category>, es: seq<Expense>, uid: nat, first: Date)
    requires Distinct(CategoryIds(cs))
    requires CategoriesMatch(cs, es)
    ensures CategorySums(OwnedCategories(cs, uid), es, first) == MonthTotal(es, uid, first)
  {
    var ucs := OwnedCategories(cs, uid);
    if es == [] {
      assert CategorySums(ucs, [], first) == 0 by {
        ZeroCategorySums(ucs, first);
      }
    } else {
      var init, e := es[..|es| - 1], es[|es| - 1];
      assert es == init + [e];
      assert e in es;
      CategorySumsIsMonthTotal(cs, init, uid, first);
      OwnedCategoriesDistinct(cs, uid);
      CategorySumsAppend(ucs, init, e, first);
      MonthTotalAppend(init, e, uid, first);
      RefersToOwnCategory(cs, e, uid);
    }
  }

  lemma {:induction false} ZeroCategorySums(cs: seq<Category>, first: Date)
    ensures CategorySums(cs, [], first) == 0
  {
    if cs != [] {
      ZeroCategorySums(cs[..|cs| - 1], first);
    }
  }

  /** When category ids are distinct, every expense's category is its owner's, and no amount
      is negative, the dashboard's total equals the sum of its category breakdown. */
  lemma ReconcileTotals(cs: seq<Category>, es: seq<Expense>, uid: nat, first: Date)
    requires Distinct(CategoryIds(cs))
    requires CategoriesMatch(cs, es)
    requires forall e :: e in es ==> e.amount >= 0
    ensures SumTotals(CategoryData(OwnedCategories(cs, uid), es, first)) == MonthTotal(es, uid, first)
  {
    BreakdownSumsAllCategories(OwnedCategories(cs, uid), es, first);
    CategorySumsIsMonthTotal(cs, es, uid, first);
  }

  /** Without the invariant they differ: another user's expense filed under this user's
      category shows in this user's breakdown but not in this user's total. */
  lemma CrossUserExpenseBreaksReconciliation(c: Category, e: Expense, first: Date)
    requires e.categoryId == c.id && e.userId != c.userId && e.amount > 0 && DateLe(first, e.date)
    ensures !CategoriesMatch([c], [e])
    ensures CategoryData(OwnedCategories([c], c.userId), [e], first) == [CategoryTotal(c.name, e.amount)]
    ensures MonthTotal([e], c.userId, first) == 0
  {
    assert !CategoriesMatch([c], [e]) by {
      assert e in [e] && forall x :: x in [c] ==> x == c;
    }
    assert OwnedCategories([c], c.userId) == [c] by {
      assert [c][..0] == [];
    }
    OneRowBreakdown(c, e, first);
    OneRowMonthTotal(e, c.userId, first);
  }

  /** A negative amount breaks it too, even when the invariant holds: a category whose
      total is negative is dropped from the breakdown but still counts in the total. */
  lemma NegativeTotalBreaksReconciliation(c: Category, e: Expense, first: Date)
    requires e.categoryId == c.id && e.userId == c.userId && e.amount < 0 && DateLe(first, e.date)
    ensures CategoriesMatch([c], [e])
    ensures CategoryData(OwnedCategories([c], c.userId), [e], first) == []
    ensures MonthTotal([e], c.userId, first) == e.amount
  {
    assert CategoriesMatch([c], [e]) by {
      assert c in [c];
      assert forall x :: x in [e] ==> x == e;
    }
    assert OwnedCategories([c], c.userId) == [c] by {
      assert [c][..0] == [];
    }
    assert CategoryData([c], [e], first) == [] by {
      assert CategorySum(c, [e], first) == e.amount by {
        CategorySumAppend(c, [], e, first);
        assert [] + [e] == [e];
      }
      assert [c][..0] == [] && [c][0] == c;
      assert CategoryData([], [e], first) == [];
    }
    OneRowMonthTotal(e, c.userId, first);
  }

  /** A single category with a single in-window row of positive amount: the breakdown is
      that one entry. */
  lemma OneRowBreakdown(c: Category, e: Expense, first: Date)
    requires e.categoryId == c.id && e.amount > 0 && DateLe(first, e.date)
    ensures CategoryData([c], [e], first) == [CategoryTotal(c.name, e.amount)]
  {
    assert CategorySum(c, [e], first) == e.amount by {
      CategorySumAppend(c, [], e, first);
      assert [] + [e] == [e];
    }
    assert [c][..0] == [] && [c][0] == c;
    assert CategoryData([], [e], first) == [];
  }

  /** The month-to-date total of a one-row table is that row's contribution. */
  lemma OneRowMonthTotal(e: Expense, uid: nat, first: Date)
    ensures MonthTotal([e], uid, first) == Contribution(e, uid, first)
  {
    MonthTotalAppend([], e, uid, first);
    assert [] + [e] == [e];
  }

  /** The positions of the table holding a user's month-to-date rows. */
  ghost function InMonthPositions(es: seq<Expense>, uid: nat, first: Date): set<nat> {
    set i: nat | i < |es| && es[i].userId == uid && DateLe(first, es[i].date)
  }

  /** The month-to-date query returns one row per matching position of the table. */
  lemma {:induction false} InMonthCount(es: seq<Expense>, uid: nat, first: Date)
    ensures |InMonth(es, uid, first)| == |InMonthPositions(es, uid, first)|
  {
    if es != [] {
      var n := |es| - 1;
      var init, e := es[..n], es[n];
      var hit := e.userId == uid && DateLe(first, e.date);
      InMonthCount(init, uid, first);
      var before := InMonthPositions(init, uid, first);
      var last: set<nat> := if hit then {n} else {};
      assert |InMonth(es, uid, first)| == |InMonth(init, uid, first)| + |last|;
      PositionsStep(es, uid, first);
      assert before !! last;
    }
  }

  lemma PositionsStep(es: seq<Expense>, uid: nat, first: Date)
    requires es != []
    ensures var n := |es| - 1;
      InMonthPositions(es, uid, first)
      == InMonthPositions(es[..n], uid, first) + (if es[n].userId == uid && DateLe(first, es[n].date) then {n} else {})
  {
    var n := |es| - 1;
    var init := es[..n];
    forall i: nat | i < n
      ensures es[i] == init[i]
    {
    }
  }

  /** The month-to-date rows of a user are among that user's rows. */
  lemma {:induction false} InMonthWithinOwned(es: seq<Expense>, uid: nat, first: Date)
    ensures |InMonth(es, uid, first)| <= |OwnedBy(es, uid)|
  {
    if es != [] {
      InMonthWithinOwned(es[..|es| - 1], uid, first);
    }
  }

  /** `User.query.filter_by(username=name).first()`: the position of the first user with
      that name. */
  function FindUser(us: seq<User>, name: string): (r: Option<nat>)
    ensures r.None? <==> forall i :: 0 <= i < |us| ==> us[i].username != name
    ensures r.Some? ==> r.value < |us| && us[r.value].username == name
    ensures r.Some? ==> forall j :: 0 <= j < r.value ==> us[j].username != name
  {
    if us == [] then None
    else if us[0].username == name then Some(0)
    else match FindUser(us[1..], name)
      case None => None
      case Some(k) => Some(k + 1)
  }

  // ---------------------------------------------------------------- highest category

  /** Python's `max(data, key=total)`: the position of the first entry with the largest
      total (a later entry replaces the current one only when strictly larger). */
  function MaxIndex(data: seq<CategoryTotal>): (k: nat)
    requires |data| > 0
    ensures k < |data|
    ensures forall j :: 0 <= j < |data| ==> data[j].total <= data[k].total
    ensures forall j :: 0 <= j < k ==> data[j].total < data[k].total
  {
    if |data| == 1 then 0
    else
      var m := MaxIndex(data[..|data| - 1]);
      if data[|data| - 1].total > data[m].total then |data| - 1 else m
  }

  /** `highest_category`: absent when the breakdown is empty, otherwise its first entry
      with a maximal total. */
  function HighestCategory(data: seq<CategoryTotal>): (r: Option<CategoryTotal>)
    ensures r.None? <==> data == []
    ensures r.Some? ==> forall j :: 0 <= j < |data| ==> data[j].total <= r.value.total
    ensures r.Some? ==> exists k :: 0 <= k < |data| && data[k] == r.value && forall j :: 0 <= j < k ==> data[j].total < r.value.total
  {
    if data == [] then None
    else
      var k := MaxIndex(data);
      Some(data[k])
  }

  // ---------------------------------------------------------------- ordering

  /** `order_by(Expense.date.desc())`: no expense is dated after one that precedes it. */
  predicate SortedByDateDesc(s: seq<Expense>) {
    forall i, j :: 0 <= i < j < |s| ==> DateLe(s[j].date, s[i].date)
  }

  /** Places x after every row dated on or after it. */
  function Insert(x: Expense, s: seq<Expense>): (r: seq<Expense>)
    ensures |r| == |s| + 1
    ensures r[0] == if s != [] && DateLe(x.date, s[0].date) then s[0] else x
    ensures multiset(r) == multiset(s) + multiset{x}
  {
    if s == [] then [x]
    else if DateLe(x.date, s[0].date) then
      assert s == [s[0]] + s[1..];
      [s[0]] + Insert(x, s[1..])
    else [x] + s
  }

  lemma {:induction false} InsertSorted(x: Expense, s: seq<Expense>)
    requires SortedByDateDesc(s)
    ensures SortedByDateDesc(Insert(x, s))
  {
    if s != [] && DateLe(x.date, s[0].date) {
      var rest := Insert(x, s[1..]);
      InsertSorted(x, s[1..]);
      var r := [s[0]] + rest;
      forall i, j | 0 <= i < j < |r| ensures DateLe(r[j].date, r[i].date) {
        if i == 0 {
          assert DateLe(rest[j - 1].date, rest[0].date);
        }
      }
    }
  }

  /** The date-descending order of the expense list. Rows with equal dates keep their
      table order. */
  function SortByDateDesc(s: seq<Expense>): (r: seq<Expense>)
    ensures SortedByDateDesc(r)
    ensures multiset(r) == multiset(s)
  {
    if s == [] then []
    else
      assert s == s[..|s| - 1] + [s[|s| - 1]];
      InsertSorted(s[|s| - 1], SortByDateDesc(s[..|s| - 1]));
      Insert(s[|s| - 1], SortByDateDesc(s[..|s| - 1]))
  }

  /** `.limit(n)` on a date-descending arrangement of the rows `rows` keeps n of the newest:
      what is left out is dated no later than anything kept. */
  lemma Newest(s: seq<Expense>, rows: seq<Expense>, n: nat)
    requires SortedByDateDesc(s) && multiset(s) == multiset(rows)
    ensures var k := if n < |rows| then n else |rows|;
      k <= |s| &&
      SortedByDateDesc(s[..k]) &&
      multiset(s[..k]) <= multiset(rows) &&
      forall i, e :: 0 <= i < k && e in multiset(rows) - multiset(s[..k]) ==> DateLe(e.date, s[i].date)
  {
    assert |s| == |multiset(s)| == |multiset(rows)| == |rows|;
    var k := if n < |s| then n else |s|;
    assert s == s[..k] + s[k..];
    assert multiset(rows) - multiset(s[..k]) == multiset(s[k..]);
    PrefixSorted(s, k);
    SuffixNotNewer(s, k);
  }

  lemma PrefixSorted(s: seq<Expense>, k: nat)
    requires SortedByDateDesc(s) && k <= |s|
    ensures SortedByDateDesc(s[..k])
  {
    forall i, j | 0 <= i < j < k
      ensures DateLe(s[..k][j].date, s[..k][i].date)
    {
      assert s[..k][i] == s[i] && s[..k][j] == s[j];
    }
  }

  lemma SuffixNotNewer(s: seq<Expense>, k: nat)
    requires SortedByDateDesc(s) && k <= |s|
    ensures forall i, e :: 0 <= i < k && e in multiset(s[k..]) ==> DateLe(e.date, s[i].date)
  {
    forall i, e | 0 <= i < k && e in multiset(s[k..])
      ensures DateLe(e.date, s[i].date)
    {
      var j :| 0 <= j < |s[k..]| && s[k..][j] == e;
      assert s[k..][j] == s[k + j];
    }
  }

  /** The first n rows of the date-descending arrangement: n of the newest rows. */
  function Latest(rows: seq<Expense>, n: nat): (r: seq<Expense>)
    ensures |r| == if n < |rows| then n else |rows|
    ensures SortedByDateDesc(r)
    ensures multiset(r) <= multiset(rows)
    ensures forall i, e :: 0 <= i < |r| && e in multiset(rows) - multiset(r) ==> DateLe(e.date, r[i].date)
  {
    var s := SortByDateDesc(rows);
    Newest(s, rows, n);
    s[..if n < |rows| then n else |rows|]
  }
}
