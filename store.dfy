/** The request handlers of the tracker as operations on an in-memory store of the three
    tables. The logged-in user arrives as the parameter `uid`; the clock arrives as `today`;
    the password hash and check arrive as functions. */
module Tracker {
  import opened Tables
  import opened Queries

  /** The categories every new user starts with, in the order registration creates them. */
  const DefaultCategoryNames: seq<string> :=
    ["Food", "Transportation", "Entertainment", "Utilities", "Shopping", "Healthcare"]

  /** The rows that registration adds for user `uid` when the category table's next id is
      `start`: one per default name, in order, with consecutive ids. */
  function DefaultCategories(start: nat, uid: nat): (r: seq<Category>)
    ensures |r| == |DefaultCategoryNames|
    ensures forall i :: 0 <= i < |r| ==> r[i] == Category(start + i, DefaultCategoryNames[i], uid)
  {
    seq(|DefaultCategoryNames|, i requires 0 <= i < |DefaultCategoryNames| => Category(start + i, DefaultCategoryNames[i], uid))
  }

  predicate HasUsername(us: seq<User>, name: string) {
    exists i :: 0 <= i < |us| && us[i].username == name
  }

  predicate HasEmail(us: seq<User>, email: string) {
    exists i :: 0 <= i < |us| && us[i].email == email
  }

  /** `Category.query.filter_by(name=name, user_id=uid).first()` finds a row. */
  predicate HasCategoryNamed(cs: seq<Category>, uid: nat, name: string) {
    exists i :: 0 <= i < |cs| && cs[i].userId == uid && cs[i].name == name
  }

  /** `category.expenses` is not empty: some expense, of any user, refers to the category. */
  predicate InUse(es: seq<Expense>, cid: nat) {
    exists i :: 0 <= i < |es| && es[i].categoryId == cid
  }

  /** The category with id `cid` exists and belongs to `uid`. */
  predicate OwnsCategory(cs: seq<Category>, uid: nat, cid: nat) {
    exists c :: c in cs && c.id == cid && c.userId == uid
  }

  /** The unique constraints on the username and email columns. */
  predicate UniqueUsers(us: seq<User>) {
    (forall i, j :: 0 <= i < j < |us| ==> us[i].username != us[j].username) &&
    (forall i, j :: 0 <= i < j < |us| ==> us[i].email != us[j].email)
  }

  lemma AddUserKeepsUnique(us: seq<User>, u: User)
    requires UniqueUsers(us) && !HasUsername(us, u.username) && !HasEmail(us, u.email)
    ensures UniqueUsers(us + [u])
  {
    forall i, j | 0 <= i < j < |us| + 1
      ensures (us + [u])[i].username != (us + [u])[j].username && (us + [u])[i].email != (us + [u])[j].email
    {
      assert (us + [u])[i] == us[i];
    }
  }

  /** The loop of the `register` handler: the category table after one row per default
      name is staged for user `uid`, in order. The rows get their ids when the session is
      flushed, one after another from the next free id `start`. */
  method SeedDefaultCategories(cs: seq<Category>, uid: nat, start: nat) returns (seeded: seq<Category>)
    ensures seeded == cs + DefaultCategories(start, uid)
  {
    seeded := cs;
    var i := 0;
    while i < |DefaultCategoryNames|
      invariant 0 <= i <= |DefaultCategoryNames|
      invariant seeded == cs + DefaultCategories(start, uid)[..i]
    {
      TakeOneMore(DefaultCategories(start, uid), i);
      seeded := seeded + [Category(start + i, DefaultCategoryNames[i], uid)];
      i := i + 1;
    }
  }

  lemma TakeOneMore(s: seq<Category>, i: nat)
    requires i < |s|
    ensures s[..i + 1] == s[..i] + [s[i]]
  {
  }

  /** The seeded rows take ids no existing row has, and distinct from one another. */
  lemma SeededDistinct(cs: seq<Category>, uid: nat)
    requires Distinct(CategoryIds(cs))
    ensures Distinct(CategoryIds(cs + DefaultCategories(NextId(CategoryIds(cs)), uid)))
  {
    var start := NextId(CategoryIds(cs));
    var all := cs + DefaultCategories(start, uid);
    var ids := CategoryIds(all);
    forall i, j | 0 <= i < j < |ids| ensures ids[i] != ids[j] {
      if j >= |cs| {
        assert ids[j] == start + (j - |cs|);
        if i < |cs| {
          assert ids[i] == CategoryIds(cs)[i];
        } else {
          assert ids[i] == start + (i - |cs|);
        }
      } else {
        assert ids[i] == CategoryIds(cs)[i] && ids[j] == CategoryIds(cs)[j];
      }
    }
  }

  /** The loop of the `dashboard` handler that builds `category_data`. */
  method Breakdown(cats: seq<Category>, es: seq<Expense>, first: Date) returns (data: seq<CategoryTotal>)
    ensures data == CategoryData(cats, es, first)
  {
    data := [];
    var i := 0;
    while i < |cats|
      invariant 0 <= i <= |cats|
      invariant data == CategoryData(cats[..i], es, first)
    {
      assert cats[..i + 1][..i] == cats[..i];
      var t := CategorySum(cats[i], es, first);
      if t > 0 {
        data := data + [CategoryTotal(cats[i].name, t)];
      }
      i := i + 1;
    }
    assert cats[..i] == cats;
  }

  /** What the dashboard page shows. */
  datatype DashboardView = DashboardView(
    total: int,
    categoryData: seq<CategoryTotal>,
    recent: seq<Expense>,
    highest: Option<CategoryTotal>)

  /** The JSON body of the monthly statistics. */
  datatype Stats = Stats(total: int, count: nat)

  class Store {
    var users: seq<User>
    var categories: seq<Category>
    var expenses: seq<Expense>

    /** The constraints of the schema: primary keys, and unique usernames and emails. */
    ghost predicate Valid()
      reads this
    {
      Distinct(UserIds(users)) && Distinct(CategoryIds(categories)) && Distinct(ExpenseIds(expenses)) &&
      UniqueUsers(users)
    }

    /** The intended rule that no handler enforces: each expense is filed under a category
        of its own user. */
    ghost predicate Consistent()
      reads this
    {
      CategoriesMatch(categories, expenses)
    }

    /** `db.create_all()` on a fresh database. */
    constructor ()
      ensures Valid() && Consistent()
      ensures users == [] && categories == [] && expenses == []
    {
      users, categories, expenses := [], [], [];
    }

    /** The `register` handler. */
    method Register(username: string, email: string, password: string, hashPassword: string -> string)
      returns (r: Result<nat>)
      requires Valid()
      modifies this
      ensures Valid()
      ensures old(HasUsername(users, username)) ==> r == Err(UsernameTaken) && unchanged(this)
      ensures !old(HasUsername(users, username)) && old(HasEmail(users, email)) ==>
        r == Err(EmailTaken) && unchanged(this)
      ensures !old(HasUsername(users, username)) && !old(HasEmail(users, email)) ==>
        r == Ok(NextId(UserIds(old(users)))) &&
        users == old(users) + [User(r.value, username, email, hashPassword(password))] &&
        categories == old(categories) + DefaultCategories(NextId(CategoryIds(old(categories))), r.value) &&
        expenses == old(expenses)
      ensures old(Consistent()) ==> Consistent()
    {
      if HasUsername(users, username) {
        return Err(UsernameTaken);
      }
      if HasEmail(users, email) {
        return Err(EmailTaken);
      }
      var uid := NextId(UserIds(users));
      var u := User(uid, username, email, hashPassword(password));
      UserIdsAppend(users, u);
      DistinctAppend(UserIds(users), uid);
      AddUserKeepsUnique(users, u);
      users := users + [u];
      var seeded := SeedDefaultCategories(categories, uid, NextId(CategoryIds(categories)));
      SeededDistinct(categories, uid);
      if CategoriesMatch(categories, expenses) {
        CategoriesMatchMoreCategories(categories, DefaultCategories(NextId(CategoryIds(categories)), uid), expenses);
      }
      categories := seeded;
      r := Ok(uid);
    }

    /** The `login` handler: one failure, whether the name is unknown or the password is wrong. */
    function Login(username: string, password: string, checkPassword: (string, string) -> bool): (r: Result<nat>)
      reads this
      requires Valid()
      ensures r.Ok? <==>
        exists i :: 0 <= i < |users| && users[i].username == username && checkPassword(users[i].passwordHash, password)
      ensures r.Ok? ==> exists i :: 0 <= i < |users| && users[i].username == username && users[i].id == r.value
      ensures r.Err? ==> r.error == InvalidCredentials
    {
      match FindUser(users, username)
      case None => Err(InvalidCredentials)
      case Some(k) =>
        if checkPassword(users[k].passwordHash, password) then Ok(users[k].id) else Err(InvalidCredentials)
    }

    /** The `add_category` handler. */
    method AddCategory(uid: nat, name: string) returns (r: Result<nat>)
      requires Valid()
      modifies this
      ensures Valid() && users == old(users) && expenses == old(expenses)
      ensures old(HasCategoryNamed(categories, uid, name)) ==>
        r == Err(DuplicateCategory) && categories == old(categories)
      ensures !old(HasCategoryNamed(categories, uid, name)) ==>
        r == Ok(NextId(CategoryIds(old(categories)))) && categories == old(categories) + [Category(r.value, name, uid)]
      ensures old(Consistent()) ==> Consistent()
    {
      if HasCategoryNamed(categories, uid, name) {
        return Err(DuplicateCategory);
      }
      var c := Category(NextId(CategoryIds(categories)), name, uid);
      CategoryIdsAppend(categories, c);
      DistinctAppend(CategoryIds(categories), c.id);
      if CategoriesMatch(categories, expenses) {
        CategoriesMatchMoreCategories(categories, [c], expenses);
      }
      categories := categories + [c];
      r := Ok(c.id);
    }

    /** The `delete_category` handler: not found, then not the owner, then still in use. */
    method DeleteCategory(uid: nat, id: nat) returns (r: Result<()>)
      requires Valid()
      modifies this
      ensures Valid() && users == old(users) && expenses == old(expenses)
      ensures var k := IndexOf(CategoryIds(old(categories)), id);
        if k.None? then r == Err(NotFound) && categories == old(categories)
        else if old(categories)[k.value].userId != uid then r == Err(Forbidden) && categories == old(categories)
        else if InUse(expenses, id) then r == Err(CategoryInUse) && categories == old(categories)
        else r == Ok(()) && categories == old(categories)[..k.value] + old(categories)[k.value + 1..]
      ensures old(Consistent()) ==> Consistent()
    {
      var k := IndexOf(CategoryIds(categories), id);
      if k.None? {
        return Err(NotFound);
      }
      if categories[k.value].userId != uid {
        return Err(Forbidden);
      }
      if InUse(expenses, id) {
        return Err(CategoryInUse);
      }
      CategoryIdsRemove(categories, k.value);
      DistinctRemove(CategoryIds(categories), k.value);
      if CategoriesMatch(categories, expenses) {
        CategoriesMatchRemoveCategory(categories, k.value, expenses);
      }
      categories := categories[..k.value] + categories[k.value + 1..];
      r := Ok(());
    }

    /** The `add_expense` handler. The category is not checked to be the user's and the
        amount is not checked to be non-negative. */
    method AddExpense(uid: nat, amount: int, description: string, date: Date, categoryId: nat)
      returns (id: nat)
      requires Valid()
      modifies this
      ensures Valid() && users == old(users) && categories == old(categories)
      ensures id == NextId(ExpenseIds(old(expenses)))
      ensures expenses == old(expenses) + [Expense(id, amount, description, date, uid, categoryId)]
      ensures old(Consistent()) ==> (Consistent() <==> OwnsCategory(categories, uid, categoryId))
    {
      var e := Expense(NextId(ExpenseIds(expenses)), amount, description, date, uid, categoryId);
      ExpenseIdsAppend(expenses, e);
      DistinctAppend(ExpenseIds(expenses), e.id);
      if CategoriesMatch(categories, expenses) {
        CategoriesMatchAppend(categories, expenses, e);
      }
      expenses := expenses + [e];
      id := e.id;
    }

    /** The `edit_expense` handler: only amount, description, date and category change. */
    method EditExpense(uid: nat, id: nat, amount: int, description: string, date: Date, categoryId: nat)
      returns (r: Result<()>)
      requires Valid()
      modifies this
      ensures Valid() && users == old(users) && categories == old(categories)
      ensures var k := IndexOf(ExpenseIds(old(expenses)), id);
        if k.None? then r == Err(NotFound) && expenses == old(expenses)
        else if old(expenses)[k.value].userId != uid then r == Err(Forbidden) && expenses == old(expenses)
        else (r == Ok(()) &&
          expenses == old(expenses)[k.value := old(expenses)[k.value].(
            amount := amount, description := description, date := date, categoryId := categoryId)])
      ensures old(Consistent()) && r.Ok? ==> (Consistent() <==> OwnsCategory(categories, uid, categoryId))
      ensures old(Consistent()) && r.Err? ==> Consistent()
    {
      var k := IndexOf(ExpenseIds(expenses), id);
      if k.None? {
        return Err(NotFound);
      }
      var old_e := expenses[k.value];
      if old_e.userId != uid {
        return Err(Forbidden);
      }
      var e := old_e.(amount := amount, description := description, date := date, categoryId := categoryId);
      ExpenseIdsUpdate(expenses, k.value, e);
      if CategoriesMatch(categories, expenses) {
        CategoriesMatchUpdate(categories, expenses, k.value, e);
      }
      expenses := expenses[k.value := e];
      r := Ok(());
    }

    /** The `delete_expense` handler. */
    method DeleteExpense(uid: nat, id: nat) returns (r: Result<()>)
      requires Valid()
      modifies this
      ensures Valid() && users == old(users) && categories == old(categories)
      ensures var k := IndexOf(ExpenseIds(old(expenses)), id);
        if k.None? then r == Err(NotFound) && expenses == old(expenses)
        else if old(expenses)[k.value].userId != uid then r == Err(Forbidden) && expenses == old(expenses)
        else r == Ok(()) && expenses == old(expenses)[..k.value] + old(expenses)[k.value + 1..]
      ensures old(Consistent()) ==> Consistent()
    {
      var k := IndexOf(ExpenseIds(expenses), id);
      if k.None? {
        return Err(NotFound);
      }
      if expenses[k.value].userId != uid {
        return Err(Forbidden);
      }
      ExpenseIdsRemove(expenses, k.value);
      DistinctRemove(ExpenseIds(expenses), k.value);
      if CategoriesMatch(categories, expenses) {
        CategoriesMatchRemoveExpense(categories, expenses, k.value);
      }
      expenses := expenses[..k.value] + expenses[k.value + 1..];
      r := Ok(());
    }

    /** The expense list of the `expenses` handler: all of the user's expenses, newest first. */
    function ListExpenses(uid: nat): (r: seq<Expense>)
      reads this
      ensures SortedByDateDesc(r)
      ensures multiset(r) == multiset(OwnedBy(expenses, uid))
      ensures forall e :: e in r <==> e in expenses && e.userId == uid
    {
      var s := SortByDateDesc(OwnedBy(expenses, uid));
      assert forall e :: e in s <==> e in multiset(OwnedBy(expenses, uid));
      s
    }

    /** The category list of the `expenses` and `categories` handlers: the user's own
        categories, in table order. */
    function ListCategories(uid: nat): (r: seq<Category>)
      reads this
      ensures forall c :: c in r <==> c in categories && c.userId == uid
    {
      OwnedCategories(categories, uid)
    }

    /** `recent_expenses` of the dashboard: the first five of the expense list, which are
        five of the newest of the user's expenses. */
    function RecentExpenses(uid: nat): (r: seq<Expense>)
      reads this
      ensures |r| <= |ListExpenses(uid)| && r == ListExpenses(uid)[..|r|]
      ensures |r| == if |OwnedBy(expenses, uid)| < 5 then |OwnedBy(expenses, uid)| else 5
      ensures forall i, e :: 0 <= i < |r| && e in multiset(OwnedBy(expenses, uid)) - multiset(r) ==>
        DateLe(e.date, r[i].date)
    {
      Latest(OwnedBy(expenses, uid), 5)
    }

    /** The `dashboard` handler. */
    method Dashboard(uid: nat, today: Date) returns (d: DashboardView)
      ensures var first := FirstOfMonth(today);
        d.total == MonthTotal(expenses, uid, first) &&
        d.categoryData == CategoryData(OwnedCategories(categories, uid), expenses, first) &&
        d.recent == RecentExpenses(uid) &&
        d.highest == HighestCategory(d.categoryData)
      ensures Valid() && Consistent() && (forall e :: e in expenses ==> e.amount >= 0) ==>
        SumTotals(d.categoryData) == d.total
    {
      var first := FirstOfMonth(today);
      var total := MonthTotal(expenses, uid, first);
      var data := Breakdown(OwnedCategories(categories, uid), expenses, first);
      d := DashboardView(total, data, RecentExpenses(uid), HighestCategory(data));
      if Valid() && Consistent() && (forall e :: e in expenses ==> e.amount >= 0) {
        ReconcileTotals(categories, expenses, uid, first);
      }
    }

    /** The `monthly_stats` handler: the dashboard's month-to-date total and how many
        expenses it adds up. */
    function MonthlyStats(uid: nat, today: Date): (r: Stats)
      reads this
      ensures r.total == MonthTotal(expenses, uid, FirstOfMonth(today))
      ensures r.count == |InMonthPositions(expenses, uid, FirstOfMonth(today))|
      ensures r.count <= |OwnedBy(expenses, uid)|
      ensures r.count == 0 <==>
        forall e :: e in expenses && e.userId == uid ==> !DateLe(FirstOfMonth(today), e.date)
    {
      var rows := InMonth(expenses, uid, FirstOfMonth(today));
      InMonthWithinOwned(expenses, uid, FirstOfMonth(today));
      InMonthCount(expenses, uid, FirstOfMonth(today));
      assert |rows| > 0 ==> rows[0] in rows;
      Stats(SumAmounts(rows), |rows|)
    }
  }
}
