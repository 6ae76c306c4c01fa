/** The three tables of the expense tracker (User, Category, Expense), the calendar
    dates they hold, primary-key allocation and the typed failures of the handlers. */
module Tables {

  datatype Option<T> = None | Some(value: T)

  /** The reasons a handler refuses a request (each one a flash message and a redirect,
      or a 404, in the web application). */
  datatype Error =
    | UsernameTaken
    | EmailTaken
    | InvalidCredentials
    | DuplicateCategory
    | NotFound
    | Forbidden
    | CategoryInUse

  datatype Result<T> = Ok(value: T) | Err(error: Error)

  /** A calendar date as a Date column holds it. */
  datatype Date = Date(year: int, month: int, day: int)

  /** Chronological order: by year, then month, then day. */
  predicate DateLe(a: Date, b: Date) {
    a.year < b.year || (a.year == b.year && (a.month < b.month || (a.month == b.month && a.day <= b.day)))
  }

  /** `today.replace(day=1)`: the first day of the month that `d` lies in. */
  function FirstOfMonth(d: Date): (r: Date)
    ensures d.day >= 1 ==> DateLe(r, d)
    ensures forall x :: DateLe(x, d) && x.year == d.year && x.month == d.month && x.day >= 1 ==> DateLe(r, x)
    ensures forall x: Date :: x.day >= 1 ==>
      (DateLe(r, x) <==> x.year > d.year || (x.year == d.year && x.month >= d.month))
  {
    Date(d.year, d.month, 1)
  }

  /** A row of the user table. The password is kept only as the hash the caller computed. */
  datatype User = User(id: nat, username: string, email: string, passwordHash: string)

  /** A row of the category table; `userId` is the owner. */
  datatype Category = Category(id: nat, name: string, userId: nat)

  /** A row of the expense table. The amount is in cents. */
  datatype Expense = Expense(id: nat, amount: int, description: string, date: Date, userId: nat, categoryId: nat)

  /** No id occurs twice: the primary-key constraint. */
  predicate Distinct(ids: seq<nat>) {
    forall i, j :: 0 <= i < j < |ids| ==> ids[i] != ids[j]
  }

  /** The id the store gives a new row: one more than the largest id in the table, or 1
      when the table is empty (the rowid rule of SQLite). */
  function NextId(ids: seq<nat>): (r: nat)
    ensures 1 <= r
    ensures forall i :: 0 <= i < |ids| ==> ids[i] < r
  {
    if ids == [] then 1
    else
      var prev := NextId(ids[..|ids| - 1]);
      if ids[|ids| - 1] + 1 > prev then ids[|ids| - 1] + 1 else prev
  }

  /** Primary-key lookup (`query.get(id)`): the position of the row with that id. */
  function IndexOf(ids: seq<nat>, id: nat): (r: Option<nat>)
    ensures r.None? <==> id !in ids
    ensures r.Some? ==> r.value < |ids| && ids[r.value] == id
    ensures r.Some? ==> forall j :: 0 <= j < r.value ==> ids[j] != id
  {
    if ids == [] then None
    else if ids[0] == id then Some(0)
    else match IndexOf(ids[1..], id)
      case None => None
      case Some(k) => Some(k + 1)
  }

  lemma {:induction false} DistinctAppend(ids: seq<nat>, x: nat)
    requires Distinct(ids) && x !in ids
    ensures Distinct(ids + [x])
  {
    forall i, j | 0 <= i < j < |ids| + 1
      ensures (ids + [x])[i] != (ids + [x])[j]
    {
      if j == |ids| {
        assert (ids + [x])[i] == ids[i];
      }
    }
  }

  lemma DistinctRemove(ids: seq<nat>, k: nat)
    requires Distinct(ids) && k < |ids|
    ensures Distinct(ids[..k] + ids[k + 1..])
  {
    var r := ids[..k] + ids[k + 1..];
    forall i, j | 0 <= i < j < |r|
      ensures r[i] != r[j]
    {
      var i' := if i < k then i else i + 1;
      var j' := if j < k then j else j + 1;
      assert r[i] == ids[i'] && r[j] == ids[j'];
    }
  }

  /** The id column of each table. */
  function UserIds(us: seq<User>): (r: seq<nat>)
    ensures |r| == |us| && forall i :: 0 <= i < |us| ==> r[i] == us[i].id
  {
    seq(|us|, i requires 0 <= i < |us| => us[i].id)
  }

  function CategoryIds(cs: seq<Category>): (r: seq<nat>)
    ensures |r| == |cs| && forall i :: 0 <= i < |cs| ==> r[i] == cs[i].id
  {
    seq(|cs|, i requires 0 <= i < |cs| => cs[i].id)
  }

  function ExpenseIds(es: seq<Expense>): (r: seq<nat>)
    ensures |r| == |es| && forall i :: 0 <= i < |es| ==> r[i] == es[i].id
  {
    seq(|es|, i requires 0 <= i < |es| => es[i].id)
  }

  lemma UserIdsAppend(us: seq<User>, u: User)
    ensures UserIds(us + [u]) == UserIds(us) + [u.id]
  {
  }

  lemma CategoryIdsAppend(cs: seq<Category>, c: Category)
    ensures CategoryIds(cs + [c]) == CategoryIds(cs) + [c.id]
  {
  }

  lemma ExpenseIdsAppend(es: seq<Expense>, e: Expense)
    ensures ExpenseIds(es + [e]) == ExpenseIds(es) + [e.id]
  {
  }

  lemma CategoryIdsRemove(cs: seq<Category>, k: nat)
    requires k < |cs|
    ensures CategoryIds(cs[..k] + cs[k + 1..]) == CategoryIds(cs)[..k] + CategoryIds(cs)[k + 1..]
  {
  }

  lemma ExpenseIdsRemove(es: seq<Expense>, k: nat)
    requires k < |es|
    ensures ExpenseIds(es[..k] + es[k + 1..]) == ExpenseIds(es)[..k] + ExpenseIds(es)[k + 1..]
  {
  }

  lemma ExpenseIdsUpdate(es: seq<Expense>, k: nat, e: Expense)
    requires k < |es| && e.id == es[k].id
    ensures ExpenseIds(es[k := e]) == ExpenseIds(es)
  {
  }

  /** Two rows of a table with distinct ids and the same id are the same row. */
  lemma SameCategoryId(cs: seq<Category>, c1: Category, c2: Category)
    requires Distinct(CategoryIds(cs)) && c1 in cs && c2 in cs && c1.id == c2.id
    ensures c1 == c2
  {
    var i :| 0 <= i < |cs| && cs[i] == c1;
    var j :| 0 <= j < |cs| && cs[j] == c2;
    assert CategoryIds(cs)[i] == CategoryIds(cs)[j];
  }
}
