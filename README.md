# Expense tracker: a verified model of its request handlers

The expense tracker is a small web application. A user registers, logs in, keeps a list of
spending categories (six are created at registration) and records expenses. Each expense
has an amount, a description, a date and a category. The dashboard shows:

- the month-to-date total;
- a per-category breakdown;
- the category with the highest spending;
- the five most recent expenses.

A JSON endpoint returns the month-to-date total and count.

This project models the domain logic of those handlers as operations on an in-memory
store of the three tables: users, categories and expenses.

- `tables.dfy` (module `Tables`): the rows, calendar dates, primary-key allocation, lookup
  by id, and the typed failures that stand in for the flash-and-redirect or 404 answers.
- `queries.dfy` (module `Queries`): the read side, as functions over table contents. That
  is, the filters, the sums, the category breakdown, Python's first-maximum `max`, the
  date-descending ordering, and the lemmas about them.
- `store.dfy` (module `Tracker`): class `Store`, whose three `seq` fields are the tables.
  There is one method per handler that changes state. The read-only handlers are
  functions, except `Dashboard`, a method because it builds its breakdown in a loop. The
  loops of the source (seeding the default categories, building the breakdown) are
  methods with loop invariants.

The logged-in user is the parameter `uid`. The clock is the parameter `today`. The password
hash and check are function parameters. Amounts are integers in cents.

Class `Store` has two invariants:

- `Valid` covers the schema constraints: distinct ids in every table, and unique usernames
  and e-mail addresses. Every operation preserves it.
- `Consistent` is the intended rule that every expense uses a category that exists and is
  owned by the expense's own user. A user has expenses and categories, and a category has
  expenses (the relationships at app.py:24-25 and app.py:37). The handlers do not enforce
  the rule. Each operation states exactly when it keeps it.

Where the code departs from that intended behaviour, the model follows the code:

- Adding or editing an expense does not check that the category belongs to the user.
  `AddExpense` and `EditExpense` keep `Consistent` exactly when it does.
- Amounts are never checked to be non-negative.
- The month window has only a lower bound, the first of the month. An expense dated later
  in the month, or in a later month, is counted.
- A category's total in the breakdown sums every expense that refers to the category,
  whoever owns the expense. The breakdown adds up to the dashboard total when
  `Consistent` holds, ids are distinct and no amount is negative (`ReconcileTotals`).
  Without these conditions the totals can differ. `CrossUserExpenseBreaksReconciliation`
  shows one way: another user's expense filed under this user's category.
  `NegativeTotalBreaksReconciliation` shows another: a category with a negative total is
  dropped from the breakdown but still counted in the total.
- Queries without an `ORDER BY` are modelled as returning rows in table (insertion)
  order. A new row's id is one more than the largest id in its table, or 1 for an empty
  table, as SQLite assigns rowids.

## Model

| member | source | states |
|---|---|---|
| Tables.FirstOfMonth | app.py:125 | `today.replace(day=1)` is on or before `today`; a valid date is on or after it exactly when it falls in today's month or later, so earlier months are outside the window |
| Tables.NextId | app.py:19 | the new primary key is positive and larger than every id already in the table |
| Tables.IndexOf | app.py:205 | `get_or_404`: no result exactly when the id is absent; otherwise the position of the row with that id |
| Queries.OwnedBy | app.py:168-169 | each of the user's rows appears exactly as often as in the table, and no other row appears |
| Queries.InMonth | app.py:127-130 | an expense is in the result exactly when it is the user's and dated on or after the first of the month |
| Queries.CategoryRows | app.py:139-140 | an expense is in the result exactly when it refers to the category and is in the window, whoever owns it |
| Queries.OwnedCategories | app.py:135 | a category is in the result exactly when it is in the table and owned by the user |
| Queries.OwnedCategoriesDistinct | app.py:135 | the user's categories keep distinct ids |
| Queries.SumAmountsNonNegative | app.py:132 | `sum(exp.amount ...)`, the definition `SumAmounts` (no `ensures` of its own): with no negative amount the sum is not negative |
| Queries.SumAmountsAppend | app.py:132 | `SumAmounts`: one more row adds exactly its amount |
| Queries.SumAmountsConcat | app.py:132 | `SumAmounts` distributes over joining two row sequences |
| Queries.MonthTotal | app.py:132 | `total_monthly`, the sum over `InMonth`: not negative when none of the user's in-window amounts is; described exactly by `MonthTotalAppend`, `MonthTotalRemove` and `ReconcileTotals` |
| Queries.MonthTotalAppend | app.py:132 | a new expense changes the month-to-date total by its amount when it is the user's and in the window, otherwise not at all |
| Queries.MonthTotalRemove | app.py:132 | removing a row changes the month-to-date total by exactly that row's contribution |
| Queries.MonthTotalConcat | app.py:132 | the month-to-date total of two row sequences joined is the sum of their totals |
| Queries.CategorySum | app.py:139-140 | `category_total`, the sum over `CategoryRows`: not negative when none of the category's in-window amounts is; described exactly by `CategorySumAppend` |
| Queries.CategorySumAppend | app.py:139-140 | a new expense changes a category's total by its amount exactly when it refers to the category and is in the window |
| Queries.CategoryData | app.py:136-145 | `category_data`: no more entries than categories, and every entry's total is positive; described exactly by `CategoryDataSelects`, and the loop `Breakdown` computes it |
| Queries.CategoryDataSelects | app.py:136-145 | the breakdown has one entry per category with a positive total, in category order, each with that category's name and total, and no other entries |
| Queries.BreakdownSumsAllCategories | app.py:141-145 | with no negative amount, leaving out categories with total zero loses nothing from the sum |
| Queries.CategorySumsAppend | app.py:139-140 | over categories with distinct ids, a new in-window expense adds its amount exactly when it refers to one of them |
| Queries.CategoriesMatchAppend | app.py:184-190 | appending an expense keeps the cross-table rule exactly when its category exists and is its user's |
| Queries.CategoriesMatchUpdate | app.py:212-215 | replacing an expense keeps the rule exactly when the replacement satisfies it |
| Queries.CategoriesMatchRemoveExpense | app.py:234 | removing an expense keeps the rule |
| Queries.CategoriesMatchMoreCategories | app.py:85-87 | adding categories keeps the rule |
| Queries.CategoriesMatchRemoveCategory | app.py:270-274 | removing a category that no expense refers to keeps the rule |
| Queries.RefersToOwnCategory | app.py:139 | under the rule, an expense refers to one of the user's categories exactly when it is the user's |
| Queries.CategorySumsIsMonthTotal | app.py:132-140 | under the rule, the user's category totals add up to the month-to-date total |
| Queries.ReconcileTotals | app.py:132-145 | with distinct category ids, the rule and no negative amount, the breakdown's totals add up to the month-to-date total |
| Queries.CrossUserExpenseBreaksReconciliation | app.py:184-190 | another user's in-window expense filed under this user's category breaks the rule, appears in this user's breakdown and is absent from this user's total |
| Queries.NegativeTotalBreaksReconciliation | app.py:141 | an expense with a negative amount keeps the rule, yet its category is dropped from the breakdown while the amount still counts in the total |
| Queries.InMonthCount | app.py:293 | the month-to-date query returns one row per matching position of the table |
| Queries.InMonthWithinOwned | app.py:284-287 | the month-to-date rows are no more than the user's rows |
| Queries.FindUser | app.py:104 | no result exactly when no user has the name; otherwise the position of the first user with that name |
| Queries.MaxIndex | app.py:155 | the position of an entry with the largest total, and every earlier entry is strictly smaller |
| Queries.HighestCategory | app.py:153-155 | none exactly when the breakdown is empty; otherwise the first entry with a maximal total |
| Queries.SortByDateDesc | app.py:170 | the result is ordered newest first and is a permutation of the input |
| Queries.Newest | app.py:150 | the first n rows of a date-descending permutation are ordered, are drawn from the rows, and nothing left out is newer than any of them |
| Queries.Latest | app.py:148-150 | `order_by(date desc).limit(n)`: n of the rows, or all when fewer, newest first, and none left out is newer than one kept |
| Tracker.DefaultCategories | app.py:84-87 | six rows named Food, Transportation, Entertainment, Utilities, Shopping and Healthcare, in that order, owned by the new user, with consecutive ids |
| Tracker.AddUserKeepsUnique | app.py:69-80 | a user whose name and e-mail are both new keeps usernames and e-mails unique |
| Tracker.SeedDefaultCategories | app.py:84-87 | the loop appends exactly the default rows, in order |
| Tracker.SeededDistinct | app.py:84-89 | the seeded rows take ids no existing row has and that differ from one another |
| Tracker.Breakdown | app.py:136-145 | the loop builds exactly the breakdown `CategoryData` |
| Tracker.Store.constructor | app.py:298 | an empty database satisfies both invariants |
| Tracker.Store.Register | app.py:60-92 | a taken username (`HasUsername`, app.py:69) fails first, then a taken e-mail (`HasEmail`, app.py:73), and each leaves every table unchanged; otherwise exactly one user is added with the next id and the hashed password, the six default categories are added for that user, expenses are unchanged, and both invariants are kept |
| Tracker.Store.Login | app.py:101-110 | succeeds exactly when a user with that name passes the password check, returning that user's id; both failures give the same error |
| Tracker.Store.AddCategory | app.py:247-256 | fails with nothing changed when this user already has a category of that name (`HasCategoryNamed`, app.py:250); otherwise appends exactly one category with the next id, owned by the user; a same-named category of another user does not block it |
| Tracker.Store.DeleteCategory | app.py:263-275 | absent id, then other owner, then in use (`InUse`: some expense of any user refers to it, app.py:270), each failing with nothing changed; otherwise removes exactly that category; both invariants are kept |
| Tracker.Store.AddExpense | app.py:178-193 | appends exactly one expense with the next id, owned by the user, with no check of the category or the amount; the cross-table rule survives exactly when the category is the user's |
| Tracker.Store.EditExpense | app.py:204-217 | absent id fails, then another user's expense fails, each with nothing changed; otherwise only amount, description, date and category of that expense change; the rule survives exactly when the new category is the user's |
| Tracker.Store.DeleteExpense | app.py:227-235 | absent id fails, then another user's expense fails, each with nothing changed; otherwise removes exactly that expense; both invariants are kept |
| Tracker.Store.ListExpenses | app.py:168-170 | all of the user's expenses and no others, each as often as in the table, newest first |
| Tracker.Store.ListCategories | app.py:242 | exactly the user's categories |
| Tracker.Store.RecentExpenses | app.py:148-150 | the first five of the expense list (all when fewer), and no expense of the user left out is newer than one shown |
| Tracker.Store.Dashboard | app.py:122-163 | the total, breakdown, recent list and highest category are those above for the first of today's month; the breakdown adds up to the total when both invariants hold and no amount is negative |
| Tracker.Store.MonthlyStats | app.py:282-294 | the same total as the dashboard; the count is the number of the user's expenses in the window, zero exactly when there is none |

## Left out

- Web framework: routing, templates, flash messages, redirects, the GET form pages, the
  `is_authenticated` redirects, `login_required` and logout. Refusals are the typed
  errors of `Tables.Error`.
- Persistence: the ORM, sessions and transactions. Each handler is one atomic step on the
  tables. The two commits of registration (app.py:81, app.py:89) are not modelled
  separately.
- Password hashing: the hash and the check are parameters of `Register` and `Login`,
  with no property assumed of them.
- Clock and parsing: `datetime.now()`, the `created_at` columns, and the `float`, `int`
  and `strptime` conversions of form fields. Inputs arrive already parsed.
- Floating point: amounts are integer cents, so the sums have no rounding.
- Tracker.Store.MonthlyStats: the source compares the date column with a full datetime,
  the first of the month at the current time of day (app.py:286). Depending on how the
  database compares the two, an expense dated on the first of the month may be left out
  of the statistics although the dashboard counts it. The model uses the dashboard's
  first-of-month date bound, so it counts that expense in both.
- Tracker.Store.Login: requires `Valid`, so that usernames are unique and "the first user
  with this name" is the only one. Every operation keeps `Valid`.
- Queries.SortByDateDesc: ties on the date keep table order. The database leaves the
  order of equal dates unspecified, so the contracts state only order and permutation.
- The browser script `static/js/script.js` (DOM updates, timers, currency formatting) is
  not part of this model.
