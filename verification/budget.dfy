/** The budget tracker: a list of expenses, each with a positive amount and
    one of six categories, the category tabs, the grand total, the
    per-category totals and each category's share of the total. */
module Budget {
  import opened Seqs

  datatype ExpenseCategory = Accommodation | Food | Transportation | Activities | Shopping | OtherExpense

  const AllCategories: seq<ExpenseCategory> :=
    [Accommodation, Food, Transportation, Activities, Shopping, OtherExpense]

  /** The category's key, which is also the value of its tab. */
  function CategoryKey(c: ExpenseCategory): string {
    match c
    case Accommodation => "accommodation"
    case Food => "food"
    case Transportation => "transportation"
    case Activities => "activities"
    case Shopping => "shopping"
    case OtherExpense => "other"
  }

  datatype Expense = Expense(id: string, amount: real, description: string, category: ExpenseCategory,
                             date: string, currency: string)

  /** The add-expense form: an expense without its id. */
  datatype Draft = Draft(amount: real, description: string, category: ExpenseCategory, date: string,
                         currency: string)

  const InitialExpenses: seq<Expense> := [
    Expense("1", 120.0, "Hotel in Paris", Accommodation, "2025-05-15", "EUR"),
    Expense("2", 35.0, "Dinner at local restaurant", Food, "2025-05-15", "EUR"),
    Expense("3", 25.0, "Metro tickets", Transportation, "2025-05-16", "EUR"),
    Expense("4", 60.0, "Louvre Museum tickets", Activities, "2025-05-16", "EUR"),
    Expense("5", 45.0, "Souvenir shopping", Shopping, "2025-05-17", "EUR")]

  /** Every expense has a positive amount. */
  predicate AllPositive(expenses: seq<Expense>) {
    forall i :: 0 <= i < |expenses| ==> expenses[i].amount > 0.0
  }

  /** Adding an expense: only an amount above zero with a non-empty
      description is accepted; the new expense, with the fresh id, goes at
      the end. */
  function AddExpense(expenses: seq<Expense>, draft: Draft, freshId: string): (r: seq<Expense>)
    ensures !(draft.amount > 0.0 && draft.description != "") ==> r == expenses
    ensures draft.amount > 0.0 && draft.description != "" ==>
      && |r| == |expenses| + 1
      && r[..|expenses|] == expenses
      && r[|expenses|] == Expense(freshId, draft.amount, draft.description, draft.category, draft.date, draft.currency)
  {
    if draft.amount > 0.0 && draft.description != "" then
      expenses + [Expense(freshId, draft.amount, draft.description, draft.category, draft.date, draft.currency)]
    else expenses
  }

  function OtherId(id: string): Expense -> bool {
    (e: Expense) => e.id != id
  }

  /** Removes every expense carrying `id`, keeping the order of the rest. */
  function DeleteExpense(expenses: seq<Expense>, id: string): (r: seq<Expense>)
    ensures Subsequence(r, expenses)
    ensures forall i :: 0 <= i < |r| ==> r[i].id != id
    ensures forall i :: 0 <= i < |expenses| ==> (expenses[i] in r <==> expenses[i].id != id)
    ensures forall e :: multiset(r)[e] == if e.id != id then multiset(expenses)[e] else 0
  {
    Filter(OtherId(id), expenses)
  }

  /** Deleting an expense just added under a fresh id undoes the addition. */
  lemma DeleteUndoesAdd(expenses: seq<Expense>, draft: Draft, freshId: string)
    requires forall i :: 0 <= i < |expenses| ==> expenses[i].id != freshId
    ensures DeleteExpense(AddExpense(expenses, draft, freshId), freshId) == expenses
  {
    FilterKeepsAll(OtherId(freshId), expenses);
    if draft.amount > 0.0 && draft.description != "" {
      var e := Expense(freshId, draft.amount, draft.description, draft.category, draft.date, draft.currency);
      FilterAppend(OtherId(freshId), expenses, [e]);
      assert Filter(OtherId(freshId), [e]) == [];
    }
  }

  /** The initial expenses are positive, and adding and deleting keep every
      amount positive. */
  lemma PositiveAmountsInvariant(expenses: seq<Expense>, draft: Draft, freshId: string, id: string)
    ensures AllPositive(InitialExpenses)
    ensures AllPositive(expenses) ==> AllPositive(AddExpense(expenses, draft, freshId))
    ensures AllPositive(expenses) ==> AllPositive(DeleteExpense(expenses, id))
  {
  }

  function InCategory(c: ExpenseCategory): Expense -> bool {
    (e: Expense) => e.category == c
  }

  function OnTab(tab: string): Expense -> bool {
    (e: Expense) => CategoryKey(e.category) == tab
  }

  /** The expenses a tab lists: all of them on "all", otherwise those whose
      category key is the tab. */
  function TabFilter(expenses: seq<Expense>, tab: string): (r: seq<Expense>)
    ensures Subsequence(r, expenses)
    ensures tab == "all" ==> r == expenses
    ensures tab != "all" ==> forall i :: 0 <= i < |expenses| ==> (expenses[i] in r <==> CategoryKey(expenses[i].category) == tab)
    ensures tab != "all" ==>
      forall e :: multiset(r)[e] == if CategoryKey(e.category) == tab then multiset(expenses)[e] else 0
  {
    if tab == "all" then
      SubsequenceReflexive(expenses);
      expenses
    else Filter(OnTab(tab), expenses)
  }

  /** Each category has its own key, so its tab lists exactly its expenses. */
  lemma CategoryTab(expenses: seq<Expense>, c: ExpenseCategory)
    ensures TabFilter(expenses, CategoryKey(c)) == Filter(InCategory(c), expenses)
  {
    assert forall d: ExpenseCategory :: CategoryKey(d) == CategoryKey(c) ==> d == c;
    FilterSame(OnTab(CategoryKey(c)), InCategory(c), expenses);
  }

  /** `reduce((sum, e) => sum + e.amount, 0)`. Amounts are exact here, so
      summing from the front gives the same as the left-to-right reduce. */
  function Total(expenses: seq<Expense>): real {
    if expenses == [] then 0.0 else expenses[0].amount + Total(expenses[1..])
  }

  /** The total of one category, accumulated as the category-totals reduce
      does: each expense adds its amount to its own category's entry. */
  function CategoryTotal(expenses: seq<Expense>, c: ExpenseCategory): real {
    if expenses == [] then 0.0
    else (if expenses[0].category == c then expenses[0].amount else 0.0) + CategoryTotal(expenses[1..], c)
  }

  /** The six category totals, added up. */
  function SumOfCategoryTotals(expenses: seq<Expense>): real {
    CategoryTotal(expenses, Accommodation) + CategoryTotal(expenses, Food)
    + CategoryTotal(expenses, Transportation) + CategoryTotal(expenses, Activities)
    + CategoryTotal(expenses, Shopping) + CategoryTotal(expenses, OtherExpense)
  }

  /** The category totals add up to the grand total. */
  lemma {:induction false} CategoryTotalsSumToTotal(expenses: seq<Expense>)
    ensures SumOfCategoryTotals(expenses) == Total(expenses)
  {
    if expenses != [] {
      CategoryTotalsSumToTotal(expenses[1..]);
    }
  }

  /** Adding an accepted expense raises the total by its amount. */
  lemma TotalAfterAdd(expenses: seq<Expense>, draft: Draft, freshId: string)
    requires draft.amount > 0.0 && draft.description != ""
    ensures Total(AddExpense(expenses, draft, freshId)) == Total(expenses) + draft.amount
  {
    var e := Expense(freshId, draft.amount, draft.description, draft.category, draft.date, draft.currency);
    TotalAppend(expenses, [e]);
    assert Total([e]) == draft.amount by {
      assert [e][1..] == [];
    }
  }

  /** The total of a concatenation. */
  lemma {:induction false} TotalAppend(a: seq<Expense>, b: seq<Expense>)
    ensures Total(a + b) == Total(a) + Total(b)
  {
    if a == [] {
      assert a + b == b;
    } else {
      assert (a + b)[1..] == a[1..] + b;
      TotalAppend(a[1..], b);
    }
  }

  /** A category's total is the total of that category's expenses. */
  lemma {:induction false} CategoryTotalIsFilterTotal(expenses: seq<Expense>, c: ExpenseCategory)
    ensures CategoryTotal(expenses, c) == Total(Filter(InCategory(c), expenses))
  {
    if expenses != [] {
      CategoryTotalIsFilterTotal(expenses[1..], c);
      var rest := Filter(InCategory(c), expenses[1..]);
      if expenses[0].category == c {
        assert ([expenses[0]] + rest)[1..] == rest;
      }
    }
  }

  /** A category's total is the total of what its tab lists. */
  lemma CategoryTotalIsTabTotal(expenses: seq<Expense>, c: ExpenseCategory)
    ensures CategoryTotal(expenses, c) == Total(TabFilter(expenses, CategoryKey(c)))
  {
    CategoryTab(expenses, c);
    CategoryTotalIsFilterTotal(expenses, c);
  }

  /** With positive amounts every category total lies between zero and the
      grand total. */
  lemma {:induction false} CategoryTotalBounds(expenses: seq<Expense>, c: ExpenseCategory)
    ensures AllPositive(expenses) ==> 0.0 <= CategoryTotal(expenses, c) <= Total(expenses)
  {
    if expenses != [] {
      CategoryTotalBounds(expenses[1..], c);
    }
  }

  /** A category's share of the total, in percent; 0 while the total is 0. */
  function Percentage(expenses: seq<Expense>, c: ExpenseCategory): (p: real)
    ensures Total(expenses) <= 0.0 ==> p == 0.0
    ensures AllPositive(expenses) ==> 0.0 <= p <= 100.0
    ensures Total(expenses) > 0.0 ==> p * Total(expenses) == CategoryTotal(expenses, c) * 100.0
  {
    var total := Total(expenses);
    if total > 0.0 then
      var amount := CategoryTotal(expenses, c);
      CategoryTotalBounds(expenses, c);
      ShareOf(amount, total);
      amount / total * 100.0
    else 0.0
  }

  /** The percentage of a part of a positive whole. */
  lemma ShareOf(a: real, t: real)
    requires t > 0.0
    ensures (a / t * 100.0) * t == a * 100.0
    ensures 0.0 <= a <= t ==> 0.0 <= a / t * 100.0 <= 100.0
  {
    var x := a / t;
    assert x * t == a;
    assert (x * 100.0) * t == (x * t) * 100.0;
    assert (x - 1.0) * t == a - t;
  }

  /** The six shares add up to 100 whenever there is a total to share. */
  lemma PercentagesSumTo100(expenses: seq<Expense>)
    requires Total(expenses) > 0.0
    ensures Percentage(expenses, Accommodation) + Percentage(expenses, Food)
          + Percentage(expenses, Transportation) + Percentage(expenses, Activities)
          + Percentage(expenses, Shopping) + Percentage(expenses, OtherExpense) == 100.0
  {
    var t := Total(expenses);
    CategoryTotalsSumToTotal(expenses);
    var p1, p2, p3 := Percentage(expenses, Accommodation), Percentage(expenses, Food), Percentage(expenses, Transportation);
    var p4, p5, p6 := Percentage(expenses, Activities), Percentage(expenses, Shopping), Percentage(expenses, OtherExpense);
    SharesAddUp(t, p1, p2, p3, p4, p5, p6, CategoryTotal(expenses, Accommodation), CategoryTotal(expenses, Food),
      CategoryTotal(expenses, Transportation), CategoryTotal(expenses, Activities),
      CategoryTotal(expenses, Shopping), CategoryTotal(expenses, OtherExpense));
  }

  /** Shares of parts that make up a positive whole add up to 100 percent. */
  lemma SharesAddUp(t: real, p1: real, p2: real, p3: real, p4: real, p5: real, p6: real,
                    a1: real, a2: real, a3: real, a4: real, a5: real, a6: real)
    requires t > 0.0 && a1 + a2 + a3 + a4 + a5 + a6 == t
    requires p1 * t == a1 * 100.0 && p2 * t == a2 * 100.0 && p3 * t == a3 * 100.0
    requires p4 * t == a4 * 100.0 && p5 * t == a5 * 100.0 && p6 * t == a6 * 100.0
    ensures p1 + p2 + p3 + p4 + p5 + p6 == 100.0
  {
    var sum := p1 + p2 + p3 + p4 + p5 + p6;
    assert sum * t == p1 * t + p2 * t + p3 * t + p4 * t + p5 * t + p6 * t;
    assert (sum - 100.0) * t == 0.0;
  }

  /** The initial expenses total 285 (euros). */
  lemma InitialTotal()
    ensures Total(InitialExpenses) == 285.0
  {
    var e := InitialExpenses;
    assert e[4..][1..] == [];
    assert Total(e[4..]) == 45.0;
    assert e[3..][1..] == e[4..];
    assert Total(e[3..]) == 105.0;
    assert e[2..][1..] == e[3..];
    assert Total(e[2..]) == 130.0;
    assert e[1..][1..] == e[2..];
    assert Total(e[1..]) == 165.0;
  }
}
