/** The budget page: expense items, the expense form's rules, the per-item
    and total amounts, and the page's view controller. */
module Budget {
  import opened Wrappers
  import Api
  import Views

  /** An expense as the page reads it: amounts in whole currency units. */
  datatype BudgetItem = BudgetItem(id: int, category: string, unitCost: int,
                                   quantity: int, description: string)

  /** The expense form; a number input left empty is `None`. */
  datatype BudgetForm = BudgetForm(category: string, unitCost: Option<int>,
                                   description: string, quantity: Option<int>)

  /** The declared rules: category and description required (the empty
      "Select a category" option fails), quantity required and at least 1,
      unit cost required and at least 0. */
  predicate ValidBudgetForm(f: BudgetForm): (ok: bool)
    ensures ok ==> f.quantity.Some? && f.unitCost.Some? && f.quantity.value * f.unitCost.value >= 0
  {
    && f.category != ""
    && f.quantity.Some? && f.quantity.value >= 1
    && f.unitCost.Some? && f.unitCost.value >= 0
    && f.description != ""
  }

  /** An item whose fields would pass the form's rules. */
  predicate MeetsFormRules(item: BudgetItem) {
    ValidBudgetForm(BudgetForm(item.category, Some(item.unitCost), item.description, Some(item.quantity)))
  }

  function BudgetId(item: BudgetItem): int {
    item.id
  }

  /** The amount shown beside each item. */
  function Amount(item: BudgetItem): int {
    item.unitCost * item.quantity
  }

  /** The running total of the page's `reduce`, left to right from 0. */
  function Total(items: seq<BudgetItem>): int {
    if |items| == 0 then 0 else Total(items[..|items| - 1]) + Amount(items[|items| - 1])
  }

  /** The list of displayed per-item amounts. */
  function Amounts(items: seq<BudgetItem>): (r: seq<int>)
    ensures |r| == |items|
    ensures forall i :: 0 <= i < |items| ==> r[i] == Amount(items[i])
  {
    if |items| == 0 then [] else [Amount(items[0])] + Amounts(items[1..])
  }

  /** Sum of a list of integers, first element first. */
  function Sum(xs: seq<int>): int {
    if |xs| == 0 then 0 else xs[0] + Sum(xs[1..])
  }

  lemma {:induction false} SumSnoc(xs: seq<int>, x: int)
    ensures Sum(xs + [x]) == Sum(xs) + x
  {
    if |xs| > 0 {
      assert (xs + [x])[1..] == xs[1..] + [x];
      SumSnoc(xs[1..], x);
    }
  }

  /** The total is the sum of the displayed per-item amounts. */
  lemma {:induction false} TotalIsSumOfAmounts(items: seq<BudgetItem>)
    ensures Total(items) == Sum(Amounts(items))
  {
    if |items| > 0 {
      var init := items[..|items| - 1];
      TotalIsSumOfAmounts(init);
      SumSnoc(Amounts(init), Amount(items[|items| - 1]));
      assert Amounts(items) == Amounts(init) + [Amount(items[|items| - 1])];
    }
  }

  /** The total of a concatenation is the sum of the totals. */
  lemma {:induction false} TotalAppend(a: seq<BudgetItem>, b: seq<BudgetItem>)
    ensures Total(a + b) == Total(a) + Total(b)
    decreases |b|
  {
    if |b| == 0 {
      assert a + b == a;
    } else {
      assert (a + b)[..|a + b| - 1] == a + b[..|b| - 1];
      assert (a + b)[|a + b| - 1] == b[|b| - 1];
      TotalAppend(a, b[..|b| - 1]);
    }
  }

  /** When every item obeys the form's rules, the total is not negative. */
  lemma {:induction false} TotalNonNegative(items: seq<BudgetItem>)
    requires forall i :: 0 <= i < |items| ==> MeetsFormRules(items[i])
    ensures Total(items) >= 0
  {
    if |items| > 0 {
      TotalNonNegative(items[..|items| - 1]);
      var last := items[|items| - 1];
      assert MeetsFormRules(last);
      assert last.unitCost * last.quantity >= 0;
    }
  }

  /** "Total Expenses": 0 while the response is missing. */
  function TotalExpenses(response: Option<seq<BudgetItem>>): (t: int)
    ensures response.None? ==> t == 0
    ensures t == Sum(Amounts(Views.Loaded(response)))
  {
    TotalIsSumOfAmounts(Views.Loaded(response));
    Total(Views.Loaded(response))
  }

  /** The edit form's quantity field starts from the edited item's quantity,
      negative ones included, or from 1 when there is no item or its quantity
      is 0 (falsy); so it never starts at 0. */
  function DefaultQuantity(editingItem: Option<BudgetItem>): (q: int)
    ensures editingItem.None? || editingItem.value.quantity == 0 ==> q == 1
    ensures editingItem.Some? && editingItem.value.quantity != 0 ==> q == editingItem.value.quantity
    ensures q != 0
    ensures q < 1 ==> editingItem.Some? && editingItem.value.quantity < 0
  {
    if editingItem.Some? && editingItem.value.quantity != 0 then editingItem.value.quantity else 1
  }

  /** The page's controller: key `'budget'`, mutations through `budgetAPI`,
      submissions gated by the expense form's rules. */
  method NewBudgetView(cache: Views.QueryCache) returns (v: Views.ResourceView<BudgetItem, BudgetForm>)
    ensures fresh(v)
    ensures v.key == "budget" && v.api == Api.BudgetApi && v.cache == cache
    ensures v.idOf == BudgetId && v.accepts == ValidBudgetForm
    ensures !v.isCreating && v.editingItem == None
  {
    v := new Views.ResourceView("budget", Api.BudgetApi, cache, BudgetId, ValidBudgetForm);
  }
}
