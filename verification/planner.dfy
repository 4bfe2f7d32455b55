/**
 * `generate_daily_meal_plan`: pick one recipe per meal slot, preferring a
 * recipe whose calories and protein fall within the tolerance of the slot's
 * share of the daily targets, and report the truncated totals.
 */
module Planner {
  import opened Wrappers
  import opened Text
  import opened Numeric
  import opened Catalog
  import opened MealSlots

  /** One entry of the plan: the slot, the recipe's name and its truncated nutrients. */
  datatype PlanEntry = PlanEntry(meal: string, name: string, calories: int, protein: int)

  const NoRecipesMessage: string := "No recipes available with your current filters!"

  /** What the plan records for a recipe chosen for a slot. */
  function EntryFor(meal: string, r: Recipe): (e: PlanEntry)
    ensures e.meal == meal && e.name == r.name
    ensures 0.0 <= r.calories ==> e.calories as real <= r.calories < e.calories as real + 1.0
    ensures 0.0 <= r.protein ==> e.protein as real <= r.protein < e.protein as real + 1.0
  {
    PlanEntry(meal, r.name, Trunc(r.calories), Trunc(r.protein))
  }

  /** Sum of the entries' calories. */
  function TotalCalories(entries: seq<PlanEntry>): int
  {
    if entries == [] then 0 else TotalCalories(entries[..|entries| - 1]) + entries[|entries| - 1].calories
  }

  /** Sum of the entries' protein. */
  function TotalProtein(entries: seq<PlanEntry>): int
  {
    if entries == [] then 0 else TotalProtein(entries[..|entries| - 1]) + entries[|entries| - 1].protein
  }

  /** The message that comes with a plan. */
  function SummaryText(calories: int, protein: int): string
  {
    "Total: " + IntToString(calories) + " calories, " + IntToString(protein) + "g protein"
  }

  /** Two plans with different totals never report the same message. */
  lemma SummaryTextInjective(c1: int, p1: int, c2: int, p2: int)
    requires SummaryText(c1, p1) == SummaryText(c2, p2)
    ensures c1 == c2 && p1 == p2
  {
    SummaryCaloriesPart(c1, p1);
    SummaryCaloriesPart(c2, p2);
    ParseIntToString(c1);
    ParseIntToString(c2);
    SummaryProteinPart(c1, p1);
    SummaryProteinPart(c2, p2);
    ParseIntToString(p1);
    ParseIntToString(p2);
  }

  /** The calorie total is the text between "Total: " and the next space. */
  lemma SummaryCaloriesPart(calories: int, protein: int)
    ensures Before(SummaryText(calories, protein)[7..], ' ') == IntToString(calories)
  {
    var c := IntToString(calories);
    var rest := "calories, " + IntToString(protein) + "g protein";
    assert ' ' !in c by {
      forall i | 0 <= i < |c| ensures c[i] != ' ' { assert IsDigit(c[i]) || c[i] == '-'; }
    }
    assert SummaryText(calories, protein) == "Total: " + (c + [' '] + rest);
    BeforeSeparator(c, rest, ' ');
  }

  /** The protein total is the text after " calories, " up to the next 'g'. */
  lemma SummaryProteinPart(calories: int, protein: int)
    ensures var skip := 18 + |IntToString(calories)|;
            |SummaryText(calories, protein)| >= skip
            && Before(SummaryText(calories, protein)[skip..], 'g') == IntToString(protein)
  {
    var p := IntToString(protein);
    var head := "Total: " + IntToString(calories) + " calories, ";
    assert 'g' !in p by {
      forall i | 0 <= i < |p| ensures p[i] != 'g' { assert IsDigit(p[i]) || p[i] == '-'; }
    }
    assert |head| == 18 + |IntToString(calories)|;
    assert SummaryText(calories, protein) == head + (p + ['g'] + " protein");
    BeforeSeparator(p, " protein", 'g');
  }

  /** `lower <= x <= upper` around `center`, as the source's comparisons state it. */
  predicate InWindow(x: real, center: real, deviation: real)
  {
    center - deviation <= x <= center + deviation
  }

  /** A slot's calorie and protein targets and the deviation allowed from each. */
  datatype Window = Window(calories: real, caloriesDeviation: real, protein: real, proteinDeviation: real)

  /** The window of a slot with the given share of the daily targets. */
  function SlotWindow(share: real, targetCalories: real, targetProtein: real, tolerance: real): Window
  {
    var calories := share * targetCalories;
    var protein := share * targetProtein;
    Window(calories, tolerance * calories, protein, tolerance * protein)
  }

  predicate Fits(r: Recipe, w: Window)
  {
    InWindow(r.calories, w.calories, w.caloriesDeviation) && InWindow(r.protein, w.protein, w.proteinDeviation)
  }

  /** The rows of `df_suitable`: both nutrients inside the window, in catalog order. */
  function Suitable(rows: seq<Recipe>, w: Window): (kept: seq<Recipe>)
    ensures |kept| <= |rows|
  {
    if rows == [] then []
    else (if Fits(rows[0], w) then [rows[0]] else []) + Suitable(rows[1..], w)
  }

  /** A row is suitable exactly when it is in the catalog and fits the window. */
  lemma {:induction false} SuitableMembers(rows: seq<Recipe>, w: Window)
    ensures forall r :: r in Suitable(rows, w) <==> r in rows && Fits(r, w)
  {
    if rows != [] {
      SuitableMembers(rows[1..], w);
      assert rows == [rows[0]] + rows[1..];
    }
  }

  /** The rows that suit a slot of `slots` under the daily targets. */
  function SlotSuitable(catalog: seq<Recipe>, slots: seq<string>, meal: string, targetCalories: real, targetProtein: real, tolerance: real): seq<Recipe>
    requires |slots| > 0
  {
    Suitable(catalog, SlotWindow(SlotWeight(slots, meal), targetCalories, targetProtein, tolerance))
  }

  /**
   * One slot's choice: a random row of `df_suitable`, or of the whole filtered
   * catalog when no row fits. The random pick is any row of the frame sampled.
   */
  method Sample(catalog: seq<Recipe>, w: Window) returns (selected: Recipe)
    requires |catalog| > 0
    ensures selected in catalog
    ensures Suitable(catalog, w) != [] ==> selected in Suitable(catalog, w)
  {
    var suitable := Suitable(catalog, w);
    if |suitable| == 0 {
      // Nothing fits: fall back to any row of the filtered catalog.
      assert catalog[0] in catalog;
      selected :| selected in catalog;
    } else {
      SuitableMembers(catalog, w);
      assert suitable[0] in suitable;
      selected :| selected in suitable;
    }
  }

  /**
   * `generate_daily_meal_plan`: no plan for an empty catalog; otherwise one
   * entry per slot, in slot order, and the totals message. `picks` records
   * which catalog rows were chosen.
   */
  method GenerateDailyMealPlan(catalog: seq<Recipe>, targetCalories: real, targetProtein: real, tolerance: real, maxMeals: int)
    returns (plan: Option<seq<PlanEntry>>, message: string, ghost picks: seq<Recipe>)
    requires |catalog| > 0 ==> MeanCalories(catalog) != 0.0 && MeanProtein(catalog) != 0.0
    ensures |catalog| == 0 ==> plan == None && message == NoRecipesMessage
    ensures |catalog| > 0 ==>
              var slots := NumberOfMeals(catalog, targetCalories, targetProtein, maxMeals);
              && plan.Some?
              && |plan.value| == |slots| == |picks|
              && (forall i :: 0 <= i < |slots| ==> picks[i] in catalog && plan.value[i] == EntryFor(slots[i], picks[i]))
              && (forall i :: 0 <= i < |slots| && SlotSuitable(catalog, slots, slots[i], targetCalories, targetProtein, tolerance) != [] ==>
                    picks[i] in SlotSuitable(catalog, slots, slots[i], targetCalories, targetProtein, tolerance))
              && message == SummaryText(TotalCalories(plan.value), TotalProtein(plan.value))
  {
    if |catalog| == 0 {
      return None, NoRecipesMessage, [];
    }
    var slots := NumberOfMeals(catalog, targetCalories, targetProtein, maxMeals);
    var weights := OptimalWeights(|slots|);
    var entries, totalCalories, totalProtein;
    entries, totalCalories, totalProtein, picks := FillSlots(catalog, slots, weights, targetCalories, targetProtein, tolerance);
    return Some(entries), SummaryText(totalCalories, totalProtein), picks;
  }

  /** The loop of `generate_daily_meal_plan` over the slots, with its running totals. */
  method FillSlots(catalog: seq<Recipe>, slots: seq<string>, weights: map<string, real>,
                   targetCalories: real, targetProtein: real, tolerance: real)
    returns (entries: seq<PlanEntry>, totalCalories: int, totalProtein: int, ghost picks: seq<Recipe>)
    requires |catalog| > 0
    requires forall meal :: meal in slots ==> meal in weights
    ensures |entries| == |slots| == |picks|
    ensures forall i :: 0 <= i < |slots| ==> picks[i] in catalog && entries[i] == EntryFor(slots[i], picks[i])
    ensures forall i :: 0 <= i < |slots| && Suitable(catalog, SlotWindow(weights[slots[i]], targetCalories, targetProtein, tolerance)) != [] ==>
              picks[i] in Suitable(catalog, SlotWindow(weights[slots[i]], targetCalories, targetProtein, tolerance))
    ensures totalCalories == TotalCalories(entries) && totalProtein == TotalProtein(entries)
  {

    entries, picks := [], [];
    totalCalories, totalProtein := 0, 0;
    for i := 0 to |slots|
      invariant |entries| == i && |picks| == i
      invariant forall j :: 0 <= j < i ==> picks[j] in catalog && entries[j] == EntryFor(slots[j], picks[j])
      invariant forall j :: 0 <= j < i && Suitable(catalog, SlotWindow(weights[slots[j]], targetCalories, targetProtein, tolerance)) != [] ==>
                  picks[j] in Suitable(catalog, SlotWindow(weights[slots[j]], targetCalories, targetProtein, tolerance))
      invariant totalCalories == TotalCalories(entries) && totalProtein == TotalProtein(entries)
    {
      var meal := slots[i];
      // The slot's entries of the per-meal target and deviation dicts.
      var window := SlotWindow(weights[meal], targetCalories, targetProtein, tolerance);
      var selected := Sample(catalog, window);
      var entry := EntryFor(meal, selected);
      assert (entries + [entry])[..i] == entries;
      entries, picks := entries + [entry], picks + [selected];
      totalCalories := totalCalories + entry.calories;
      totalProtein := totalProtein + entry.protein;
    }
  }

  /**
   * With non-negative nutrients, each reported total is at most the chosen
   * recipes' exact sum and loses less than one unit per entry to truncation.
   */
  lemma {:induction false} TotalsTruncateSums(slots: seq<string>, picks: seq<Recipe>, entries: seq<PlanEntry>)
    requires |entries| == |picks| == |slots|
    requires forall i :: 0 <= i < |picks| ==> entries[i] == EntryFor(slots[i], picks[i])
    requires forall i :: 0 <= i < |picks| ==> picks[i].calories >= 0.0 && picks[i].protein >= 0.0
    ensures picks != [] ==> SumCalories(picks) - |picks| as real < TotalCalories(entries) as real <= SumCalories(picks)
    ensures picks != [] ==> SumProtein(picks) - |picks| as real < TotalProtein(entries) as real <= SumProtein(picks)
    ensures picks == [] ==> TotalCalories(entries) == 0 && TotalProtein(entries) == 0
  {
    if picks != [] {
      var n := |picks| - 1;
      TotalsTruncateSums(slots[..n], picks[..n], entries[..n]);
      assert entries[n] == EntryFor(slots[n], picks[n]);
    }
  }
  /**
   * A catalog of one recipe with 500 calories and 30 g of protein, against daily
   * targets of 2400 calories and 120 g over at most three meals: both estimates
   * reach the cap, so the day has Breakfast, Lunch and Dinner, every slot gets
   * that recipe, and the totals are three times its nutrients.
   */
  method SingleRecipeDay(r: Recipe) returns (plan: Option<seq<PlanEntry>>, message: string)
    requires r.calories == 500.0 && r.protein == 30.0
    ensures plan.Some? && |plan.value| == 3
    ensures plan.value[0].meal == "Breakfast" && plan.value[1].meal == "Lunch" && plan.value[2].meal == "Dinner"
    ensures forall i :: 0 <= i < 3 ==> plan.value[i] == PlanEntry(plan.value[i].meal, r.name, 500, 30)
    ensures message == "Total: 1500 calories, 90g protein"
  {
    var catalog := [r];
    SingleRecipeSlots(r);
    ghost var picks;
    plan, message, picks := GenerateDailyMealPlan(catalog, 2400.0, 120.0, 0.2, 3);
    forall i | 0 <= i < 3 ensures plan.value[i] == PlanEntry(plan.value[i].meal, r.name, 500, 30) {
      assert picks[i] in catalog;
      SingleRecipeEntry(plan.value[i].meal, r);
    }
    ThreeEntryTotals(plan.value);
    SingleRecipeSummary();
  }

  /** The slots of that day: both estimates exceed the cap of three. */
  lemma SingleRecipeSlots(r: Recipe)
    requires r.calories == 500.0 && r.protein == 30.0
    ensures MeanCalories([r]) == 500.0 && MeanProtein([r]) == 30.0
    ensures NumberOfMeals([r], 2400.0, 120.0, 3) == ["Breakfast", "Lunch", "Dinner"]
  {
    assert [r][..0] == [];
    assert SumCalories([r]) == 500.0;
    assert SumProtein([r]) == 30.0;
    assert (2400.0 / (500.0 * 0.8)).Floor == 6;
    assert (120.0 / (30.0 * 0.8)).Floor == 5;
  }

  lemma SingleRecipeEntry(meal: string, r: Recipe)
    requires r.calories == 500.0 && r.protein == 30.0
    ensures EntryFor(meal, r) == PlanEntry(meal, r.name, 500, 30)
  {
    assert Trunc(500.0) == 500 && Trunc(30.0) == 30;
  }

  lemma SingleRecipeSummary()
    ensures SummaryText(1500, 90) == "Total: 1500 calories, 90g protein"
  {
    assert IntToString(1500) == "1500" && IntToString(90) == "90";
  }

  lemma ThreeEntryTotals(e: seq<PlanEntry>)
    requires |e| == 3
    ensures TotalCalories(e) == e[0].calories + e[1].calories + e[2].calories
    ensures TotalProtein(e) == e[0].protein + e[1].protein + e[2].protein
  {
    var e1, e2 := e[..1], e[..2];
    assert e2[..1] == e1 && e2[1] == e[1] && e[..2] == e2;
    assert e1[..0] == [] && e1[0] == e[0];
    assert TotalCalories(e1) == e[0].calories && TotalProtein(e1) == e[0].protein;
    assert TotalCalories(e2) == e[0].calories + e[1].calories;
    assert TotalProtein(e2) == e[0].protein + e[1].protein;
  }
}
