/**
 * How many meal slots a day gets, what they are called, and what share of
 * the daily targets each one carries.
 */
module MealSlots {
  import opened Text
  import opened Numeric
  import opened Catalog

  const BaseNames: seq<string> := ["Breakfast", "Lunch", "Dinner"]

  function Min(a: int, b: int): int { if a <= b then a else b }
  function Max(a: int, b: int): int { if a >= b then a else b }

  /** Where Python's slice `xs[:stop]` ends in a list of `length` elements. */
  function SliceStop(stop: int, length: nat): (k: nat)
    ensures k <= length
  {
    if stop >= 0 then Min(stop, length) else Max(0, length + stop)
  }

  /** "Meal 1", ..., "Meal n". */
  function NumberedNames(n: nat): (names: seq<string>)
    ensures |names| == n
  {
    seq(n, i requires 0 <= i < n => "Meal " + NatToString(i + 1))
  }

  /** The slot names for a number of meals. */
  function MealNames(count: int): (names: seq<string>)
    ensures 0 <= count ==> |names| == count
    ensures count < 0 ==> |names| == Max(0, 3 + count)
    ensures Distinct(names)
  {
    if count <= 3 then BaseNames[..SliceStop(count, 3)]
    else if count == 4 then ["Breakfast", "Lunch", "Snack", "Dinner"]
    else if count == 5 then ["Breakfast", "Mid-Morning", "Lunch", "Afternoon Snack", "Dinner"]
    else if count == 6 then ["Breakfast", "Mid-Morning", "Lunch", "Afternoon Snack", "Dinner", "Evening Snack"]
    else
      NumberedNamesDistinct(count);
      NumberedNames(count)
  }

  /** The i-th numbered slot carries the number i + 1, so no two numbered slots share a name. */
  lemma NumberedNamesDistinct(n: nat)
    ensures Distinct(NumberedNames(n))
    ensures forall i :: 0 <= i < n ==> ParseDecimal(NumberedNames(n)[i][5..]) == i + 1
  {
    var names := NumberedNames(n);
    forall i | 0 <= i < n
      ensures ParseDecimal(names[i][5..]) == i + 1
    {
      assert names[i][5..] == NatToString(i + 1);
      ParseNatToString(i + 1);
    }
  }

  /** Asking again for as many names as were returned gives the same names. */
  lemma MealNamesOfLength(count: int)
    ensures MealNames(|MealNames(count)|) == MealNames(count)
  {
  }

  /** The base weights: a name missing from the table, such as "Snack" or "Meal 3", gets the default. */
  const MealWeightTable: map<string, nat> := map[
    "Breakfast" := 3, "Lunch" := 4, "Dinner" := 4,
    "Mid-Morning" := 2, "Afternoon Snack" := 2,
    "Evening Snack" := 2, "Default" := 3
  ]

  function BaseWeight(meal: string): (w: nat)
    ensures 2 <= w <= 4
  {
    if meal in MealWeightTable then MealWeightTable[meal] else MealWeightTable["Default"]
  }

  /** Names outside the table weigh 3: "Snack" in the four-slot day, and every "Meal k" from seven slots on. */
  lemma UnlistedWeighThree(count: int)
    ensures BaseWeight("Snack") == 3
    ensures BaseWeight(MealNames(4)[2]) == 3
    ensures count >= 7 ==> forall meal :: meal in MealNames(count) ==> meal !in MealWeightTable
    ensures count >= 7 ==> forall meal :: meal in MealNames(count) ==> BaseWeight(meal) == 3
  {
    assert "Snack" !in MealWeightTable;
    if count >= 7 {
      forall meal | meal in MealNames(count)
        ensures meal !in MealWeightTable
      {
        var i :| 0 <= i < count && MealNames(count)[i] == meal;
        assert meal == "Meal " + NatToString(i + 1);
        assert meal[0] == 'M' && |meal| >= 6 && meal[1] == 'e';
      }
    }
  }

  /** Sum of the base weights of the slots. */
  function TotalBase(names: seq<string>): (total: nat)
    ensures total >= 2 * |names|
  {
    if names == [] then 0 else TotalBase(names[..|names| - 1]) + BaseWeight(names[|names| - 1])
  }

  /** The share of a slot: its base weight over the total, rounded to two decimals. */
  function SlotWeight(names: seq<string>, meal: string): real
    requires |names| > 0
  {
    Round2(BaseWeight(meal) as real / TotalBase(names) as real)
  }

  /** A slot's weight is a whole number of hundredths within half a hundredth of its exact share. */
  lemma SlotWeightNear(names: seq<string>, meal: string)
    requires |names| > 0
    ensures IsHundredths(SlotWeight(names, meal))
    ensures -0.005 <= SlotWeight(names, meal) - BaseWeight(meal) as real / TotalBase(names) as real <= 0.005
  {
  }

  /**
   * `optimal_weights_per_meal`: a dict from each slot name to its base
   * weight, then each entry rewritten to its rounded share of the total.
   */
  method OptimalWeights(count: int) returns (weights: map<string, real>)
    ensures var names := MealNames(count);
            && (forall meal :: meal in weights <==> meal in names)
            && (forall meal :: meal in weights ==> weights[meal] == SlotWeight(names, meal))
  {
    weights := WeightsFor(MealNames(count));
  }

  /** The two passes of `optimal_weights_per_meal` over the slot names. */
  method WeightsFor(names: seq<string>) returns (weights: map<string, real>)
    requires Distinct(names)
    ensures forall meal :: meal in weights <==> meal in names
    ensures forall meal :: meal in weights ==> weights[meal] == SlotWeight(names, meal)
  {
    weights := map[];
    for i := 0 to |names|
      invariant forall meal :: meal in weights ==> meal in names && weights[meal] == BaseWeight(meal) as real
      invariant forall j :: 0 <= j < i ==> names[j] in weights
    {
      weights := weights[names[i] := BaseWeight(names[i]) as real];
    }

    // The values are the base weights of the distinct slot names, so their sum is the names' total.
    var total := TotalBase(names) as real;

    for i := 0 to |names|
      invariant forall meal :: meal in weights ==> meal in names
      invariant forall j :: 0 <= j < |names| ==> names[j] in weights
      invariant forall j :: 0 <= j < i ==> weights[names[j]] == SlotWeight(names, names[j])
      invariant forall j :: i <= j < |names| ==> weights[names[j]] == BaseWeight(names[j]) as real
    {
      var meal := names[i];
      assert forall j :: i < j < |names| ==> names[j] != meal;
      weights := weights[meal := Round2(weights[meal] / total)];
    }
  }

  /** Sum of the weights of the slots in `prefix`, each the value the weights dict holds for it. */
  function WeightSum(prefix: seq<string>, names: seq<string>): real
    requires |names| > 0
  {
    if prefix == [] then 0.0
    else WeightSum(prefix[..|prefix| - 1], names) + SlotWeight(names, prefix[|prefix| - 1])
  }

  /** The weights of `prefix` add up to its exact share of the total within 0.005 per slot. */
  lemma {:induction false} WeightSumNear(prefix: seq<string>, names: seq<string>)
    requires |names| > 0
    ensures -0.005 * |prefix| as real <= WeightSum(prefix, names) - TotalBase(prefix) as real / TotalBase(names) as real
    ensures WeightSum(prefix, names) - TotalBase(prefix) as real / TotalBase(names) as real <= 0.005 * |prefix| as real
  {
    if prefix != [] {
      var init, last := prefix[..|prefix| - 1], prefix[|prefix| - 1];
      WeightSumNear(init, names);
      SlotWeightNear(names, last);
      DivideSum(TotalBase(init) as real, BaseWeight(last) as real, TotalBase(names) as real);
    }
  }

  lemma DivideSum(a: real, b: real, d: real)
    requires d > 0.0
    ensures (a + b) / d == a / d + b / d
  {
  }

  lemma DivideSelf(d: real)
    requires d > 0.0
    ensures d / d == 1.0
  {
  }

  /** The slot weights add up to 1 within half a hundredth per slot. */
  lemma WeightsSumNearOne(names: seq<string>)
    requires |names| > 0
    ensures -0.005 * |names| as real <= WeightSum(names, names) - 1.0 <= 0.005 * |names| as real
  {
    WeightSumNear(names, names);
    DivideSelf(TotalBase(names) as real);
  }

  /** The slot count one nutrient suggests: the floor of target over 80% of the average, clamped. */
  function Estimate(target: real, average: real, maxMeals: int): int
    requires average != 0.0
  {
    Min(maxMeals, Max(2, (target / (average * 0.8)).Floor))
  }

  /** `number_of_meals`: the names for the larger of the two estimates. */
  function NumberOfMeals(catalog: seq<Recipe>, targetCalories: real, targetProtein: real, maxMeals: int): (names: seq<string>)
    requires |catalog| > 0 ==> MeanCalories(catalog) != 0.0 && MeanProtein(catalog) != 0.0
    ensures |catalog| == 0 ==> names == ["Breakfast", "Lunch", "Dinner"]
    ensures |catalog| > 0 && maxMeals >= 2 ==> 2 <= |names| <= maxMeals
    ensures names == MealNames(|names|)
    ensures Distinct(names)
  {
    if |catalog| == 0 then
      assert MealNames(3) == BaseNames;
      BaseNames
    else
      var byCalories := Estimate(targetCalories, MeanCalories(catalog), maxMeals);
      var byProtein := Estimate(targetProtein, MeanProtein(catalog), maxMeals);
      MealNamesOfLength(Max(byCalories, byProtein));
      MealNames(Max(byCalories, byProtein))
  }

  /** With a positive average, a larger target never suggests fewer meals. */
  lemma EstimateMonotone(low: real, high: real, average: real, maxMeals: int)
    requires average > 0.0 && low <= high
    ensures Estimate(low, average, maxMeals) <= Estimate(high, average, maxMeals)
  {
    var d := average * 0.8;
    assert low / d <= high / d;
  }

  /** Raising the calorie target never lowers the number of slots. */
  lemma MoreCaloriesNoFewerMeals(catalog: seq<Recipe>, low: real, high: real, targetProtein: real, maxMeals: int)
    requires |catalog| > 0 && MeanCalories(catalog) > 0.0 && MeanProtein(catalog) != 0.0
    requires low <= high && maxMeals >= 2
    ensures |NumberOfMeals(catalog, low, targetProtein, maxMeals)| <= |NumberOfMeals(catalog, high, targetProtein, maxMeals)|
  {
    EstimateMonotone(low, high, MeanCalories(catalog), maxMeals);
  }
}
