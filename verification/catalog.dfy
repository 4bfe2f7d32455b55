/**
 * One row of the exported recipe catalog, and how the export derives it from
 * a raw row: the parsed keyword list, the `MealCat` label and the 0/1 feature
 * columns. The catalog itself is a sequence of rows, in file order.
 */
module Catalog {
  import opened Wrappers
  import opened Features

  /** The columns of a raw row that the derivation reads. */
  datatype RawRecipe = RawRecipe(
    name: string,
    calories: real,
    protein: real,
    keywords: Option<string>,
    category: Option<string>)

  /** A catalog row: name, nutrients, keyword list, meal category and feature columns. */
  datatype Recipe = Recipe(
    name: string,
    calories: real,
    protein: real,
    keywords: seq<string>,
    mealCat: string,
    flags: Flags)

  /** What every exported row satisfies, whatever its keywords and nutrients. */
  predicate Exported(r: Recipe)
  {
    && Binary(r.flags)
    && (r.flags.vegan == 1 ==> r.flags.vegetarian == 1)
    && (r.flags.vegetarian == 1 ==> r.flags.pescatarian == 1)
    && (r.flags.vegan == 1 ==> r.flags.dairyFree == 1)
    && (r.flags.easy == 1 ==> r.flags.standardPrepTime == 1)
    && ExactlyOne(r.flags.lowCalorie, r.flags.moderateCalorie, r.flags.highCalorie)
    && ExactlyOne(r.flags.lowProtein, r.flags.moderateProtein, r.flags.highProtein)
    && (r.mealCat == "Snacks" || r.mealCat == "Breakfast" || r.mealCat == "Lunch/Dinner")
  }

  /** The feature engineering applied to one raw row. */
  function ExportRow(raw: RawRecipe): (r: Recipe)
    ensures Exported(r)
    ensures r.name == raw.name && r.calories == raw.calories && r.protein == raw.protein
  {
    var keywords := ParseKeywords(raw.keywords);
    DietFlagsNested(keywords, raw.calories, raw.protein);
    VeganIsDairyFree(keywords, raw.calories, raw.protein);
    EasyIsStandardPrepTime(keywords, raw.calories, raw.protein);
    Recipe(raw.name, raw.calories, raw.protein, keywords, MealCat(raw.category),
           DeriveFlags(keywords, raw.calories, raw.protein))
  }

  /** Sum of the `Calories` column. */
  function SumCalories(rows: seq<Recipe>): real
  {
    if rows == [] then 0.0 else SumCalories(rows[..|rows| - 1]) + rows[|rows| - 1].calories
  }

  /** Sum of the `ProteinContent` column. */
  function SumProtein(rows: seq<Recipe>): real
  {
    if rows == [] then 0.0 else SumProtein(rows[..|rows| - 1]) + rows[|rows| - 1].protein
  }

  /** pandas' mean of the `Calories` column. */
  function MeanCalories(rows: seq<Recipe>): real
    requires |rows| > 0
  {
    SumCalories(rows) / |rows| as real
  }

  /** pandas' mean of the `ProteinContent` column. */
  function MeanProtein(rows: seq<Recipe>): real
    requires |rows| > 0
  {
    SumProtein(rows) / |rows| as real
  }
}
