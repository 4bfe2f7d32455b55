/**
 * The per-row feature derivation of the dataset export: the raw `Keywords`
 * cell (an R character vector such as `c("Dessert", "Easy")`) becomes a list
 * of normalised keywords, and the keyword list, the calories and the protein
 * become the 0/1 columns the planner filters on. A recipe category becomes
 * its coarse `MealCat` label.
 */
module Features {
  import opened Wrappers
  import opened Text

  // ---------------------------------------------------------------------------
  // Keyword parsing

  /** The characters stripped from both ends of the raw cell: those of the R wrapper `c(...)`. */
  predicate IsVectorWrapper(c: char)
  {
    c == 'c' || c == '(' || c == ')'
  }

  /** The cell with the wrapper characters stripped from its ends and every double quote removed. */
  function CleanKeywordCell(raw: string): (s: string)
    ensures '"' !in s
    ensures Count(s, ',') == Count(raw, ',')
  {
    RemoveChar(Strip(raw, IsVectorWrapper), '"')
  }

  /** One keyword: surrounding whitespace stripped, then lower-cased. */
  function NormalizeKeyword(piece: string): string
  {
    Lower(Strip(piece, IsSpace))
  }

  /** A normalised keyword is trimmed and lower-case, and brings no quote or comma of its own. */
  lemma NormalizedShape(piece: string)
    ensures var k := NormalizeKeyword(piece);
            && (k == [] || (!IsSpace(k[0]) && !IsSpace(k[|k| - 1])))
            && (forall i :: 0 <= i < |k| ==> !IsUpper(k[i]))
            && ('"' in k ==> '"' in piece)
            && (',' in k ==> ',' in piece)
  {
    NormalizedEnds(piece);
    NormalizedKeeps(piece, '"');
    NormalizedKeeps(piece, ',');
  }

  lemma NormalizedEnds(piece: string)
    ensures var k := NormalizeKeyword(piece);
            k == [] || (!IsSpace(k[0]) && !IsSpace(k[|k| - 1]))
  {
    LowerKeepsEnds(Strip(piece, IsSpace));
  }

  /** Lower-casing a string whose ends are not whitespace leaves its ends not whitespace. */
  lemma LowerKeepsEnds(t: string)
    requires t == [] || (!IsSpace(t[0]) && !IsSpace(t[|t| - 1]))
    ensures var k := Lower(t);
            k == [] || (!IsSpace(k[0]) && !IsSpace(k[|k| - 1]))
  {
    if t != [] {
      LowerCharSpace(t[0]);
      LowerCharSpace(t[|t| - 1]);
    }
  }

  /** A character other than a letter appears in the keyword only if it was in the piece. */
  lemma NormalizedKeeps(piece: string, c: char)
    requires !('A' <= c <= 'Z') && !('a' <= c <= 'z')
    ensures c in NormalizeKeyword(piece) ==> c in piece
  {
    var t := Strip(piece, IsSpace);
    var k := Lower(t);
    if c in k {
      var i :| 0 <= i < |k| && k[i] == c;
      assert LowerChar(t[i]) == c;
      assert t[i] == c;
      assert c in t;
    }
  }

  /** Trimmed, lower-case, and free of the quote and the separator. */
  predicate IsNormalKeyword(k: string)
  {
    && (k == [] || (!IsSpace(k[0]) && !IsSpace(k[|k| - 1])))
    && (forall i :: 0 <= i < |k| ==> !IsUpper(k[i]))
    && '"' !in k && ',' !in k
  }

  /**
   * The `Keywords` column: a missing cell gives no keywords; otherwise the
   * cleaned cell is split at every comma and each piece normalised.
   */
  function ParseKeywords(cell: Option<string>): (r: seq<Keyword>)
    ensures cell.None? ==> r == []
    ensures cell.Some? ==> |r| == Count(cell.value, ',') + 1
    ensures forall i :: 0 <= i < |r| ==> IsNormalKeyword(r[i])
  {
    match cell
    case None => []
    case Some(raw) =>
      var cleaned := CleanKeywordCell(raw);
      SplitKeepsAbsent(cleaned, ',', '"');
      var r := NormalizeAll(Split(cleaned, ','));
      KeywordsNormal(r);
      r
  }

  lemma KeywordsNormal(r: seq<Keyword>)
    ensures forall i :: 0 <= i < |r| ==> IsNormalKeyword(r[i])
  {
  }

  /** A keyword as the export stores it: trimmed, lower-case, without quotes or commas. */
  type Keyword = k: string | IsNormalKeyword(k)

  /** `[kw.strip().lower() for kw in pieces]`, over pieces free of quotes and commas. */
  function NormalizeAll(pieces: seq<string>): (r: seq<Keyword>)
    requires forall i :: 0 <= i < |pieces| ==> ',' !in pieces[i] && '"' !in pieces[i]
    ensures |r| == |pieces|
    ensures forall i :: 0 <= i < |r| ==> r[i] == NormalizeKeyword(pieces[i])
  {
    if pieces == [] then []
    else
      NormalizedKeyword(pieces[0]);
      var k: Keyword := NormalizeKeyword(pieces[0]);
      [k] + NormalizeAll(pieces[1..])
  }

  /** A piece without quotes or commas normalises to a normal keyword. */
  lemma NormalizedKeyword(piece: string)
    requires ',' !in piece && '"' !in piece
    ensures IsNormalKeyword(NormalizeKeyword(piece))
  {
    NormalizedShape(piece);
  }

  /** How R prints a non-empty character vector: `"a"` for one element, `c("a", "b", ...)` for more. */
  function RenderVector(keywords: seq<string>): string
    requires |keywords| >= 1
  {
    if |keywords| == 1 then QuotedItems(keywords) else "c(" + QuotedItems(keywords) + ")"
  }

  function QuotedItems(keywords: seq<string>): (s: string)
    requires |keywords| >= 1
    ensures |s| >= 2 && s[0] == '"' && s[|s| - 1] == '"'
  {
    if |keywords| == 1 then "\"" + keywords[0] + "\""
    else "\"" + keywords[0] + "\"" + ", " + QuotedItems(keywords[1..])
  }

  /** The items of a rendered vector once the wrapper and the quotes are gone. */
  function UnquotedItems(keywords: seq<string>): string
    requires |keywords| >= 1
  {
    if |keywords| == 1 then keywords[0]
    else keywords[0] + ", " + UnquotedItems(keywords[1..])
  }

  /**
   * What a printed vector parses to: any non-empty vector of keywords free of
   * quotes and commas, rendered as `"k1"` or `c("k1", "k2", ...)`, parses to
   * one normalised keyword per element, in order.
   */
  lemma ParseRenderedKeywords(keywords: seq<string>)
    requires |keywords| >= 1
    requires forall i :: 0 <= i < |keywords| ==> '"' !in keywords[i] && ',' !in keywords[i]
    ensures var r := ParseKeywords(Some(RenderVector(keywords)));
            |r| == |keywords| && forall i :: 0 <= i < |keywords| ==> r[i] == NormalizeKeyword(keywords[i])
  {
    CleanRendered(keywords);
    NormalizeSplitItems(keywords);
  }

  /** The cell `c("Dessert", "Easy")` holds the keywords `dessert` and `easy`. */
  lemma DessertEasyCell()
    ensures ParseKeywords(Some("c(\"Dessert\", \"Easy\")")) == ["dessert", "easy"]
  {
    var keywords := ["Dessert", "Easy"];
    RenderDessertEasy();
    ParseRenderedKeywords(keywords);
    NormalizeDessert();
    NormalizeEasy();
  }

  lemma RenderDessertEasy()
    ensures RenderVector(["Dessert", "Easy"]) == "c(\"Dessert\", \"Easy\")"
  {
    var keywords := ["Dessert", "Easy"];
    assert keywords[1..] == ["Easy"];
    var items := "\"Dessert\"" + ", " + "\"Easy\"";
    assert QuotedItems(keywords) == items;
    assert "c(" + items + ")" == "c(\"Dessert\", \"Easy\")";
  }

  lemma NormalizeDessert()
    ensures NormalizeKeyword("Dessert") == "dessert"
  {
    NormalizeWord("Dessert");
    assert Lower("Dessert") == "dessert";
  }

  lemma NormalizeEasy()
    ensures NormalizeKeyword("Easy") == "easy"
  {
    NormalizeWord("Easy");
    assert Lower("Easy") == "easy";
  }

  /** A word without spaces normalises to its lower-cased self. */
  lemma NormalizeWord(w: string)
    requires w != [] && forall i :: 0 <= i < |w| ==> !IsSpace(w[i])
    ensures NormalizeKeyword(w) == Lower(w)
  {
    assert TrimLeft(w, IsSpace) == w;
    assert TrimRight(w, IsSpace) == w;
  }

  /**
   * Parsing inverts R's printing: a non-empty vector of normalised, non-empty
   * keywords rendered as `"k1"` or `c("k1", "k2", ...)` parses back to the same list.
   */
  lemma ParseRenderedVector(keywords: seq<string>)
    requires |keywords| >= 1
    requires forall i :: 0 <= i < |keywords| ==> keywords[i] != [] && IsNormalKeyword(keywords[i])
    ensures ParseKeywords(Some(RenderVector(keywords))) == keywords
  {
    ParseRenderedKeywords(keywords);
    NormalizedAllUnchanged(keywords);
  }

  lemma NormalizedAllUnchanged(keywords: seq<string>)
    requires forall i :: 0 <= i < |keywords| ==> keywords[i] != [] && IsNormalKeyword(keywords[i])
    ensures forall i :: 0 <= i < |keywords| ==> NormalizeKeyword(keywords[i]) == keywords[i]
  {
    forall i | 0 <= i < |keywords|
      ensures NormalizeKeyword(keywords[i]) == keywords[i]
    {
      NormalizedUnchanged(keywords[i]);
    }
  }

  /** Cleaning a rendered vector leaves its items separated by ", ". */
  lemma CleanRendered(keywords: seq<string>)
    requires |keywords| >= 1
    requires forall i :: 0 <= i < |keywords| ==> '"' !in keywords[i]
    ensures CleanKeywordCell(RenderVector(keywords)) == UnquotedItems(keywords)
  {
    var items := QuotedItems(keywords);
    var cell := RenderVector(keywords);
    if |keywords| == 1 {
      assert cell == items;
      StripQuoted(items);
    } else {
      assert cell == "c(" + items + ")";
      StripRendered(items);
    }
    assert CleanKeywordCell(cell) == RemoveChar(items, '"');
    UnquoteItems(keywords);
  }

  /** Splitting items joined by ", " at commas gives pieces that normalise as the items do. */
  lemma NormalizeSplitItems(keywords: seq<string>)
    requires |keywords| >= 1
    requires forall i :: 0 <= i < |keywords| ==> ',' !in keywords[i]
    ensures var pieces := Split(UnquotedItems(keywords), ',');
            |pieces| == |keywords| && forall i :: 0 <= i < |keywords| ==> NormalizeKeyword(pieces[i]) == NormalizeKeyword(keywords[i])
  {
    SplitItems(keywords);
    forall i | 1 <= i < |keywords|
      ensures NormalizeKeyword(" " + keywords[i]) == NormalizeKeyword(keywords[i])
    {
      NormalizeLeadingSpace(keywords[i]);
    }
  }

  /** A leading space never changes how a piece normalises. */
  lemma NormalizeLeadingSpace(k: string)
    ensures NormalizeKeyword(" " + k) == NormalizeKeyword(k)
  {
    TrimLeftDrops(' ', k, IsSpace);
  }

  /** Splitting the items at commas and normalising each piece gives the keywords back. */
  lemma NormalizeItems(keywords: seq<string>)
    requires |keywords| >= 1
    requires forall i :: 0 <= i < |keywords| ==> keywords[i] != [] && IsNormalKeyword(keywords[i])
    ensures var pieces := Split(UnquotedItems(keywords), ',');
            |pieces| == |keywords| && forall i :: 0 <= i < |keywords| ==> NormalizeKeyword(pieces[i]) == keywords[i]
  {
    NormalizeSplitItems(keywords);
    NormalizedAllUnchanged(keywords);
  }

  /** A quoted item has no wrapper character at either end, so stripping leaves it alone. */
  lemma StripQuoted(items: string)
    requires |items| >= 2 && items[0] == '"' && items[|items| - 1] == '"'
    ensures Strip(items, IsVectorWrapper) == items
  {
    assert TrimLeft(items, IsVectorWrapper) == items;
    assert TrimRight(items, IsVectorWrapper) == items;
  }

  lemma StripRendered(items: string)
    requires |items| >= 2 && items[0] == '"' && items[|items| - 1] == '"'
    ensures Strip("c(" + items + ")", IsVectorWrapper) == items
  {
    var closed := items + [')'];
    assert "c(" + items + ")" == ['c'] + (['('] + closed);
    TrimLeftDrops('c', ['('] + closed, IsVectorWrapper);
    TrimLeftDrops('(', closed, IsVectorWrapper);
    assert TrimLeft(closed, IsVectorWrapper) == closed;
    TrimRightDrops(items, ')', IsVectorWrapper);
    assert TrimRight(items, IsVectorWrapper) == items;
  }

  lemma {:induction false} UnquoteItems(keywords: seq<string>)
    requires |keywords| >= 1
    requires forall i :: 0 <= i < |keywords| ==> '"' !in keywords[i]
    ensures RemoveChar(QuotedItems(keywords), '"') == UnquotedItems(keywords)
  {
    var q := "\"" + keywords[0] + "\"";
    UnquoteOne(keywords[0]);
    if |keywords| > 1 {
      var rest := QuotedItems(keywords[1..]);
      UnquoteItems(keywords[1..]);
      RemoveCharAppend(q + ", ", rest, '"');
      RemoveCharAppend(q, ", ", '"');
      assert RemoveChar(", ", '"') == ", ";
    }
  }

  lemma UnquoteOne(k: string)
    requires '"' !in k
    ensures RemoveChar("\"" + k + "\"", '"') == k
  {
    RemoveCharAppend("\"", k + "\"", '"');
    RemoveCharAppend(k, "\"", '"');
    assert "\"" + k + "\"" == "\"" + (k + "\"");
  }

  lemma SplitItems(keywords: seq<string>)
    requires |keywords| >= 1
    requires forall i :: 0 <= i < |keywords| ==> ',' !in keywords[i]
    ensures var pieces := Split(UnquotedItems(keywords), ',');
            |pieces| == |keywords| && pieces[0] == keywords[0] &&
            forall i :: 1 <= i < |keywords| ==> pieces[i] == " " + keywords[i]
  {
    if |keywords| == 1 {
      SplitWithoutSeparator(keywords[0], ',');
    } else {
      var tail := " " + UnquotedItems(keywords[1..]);
      assert UnquotedItems(keywords) == keywords[0] + [','] + tail;
      SplitAtSeparator(keywords[0], tail, ',');
      SplitTail(keywords[1..]);
    }
  }

  /** After ", " every piece keeps its one leading space. */
  lemma {:induction false} SplitTail(keywords: seq<string>)
    requires |keywords| >= 1
    requires forall i :: 0 <= i < |keywords| ==> ',' !in keywords[i]
    ensures var pieces := Split(" " + UnquotedItems(keywords), ',');
            |pieces| == |keywords| && forall i :: 0 <= i < |keywords| ==> pieces[i] == " " + keywords[i]
  {
    var u := UnquotedItems(keywords);
    if |keywords| == 1 {
      assert ',' !in " " + u;
      SplitWithoutSeparator(" " + u, ',');
    } else {
      var tail := " " + UnquotedItems(keywords[1..]);
      assert " " + u == (" " + keywords[0]) + [','] + tail;
      SplitAtSeparator(" " + keywords[0], tail, ',');
      SplitTail(keywords[1..]);
    }
  }

  lemma NormalizedUnchanged(k: string)
    requires k != [] && IsNormalKeyword(k)
    ensures NormalizeKeyword(k) == k
    ensures NormalizeKeyword(" " + k) == k
  {
    assert TrimLeft(k, IsSpace) == k;
    assert TrimRight(k, IsSpace) == k;
    LowerUnchanged(k);
    NormalizeLeadingSpace(k);
  }

  /** A string without upper-case letters is its own lower-case form. */
  lemma LowerUnchanged(k: string)
    requires forall i :: 0 <= i < |k| ==> !IsUpper(k[i])
    ensures Lower(k) == k
  {
  }

  // ---------------------------------------------------------------------------
  // 0/1 feature columns

  const MeatList: seq<string> := ["beef", "pork", "chicken", "turkey", "fish", "lamb", "meat", "bacon", "ham"]
  const AnimalProducts: seq<string> := ["cheese", "milk", "butter", "cream", "egg", "honey", "yogurt"]
  const NonFishMeat: seq<string> := ["beef", "pork", "chicken", "turkey", "lamb", "meat", "bacon", "ham"]
  const QuickKeywords: seq<string> := ["< 15 mins", "< 30 mins", "quick", "fast"]
  const StandardKeywords: seq<string> := ["< 4 hours", "weeknight", "easy", "one dish meal"]
  const LongPrepKeywords: seq<string> :=
    ["crock pot slow cooker", "beef crock pot", "time to make", "slow cooked", "long cooking time"]
  const GlutenFreeKeywords: seq<string> := ["gluten-free", "gluten free", "celiac", "wheat-free", "wheat free"]
  const DairyFreeKeywords: seq<string> := ["dairy-free", "dairy free", "lactose-free", "lactose free", "vegan"]
  const DairyProducts: seq<string> := ["milk", "cheese", "butter", "cream", "yogurt"]

  /** The columns the export adds, one 0/1 value each. */
  datatype Flags = Flags(
    easy: int, vegan: int, vegetarian: int, pescatarian: int,
    quick: int, standardPrepTime: int, longPrepTime: int,
    lowCalorie: int, moderateCalorie: int, highCalorie: int,
    lowProtein: int, moderateProtein: int, highProtein: int,
    glutenFree: int, dairyFree: int)

  /** The names of those columns, for the filter. */
  datatype Feature =
    | Easy | Vegan | Vegetarian | Pescatarian
    | Quick | StandardPrepTime | LongPrepTime
    | LowCalorie | ModerateCalorie | HighCalorie
    | LowProtein | ModerateProtein | HighProtein
    | GlutenFree | DairyFree

  function Column(f: Flags, feature: Feature): int
  {
    match feature
    case Easy => f.easy
    case Vegan => f.vegan
    case Vegetarian => f.vegetarian
    case Pescatarian => f.pescatarian
    case Quick => f.quick
    case StandardPrepTime => f.standardPrepTime
    case LongPrepTime => f.longPrepTime
    case LowCalorie => f.lowCalorie
    case ModerateCalorie => f.moderateCalorie
    case HighCalorie => f.highCalorie
    case LowProtein => f.lowProtein
    case ModerateProtein => f.moderateProtein
    case HighProtein => f.highProtein
    case GlutenFree => f.glutenFree
    case DairyFree => f.dairyFree
  }

  /** Some word of `words` is, as a whole, one of the keywords (list membership, not substring). */
  predicate AnyIn(words: seq<string>, keywords: seq<string>)
  {
    exists w :: w in words && w in keywords
  }

  /** A word list contained in another one can only be found when the larger one is. */
  lemma AnyInSubset(small: seq<string>, large: seq<string>, keywords: seq<string>)
    requires forall w :: w in small ==> w in large
    ensures AnyIn(small, keywords) ==> AnyIn(large, keywords)
  {
  }

  /** The excluded-word lists are nested: non-fish meat within meat, dairy within animal products. */
  lemma WordListInclusions()
    ensures forall w :: w in NonFishMeat ==> w in MeatList
    ensures forall w :: w in DairyProducts ==> w in AnimalProducts
    ensures forall w :: w in MeatList ==> w in MeatList + AnimalProducts
    ensures forall w :: w in DairyProducts ==> w in MeatList + AnimalProducts
  {
  }

  function Bit(b: bool): (r: int)
    ensures IsBit(r)
    ensures r == 1 <==> b
  {
    if b then 1 else 0
  }

  /** Every column holds 0 or 1. */
  predicate Binary(f: Flags)
  {
    && IsBit(f.easy) && IsBit(f.vegan) && IsBit(f.vegetarian) && IsBit(f.pescatarian)
    && IsBit(f.quick) && IsBit(f.standardPrepTime) && IsBit(f.longPrepTime)
    && IsBit(f.lowCalorie) && IsBit(f.moderateCalorie) && IsBit(f.highCalorie)
    && IsBit(f.lowProtein) && IsBit(f.moderateProtein) && IsBit(f.highProtein)
    && IsBit(f.glutenFree) && IsBit(f.dairyFree)
  }

  predicate IsBit(x: int)
  {
    x == 0 || x == 1
  }

  /** Exactly one of three 0/1 values is 1. */
  predicate ExactlyOne(a: int, b: int, c: int)
  {
    (a == 1 && b == 0 && c == 0) || (a == 0 && b == 1 && c == 0) || (a == 0 && b == 0 && c == 1)
  }

  function IsVegan(keywords: seq<string>): bool { !AnyIn(MeatList + AnimalProducts, keywords) }
  function IsVegetarian(keywords: seq<string>): bool { !AnyIn(MeatList, keywords) }
  function IsPescatarian(keywords: seq<string>): bool { !AnyIn(NonFishMeat, keywords) }
  function IsDairyFree(keywords: seq<string>): bool
  {
    AnyIn(DairyFreeKeywords, keywords) || !AnyIn(DairyProducts, keywords)
  }

  /** The feature columns of one row, from its keyword list, calories and protein. */
  function DeriveFlags(keywords: seq<string>, calories: real, protein: real): (f: Flags)
    ensures Binary(f)
    ensures ExactlyOne(f.lowCalorie, f.moderateCalorie, f.highCalorie)
    ensures ExactlyOne(f.lowProtein, f.moderateProtein, f.highProtein)
  {
    Flags(
      easy := Bit("easy" in keywords),
      vegan := Bit(IsVegan(keywords)),
      vegetarian := Bit(IsVegetarian(keywords)),
      pescatarian := Bit(IsPescatarian(keywords)),
      quick := Bit(AnyIn(QuickKeywords, keywords)),
      standardPrepTime := Bit(AnyIn(StandardKeywords, keywords)),
      longPrepTime := Bit(AnyIn(LongPrepKeywords, keywords)),
      lowCalorie := Bit(calories < 300.0),
      moderateCalorie := Bit(300.0 <= calories && calories <= 600.0),
      highCalorie := Bit(calories > 600.0),
      lowProtein := Bit(protein < 10.0),
      moderateProtein := Bit(10.0 <= protein && protein <= 20.0),
      highProtein := Bit(protein > 20.0),
      glutenFree := Bit(AnyIn(GlutenFreeKeywords, keywords)),
      dairyFree := Bit(IsDairyFree(keywords)))
  }

  /** Vegan implies vegetarian implies pescatarian: each excluded-word list contains the next. */
  lemma DietFlagsNested(keywords: seq<string>, calories: real, protein: real)
    ensures var f := DeriveFlags(keywords, calories, protein);
            (f.vegan == 1 ==> f.vegetarian == 1) && (f.vegetarian == 1 ==> f.pescatarian == 1)
  {
    WordListInclusions();
    AnyInSubset(MeatList, MeatList + AnimalProducts, keywords);
    AnyInSubset(NonFishMeat, MeatList, keywords);
  }

  /** Vegan implies dairy-free: every dairy product is an excluded animal product. */
  lemma VeganIsDairyFree(keywords: seq<string>, calories: real, protein: real)
    ensures var f := DeriveFlags(keywords, calories, protein);
            f.vegan == 1 ==> f.dairyFree == 1
  {
    WordListInclusions();
    AnyInSubset(DairyProducts, MeatList + AnimalProducts, keywords);
  }

  /** Easy implies standard preparation time: "easy" is one of the standard keywords. */
  lemma EasyIsStandardPrepTime(keywords: seq<string>, calories: real, protein: real)
    ensures var f := DeriveFlags(keywords, calories, protein);
            f.easy == 1 ==> f.standardPrepTime == 1
  {
    assert "easy" in StandardKeywords;
  }

  /** Flags test whole keywords: "chicken breast" is not "chicken". */
  lemma WholeKeywordMembership(calories: real, protein: real)
    ensures DeriveFlags(["chicken breast"], calories, protein).vegetarian == 1
    ensures DeriveFlags(["chicken"], calories, protein).vegetarian == 0
  {
    assert "chicken" in MeatList;
  }

  // ---------------------------------------------------------------------------
  // MealCat

  const MealCategoryMapping: map<string, string> := map[
    "appetizers" := "Snacks",
    "beverages" := "Snacks",
    "breakfast" := "Breakfast",
    "brunch" := "Breakfast",
    "desserts" := "Snacks",
    "lunch/snacks" := "Lunch/Dinner",
    "main dish" := "Lunch/Dinner",
    "side dish" := "Lunch/Dinner",
    "soups" := "Lunch/Dinner",
    "salads" := "Lunch/Dinner"
  ]

  /** The coarse meal category of a recipe category; unknown or missing categories are Lunch/Dinner. */
  function MealCat(category: Option<string>): (cat: string)
    ensures cat == "Snacks" || cat == "Breakfast" || cat == "Lunch/Dinner"
    ensures category.None? ==> cat == "Lunch/Dinner"
    ensures category.Some? && Lower(category.value) !in MealCategoryMapping ==> cat == "Lunch/Dinner"
    ensures category.Some? && Lower(category.value) in MealCategoryMapping ==>
              cat == MealCategoryMapping[Lower(category.value)]
  {
    match category
    case None => "Lunch/Dinner"
    case Some(c) =>
      var key := Lower(c);
      if key in MealCategoryMapping then MealCategoryMapping[key] else "Lunch/Dinner"
  }

  /** The lookup ignores case: a category and its lower-cased form map to the same label. */
  lemma MealCatIgnoresCase(category: string)
    ensures MealCat(Some(category)) == MealCat(Some(Lower(category)))
  {
    LowerIdempotent(category);
  }
}
