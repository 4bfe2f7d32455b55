/**
 * The preference filter: the user's choices (a dict from preference key to a
 * one-letter code) narrow the catalog to the rows whose requested feature
 * columns are 1. The source applies one condition after another; the model
 * proves that this equals a single pass keeping the rows that satisfy all of
 * them, and derives the filter's laws from that single pass.
 */
module Preferences {
  import opened Text
  import opened Features
  import opened Catalog

  type PreferenceSet = map<string, string>

  /** `preferences.get(key) == value`: a missing key never matches. */
  predicate Is(preferences: PreferenceSet, key: string, value: string)
  {
    key in preferences && preferences[key] == value
  }

  /** Every requested column of the row is 1. */
  predicate Matches(r: Recipe, requested: seq<Feature>)
  {
    forall feature :: feature in requested ==> Column(r.flags, feature) == 1
  }

  /** The rows that satisfy all requested columns, in catalog order. */
  function Select(rows: seq<Recipe>, requested: seq<Feature>): (kept: seq<Recipe>)
    ensures |kept| <= |rows|
  {
    if rows == [] then []
    else (if Matches(rows[0], requested) then [rows[0]] else []) + Select(rows[1..], requested)
  }

  /** A row is kept exactly when it is in the input and matches every requested column. */
  lemma {:induction false} SelectMembers(rows: seq<Recipe>, requested: seq<Feature>)
    ensures forall r :: r in Select(rows, requested) <==> r in rows && Matches(r, requested)
  {
    if rows != [] {
      SelectMembers(rows[1..], requested);
      assert rows == [rows[0]] + rows[1..];
    }
  }

  /** The columns the preferences request, in the order the source tests them. */
  function Requested(preferences: PreferenceSet): seq<Feature>
  {
    DietRequested(preferences)
    + CalorieRequested(preferences)
    + ProteinRequested(preferences)
    + PrepTimeRequested(preferences)
  }

  function DietRequested(preferences: PreferenceSet): seq<Feature>
  {
    (if Is(preferences, "vegetarian", "y") then [Vegetarian] else [])
    + (if Is(preferences, "vegan", "y") then [Vegan] else [])
    + (if Is(preferences, "easy", "y") then [Easy] else [])
  }

  function CalorieRequested(preferences: PreferenceSet): seq<Feature>
  {
    if Is(preferences, "calories", "l") then [LowCalorie]
    else if Is(preferences, "calories", "m") then [ModerateCalorie]
    else if Is(preferences, "calories", "h") then [HighCalorie]
    else []
  }

  function ProteinRequested(preferences: PreferenceSet): seq<Feature>
  {
    if Is(preferences, "protein", "l") then [LowProtein]
    else if Is(preferences, "protein", "m") then [ModerateProtein]
    else if Is(preferences, "protein", "h") then [HighProtein]
    else []
  }

  function PrepTimeRequested(preferences: PreferenceSet): seq<Feature>
  {
    if Is(preferences, "preptime", "q") then [Quick]
    else if Is(preferences, "preptime", "s") then [StandardPrepTime]
    else if Is(preferences, "preptime", "l") then [LongPrepTime]
    else []
  }

  /** True when no preference the filter recognises is set. */
  predicate NoneRecognised(preferences: PreferenceSet)
  {
    && !Is(preferences, "vegetarian", "y") && !Is(preferences, "vegan", "y") && !Is(preferences, "easy", "y")
    && !Is(preferences, "calories", "l") && !Is(preferences, "calories", "m") && !Is(preferences, "calories", "h")
    && !Is(preferences, "protein", "l") && !Is(preferences, "protein", "m") && !Is(preferences, "protein", "h")
    && !Is(preferences, "preptime", "q") && !Is(preferences, "preptime", "s") && !Is(preferences, "preptime", "l")
  }

  /** Filtering the result of a filter by more columns is one filter by all of them. */
  lemma {:induction false} SelectSelect(rows: seq<Recipe>, first: seq<Feature>, second: seq<Feature>)
    ensures Select(Select(rows, first), second) == Select(rows, first + second)
  {
    if rows != [] {
      SelectSelect(rows[1..], first, second);
      var tail := Select(rows[1..], first);
      if Matches(rows[0], first) {
        assert ([rows[0]] + tail)[0] == rows[0];
        assert ([rows[0]] + tail)[1..] == tail;
      } else {
        assert Select(rows, first) == tail;
      }
    }
  }

  /** The filter depends only on which columns are requested, not on their order or repetition. */
  lemma {:induction false} SelectSameColumns(rows: seq<Recipe>, a: seq<Feature>, b: seq<Feature>)
    requires forall feature :: feature in a <==> feature in b
    ensures Select(rows, a) == Select(rows, b)
  {
    if rows != [] {
      SelectSameColumns(rows[1..], a, b);
      assert Matches(rows[0], a) == Matches(rows[0], b);
    }
  }

  /** Requesting no column keeps every row. */
  lemma {:induction false} SelectNothing(rows: seq<Recipe>)
    ensures Select(rows, []) == rows
  {
    if rows != [] {
      SelectNothing(rows[1..]);
      assert [rows[0]] + rows[1..] == rows;
    }
  }

  /** `a` is `b` with some elements left out, the rest in the same order. */
  predicate IsSubsequence(a: seq<Recipe>, b: seq<Recipe>)
    decreases |b|
  {
    if a == [] then true
    else if b == [] then false
    else if a[0] == b[0] then IsSubsequence(a[1..], b[1..])
    else IsSubsequence(a, b[1..])
  }

  /** The filter keeps rows in catalog order and invents none. */
  lemma {:induction false} SelectIsSubsequence(rows: seq<Recipe>, requested: seq<Feature>)
    ensures IsSubsequence(Select(rows, requested), rows)
  {
    if rows != [] {
      SelectIsSubsequence(rows[1..], requested);
      var tail := Select(rows[1..], requested);
      if Matches(rows[0], requested) {
        assert Select(rows, requested) == [rows[0]] + tail;
        assert ([rows[0]] + tail)[1..] == tail;
      } else {
        assert Select(rows, requested) == tail;
        SelectMembers(rows[1..], requested);
        assert tail != [] ==> tail[0] in tail;
      }
    }
  }

  /** What `filter_by_preferences` returns, as one pass over the catalog. */
  function Filtered(catalog: seq<Recipe>, preferences: PreferenceSet): seq<Recipe>
  {
    Select(catalog, Requested(preferences))
  }

  /**
   * The source's step-by-step filter: each recognised preference replaces the
   * working frame by its rows whose column is 1.
   */
  method FilterByPreferences(catalog: seq<Recipe>, preferences: PreferenceSet) returns (filtered: seq<Recipe>)
    ensures filtered == Filtered(catalog, preferences)
  {
    filtered := catalog;
    ghost var applied: seq<Feature> := [];
    SelectNothing(catalog);

    ghost var vegetarian := if Is(preferences, "vegetarian", "y") then [Vegetarian] else [];
    if Is(preferences, "vegetarian", "y") {
      SelectSelect(catalog, applied, [Vegetarian]);
      filtered, applied := Select(filtered, [Vegetarian]), applied + [Vegetarian];
    }
    assert applied == vegetarian;
    assert filtered == Select(catalog, applied);
    ghost var vegan := if Is(preferences, "vegan", "y") then [Vegan] else [];
    if Is(preferences, "vegan", "y") {
      SelectSelect(catalog, applied, [Vegan]);
      filtered, applied := Select(filtered, [Vegan]), applied + [Vegan];
    }
    assert applied == vegetarian + vegan;
    assert filtered == Select(catalog, applied);
    ghost var easy := if Is(preferences, "easy", "y") then [Easy] else [];
    if Is(preferences, "easy", "y") {
      SelectSelect(catalog, applied, [Easy]);
      filtered, applied := Select(filtered, [Easy]), applied + [Easy];
    }
    assert applied == vegetarian + vegan + easy == DietRequested(preferences);
    assert filtered == Select(catalog, applied);

    ghost var column := CalorieRequested(preferences);
    ghost var before := filtered;
    if Is(preferences, "calories", "l") {
      filtered := Select(filtered, [LowCalorie]);
    } else if Is(preferences, "calories", "m") {
      filtered := Select(filtered, [ModerateCalorie]);
    } else if Is(preferences, "calories", "h") {
      filtered := Select(filtered, [HighCalorie]);
    } else {
      SelectNothing(filtered);
    }
    assert filtered == Select(before, column);
    SelectSelect(catalog, applied, column);
    applied := applied + column;
    assert applied == DietRequested(preferences) + CalorieRequested(preferences);
    assert filtered == Select(catalog, applied);

    column := ProteinRequested(preferences);
    before := filtered;
    if Is(preferences, "protein", "l") {
      filtered := Select(filtered, [LowProtein]);
    } else if Is(preferences, "protein", "m") {
      filtered := Select(filtered, [ModerateProtein]);
    } else if Is(preferences, "protein", "h") {
      filtered := Select(filtered, [HighProtein]);
    } else {
      SelectNothing(filtered);
    }
    assert filtered == Select(before, column);
    SelectSelect(catalog, applied, column);
    applied := applied + column;
    assert applied == DietRequested(preferences) + CalorieRequested(preferences) + ProteinRequested(preferences);
    assert filtered == Select(catalog, applied);

    column := PrepTimeRequested(preferences);
    before := filtered;
    if Is(preferences, "preptime", "q") {
      filtered := Select(filtered, [Quick]);
    } else if Is(preferences, "preptime", "s") {
      filtered := Select(filtered, [StandardPrepTime]);
    } else if Is(preferences, "preptime", "l") {
      filtered := Select(filtered, [LongPrepTime]);
    } else {
      SelectNothing(filtered);
    }
    assert filtered == Select(before, column);
    SelectSelect(catalog, applied, column);
    applied := applied + column;
    assert filtered == Select(catalog, applied);
    assert applied == Requested(preferences);
  }

  /** Every kept row has a 1 in each requested column; every catalog row that does is kept; order is kept. */
  lemma FilterSoundCompleteOrdered(catalog: seq<Recipe>, preferences: PreferenceSet)
    ensures forall r :: r in Filtered(catalog, preferences) <==>
              r in catalog && forall feature :: feature in Requested(preferences) ==> Column(r.flags, feature) == 1
    ensures IsSubsequence(Filtered(catalog, preferences), catalog)
  {
    SelectMembers(catalog, Requested(preferences));
    SelectIsSubsequence(catalog, Requested(preferences));
  }

  /** Without a recognised preference the filter returns the catalog unchanged. */
  lemma FilterIdentity(catalog: seq<Recipe>, preferences: PreferenceSet)
    requires NoneRecognised(preferences)
    ensures Filtered(catalog, preferences) == catalog
  {
    assert Requested(preferences) == [];
    SelectNothing(catalog);
  }

  /** Filtering a filtered catalog again with the same preferences changes nothing. */
  lemma FilterIdempotent(catalog: seq<Recipe>, preferences: PreferenceSet)
    ensures Filtered(Filtered(catalog, preferences), preferences) == Filtered(catalog, preferences)
  {
    var cs := Requested(preferences);
    SelectSelect(catalog, cs, cs);
    SelectSameColumns(catalog, cs + cs, cs);
  }

  /** Two conditions applied in either order give the same rows. */
  lemma ConditionsCommute(rows: seq<Recipe>, first: seq<Feature>, second: seq<Feature>)
    ensures Select(Select(rows, first), second) == Select(Select(rows, second), first)
  {
    SelectSelect(rows, first, second);
    SelectSelect(rows, second, first);
    SelectSameColumns(rows, first + second, second + first);
  }

  /**
   * Over exported rows, also asking for vegetarian meals when vegan ones are
   * asked for changes nothing, because vegan rows are vegetarian.
   */
  lemma VeganAloneSuffices(catalog: seq<Recipe>)
    requires forall r :: r in catalog ==> Exported(r)
    ensures Select(catalog, [Vegetarian, Vegan]) == Select(catalog, [Vegan])
  {
    ExportedVeganRows(catalog);
  }

  lemma {:induction false} ExportedVeganRows(rows: seq<Recipe>)
    requires forall r :: r in rows ==> Exported(r)
    ensures Select(rows, [Vegetarian, Vegan]) == Select(rows, [Vegan])
  {
    if rows != [] {
      ExportedVeganRows(rows[1..]);
      var f := rows[0].flags;
      assert Exported(rows[0]);
      assert Matches(rows[0], [Vegan]) <==> f.vegan == 1 by {
        assert Column(f, Vegan) == f.vegan;
      }
      assert Matches(rows[0], [Vegetarian, Vegan]) <==> f.vegetarian == 1 && f.vegan == 1 by {
        assert Column(f, Vegan) == f.vegan;
        assert Column(f, Vegetarian) == f.vegetarian;
      }
    }
  }
}
