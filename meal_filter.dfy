/**
 * Meal-name filter: which meals of the catalog a meal filter keeps.
 *
 * The filter is an ordered pipeline of narrowing steps over the catalog, in
 * the precedence the ranking service applies them: the unlock tier first
 * (`unlocked`, else `advanced`), then `lategame`, then the category toggles.
 * Every step keeps catalog order. The meal catalog is an abstract constant.
 */
module MealFilter {

  datatype Category = Curry | Salad | Dessert

  datatype Meal = Meal(
    name: string,
    category: Category,
    isStarter: bool,
    needsUnlockableIngredient: bool,
    lategame: bool)

  datatype MealNamesFilter = MealNamesFilter(
    advanced: bool,
    unlocked: bool,
    lategame: bool,
    curry: bool,
    salad: bool,
    dessert: bool)

  /** The default meal catalog, in catalog order. */
  const MEALS: seq<Meal>

  /** The filter with every flag false. */
  const NO_FILTER: MealNamesFilter := MealNamesFilter(false, false, false, false, false, false)

  /** One narrowing step: the meals that satisfy it are kept. */
  datatype Criterion =
    | NotStarter
    | NoUnlockableIngredient
    | IsLategame
    | InCategories(curry: bool, salad: bool, dessert: bool)

  predicate Holds(c: Criterion, m: Meal) {
    match c
    case NotStarter => !m.isStarter
    case NoUnlockableIngredient => !m.needsUnlockableIngredient
    case IsLategame => m.lategame
    case InCategories(curry, salad, dessert) =>
      match m.category
      case Curry => curry
      case Salad => salad
      case Dessert => dessert
  }

  /** The meals of `s` satisfying `c`, in their order in `s`. */
  function Keep(s: seq<Meal>, c: Criterion): (r: seq<Meal>)
    ensures |r| <= |s|
  {
    if s == [] then []
    else if Holds(c, s[0]) then [s[0]] + Keep(s[1..], c) else Keep(s[1..], c)
  }

  /** A step keeps every copy of a meal satisfying it, and no copy of any other meal. */
  lemma {:induction false} KeepCounts(s: seq<Meal>, c: Criterion)
    ensures forall m :: multiset(Keep(s, c))[m] == if Holds(c, m) then multiset(s)[m] else 0
  {
    if s != [] {
      assert s == [s[0]] + s[1..];
      KeepCounts(s[1..], c);
    }
  }

  /** The tier step: `unlocked` drops starter and unlockable-ingredient meals and overrides `advanced`. */
  function TierCriteria(f: MealNamesFilter): (r: seq<Criterion>)
    ensures NotStarter in r <==> f.unlocked || f.advanced
    ensures NoUnlockableIngredient in r <==> f.unlocked
  {
    if f.unlocked then [NotStarter, NoUnlockableIngredient]
    else if f.advanced then [NotStarter]
    else []
  }

  function LategameCriteria(f: MealNamesFilter): seq<Criterion> {
    if f.lategame then [IsLategame] else []
  }

  function CategoryCriteria(f: MealNamesFilter): seq<Criterion> {
    if f.curry || f.salad || f.dessert then [InCategories(f.curry, f.salad, f.dessert)] else []
  }

  /** The whole pipeline, in the order the steps are applied. */
  function Pipeline(f: MealNamesFilter): seq<Criterion> {
    TierCriteria(f) + LategameCriteria(f) + CategoryCriteria(f)
  }

  /**
   * Which steps a filter runs: the starter step under `advanced` or
   * `unlocked`, the unlockable-ingredient step under `unlocked` only, the
   * lategame step under `lategame`, and one category step, with the
   * filter's toggles, when any toggle is set.
   */
  lemma PipelineSteps(f: MealNamesFilter)
    ensures NotStarter in Pipeline(f) <==> f.unlocked || f.advanced
    ensures NoUnlockableIngredient in Pipeline(f) <==> f.unlocked
    ensures IsLategame in Pipeline(f) <==> f.lategame
    ensures InCategories(f.curry, f.salad, f.dessert) in Pipeline(f) <==> f.curry || f.salad || f.dessert
    ensures forall c :: c in Pipeline(f) && c.InCategories? ==> c == InCategories(f.curry, f.salad, f.dessert)
  {
  }

  /** Applies the steps of `cs` to `s`, first step first. */
  function KeepAll(s: seq<Meal>, cs: seq<Criterion>): (r: seq<Meal>)
    ensures forall m :: m in r <==> m in s && forall c :: c in cs ==> Holds(c, m)
    decreases |cs|
  {
    if cs == [] then s
    else
      var r := KeepAll(Keep(s, cs[0]), cs[1..]);
      assert forall c :: c in cs <==> c == cs[0] || c in cs[1..];
      assert forall m :: m in Keep(s, cs[0]) <==> m in s && Holds(cs[0], m) by {
        KeepCounts(s, cs[0]);
        forall m ensures m in Keep(s, cs[0]) <==> m in s && Holds(cs[0], m) {
          assert m in Keep(s, cs[0]) <==> multiset(Keep(s, cs[0]))[m] > 0;
        }
      }
      r
  }

  /** The meals a filter keeps, in catalog order. */
  function MealsForFilter(f: MealNamesFilter): seq<Meal> {
    KeepAll(MEALS, Pipeline(f))
  }

  function Names(meals: seq<Meal>): (r: seq<string>)
    ensures |r| == |meals| && forall k :: 0 <= k < |r| ==> r[k] == meals[k].name
  {
    if meals == [] then [] else [meals[0].name] + Names(meals[1..])
  }

  /** getMealNamesForFilter: the names of the meals the filter keeps. */
  function MealNamesForFilter(f: MealNamesFilter): (r: seq<string>)
    ensures forall n :: n in r <==>
      exists m :: m in MEALS && m.name == n && forall c :: c in Pipeline(f) ==> Holds(c, m)
  {
    var meals := MealsForFilter(f);
    var r := Names(meals);
    assert forall n :: n in r <==> exists k :: 0 <= k < |meals| && meals[k].name == n;
    r
  }

  // ---------------------------------------------------------------------
  // Steps commute, so a step can be moved to the end of the pipeline.

  lemma {:induction false} KeepCommutes(s: seq<Meal>, c: Criterion, d: Criterion)
    ensures Keep(Keep(s, c), d) == Keep(Keep(s, d), c)
  {
    if s != [] {
      KeepCommutes(s[1..], c, d);
    }
  }

  /** Running `c` first and then `cs` is the same as running `cs` and then `c`. */
  lemma {:induction false} KeepAllFirstStepLast(s: seq<Meal>, c: Criterion, cs: seq<Criterion>)
    ensures KeepAll(s, [c] + cs) == Keep(KeepAll(s, cs), c)
    decreases |cs|
  {
    if cs == [] {
      assert ([c] + cs)[1..] == [];
    } else {
      assert ([c] + cs)[1..] == cs;
      assert ([cs[0]] + cs[1..]) == cs;
      calc {
        KeepAll(s, [c] + cs);
        KeepAll(Keep(s, c), cs);
        KeepAll(Keep(Keep(s, c), cs[0]), cs[1..]);
        { KeepCommutes(s, c, cs[0]); }
        KeepAll(Keep(Keep(s, cs[0]), c), cs[1..]);
        { KeepAllFirstStepLast(Keep(s, cs[0]), c, cs[1..]); }
        Keep(KeepAll(Keep(s, cs[0]), cs[1..]), c);
        Keep(KeepAll(s, cs), c);
      }
    }
  }

  // ---------------------------------------------------------------------
  // Steps keep catalog order: filtering a joined list filters each part.

  lemma {:induction false} KeepAppend(a: seq<Meal>, b: seq<Meal>, c: Criterion)
    ensures Keep(a + b, c) == Keep(a, c) + Keep(b, c)
  {
    if a == [] {
      assert a + b == b;
    } else {
      var ab := a + b;
      assert ab[0] == a[0] && ab[1..] == a[1..] + b;
      KeepAppend(a[1..], b, c);
      if Holds(c, a[0]) {
        assert Keep(ab, c) == [a[0]] + Keep(a[1..] + b, c);
        assert Keep(a, c) == [a[0]] + Keep(a[1..], c);
      } else {
        assert Keep(ab, c) == Keep(a[1..] + b, c);
        assert Keep(a, c) == Keep(a[1..], c);
      }
    }
  }

  /** The whole pipeline keeps order too: the meals kept from a joined list are those kept from each part, in order. */
  lemma {:induction false} KeepAllAppend(a: seq<Meal>, b: seq<Meal>, cs: seq<Criterion>)
    ensures KeepAll(a + b, cs) == KeepAll(a, cs) + KeepAll(b, cs)
    decreases |cs|
  {
    if cs != [] {
      KeepAppend(a, b, cs[0]);
      KeepAllAppend(Keep(a, cs[0]), Keep(b, cs[0]), cs[1..]);
    }
  }

  lemma {:induction false} NamesAppend(a: seq<Meal>, b: seq<Meal>)
    ensures Names(a + b) == Names(a) + Names(b)
  {
    if a == [] {
      assert a + b == b;
    } else {
      assert (a + b)[0] == a[0] && (a + b)[1..] == a[1..] + b;
      NamesAppend(a[1..], b);
    }
  }

  /** A single meal passes the pipeline exactly when it satisfies every step. */
  lemma {:induction false} KeepAllSingle(m: Meal, cs: seq<Criterion>)
    ensures KeepAll([m], cs) == if forall c :: c in cs ==> Holds(c, m) then [m] else []
    decreases |cs|
  {
    if cs != [] {
      assert forall c :: c in cs <==> c == cs[0] || c in cs[1..];
      assert [m][1..] == [];
      if Holds(cs[0], m) {
        KeepAllSingle(m, cs[1..]);
      } else {
        assert Keep([m], cs[0]) == Keep([], cs[0]) == [];
        KeepAllOfEmpty(cs[1..]);
      }
    }
  }

  lemma {:induction false} KeepAllOfEmpty(cs: seq<Criterion>)
    ensures KeepAll([], cs) == []
    decreases |cs|
  {
    if cs != [] {
      KeepAllOfEmpty(cs[1..]);
    }
  }

  // ---------------------------------------------------------------------
  // Properties of the tier precedence.

  /** With every flag false the filter keeps the whole catalog, in catalog order. */
  lemma NoFilterKeepsCatalog()
    ensures MealsForFilter(NO_FILTER) == MEALS
    ensures MealNamesForFilter(NO_FILTER) == Names(MEALS)
  {
  }

  /**
   * With `unlocked` false, setting `advanced` removes exactly the starter
   * meals from what the filter otherwise keeps, and adds nothing.
   */
  lemma AdvancedRemovesStarters(f: MealNamesFilter)
    requires !f.unlocked
    ensures MealsForFilter(f.(advanced := true)) == Keep(MealsForFilter(f.(advanced := false)), NotStarter)
    ensures MealNamesForFilter(f.(advanced := true))
         == Names(Keep(MealsForFilter(f.(advanced := false)), NotStarter))
  {
    var rest := LategameCriteria(f) + CategoryCriteria(f);
    assert Pipeline(f.(advanced := true)) == [NotStarter] + rest;
    assert Pipeline(f.(advanced := false)) == rest;
    KeepAllFirstStepLast(MEALS, NotStarter, rest);
  }

  /**
   * Setting `unlocked` (whatever `advanced` was) removes exactly the starter
   * meals and the meals needing an unlockable ingredient from what the filter
   * keeps with neither tier flag set.
   */
  lemma UnlockedRemovesStartersAndUnlockables(f: MealNamesFilter)
    ensures var base := MealsForFilter(f.(unlocked := false, advanced := false));
            MealsForFilter(f.(unlocked := true)) == Keep(Keep(base, NoUnlockableIngredient), NotStarter)
  {
    var rest := LategameCriteria(f) + CategoryCriteria(f);
    assert Pipeline(f.(unlocked := true)) == [NotStarter] + ([NoUnlockableIngredient] + rest);
    assert Pipeline(f.(unlocked := false, advanced := false)) == rest;
    KeepAllFirstStepLast(MEALS, NotStarter, [NoUnlockableIngredient] + rest);
    KeepAllFirstStepLast(MEALS, NoUnlockableIngredient, rest);
  }

  /** `unlocked` subsumes `advanced`: its result is the advanced result minus the unlockable-ingredient meals. */
  lemma UnlockedNarrowsAdvanced(f: MealNamesFilter)
    ensures MealsForFilter(f.(unlocked := true))
         == Keep(MealsForFilter(f.(unlocked := false, advanced := true)), NoUnlockableIngredient)
  {
    var rest := LategameCriteria(f) + CategoryCriteria(f);
    assert Pipeline(f.(unlocked := true)) == [NotStarter] + ([NoUnlockableIngredient] + rest);
    assert Pipeline(f.(unlocked := false, advanced := true)) == [NotStarter] + rest;
    KeepAllFirstStepLast(MEALS, NoUnlockableIngredient, rest);
    KeepCommutes(KeepAll(MEALS, rest), NotStarter, NoUnlockableIngredient);
    KeepAllFirstStepLast(MEALS, NotStarter, [NoUnlockableIngredient] + rest);
    KeepAllFirstStepLast(MEALS, NotStarter, rest);
  }

  /** Under `unlocked`, the value of `advanced` makes no difference. */
  lemma UnlockedIgnoresAdvanced(f: MealNamesFilter)
    requires f.unlocked
    ensures MealNamesForFilter(f.(advanced := false)) == MealNamesForFilter(f.(advanced := true))
  {
  }

  /** What a filter keeps is a sub-multiset of the catalog: the filter never invents a meal. */
  lemma {:induction false} FilterOnlyRemoves(s: seq<Meal>, cs: seq<Criterion>)
    ensures multiset(KeepAll(s, cs)) <= multiset(s)
    decreases |cs|
  {
    if cs != [] {
      FilterOnlyRemoves(Keep(s, cs[0]), cs[1..]);
      KeepCounts(s, cs[0]);
      assert multiset(Keep(s, cs[0])) <= multiset(s);
    }
  }
}
