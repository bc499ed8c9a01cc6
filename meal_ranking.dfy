/**
 * Meal ranking service: the generalist ranking (best row per pokemon), the
 * focused ranking (rows summed per pokemon) and the per-meal detail lookup,
 * over two interchangeable combination sources, "standard" and
 * "level-capped" (the level-30 variant).
 *
 * The sources are persistence queries outside this model; here each answers
 * every query of a kind with fixed rows, and records the query it was asked,
 * so that which source is consulted, with which arguments, can be stated.
 */
module MealRanking {
  import opened Wrappers
  import opened BerryUtils
  import opened MealFilter
  import opened RankOrder
  import opened ReduceByKey
  import opened Sequences

  datatype IngredientSet = IngredientSet(amount: int, ingredient: string)

  /** A row of the flexible (generalist) query: a pokemon's best average over the meal set. */
  datatype GeneralistRow = GeneralistRow(pokemon: string, averagePercentage: int, ingredientList: seq<IngredientSet>)

  /** A row of the focused query: one pokemon's contribution to one meal. */
  datatype FocusedRow = FocusedRow(pokemon: string, total: int, meals: string, ingredientList: seq<IngredientSet>)

  /** A focused-ranking entry: a pokemon's rows, summed. */
  datatype FocusedEntry = FocusedEntry(pokemon: string, meals: seq<string>, total: int, ingredientList: seq<IngredientSet>)

  datatype Combination = Combination(pokemon: string, total: int, ingredientList: seq<IngredientSet>)

  datatype MealDetail = MealDetail(meal: string, bonus: int, value: int, recipe: seq<IngredientSet>, combinations: seq<Combination>)

  datatype Source = Standard | LevelCapped

  /** What one source answers to each kind of query. */
  datatype SourceData = SourceData(
    flexibleRanking: seq<GeneralistRow>,
    focusedRanking: seq<FocusedRow>,
    mealCombinations: MealDetail)

  /** A query issued to a source, with its arguments. */
  datatype Query =
    | FlexibleRankingForMeals(source: Source, mealNames: seq<string>, berries: seq<Berry>)
    | FocusedRankingForMeals(source: Source, mealNames: seq<string>, berries: seq<Berry>, limit: int)
    | CombinationsForMeal(source: Source, name: string)

  datatype RankingParams = RankingParams(limit30: bool, mealFilter: MealNamesFilter, islandFilter: IslandFilter)

  datatype RankingError = NotFound(name: string)

  /** The number of meals asked of each source when the caller gives none. */
  const DEFAULT_NR_OF_MEALS: int

  // ---------------------------------------------------------------------
  // Which sources are consulted.

  /** The sources a ranking reads: the standard one, and the level-capped one too under `limit30`. */
  function RankingSources(limit30: bool): (r: seq<Source>)
    ensures |r| > 0 && r[0] == Standard
    ensures LevelCapped in r <==> limit30
    ensures forall a, b :: 0 <= a < b < |r| ==> r[a] != r[b]
  {
    if limit30 then [Standard, LevelCapped] else [Standard]
  }

  /** The one source a meal-detail lookup reads. */
  function DetailSource(limit30: bool): (s: Source)
    ensures s == Standard <==> !limit30
  {
    if limit30 then LevelCapped else Standard
  }

  /** The answers of `source`, one of the two given. */
  function AnswerOf(source: Source, standard: SourceData, levelCapped: SourceData): SourceData {
    match source
    case Standard => standard
    case LevelCapped => levelCapped
  }

  /** The two sources, with the log of every query issued to them. */
  class Sources {
    const standard: SourceData
    const levelCapped: SourceData
    var recorded: seq<Query>

    constructor (standard: SourceData, levelCapped: SourceData)
      ensures this.standard == standard && this.levelCapped == levelCapped
      ensures recorded == []
    {
      this.standard := standard;
      this.levelCapped := levelCapped;
      recorded := [];
    }

    function Answer(source: Source): SourceData {
      AnswerOf(source, standard, levelCapped)
    }

    method GetFlexibleRankingForMeals(source: Source, mealNames: seq<string>, berries: seq<Berry>)
      returns (rows: seq<GeneralistRow>)
      modifies this
      ensures rows == Answer(source).flexibleRanking
      ensures recorded == old(recorded) + [FlexibleRankingForMeals(source, mealNames, berries)]
    {
      rows := Answer(source).flexibleRanking;
      recorded := recorded + [FlexibleRankingForMeals(source, mealNames, berries)];
    }

    method GetFocusedRankingForMeals(source: Source, mealNames: seq<string>, berries: seq<Berry>, limit: int)
      returns (rows: seq<FocusedRow>)
      modifies this
      ensures rows == Answer(source).focusedRanking
      ensures recorded == old(recorded) + [FocusedRankingForMeals(source, mealNames, berries, limit)]
    {
      rows := Answer(source).focusedRanking;
      recorded := recorded + [FocusedRankingForMeals(source, mealNames, berries, limit)];
    }

    method GetPokemonCombinationsForMeal(source: Source, name: string) returns (detail: MealDetail)
      modifies this
      ensures detail == Answer(source).mealCombinations
      ensures recorded == old(recorded) + [CombinationsForMeal(source, name)]
    {
      detail := Answer(source).mealCombinations;
      recorded := recorded + [CombinationsForMeal(source, name)];
    }
  }

  // ---------------------------------------------------------------------
  // Generalist ranking: one row per pokemon, the one with the best average.

  function PokemonOf(r: GeneralistRow): string { r.pokemon }
  function FirstRow(r: GeneralistRow): GeneralistRow { r }

  /** The better of the kept row and a later one; on a tie the kept (earlier) row stays. */
  function KeepBetter(kept: GeneralistRow, r: GeneralistRow): (b: GeneralistRow)
    ensures b == r || b == kept
    ensures b == r <==> r.averagePercentage > kept.averagePercentage || r == kept
    ensures b.averagePercentage >= kept.averagePercentage && b.averagePercentage >= r.averagePercentage
  {
    if r.averagePercentage > kept.averagePercentage then r else kept
  }

  function GeneralistKey(r: GeneralistRow): RankKey { RankKey(r.averagePercentage, r.pokemon) }

  function BestPerPokemon(rows: seq<GeneralistRow>): map<string, GeneralistRow> {
    Reduced(rows, PokemonOf, FirstRow, KeepBetter)
  }

  /**
   * `b` is pokemon `p`'s row in the merge: a row of `rows` for `p` whose
   * average no row for `p` exceeds, and the first such row.
   */
  ghost predicate IsBestRow(rows: seq<GeneralistRow>, p: string, b: GeneralistRow) {
    && b.pokemon == p
    && (forall r :: r in rows && r.pokemon == p ==> r.averagePercentage <= b.averagePercentage)
    && exists i :: 0 <= i < |rows| && rows[i] == b
         && forall j :: 0 <= j < i && rows[j].pokemon == p ==> rows[j].averagePercentage < b.averagePercentage
  }

  lemma {:induction false} BestPerPokemonIsBest(rows: seq<GeneralistRow>, p: string)
    requires p in BestPerPokemon(rows)
    ensures IsBestRow(rows, p, BestPerPokemon(rows)[p])
    decreases |rows|
  {
    var n := |rows| - 1;
    var pre, last := rows[..n], rows[n];
    assert rows == pre + [last];
    ReducedSnoc(pre, last, PokemonOf, FirstRow, KeepBetter);
    var b := BestPerPokemon(rows)[p];
    if last.pokemon != p {
      assert p in BestPerPokemon(pre) && b == BestPerPokemon(pre)[p];
      BestPerPokemonIsBest(pre, p);
      BestRowExtends(pre, last, p, b);
    } else if p in BestPerPokemon(pre) {
      BestPerPokemonIsBest(pre, p);
      var kept := BestPerPokemon(pre)[p];
      assert b == KeepBetter(kept, last);
      if last.averagePercentage > kept.averagePercentage {
        BestRowIsNewMaximum(pre, last, p, kept);
      } else {
        BestRowExtends(pre, last, p, b);
      }
    } else {
      assert b == last;
      assert forall j :: 0 <= j < n ==> PokemonOf(pre[j]) != p;
      BestRowIsNewMaximum(pre, last, p, last);
    }
  }

  /** A best row stays best when a row that does not beat it is appended. */
  lemma BestRowExtends(pre: seq<GeneralistRow>, last: GeneralistRow, p: string, b: GeneralistRow)
    requires IsBestRow(pre, p, b)
    requires last.pokemon == p ==> last.averagePercentage <= b.averagePercentage
    ensures IsBestRow(pre + [last], p, b)
  {
    var rows := pre + [last];
    var i :| 0 <= i < |pre| && pre[i] == b
      && forall j :: 0 <= j < i && pre[j].pokemon == p ==> pre[j].averagePercentage < b.averagePercentage;
    assert rows[i] == b;
    assert forall j :: 0 <= j < i ==> rows[j] == pre[j];
  }

  /** An appended row for `p` that beats every earlier row for `p` is the new best row. */
  lemma BestRowIsNewMaximum(pre: seq<GeneralistRow>, last: GeneralistRow, p: string, kept: GeneralistRow)
    requires last.pokemon == p
    requires (forall r :: r in pre && r.pokemon == p ==> r.averagePercentage <= kept.averagePercentage)
    requires (exists r :: r in pre && r.pokemon == p) ==> kept.averagePercentage < last.averagePercentage
    ensures IsBestRow(pre + [last], p, last)
  {
    var rows := pre + [last];
    assert rows[|pre|] == last;
    forall j | 0 <= j < |pre| && rows[j].pokemon == p ensures rows[j].averagePercentage < last.averagePercentage {
      assert rows[j] == pre[j] && pre[j] in pre;
    }
  }

  /** The accumulated values in first-seen order have distinct names when each is filed under its own name. */
  lemma ValuesHaveDistinctNames<A>(m: map<string, A>, order: seq<string>, key: A -> RankKey)
    requires NoDuplicates(order)
    requires forall k :: k in order ==> k in m && key(m[k]).name == k
    ensures DistinctNames(ValuesInOrder(m, order), key)
  {
  }

  /** Each best row is filed under its own pokemon. */
  lemma BestFiledUnderOwnName(rows: seq<GeneralistRow>)
    ensures forall k :: k in FirstSeen(rows, PokemonOf) ==>
      k in BestPerPokemon(rows) && GeneralistKey(BestPerPokemon(rows)[k]).name == k
  {
  }

  lemma BestValuesInOrder(rows: seq<GeneralistRow>)
    requires forall k :: k in FirstSeen(rows, PokemonOf) ==> k in BestPerPokemon(rows)
    ensures forall e :: (e in ValuesInOrder(BestPerPokemon(rows), FirstSeen(rows, PokemonOf))
      <==> e.pokemon in BestPerPokemon(rows) && e == BestPerPokemon(rows)[e.pokemon])
  {
    var m, order := BestPerPokemon(rows), FirstSeen(rows, PokemonOf);
    var values := ValuesInOrder(m, order);
    forall e ensures e in values <==> e.pokemon in m && e == m[e.pokemon] {
      if e in values {
        var k :| 0 <= k < |order| && values[k] == e;
        BestPerPokemonIsBest(rows, order[k]);
      }
      if e.pokemon in m && e == m[e.pokemon] {
        var i :| 0 <= i < |rows| && PokemonOf(rows[i]) == e.pokemon;
        assert e.pokemon in order;
        var k :| 0 <= k < |order| && order[k] == e.pokemon;
        assert values[k] == e;
      }
    }
  }

  /**
   * The generalist ranking of `rows`: each pokemon's best row, in ranking
   * order (average descending, then pokemon name).
   */
  function GeneralistRankingOf(rows: seq<GeneralistRow>): (ranking: seq<GeneralistRow>)
    ensures Ranked(ranking, GeneralistKey) && DistinctNames(ranking, GeneralistKey)
    ensures forall e :: e in ranking <==> e.pokemon in BestPerPokemon(rows) && e == BestPerPokemon(rows)[e.pokemon]
  {
    var values := ValuesInOrder(BestPerPokemon(rows), FirstSeen(rows, PokemonOf));
    BestFiledUnderOwnName(rows);
    ValuesHaveDistinctNames(BestPerPokemon(rows), FirstSeen(rows, PokemonOf), GeneralistKey);
    BestValuesInOrder(rows);
    RankSameEntries(values, GeneralistKey);
    Rank(values, GeneralistKey)
  }

  /** Some row of `s` is for pokemon `p`. */
  predicate Mentions(s: seq<GeneralistRow>, p: string) {
    exists r :: r in s && r.pokemon == p
  }

  /**
   * Every pokemon with a row appears in the generalist ranking exactly once,
   * with its best row, and no other pokemon appears.
   */
  lemma GeneralistRankingIsBestPerPokemon(rows: seq<GeneralistRow>)
    ensures var ranking := GeneralistRankingOf(rows);
      && (forall e :: e in ranking ==> IsBestRow(rows, e.pokemon, e))
      && (forall p :: Mentions(ranking, p) <==> Mentions(rows, p))
  {
    var ranking := GeneralistRankingOf(rows);
    forall e | e in ranking ensures IsBestRow(rows, e.pokemon, e) {
      BestPerPokemonIsBest(rows, e.pokemon);
    }
    forall p ensures Mentions(ranking, p) <==> Mentions(rows, p) {
      if Mentions(rows, p) {
        var r :| r in rows && r.pokemon == p;
        var i :| 0 <= i < |rows| && rows[i] == r;
        assert PokemonOf(rows[i]) == p;
        BestPerPokemonIsBest(rows, p);
        assert BestPerPokemon(rows)[p] in ranking;
      }
      if Mentions(ranking, p) {
        var e :| e in ranking && e.pokemon == p;
        BestPerPokemonIsBest(rows, p);
      }
    }
  }

  /** Rows of this kind from the sources consulted, in source order. */
  function FlexibleRows(sources: seq<Source>, standard: SourceData, levelCapped: SourceData): seq<GeneralistRow> {
    if sources == [] then []
    else
      AnswerOf(sources[0], standard, levelCapped).flexibleRanking
      + FlexibleRows(sources[1..], standard, levelCapped)
  }

  function FlexibleQueries(sources: seq<Source>, mealNames: seq<string>, berries: seq<Berry>): (r: seq<Query>)
    ensures |r| == |sources|
    ensures forall i :: 0 <= i < |sources| ==> r[i] == FlexibleRankingForMeals(sources[i], mealNames, berries)
  {
    if sources == [] then [] else [FlexibleRankingForMeals(sources[0], mealNames, berries)] + FlexibleQueries(sources[1..], mealNames, berries)
  }

  /** Without `limit30` the rows are the standard source's; with it, the standard rows then the level-capped ones. */
  lemma FlexibleRowsFollowLimit30(limit30: bool, standard: SourceData, levelCapped: SourceData)
    ensures FlexibleRows(RankingSources(limit30), standard, levelCapped)
         == standard.flexibleRanking + (if limit30 then levelCapped.flexibleRanking else [])
  {
    var sources := RankingSources(limit30);
    if limit30 {
      assert sources[1..] == [LevelCapped] && sources[1..][1..] == [];
      assert FlexibleRows(sources[1..], standard, levelCapped) == levelCapped.flexibleRanking + [];
    } else {
      assert sources[1..] == [];
    }
  }

  /**
   * getMealGeneralistRanking: asks each consulted source for its flexible
   * ranking over the filter's meals and berries, keeps one row per pokemon
   * (the higher average, the earlier row on a tie) and ranks the result.
   */
  method GetMealGeneralistRanking(params: RankingParams, db: Sources) returns (ranking: seq<GeneralistRow>)
    modifies db
    ensures var sources := RankingSources(params.limit30);
      && db.recorded == old(db.recorded) + FlexibleQueries(sources,
           MealNamesForFilter(params.mealFilter), BerriesForFilter(params.islandFilter))
      && ranking == GeneralistRankingOf(FlexibleRows(sources, db.standard, db.levelCapped))
  {
    var mealNames := MealNamesForFilter(params.mealFilter);
    var berries := BerriesForFilter(params.islandFilter);
    ghost var queries := FlexibleQueries(RankingSources(params.limit30), mealNames, berries);
    var rows := db.GetFlexibleRankingForMeals(Standard, mealNames, berries);
    if params.limit30 {
      var capped := db.GetFlexibleRankingForMeals(LevelCapped, mealNames, berries);
      rows := rows + capped;
      assert queries == [queries[0], queries[1]];
    } else {
      assert queries == [queries[0]];
    }
    FlexibleRowsFollowLimit30(params.limit30, db.standard, db.levelCapped);
    assert rows == FlexibleRows(RankingSources(params.limit30), db.standard, db.levelCapped);
    var best, order := Reduce(rows, PokemonOf, FirstRow, KeepBetter);
    ranking := Rank(ValuesInOrder(best, order), GeneralistKey);
  }

  /** A pokemon whose rows are all one row gets exactly one entry, that row. */
  lemma OnlyRowAppearsOnce(rows: seq<GeneralistRow>, row: GeneralistRow)
    requires row in rows
    requires forall r :: r in rows && r.pokemon == row.pokemon ==> r == row
    ensures var ranking := GeneralistRankingOf(rows);
      exists k :: 0 <= k < |ranking| && ranking[k] == row
        && forall j :: 0 <= j < |ranking| && j != k ==> ranking[j].pokemon != row.pokemon
  {
    var ranking := GeneralistRankingOf(rows);
    var p := row.pokemon;
    assert Mentions(rows, p);
    GeneralistRankingIsBestPerPokemon(rows);
    var e :| e in ranking && e.pokemon == p;
    assert IsBestRow(rows, p, e);
    var i :| 0 <= i < |rows| && rows[i] == e;
    assert rows[i] in rows;
    var k :| 0 <= k < |ranking| && ranking[k] == row;
    forall j | 0 <= j < |ranking| && j != k ensures ranking[j].pokemon != p {
      if j < k {
        assert GeneralistKey(ranking[j]).name != GeneralistKey(ranking[k]).name;
      } else {
        assert GeneralistKey(ranking[k]).name != GeneralistKey(ranking[j]).name;
      }
    }
  }

  /**
   * Two sources that both return the same row for a pokemon yield a single
   * entry for it, that row unchanged, whether or not the level-capped
   * source is consulted.
   */
  lemma SharedPokemonAppearsOnce(limit30: bool, standard: SourceData, levelCapped: SourceData, row: GeneralistRow)
    requires row in standard.flexibleRanking && row in levelCapped.flexibleRanking
    requires forall r :: r in standard.flexibleRanking && r.pokemon == row.pokemon ==> r == row
    requires forall r :: r in levelCapped.flexibleRanking && r.pokemon == row.pokemon ==> r == row
    ensures var ranking := GeneralistRankingOf(FlexibleRows(RankingSources(limit30), standard, levelCapped));
      exists k :: 0 <= k < |ranking| && ranking[k] == row
        && forall j :: 0 <= j < |ranking| && j != k ==> ranking[j].pokemon != row.pokemon
  {
    FlexibleRowsFollowLimit30(limit30, standard, levelCapped);
    OnlyRowAppearsOnce(FlexibleRows(RankingSources(limit30), standard, levelCapped), row);
  }

  /** When each consulted source returns the same single row, the ranking is that row alone. */
  lemma SameSingleRowInBothSources(limit30: bool, standard: SourceData, levelCapped: SourceData, row: GeneralistRow)
    requires standard.flexibleRanking == [row] && levelCapped.flexibleRanking == [row]
    ensures GeneralistRankingOf(FlexibleRows(RankingSources(limit30), standard, levelCapped)) == [row]
  {
    var rows := FlexibleRows(RankingSources(limit30), standard, levelCapped);
    FlexibleRowsFollowLimit30(limit30, standard, levelCapped);
    assert forall r :: r in rows ==> r == row;
    OnlyRowAppearsOnce(rows, row);
    var ranking := GeneralistRankingOf(rows);
    GeneralistRankingIsBestPerPokemon(rows);
    forall j | 0 <= j < |ranking| ensures ranking[j] == row {
      var e := ranking[j];
      assert e in ranking;
      assert IsBestRow(rows, e.pokemon, e);
      var i :| 0 <= i < |rows| && rows[i] == e;
      assert rows[i] in rows;
    }
    assert |ranking| >= 1;
    if |ranking| >= 2 {
      RepeatedEntryHasNoDistinctNames(ranking, GeneralistKey, row);
      assert false;
    }
    assert ranking == [ranking[0]];
  }

  /** The scenario of one row for "some-pokemon" at average 0 in both sources. */
  lemma SomePokemonScenario(limit30: bool, standard: SourceData, levelCapped: SourceData)
    requires standard.flexibleRanking == [GeneralistRow("some-pokemon", 0, [])]
    requires levelCapped.flexibleRanking == [GeneralistRow("some-pokemon", 0, [])]
    ensures GeneralistRankingOf(FlexibleRows(RankingSources(limit30), standard, levelCapped))
         == [GeneralistRow("some-pokemon", 0, [])]
  {
    SameSingleRowInBothSources(limit30, standard, levelCapped, GeneralistRow("some-pokemon", 0, []));
  }

  // ---------------------------------------------------------------------
  // Focused ranking: a pokemon's rows summed into one entry.

  function FocusedPokemonOf(r: FocusedRow): string { r.pokemon }

  /** A pokemon's first row, as an entry of its own. */
  function StartEntry(r: FocusedRow): (e: FocusedEntry)
    ensures e == Aggregate(r.pokemon, [r])
  {
    assert [r][..|[r]| - 1] == [];
    assert MealsOf([]) == [] && TotalOf([]) == 0 && IngredientsOf([]) == [];
    assert MealsOf([r]) == [r.meals] && TotalOf([r]) == r.total;
    assert IngredientsOf([r]) == [] + r.ingredientList == r.ingredientList;
    FocusedEntry(r.pokemon, [r.meals], r.total, r.ingredientList)
  }

  /** Adds a row to an entry: its meal, its total and its ingredients (kept, repeats included). */
  function AddRow(e: FocusedEntry, r: FocusedRow): (n: FocusedEntry)
    ensures n.pokemon == e.pokemon && n.total == e.total + r.total
    ensures |n.meals| == |e.meals| + 1 && n.meals[..|e.meals|] == e.meals && n.meals[|e.meals|] == r.meals
    ensures |n.ingredientList| == |e.ingredientList| + |r.ingredientList|
    ensures n.ingredientList[..|e.ingredientList|] == e.ingredientList && n.ingredientList[|e.ingredientList|..] == r.ingredientList
  {
    e.(meals := e.meals + [r.meals], total := e.total + r.total, ingredientList := e.ingredientList + r.ingredientList)
  }

  function FocusedKey(e: FocusedEntry): RankKey { RankKey(e.total, e.pokemon) }

  function GroupedByPokemon(rows: seq<FocusedRow>): map<string, FocusedEntry> {
    Reduced(rows, FocusedPokemonOf, StartEntry, AddRow)
  }

  /** The rows for pokemon `p`, in order. */
  function RowsFor(rows: seq<FocusedRow>, p: string): seq<FocusedRow>
    decreases |rows|
  {
    if rows == [] then []
    else
      var n := |rows| - 1;
      RowsFor(rows[..n], p) + (if rows[n].pokemon == p then [rows[n]] else [])
  }

  /** The rows for `p` are exactly the rows whose pokemon is `p`. */
  lemma {:induction false} RowsForMembers(rows: seq<FocusedRow>, p: string)
    ensures forall x :: x in RowsFor(rows, p) <==> x in rows && x.pokemon == p
    decreases |rows|
  {
    if rows != [] {
      var n := |rows| - 1;
      assert rows == rows[..n] + [rows[n]];
      RowsForMembers(rows[..n], p);
    }
  }

  function TotalOf(rows: seq<FocusedRow>): int {
    if rows == [] then 0 else TotalOf(rows[..|rows| - 1]) + rows[|rows| - 1].total
  }

  function MealsOf(rows: seq<FocusedRow>): seq<string> {
    if rows == [] then [] else MealsOf(rows[..|rows| - 1]) + [rows[|rows| - 1].meals]
  }

  function IngredientsOf(rows: seq<FocusedRow>): seq<IngredientSet> {
    if rows == [] then [] else IngredientsOf(rows[..|rows| - 1]) + rows[|rows| - 1].ingredientList
  }

  /** An entry built directly from a pokemon's rows. */
  function Aggregate(p: string, rows: seq<FocusedRow>): FocusedEntry {
    FocusedEntry(p, MealsOf(rows), TotalOf(rows), IngredientsOf(rows))
  }

  /** Appending a row extends the rows of its own pokemon only. */
  lemma RowsForSnoc(pre: seq<FocusedRow>, last: FocusedRow, p: string)
    ensures RowsFor(pre + [last], p) == RowsFor(pre, p) + (if last.pokemon == p then [last] else [])
  {
  }

  /** Adding a row to an aggregate is aggregating one row more. */
  lemma AggregateSnoc(p: string, before: seq<FocusedRow>, last: FocusedRow)
    ensures Aggregate(p, before + [last]) == AddRow(Aggregate(p, before), last)
  {
  }

  /** A pokemon with no row has no rows for it. */
  lemma {:induction false} NoRowsFor(rows: seq<FocusedRow>, p: string)
    requires forall i :: 0 <= i < |rows| ==> FocusedPokemonOf(rows[i]) != p
    ensures RowsFor(rows, p) == []
    decreases |rows|
  {
    if rows != [] {
      var n := |rows| - 1;
      var pre := rows[..n];
      assert rows == pre + [rows[n]];
      forall i | 0 <= i < |pre| ensures FocusedPokemonOf(pre[i]) != p {
        assert pre[i] == rows[i];
      }
      NoRowsFor(pre, p);
      assert FocusedPokemonOf(rows[n]) != p;
      RowsForSnoc(pre, rows[n], p);
    }
  }

  /** The grouped entry of pokemon `p` sums every row for `p`, in order. */
  lemma {:induction false} GroupedIsAggregate(rows: seq<FocusedRow>, p: string)
    requires p in GroupedByPokemon(rows)
    ensures RowsFor(rows, p) != []
    ensures GroupedByPokemon(rows)[p] == Aggregate(p, RowsFor(rows, p))
    decreases |rows|
  {
    var n := |rows| - 1;
    var pre, last := rows[..n], rows[n];
    assert rows == pre + [last];
    var m := GroupedByPokemon(pre);
    ReducedSnoc(pre, last, FocusedPokemonOf, StartEntry, AddRow);
    assert GroupedByPokemon(rows) == m[last.pokemon := if last.pokemon in m then AddRow(m[last.pokemon], last) else StartEntry(last)];
    RowsForSnoc(pre, last, p);
    if last.pokemon != p {
      assert p in m && GroupedByPokemon(rows)[p] == m[p];
      assert RowsFor(rows, p) == RowsFor(pre, p) + [] == RowsFor(pre, p);
      GroupedIsAggregate(pre, p);
    } else if p in m {
      GroupedIsAggregate(pre, p);
      AggregateSnoc(p, RowsFor(pre, p), last);
    } else {
      assert forall i :: 0 <= i < |pre| ==> FocusedPokemonOf(pre[i]) != p;
      NoRowsFor(pre, p);
      AggregateSnoc(p, [], last);
      assert RowsFor(rows, p) == [last];
    }
  }

  /** Each grouped entry is filed under its own pokemon. */
  lemma GroupedFiledUnderOwnName(rows: seq<FocusedRow>)
    ensures forall k :: k in FirstSeen(rows, FocusedPokemonOf) ==>
      k in GroupedByPokemon(rows) && FocusedKey(GroupedByPokemon(rows)[k]).name == k
  {
  }

  lemma GroupedValuesInOrder(rows: seq<FocusedRow>)
    requires forall k :: k in FirstSeen(rows, FocusedPokemonOf) ==> k in GroupedByPokemon(rows)
    ensures forall e :: (e in ValuesInOrder(GroupedByPokemon(rows), FirstSeen(rows, FocusedPokemonOf))
      <==> e.pokemon in GroupedByPokemon(rows) && e == GroupedByPokemon(rows)[e.pokemon])
  {
    var m, order := GroupedByPokemon(rows), FirstSeen(rows, FocusedPokemonOf);
    var values := ValuesInOrder(m, order);
    forall e ensures e in values <==> e.pokemon in m && e == m[e.pokemon] {
      if e in values {
        var k :| 0 <= k < |order| && values[k] == e;
        GroupedIsAggregate(rows, order[k]);
      }
      if e.pokemon in m && e == m[e.pokemon] {
        var i :| 0 <= i < |rows| && FocusedPokemonOf(rows[i]) == e.pokemon;
        assert e.pokemon in order;
        var k :| 0 <= k < |order| && order[k] == e.pokemon;
        assert values[k] == e;
      }
    }
  }

  /**
   * The focused ranking of `rows`: one entry per pokemon summing all of its
   * rows, in ranking order (total descending, then pokemon name).
   */
  function FocusedRankingOf(rows: seq<FocusedRow>): (ranking: seq<FocusedEntry>)
    ensures Ranked(ranking, FocusedKey) && DistinctNames(ranking, FocusedKey)
    ensures forall e :: e in ranking <==> e.pokemon in GroupedByPokemon(rows) && e == GroupedByPokemon(rows)[e.pokemon]
  {
    var values := ValuesInOrder(GroupedByPokemon(rows), FirstSeen(rows, FocusedPokemonOf));
    GroupedFiledUnderOwnName(rows);
    ValuesHaveDistinctNames(GroupedByPokemon(rows), FirstSeen(rows, FocusedPokemonOf), FocusedKey);
    GroupedValuesInOrder(rows);
    RankSameEntries(values, FocusedKey);
    Rank(values, FocusedKey)
  }

  /** Some entry of `s` is for pokemon `p`. */
  predicate Ranks(s: seq<FocusedEntry>, p: string) {
    exists e :: e in s && e.pokemon == p
  }

  /**
   * Every pokemon with a row appears in the focused ranking, with the sum of
   * all of its rows, and no other pokemon appears.
   */
  lemma FocusedRankingSumsRows(rows: seq<FocusedRow>)
    ensures var ranking := FocusedRankingOf(rows);
      && (forall e :: e in ranking ==> e == Aggregate(e.pokemon, RowsFor(rows, e.pokemon)))
      && (forall p :: Ranks(ranking, p) <==> RowsFor(rows, p) != [])
  {
    var ranking := FocusedRankingOf(rows);
    forall e | e in ranking ensures e == Aggregate(e.pokemon, RowsFor(rows, e.pokemon)) {
      GroupedIsAggregate(rows, e.pokemon);
    }
    forall p ensures Ranks(ranking, p) <==> RowsFor(rows, p) != [] {
      if RowsFor(rows, p) != [] {
        var x := RowsFor(rows, p)[0];
        assert x in RowsFor(rows, p);
        RowsForMembers(rows, p);
        var i :| 0 <= i < |rows| && rows[i] == x;
        assert FocusedPokemonOf(rows[i]) == p;
        GroupedIsAggregate(rows, p);
        assert GroupedByPokemon(rows)[p] in ranking;
      }
      if Ranks(ranking, p) {
        var e :| e in ranking && e.pokemon == p;
        GroupedIsAggregate(rows, p);
      }
    }
  }

  lemma {:induction false} RowsForAppend(a: seq<FocusedRow>, b: seq<FocusedRow>, p: string)
    ensures RowsFor(a + b, p) == RowsFor(a, p) + RowsFor(b, p)
    decreases |b|
  {
    if b == [] {
      assert a + b == a;
    } else {
      var n := |b| - 1;
      assert b == b[..n] + [b[n]];
      assert a + b == (a + b[..n]) + [b[n]];
      RowsForSnoc(a + b[..n], b[n], p);
      RowsForSnoc(b[..n], b[n], p);
      RowsForAppend(a, b[..n], p);
    }
  }

  lemma {:induction false} TotalOfAppend(a: seq<FocusedRow>, b: seq<FocusedRow>)
    ensures TotalOf(a + b) == TotalOf(a) + TotalOf(b)
    decreases |b|
  {
    if b == [] {
      assert a + b == a;
    } else {
      var n := |b| - 1;
      assert b == b[..n] + [b[n]];
      assert a + b == (a + b[..n]) + [b[n]];
      assert (a + b)[..|a + b| - 1] == a + b[..n];
      TotalOfAppend(a, b[..n]);
    }
  }

  function FocusedRows(sources: seq<Source>, standard: SourceData, levelCapped: SourceData): seq<FocusedRow> {
    if sources == [] then []
    else
      AnswerOf(sources[0], standard, levelCapped).focusedRanking
      + FocusedRows(sources[1..], standard, levelCapped)
  }

  /** Without `limit30` the rows are the standard source's; with it, the standard rows then the level-capped ones. */
  lemma FocusedRowsFollowLimit30(limit30: bool, standard: SourceData, levelCapped: SourceData)
    ensures FocusedRows(RankingSources(limit30), standard, levelCapped)
         == standard.focusedRanking + (if limit30 then levelCapped.focusedRanking else [])
  {
    var sources := RankingSources(limit30);
    if limit30 {
      assert sources[1..] == [LevelCapped] && sources[1..][1..] == [];
      assert FocusedRows(sources[1..], standard, levelCapped) == levelCapped.focusedRanking + [];
    } else {
      assert sources[1..] == [];
    }
  }

  lemma {:induction false} IngredientsOfAppend(a: seq<FocusedRow>, b: seq<FocusedRow>)
    ensures IngredientsOf(a + b) == IngredientsOf(a) + IngredientsOf(b)
    decreases |b|
  {
    if b == [] {
      assert a + b == a;
    } else {
      var n := |b| - 1;
      assert b == b[..n] + [b[n]];
      assert a + b == (a + b[..n]) + [b[n]];
      assert (a + b)[..|a + b| - 1] == a + b[..n];
      IngredientsOfAppend(a, b[..n]);
    }
  }

  /**
   * A pokemon's focused entry totals its standard rows plus, under
   * `limit30`, its level-capped rows, and lists their ingredients in that
   * order, repeats kept.
   */
  lemma FocusedSumsAcrossSources(limit30: bool, standard: SourceData, levelCapped: SourceData, e: FocusedEntry)
    requires e in FocusedRankingOf(FocusedRows(RankingSources(limit30), standard, levelCapped))
    ensures var fromStandard := RowsFor(standard.focusedRanking, e.pokemon);
      var fromCapped := if limit30 then RowsFor(levelCapped.focusedRanking, e.pokemon) else [];
      && e.total == TotalOf(fromStandard) + TotalOf(fromCapped)
      && e.ingredientList == IngredientsOf(fromStandard) + IngredientsOf(fromCapped)
  {
    var rows := FocusedRows(RankingSources(limit30), standard, levelCapped);
    FocusedRowsFollowLimit30(limit30, standard, levelCapped);
    FocusedRankingSumsRows(rows);
    var capped := if limit30 then levelCapped.focusedRanking else [];
    RowsForAppend(standard.focusedRanking, capped, e.pokemon);
    TotalOfAppend(RowsFor(standard.focusedRanking, e.pokemon), RowsFor(capped, e.pokemon));
    IngredientsOfAppend(RowsFor(standard.focusedRanking, e.pokemon), RowsFor(capped, e.pokemon));
  }

  /** The entry of a pokemon with a single row `a` is that row on its own. */
  lemma SingleRowEntry(rows: seq<FocusedRow>, a: FocusedRow)
    requires a in rows && forall r :: r in rows && r.pokemon == a.pokemon ==> r == a
    requires forall i, j :: 0 <= i < j < |rows| ==> rows[i].pokemon != rows[j].pokemon
    ensures StartEntry(a) in FocusedRankingOf(rows)
  {
    var i :| 0 <= i < |rows| && rows[i] == a;
    assert FocusedPokemonOf(rows[i]) == a.pokemon;
    assert RowsFor(rows, a.pokemon) == [a] by {
      RowsForOnce(rows, i);
    }
    GroupedIsAggregate(rows, a.pokemon);
  }

  /** In rows with distinct pokemon, the rows for the pokemon of `rows[i]` are that row alone. */
  lemma {:induction false} RowsForOnce(rows: seq<FocusedRow>, i: int)
    requires 0 <= i < |rows|
    requires forall a, b :: 0 <= a < b < |rows| ==> rows[a].pokemon != rows[b].pokemon
    ensures RowsFor(rows, rows[i].pokemon) == [rows[i]]
    decreases |rows|
  {
    var n := |rows| - 1;
    var pre := rows[..n];
    assert rows == pre + [rows[n]];
    RowsForSnoc(pre, rows[n], rows[i].pokemon);
    if i == n {
      assert forall j :: 0 <= j < |pre| ==> FocusedPokemonOf(pre[j]) != rows[i].pokemon;
      NoRowsFor(pre, rows[i].pokemon);
    } else {
      assert pre[i] == rows[i];
      RowsForOnce(pre, i);
    }
  }

  /**
   * When each source returns one row, for two different pokemon: the
   * standard row alone is ranked, and the level-capped row beside it under
   * `limit30`, each as its own entry.
   */
  lemma OneRowPerSource(limit30: bool, standard: SourceData, levelCapped: SourceData, a: FocusedRow, b: FocusedRow)
    requires standard.focusedRanking == [a] && levelCapped.focusedRanking == [b]
    requires a.pokemon != b.pokemon
    ensures var ranking := FocusedRankingOf(FocusedRows(RankingSources(limit30), standard, levelCapped));
      forall e :: e in ranking <==> e == StartEntry(a) || (limit30 && e == StartEntry(b))
  {
    var rows := FocusedRows(RankingSources(limit30), standard, levelCapped);
    FocusedRowsFollowLimit30(limit30, standard, levelCapped);
    assert rows == if limit30 then [a, b] else [a];
    var ranking := FocusedRankingOf(rows);
    SingleRowEntry(rows, a);
    if limit30 {
      SingleRowEntry(rows, b);
    }
    FocusedRankingSumsRows(rows);
    forall e | e in ranking ensures e == StartEntry(a) || (limit30 && e == StartEntry(b)) {
      assert Ranks(ranking, e.pokemon);
      var x := RowsFor(rows, e.pokemon)[0];
      assert x in RowsFor(rows, e.pokemon);
      RowsForMembers(rows, e.pokemon);
      assert x in rows;
      if x == a {
        assert StartEntry(a) in ranking;
        assert FocusedKey(e).name == FocusedKey(StartEntry(a)).name;
        DistinctNamesSameName(ranking, FocusedKey, e, StartEntry(a));
      } else {
        assert StartEntry(b) in ranking;
        DistinctNamesSameName(ranking, FocusedKey, e, StartEntry(b));
      }
    }
  }

  /** The number of meals asked of each source: the caller's, else the default. */
  function NrOfMeals(requested: Option<int>): (r: int)
    ensures requested.Some? ==> r == requested.value
    ensures requested.None? ==> r == DEFAULT_NR_OF_MEALS
  {
    requested.GetOr(DEFAULT_NR_OF_MEALS)
  }

  function FocusedQueries(sources: seq<Source>, mealNames: seq<string>, berries: seq<Berry>, limit: int): (r: seq<Query>)
    ensures |r| == |sources|
    ensures forall i :: 0 <= i < |sources| ==> r[i] == FocusedRankingForMeals(sources[i], mealNames, berries, limit)
  {
    if sources == [] then [] else [FocusedRankingForMeals(sources[0], mealNames, berries, limit)] + FocusedQueries(sources[1..], mealNames, berries, limit)
  }

  /**
   * getMealFocusedRanking: asks each consulted source for its top
   * `nrOfMeals` focused rows (the default when omitted), sums them per
   * pokemon and ranks the result.
   */
  method GetMealFocusedRanking(params: RankingParams, nrOfMeals: Option<int>, db: Sources)
    returns (ranking: seq<FocusedEntry>)
    modifies db
    ensures var sources := RankingSources(params.limit30);
      && db.recorded == old(db.recorded) + FocusedQueries(sources,
           MealNamesForFilter(params.mealFilter), BerriesForFilter(params.islandFilter), NrOfMeals(nrOfMeals))
      && ranking == FocusedRankingOf(FocusedRows(sources, db.standard, db.levelCapped))
  {
    var mealNames := MealNamesForFilter(params.mealFilter);
    var berries := BerriesForFilter(params.islandFilter);
    var limit := NrOfMeals(nrOfMeals);
    ghost var queries := FocusedQueries(RankingSources(params.limit30), mealNames, berries, limit);
    var rows := db.GetFocusedRankingForMeals(Standard, mealNames, berries, limit);
    if params.limit30 {
      var capped := db.GetFocusedRankingForMeals(LevelCapped, mealNames, berries, limit);
      rows := rows + capped;
      assert queries == [queries[0], queries[1]];
    } else {
      assert queries == [queries[0]];
    }
    FocusedRowsFollowLimit30(params.limit30, db.standard, db.levelCapped);
    assert rows == FocusedRows(RankingSources(params.limit30), db.standard, db.levelCapped);
    var grouped, order := Reduce(rows, FocusedPokemonOf, StartEntry, AddRow);
    ranking := Rank(ValuesInOrder(grouped, order), FocusedKey);
  }

  /** An omitted `nrOfMeals` becomes the default in every query; a given one is passed on unchanged. */
  lemma NrOfMealsReachesEveryQuery(limit30: bool, mealNames: seq<string>, berries: seq<Berry>, nrOfMeals: Option<int>)
    ensures var queries := FocusedQueries(RankingSources(limit30), mealNames, berries, NrOfMeals(nrOfMeals));
      forall q :: q in queries ==>
        (q.FocusedRankingForMeals? && q.limit == (if nrOfMeals.Some? then nrOfMeals.value else DEFAULT_NR_OF_MEALS))
  {
  }

  /** A ranking query consults the level-capped source exactly when `limit30` is set, and always the standard one. */
  lemma RankingQueriesFollowLimit30(limit30: bool, mealNames: seq<string>, berries: seq<Berry>)
    ensures var queries := FlexibleQueries(RankingSources(limit30), mealNames, berries);
      && FlexibleRankingForMeals(Standard, mealNames, berries) in queries
      && (FlexibleRankingForMeals(LevelCapped, mealNames, berries) in queries <==> limit30)
      && forall q :: q in queries ==> q.mealNames == mealNames && q.berries == berries
  {
  }

  // ---------------------------------------------------------------------
  // Meal detail.

  /**
   * getMealDataAndRankingFor: an unknown meal fails with NotFound before any
   * query; a known one is looked up in the one source `limit30` selects and
   * its answer is returned unchanged.
   */
  method GetMealDataAndRankingFor(name: string, limit30: bool, db: Sources) returns (result: Result<MealDetail, RankingError>)
    modifies db
    ensures name !in Names(MEALS) ==> result == Failure(NotFound(name)) && db.recorded == old(db.recorded)
    ensures name in Names(MEALS) ==>
      && result == Success(db.Answer(DetailSource(limit30)).mealCombinations)
      && db.recorded == old(db.recorded) + [CombinationsForMeal(DetailSource(limit30), name)]
  {
    if name !in Names(MEALS) {
      return Failure(NotFound(name));
    }
    var detail := db.GetPokemonCombinationsForMeal(DetailSource(limit30), name);
    result := Success(detail);
  }
}
