/**
 * Berry filter: which berries are obtainable on the selected islands.
 *
 * The berry catalog is static reference data that this model does not fix:
 * the full list and each island's list are abstract constants. Where a lemma
 * needs the catalog to be partitioned by island, it says so in `requires`.
 */
module BerryUtils {
  import opened Wrappers
  import opened Sequences

  datatype Berry = Berry(name: string)

  /** The islands, in enumeration order. */
  datatype Island = Cyan | Taupe | Snowdrop | Lapis

  /** Island selection: one flag per island. */
  datatype IslandFilter = IslandFilter(cyan: bool, taupe: bool, snowdrop: bool, lapis: bool)
  {
    predicate Selects(i: Island) {
      match i
      case Cyan => cyan
      case Taupe => taupe
      case Snowdrop => snowdrop
      case Lapis => lapis
    }
  }

  const BERRIES: seq<Berry>
  const CYAN_BERRIES: seq<Berry>
  const TAUPE_BERRIES: seq<Berry>
  const SNOWDROP_BERRIES: seq<Berry>
  const LAPIS_BERRIES: seq<Berry>

  const ISLAND_ORDER: seq<Island> := [Cyan, Taupe, Snowdrop, Lapis]

  function IslandBerries(i: Island): seq<Berry> {
    match i
    case Cyan => CYAN_BERRIES
    case Taupe => TAUPE_BERRIES
    case Snowdrop => SNOWDROP_BERRIES
    case Lapis => LAPIS_BERRIES
  }

  /** The filter selecting exactly island `i`. */
  function Only(i: Island): (f: IslandFilter)
    ensures forall j :: f.Selects(j) <==> j == i
  {
    IslandFilter(i == Cyan, i == Taupe, i == Snowdrop, i == Lapis)
  }

  /** `i` comes strictly before `j` in enumeration order. */
  predicate Precedes(i: Island, j: Island) {
    IslandIndex(i) < IslandIndex(j)
  }

  function IslandIndex(i: Island): (k: nat)
    ensures k < |ISLAND_ORDER| && ISLAND_ORDER[k] == i
  {
    match i
    case Cyan => 0
    case Taupe => 1
    case Snowdrop => 2
    case Lapis => 3
  }

  /** The islands a filter selects, in enumeration order. */
  function SelectedIslands(f: IslandFilter): (r: seq<Island>)
    ensures forall i :: i in r <==> f.Selects(i)
    ensures forall a, b :: 0 <= a < b < |r| ==> Precedes(r[a], r[b])
  {
    (if f.cyan then [Cyan] else []) + (if f.taupe then [Taupe] else [])
    + (if f.snowdrop then [Snowdrop] else []) + (if f.lapis then [Lapis] else [])
  }

  /** The berry lists of `islands`, concatenated in the given order. */
  function Concatenated(islands: seq<Island>): (r: seq<Berry>)
    ensures forall b :: b in r <==> exists i :: i in islands && b in IslandBerries(i)
    ensures |r| == SumOfSizes(islands)
  {
    if islands == [] then []
    else
      var rest := Concatenated(islands[1..]);
      assert forall i :: i in islands <==> i == islands[0] || i in islands[1..];
      IslandBerries(islands[0]) + rest
  }

  function SumOfSizes(islands: seq<Island>): nat {
    if islands == [] then 0 else |IslandBerries(islands[0])| + SumOfSizes(islands[1..])
  }

  /**
   * getBerriesForIsland(island?): one island's berries, or every berry when
   * no island is given.
   */
  function BerriesForIsland(island: Option<Island>): (r: seq<Berry>)
    ensures island.None? ==> r == BERRIES
    ensures island.Some? ==> r == BerriesForFilter(Only(island.value))
  {
    match island
    case None => BERRIES
    case Some(i) =>
      assert SelectedIslands(Only(i)) == [i];
      IslandBerries(i)
  }

  /**
   * getBerriesForFilter: no selection means no restriction (every berry);
   * otherwise the selected islands' lists, concatenated in island order.
   */
  function BerriesForFilter(f: IslandFilter): (r: seq<Berry>)
    ensures SelectedIslands(f) == [] ==> r == BERRIES
    ensures SelectedIslands(f) != [] ==>
      forall b :: b in r <==> exists i :: f.Selects(i) && b in IslandBerries(i)
  {
    var selected := SelectedIslands(f);
    if selected == [] then BERRIES else Concatenated(selected)
  }

  // ---------------------------------------------------------------------
  // Properties of the filter.

  /** All flags false gives the whole catalog. */
  lemma NoSelectionIsAllBerries()
    ensures BerriesForFilter(IslandFilter(false, false, false, false)) == BERRIES
    ensures BerriesForIsland(None) == BERRIES
  {
  }

  /** Selecting one island gives exactly that island's list, as does asking for it alone. */
  lemma SingleIslandSelection(i: Island)
    ensures BerriesForFilter(Only(i)) == IslandBerries(i)
    ensures BerriesForFilter(Only(i)) == BerriesForIsland(Some(i))
  {
  }

  /**
   * Selecting two islands gives the earlier island's list followed by the
   * later one's, whichever order the flags are read in.
   */
  lemma TwoIslandSelection(i: Island, j: Island)
    requires Precedes(i, j)
    ensures var f := IslandFilter(i == Cyan || j == Cyan, i == Taupe || j == Taupe,
                                  i == Snowdrop || j == Snowdrop, i == Lapis || j == Lapis);
            BerriesForFilter(f) == IslandBerries(i) + IslandBerries(j)
  {
    var f := IslandFilter(i == Cyan || j == Cyan, i == Taupe || j == Taupe,
                          i == Snowdrop || j == Snowdrop, i == Lapis || j == Lapis);
    assert SelectedIslands(f) == [i, j];
    assert Concatenated([j]) == IslandBerries(j);
  }

  /** The concrete case exercised for cyan and taupe. */
  lemma CyanAndTaupe()
    ensures BerriesForFilter(IslandFilter(true, true, false, false)) == CYAN_BERRIES + TAUPE_BERRIES
  {
  }

  /** Concatenating the lists of two runs of islands is concatenating the runs. */
  lemma {:induction false} ConcatenatedAppend(a: seq<Island>, b: seq<Island>)
    ensures Concatenated(a + b) == Concatenated(a) + Concatenated(b)
  {
    if a == [] {
      assert a + b == b;
    } else {
      assert (a + b)[0] == a[0] && (a + b)[1..] == a[1..] + b;
      ConcatenatedAppend(a[1..], b);
    }
  }

  /**
   * Any selection of islands gives the selected lists, each whole (repeats
   * kept), in island order: cyan, taupe, snowdrop, lapis.
   */
  lemma SelectionInIslandOrder(f: IslandFilter)
    requires SelectedIslands(f) != []
    ensures BerriesForFilter(f)
         == (if f.cyan then CYAN_BERRIES else []) + (if f.taupe then TAUPE_BERRIES else [])
          + (if f.snowdrop then SNOWDROP_BERRIES else []) + (if f.lapis then LAPIS_BERRIES else [])
  {
    var c, t, sd, l := (if f.cyan then [Cyan] else []), (if f.taupe then [Taupe] else []),
                       (if f.snowdrop then [Snowdrop] else []), (if f.lapis then [Lapis] else []);
    assert SelectedIslands(f) == c + t + sd + l;
    ConcatenatedAppend(c + t + sd, l);
    ConcatenatedAppend(c + t, sd);
    ConcatenatedAppend(c, t);
    assert Concatenated(c) == if f.cyan then CYAN_BERRIES else [];
    assert Concatenated(t) == if f.taupe then TAUPE_BERRIES else [];
    assert Concatenated(sd) == if f.snowdrop then SNOWDROP_BERRIES else [];
    assert Concatenated(l) == if f.lapis then LAPIS_BERRIES else [];
  }

  // ---------------------------------------------------------------------
  // The catalog partition (every berry on exactly one island) and what it buys.

  /** The full catalog is, as a multiset, the four island lists, and has no repeats. */
  predicate CatalogPartitioned() {
    && NoDuplicates(BERRIES)
    && multiset(BERRIES) == multiset(CYAN_BERRIES + TAUPE_BERRIES + SNOWDROP_BERRIES + LAPIS_BERRIES)
  }

  /** No repeats is the same as every multiplicity being at most one. */
  lemma {:induction false} NoDuplicatesAsMultiset<T>(s: seq<T>)
    ensures NoDuplicates(s) <==> forall x :: multiset(s)[x] <= 1
  {
    if s != [] {
      var h, t := s[0], s[1..];
      assert s == [h] + t;
      NoDuplicatesAsMultiset(t);
      if NoDuplicates(s) {
        assert NoDuplicates(t) by {
          forall a, b | 0 <= a < b < |t| ensures t[a] != t[b] {
            assert t[a] == s[a + 1] && t[b] == s[b + 1];
          }
        }
        assert h !in t by {
          forall k | 0 <= k < |t| ensures t[k] != h {
            assert t[k] == s[k + 1];
          }
        }
      } else {
        var a, b :| 0 <= a < b < |s| && s[a] == s[b];
        if a == 0 {
          assert s[b] == t[b - 1];
          assert multiset(s)[h] >= 2;
        } else {
          assert t[a - 1] == t[b - 1];
          assert !NoDuplicates(t);
          var x :| multiset(t)[x] > 1;
          assert multiset(s)[x] >= multiset(t)[x];
        }
      }
    }
  }

  lemma NoDuplicatesOfMultiset<T>(s: seq<T>, t: seq<T>)
    requires NoDuplicates(s) && multiset(s) == multiset(t)
    ensures NoDuplicates(t)
  {
    NoDuplicatesAsMultiset(s);
    NoDuplicatesAsMultiset(t);
  }

  /** Repeats cannot appear in a part of a concatenation without repeats. */
  lemma NoDuplicatesOfPart<T>(u: seq<T>, v: seq<T>)
    requires NoDuplicates(u + v)
    ensures NoDuplicates(u) && NoDuplicates(v)
    ensures forall x :: x in u ==> x !in v
  {
    forall a, b | 0 <= a < b < |u| ensures u[a] != u[b] {
      assert (u + v)[a] == u[a] && (u + v)[b] == u[b];
    }
    forall a, b | 0 <= a < b < |v| ensures v[a] != v[b] {
      assert (u + v)[|u| + a] == v[a] && (u + v)[|u| + b] == v[b];
    }
    forall a, b | 0 <= a < |u| && 0 <= b < |v| ensures u[a] != v[b] {
      assert (u + v)[a] == u[a] && (u + v)[|u| + b] == v[b];
    }
  }

  lemma NoDuplicatesOfJoin<T>(u: seq<T>, v: seq<T>)
    requires NoDuplicates(u) && NoDuplicates(v)
    requires forall x :: x in u ==> x !in v
    ensures NoDuplicates(u + v)
  {
    forall a, b | 0 <= a < b < |u + v| ensures (u + v)[a] != (u + v)[b] {
      if b < |u| {
      } else if a >= |u| {
        assert (u + v)[a] == v[a - |u|] && (u + v)[b] == v[b - |u|];
      } else {
        assert (u + v)[a] in u && (u + v)[b] in v;
      }
    }
  }

  /** In a partitioned catalog, each island's list has no repeats and no two islands share a berry. */
  lemma IslandsDisjoint()
    requires CatalogPartitioned()
    ensures forall i :: NoDuplicates(IslandBerries(i))
    ensures forall i, j, b :: i != j && b in IslandBerries(i) ==> b !in IslandBerries(j)
  {
    var c, t, s, l := CYAN_BERRIES, TAUPE_BERRIES, SNOWDROP_BERRIES, LAPIS_BERRIES;
    NoDuplicatesOfMultiset(BERRIES, c + t + s + l);
    assert c + t + s + l == c + (t + (s + l));
    NoDuplicatesOfPart(c, t + (s + l));
    NoDuplicatesOfPart(t, s + l);
    NoDuplicatesOfPart(s, l);
    assert c + t + s + l == (c + t) + s + l == ((c + t) + s) + l;
    NoDuplicatesOfPart((c + t) + s, l);
    NoDuplicatesOfPart(c + t, s);
    NoDuplicatesOfPart(c, t);
  }

  lemma {:induction false} ConcatenatedNoDuplicates(islands: seq<Island>)
    requires CatalogPartitioned()
    requires NoDuplicates(islands)
    ensures NoDuplicates(Concatenated(islands))
  {
    if islands != [] {
      IslandsDisjoint();
      var rest := islands[1..];
      assert NoDuplicates(rest) by {
        forall a, b | 0 <= a < b < |rest| ensures rest[a] != rest[b] {
          assert rest[a] == islands[a + 1] && rest[b] == islands[b + 1];
        }
      }
      ConcatenatedNoDuplicates(rest);
      assert islands[0] !in rest by {
        forall k | 0 <= k < |rest| ensures rest[k] != islands[0] {
          assert rest[k] == islands[k + 1];
        }
      }
      NoDuplicatesOfJoin(IslandBerries(islands[0]), Concatenated(rest));
    }
  }

  /** With a partitioned catalog, no filter ever yields a berry twice. */
  lemma FilterHasNoDuplicates(f: IslandFilter)
    requires CatalogPartitioned()
    ensures NoDuplicates(BerriesForFilter(f))
  {
    var selected := SelectedIslands(f);
    if selected != [] {
      ConcatenatedNoDuplicates(selected);
    }
  }

  /** With a partitioned catalog, selecting every island yields the whole catalog up to order. */
  lemma AllIslandsCoverCatalog()
    requires CatalogPartitioned()
    ensures multiset(BerriesForFilter(IslandFilter(true, true, true, true))) == multiset(BERRIES)
  {
  }
}
