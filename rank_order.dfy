/**
 * The order of a ranking: higher score first; on equal scores, the pokemon
 * name that is lexicographically smaller (by character code) first.
 */
module RankOrder {

  /** What a ranking entry is ordered by. */
  datatype RankKey = RankKey(score: int, name: string)

  /** Lexicographic `a <= b` on character codes. */
  predicate NameAtMost(a: string, b: string) {
    a == [] || (b != [] && (a[0] < b[0] || (a[0] == b[0] && NameAtMost(a[1..], b[1..]))))
  }

  lemma {:induction false} NameAtMostTotal(a: string, b: string)
    ensures NameAtMost(a, b) || NameAtMost(b, a)
  {
    if a != [] && b != [] && a[0] == b[0] {
      NameAtMostTotal(a[1..], b[1..]);
    }
  }

  lemma {:induction false} NameAtMostTransitive(a: string, b: string, c: string)
    requires NameAtMost(a, b) && NameAtMost(b, c)
    ensures NameAtMost(a, c)
  {
    if a != [] && b != [] && c != [] && a[0] == b[0] && b[0] == c[0] {
      NameAtMostTransitive(a[1..], b[1..], c[1..]);
    }
  }

  lemma {:induction false} NameAtMostAntisymmetric(a: string, b: string)
    requires NameAtMost(a, b) && NameAtMost(b, a)
    ensures a == b
  {
    if a != [] && b != [] {
      NameAtMostAntisymmetric(a[1..], b[1..]);
      assert a == [a[0]] + a[1..] && b == [b[0]] + b[1..];
    }
  }

  /** `x` may stand before `y` in a ranking. */
  predicate RanksBefore(x: RankKey, y: RankKey) {
    x.score > y.score || (x.score == y.score && NameAtMost(x.name, y.name))
  }

  lemma RanksBeforeTotal(x: RankKey, y: RankKey)
    ensures RanksBefore(x, y) || RanksBefore(y, x)
  {
    NameAtMostTotal(x.name, y.name);
  }

  lemma RanksBeforeTransitive(x: RankKey, y: RankKey, z: RankKey)
    requires RanksBefore(x, y) && RanksBefore(y, z)
    ensures RanksBefore(x, z)
  {
    if x.score == y.score == z.score {
      NameAtMostTransitive(x.name, y.name, z.name);
    }
  }

  /** Two entries that rank before each other have the same score and name. */
  lemma RanksBeforeAntisymmetric(x: RankKey, y: RankKey)
    requires RanksBefore(x, y) && RanksBefore(y, x)
    ensures x == y
  {
    NameAtMostAntisymmetric(x.name, y.name);
  }

  ghost predicate Ranked<T>(s: seq<T>, key: T -> RankKey) {
    forall a, b :: 0 <= a < b < |s| ==> RanksBefore(key(s[a]), key(s[b]))
  }

  ghost predicate DistinctNames<T>(s: seq<T>, key: T -> RankKey) {
    forall a, b :: 0 <= a < b < |s| ==> key(s[a]).name != key(s[b]).name
  }

  /** Inserts `x` before the first entry it may stand before. */
  function Insert<T>(x: T, s: seq<T>, key: T -> RankKey): (r: seq<T>)
    ensures multiset(r) == multiset(s) + multiset{x}
  {
    if s == [] then [x]
    else if RanksBefore(key(x), key(s[0])) then [x] + s
    else
      assert s == [s[0]] + s[1..];
      [s[0]] + Insert(x, s[1..], key)
  }

  /** Every entry after the head of a ranked sequence may stand after the head. */
  lemma HeadRanksFirst<T>(s: seq<T>, key: T -> RankKey)
    requires Ranked(s, key) && s != []
    ensures forall y :: y in s[1..] ==> RanksBefore(key(s[0]), key(y))
  {
  }

  lemma {:induction false} InsertKeepsRanked<T>(x: T, s: seq<T>, key: T -> RankKey)
    requires Ranked(s, key)
    ensures Ranked(Insert(x, s, key), key)
  {
    if s != [] {
      var r := Insert(x, s, key);
      if RanksBefore(key(x), key(s[0])) {
        HeadRanksFirst(s, key);
        forall a, b | 0 <= a < b < |r| ensures RanksBefore(key(r[a]), key(r[b])) {
          if a == 0 && b > 1 {
            assert r[b] in s[1..];
            RanksBeforeTransitive(key(x), key(s[0]), key(r[b]));
          }
        }
      } else {
        var rest := Insert(x, s[1..], key);
        assert Ranked(s[1..], key) by {
          forall a, b | 0 <= a < b < |s[1..]| ensures RanksBefore(key(s[1..][a]), key(s[1..][b])) {
            assert s[1..][a] == s[a + 1] && s[1..][b] == s[b + 1];
          }
        }
        InsertKeepsRanked(x, s[1..], key);
        HeadRanksFirst(s, key);
        RanksBeforeTotal(key(x), key(s[0]));
        assert r == [s[0]] + rest;
        forall b | 0 <= b < |rest| ensures RanksBefore(key(s[0]), key(rest[b])) {
          assert rest[b] in multiset(rest);
        }
      }
    }
  }

  lemma {:induction false} InsertKeepsDistinct<T>(x: T, s: seq<T>, key: T -> RankKey)
    requires DistinctNames(s, key)
    requires forall y :: y in s ==> key(y).name != key(x).name
    ensures DistinctNames(Insert(x, s, key), key)
  {
    if s != [] && !RanksBefore(key(x), key(s[0])) {
      var rest := Insert(x, s[1..], key);
      assert DistinctNames(s[1..], key) by {
        forall a, b | 0 <= a < b < |s[1..]| ensures key(s[1..][a]).name != key(s[1..][b]).name {
          assert s[1..][a] == s[a + 1] && s[1..][b] == s[b + 1];
        }
      }
      InsertKeepsDistinct(x, s[1..], key);
      forall y | y in s[1..] ensures key(s[0]).name != key(y).name {
        var k :| 0 <= k < |s[1..]| && s[1..][k] == y;
        assert s[k + 1] == y;
      }
      forall b | 0 <= b < |rest| ensures key(s[0]).name != key(rest[b]).name {
        assert rest[b] in multiset(rest);
      }
    }
  }

  /** The entries of `s` in ranking order (an insertion sort). */
  function Rank<T>(s: seq<T>, key: T -> RankKey): (r: seq<T>)
    ensures multiset(r) == multiset(s)
    ensures Ranked(r, key)
    ensures DistinctNames(s, key) ==> DistinctNames(r, key)
  {
    if s == [] then []
    else
      var rest := Rank(s[1..], key);
      assert s == [s[0]] + s[1..];
      InsertKeepsRanked(s[0], rest, key);
      assert DistinctNames(s, key) ==> DistinctNames(Insert(s[0], rest, key), key) by {
        if DistinctNames(s, key) {
          assert DistinctNames(s[1..], key) by {
            forall a, b | 0 <= a < b < |s[1..]| ensures key(s[1..][a]).name != key(s[1..][b]).name {
              assert s[1..][a] == s[a + 1] && s[1..][b] == s[b + 1];
            }
          }
          forall y | y in rest ensures key(y).name != key(s[0]).name {
            assert y in multiset(s[1..]);
            var k :| 0 <= k < |s[1..]| && s[1..][k] == y;
            assert s[k + 1] == y;
          }
          InsertKeepsDistinct(s[0], rest, key);
        }
      }
      Insert(s[0], rest, key)
  }

  lemma TailRanked<T>(s: seq<T>, key: T -> RankKey)
    requires Ranked(s, key) && s != []
    ensures Ranked(s[1..], key)
  {
  }

  lemma TailDistinct<T>(s: seq<T>, key: T -> RankKey)
    requires DistinctNames(s, key) && s != []
    ensures DistinctNames(s[1..], key)
  {
  }

  /** Two rankings of the same entries, one with distinct names, start with the same entry. */
  lemma SameHead<T>(r: seq<T>, t: seq<T>, key: T -> RankKey)
    requires Ranked(r, key) && Ranked(t, key) && multiset(r) == multiset(t)
    requires DistinctNames(r, key) && r != []
    ensures t != [] && r[0] == t[0]
  {
    assert r[0] in multiset(t);
    assert t[0] in multiset(r);
    var i :| 0 <= i < |t| && t[i] == r[0];
    var j :| 0 <= j < |r| && r[j] == t[0];
    if i > 0 && j > 0 {
      assert RanksBefore(key(t[0]), key(t[i]));
      assert RanksBefore(key(r[0]), key(r[j]));
      RanksBeforeAntisymmetric(key(r[0]), key(t[0]));
      assert false;
    }
  }

  /** Distinct names leave room for at most one copy of an entry. */
  lemma RepeatedEntryHasNoDistinctNames<T>(s: seq<T>, key: T -> RankKey, x: T)
    requires forall j :: 0 <= j < |s| ==> s[j] == x
    requires |s| >= 2
    ensures !DistinctNames(s, key)
  {
    assert s[0] == x && s[1] == x;
  }

  /** With distinct names, two entries with the same name are the same entry. */
  lemma DistinctNamesSameName<T>(s: seq<T>, key: T -> RankKey, x: T, y: T)
    requires DistinctNames(s, key) && x in s && y in s
    requires key(x).name == key(y).name
    ensures x == y
  {
  }

  /** Ranking keeps exactly the entries it was given. */
  lemma RankSameEntries<T>(s: seq<T>, key: T -> RankKey)
    ensures forall e :: e in Rank(s, key) <==> e in s
  {
    var r := Rank(s, key);
    forall e ensures e in r <==> e in s {
      assert e in r <==> e in multiset(r);
      assert e in s <==> e in multiset(s);
    }
  }

  /** A ranking with distinct names is determined by its entries: it is the unique ranked order. */
  lemma {:induction false} RankedIsUnique<T>(r: seq<T>, t: seq<T>, key: T -> RankKey)
    requires Ranked(r, key) && Ranked(t, key) && multiset(r) == multiset(t)
    requires DistinctNames(r, key)
    ensures r == t
  {
    if r == [] {
      assert |t| == |multiset(t)| == 0;
    } else {
      SameHead(r, t, key);
      assert r == [r[0]] + r[1..] && t == [t[0]] + t[1..];
      assert multiset(r) == multiset{r[0]} + multiset(r[1..]);
      assert multiset(t) == multiset{t[0]} + multiset(t[1..]);
      assert multiset(r[1..]) == multiset(r) - multiset{r[0]};
      assert multiset(t[1..]) == multiset(t) - multiset{t[0]};
      TailRanked(r, key);
      TailRanked(t, key);
      TailDistinct(r, key);
      RankedIsUnique(r[1..], t[1..], key);
    }
  }
}
