/**
 * Grouped reduction over a keyed mapping: rows are folded, in order, into one
 * accumulated value per key. The ranking engines use it with two combining
 * functions: keep-the-better-row (generalist) and sum-the-rows (focused).
 */
module ReduceByKey {
  import opened Sequences

  /** The fold the reduction computes, stated from the last row backwards. */
  function Reduced<R, A>(rows: seq<R>, key: R -> string, init: R -> A, combine: (A, R) -> A): (m: map<string, A>)
    ensures forall k :: k in m <==> exists i :: 0 <= i < |rows| && key(rows[i]) == k
    decreases |rows|
  {
    if rows == [] then map[]
    else
      var n := |rows| - 1;
      var m := Reduced(rows[..n], key, init, combine);
      var k := key(rows[n]);
      assert forall i :: 0 <= i < n ==> rows[..n][i] == rows[i];
      m[k := if k in m then combine(m[k], rows[n]) else init(rows[n])]
  }

  /** One more row updates just its own key. */
  lemma ReducedSnoc<R, A>(pre: seq<R>, last: R, key: R -> string, init: R -> A, combine: (A, R) -> A)
    ensures var m := Reduced(pre, key, init, combine);
            var k := key(last);
            Reduced(pre + [last], key, init, combine) == m[k := if k in m then combine(m[k], last) else init(last)]
  {
  }

  /** The keys of `rows`, each once, in the order they first appear. */
  function FirstSeen<R>(rows: seq<R>, key: R -> string): (r: seq<string>)
    ensures NoDuplicates(r)
    ensures forall k :: k in r <==> exists i :: 0 <= i < |rows| && key(rows[i]) == k
    decreases |rows|
  {
    if rows == [] then []
    else
      var n := |rows| - 1;
      var ks := FirstSeen(rows[..n], key);
      assert forall i :: 0 <= i < n ==> rows[..n][i] == rows[i];
      if key(rows[n]) in ks then ks else ks + [key(rows[n])]
  }

  /** The accumulated values of `m` in the order of `keys`. */
  function ValuesInOrder<A>(m: map<string, A>, keys: seq<string>): (r: seq<A>)
    requires forall k :: k in keys ==> k in m
    ensures |r| == |keys| && forall i :: 0 <= i < |keys| ==> r[i] == m[keys[i]]
  {
    seq(|keys|, i requires 0 <= i < |keys| => m[keys[i]])
  }

  /** One pass over `rows`, accumulating per key and recording keys in first-seen order. */
  method Reduce<R, A>(rows: seq<R>, key: R -> string, init: R -> A, combine: (A, R) -> A)
    returns (m: map<string, A>, order: seq<string>)
    ensures m == Reduced(rows, key, init, combine)
    ensures order == FirstSeen(rows, key)
  {
    m, order := map[], [];
    var i := 0;
    while i < |rows|
      invariant 0 <= i <= |rows|
      invariant m == Reduced(rows[..i], key, init, combine)
      invariant order == FirstSeen(rows[..i], key)
    {
      assert rows[..i + 1][..i] == rows[..i];
      var row := rows[i];
      var k := key(row);
      if k in m {
        m := m[k := combine(m[k], row)];
      } else {
        m := m[k := init(row)];
        order := order + [k];
      }
      i := i + 1;
    }
    assert rows[..|rows|] == rows;
  }
}
