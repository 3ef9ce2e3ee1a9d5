/**
 * The row orders that the listings' `ORDER BY` clauses ask for. A listing
 * is the set of matching row keys put in order by a rank; ties between
 * rows of equal rank may come in any order, as in SQL.
 */
module Ordering {

  /** Lexicographic order on (major, minor) ranks. */
  predicate LexLe(a: (int, int), b: (int, int)) {
    a.0 < b.0 || (a.0 == b.0 && a.1 <= b.1)
  }

  predicate SortedBy(r: seq<int>, rank: int -> (int, int)) {
    forall i, j :: 0 <= i < j < |r| ==> LexLe(rank(r[i]), rank(r[j]))
  }

  predicate Distinct(r: seq<int>) {
    forall i, j :: 0 <= i < j < |r| ==> r[i] != r[j]
  }

  /** Strictly decreasing keys: `ORDER BY id DESC` on a primary key. */
  predicate Descending(r: seq<int>) {
    forall i, j :: 0 <= i < j < |r| ==> r[i] > r[j]
  }

  /** Every finite set of keys with an element has an element of least rank. */
  lemma {:induction false} LeastExists(s: set<int>, rank: int -> (int, int), y: int)
    requires y in s
    ensures exists m :: m in s && forall k :: k in s ==> LexLe(rank(m), rank(k))
    decreases |s|
  {
    if z :| z in s && z != y {
      LeastExists(s - {y}, rank, z);
      var m :| m in s - {y} && forall k :: k in s - {y} ==> LexLe(rank(m), rank(k));
      var a, b := rank(m), rank(y);
      if LexLe(a, b) {
        assert forall k :: k in s ==> k == y || k in s - {y};
      } else {
        assert LexLe(b, a);
        forall k | k in s
          ensures LexLe(b, rank(k))
        {
          if k != y {
            assert LexLe(a, rank(k));
          }
        }
      }
    } else {
      assert LexLe(rank(y), rank(y));
    }
  }

  /** The keys of `keys`, each once, in non-decreasing rank. */
  method SortByRank(keys: set<int>, rank: int -> (int, int)) returns (r: seq<int>)
    ensures SortedBy(r, rank)
    ensures Distinct(r)
    ensures forall k :: k in r <==> k in keys
    ensures forall i :: 0 <= i < |r| ==> r[i] in keys
  {
    r := [];
    var rest := keys;
    while exists k :: k in rest
      invariant rest <= keys
      invariant forall k :: k in keys ==> k in r || k in rest
      invariant forall k :: k in r ==> k in keys && k !in rest
      invariant Distinct(r)
      invariant SortedBy(r, rank)
      invariant forall i, k :: 0 <= i < |r| && k in rest ==> LexLe(rank(r[i]), rank(k))
      decreases |rest|
    {
      var y :| y in rest;
      LeastExists(rest, rank, y);
      var m :| m in rest && forall k :: k in rest ==> LexLe(rank(m), rank(k));
      r := r + [m];
      rest := rest - {m};
    }
  }

  /** The keys of `keys` from largest to smallest. */
  method KeysDescending(keys: set<int>) returns (r: seq<int>)
    ensures Descending(r)
    ensures forall k :: k in r <==> k in keys
  {
    r := SortByRank(keys, k => (-k, 0));
  }

  /** The key column of a listing. */
  function Column<V>(rows: seq<(int, V)>): (r: seq<int>)
    ensures |r| == |rows|
    ensures forall i :: 0 <= i < |rows| ==> r[i] == rows[i].0
  {
    seq(|rows|, i requires 0 <= i < |rows| => rows[i].0)
  }

  /**
   * `rows` lists exactly the rows of table `m` whose keys are in `keep`,
   * each with its current contents.
   */
  ghost predicate ListingOf<V>(rows: seq<(int, V)>, m: map<int, V>, keep: set<int>) {
    && (forall i :: 0 <= i < |rows| ==> rows[i].0 in m && rows[i].0 in keep && rows[i].1 == m[rows[i].0])
    && (forall k :: k in Column(rows) <==> k in m && k in keep)
  }

  /** The rows of `m` kept by `keep`, each once, in non-decreasing rank. */
  method SelectBy<V>(m: map<int, V>, keep: set<int>, rank: int -> (int, int)) returns (rows: seq<(int, V)>)
    ensures ListingOf(rows, m, keep)
    ensures SortedBy(Column(rows), rank)
    ensures Distinct(Column(rows))
  {
    var ks := SortByRank(keep * m.Keys, rank);
    rows := seq(|ks|, i requires 0 <= i < |ks| && ks[i] in m => (ks[i], m[ks[i]]));
    assert Column(rows) == ks;
  }

  /** The rows of `m` kept by `keep`, in descending key order (`ORDER BY id DESC`). */
  method SelectDescending<V>(m: map<int, V>, keep: set<int>) returns (rows: seq<(int, V)>)
    ensures ListingOf(rows, m, keep)
    ensures Descending(Column(rows))
  {
    rows := SelectBy(m, keep, k => (-k, 0));
  }
}
