/** What an `ORDER BY` clause promises: rows tagged with their id and sort key,
    rearranged so that the keys ascend. SQLite leaves the order of rows with equal
    keys unspecified; this model chooses to keep their scan order. */
module Ordering {

  /** A relation under which any two keys are comparable. */
  ghost predicate Total<K(!new)>(le: (K, K) -> bool) {
    forall a, b :: le(a, b) || le(b, a)
  }

  /** Neighbouring rows are in order. */
  predicate SortedBy<K>(xs: seq<(int, K)>, le: (K, K) -> bool) {
    forall i | 0 <= i < |xs| - 1 :: le(xs[i].1, xs[i + 1].1)
  }

  function Insert<K(!new)>(x: (int, K), xs: seq<(int, K)>, le: (K, K) -> bool): (r: seq<(int, K)>)
    requires Total(le) && SortedBy(xs, le)
    ensures SortedBy(r, le)
    ensures multiset(r) == multiset(xs) + multiset{x}
    ensures |r| > 0 && (r[0] == x || (|xs| > 0 && r[0] == xs[0]))
  {
    if xs == [] || le(x.1, xs[0].1) then
      [x] + xs
    else
      var rest := Insert(x, xs[1..], le);
      assert xs == [xs[0]] + xs[1..];
      [xs[0]] + rest
  }

  /** Insertion sort: the rows of `xs`, each as often as in `xs`, keys ascending. */
  function SortBy<K(!new)>(xs: seq<(int, K)>, le: (K, K) -> bool): (r: seq<(int, K)>)
    requires Total(le)
    ensures SortedBy(r, le)
    ensures multiset(r) == multiset(xs)
  {
    if xs == [] then []
    else
      assert xs == [xs[0]] + xs[1..];
      Insert(xs[0], SortBy(xs[1..], le), le)
  }

  /** Rows that are a rearrangement of each other hold the same rows. */
  lemma SameRows<K>(xs: seq<(int, K)>, ys: seq<(int, K)>)
    requires multiset(ys) == multiset(xs)
    ensures |ys| == |xs|
    ensures forall p :: p in ys <==> p in xs
  {
    assert |multiset(ys)| == |multiset(xs)|;
    forall p ensures p in ys <==> p in xs {
      assert p in ys <==> p in multiset(ys);
      assert p in xs <==> p in multiset(xs);
    }
  }

  /** No id occurs twice. */
  predicate Distinct(ids: seq<int>) {
    forall i, j | 0 <= i < j < |ids| :: ids[i] != ids[j]
  }

  /** A sequence holds at most as many different ids as it is long, and exactly as
      many when no id occurs twice. */
  lemma {:induction false} DistinctCard(ids: seq<int>)
    ensures |set id | id in ids| <= |ids|
    ensures Distinct(ids) <==> |set id | id in ids| == |ids|
  {
    if ids != [] {
      var resto := ids[1..];
      DistinctCard(resto);
      DistinctTail(ids);
      var antes := set id | id in resto;
      assert (set id | id in ids) == antes + {ids[0]} by {
        assert ids == [ids[0]] + resto;
      }
      if ids[0] in resto {
        assert antes + {ids[0]} == antes;
      }
    }
  }

  /** Ids without repeats are as many as the set they range over. */
  lemma DistinctCount(ids: seq<int>, s: set<int>)
    requires Distinct(ids) && forall id :: id in ids <==> id in s
    ensures |ids| == |s|
  {
    forall id ensures id in (set id | id in ids) <==> id in s {
    }
    assert (set id | id in ids) == s;
    DistinctCard(ids);
  }

  /** A sequence has no repeats exactly when its tail has none and does not hold
      its first id. */
  lemma DistinctTail(ids: seq<int>)
    requires ids != []
    ensures Distinct(ids) <==> Distinct(ids[1..]) && ids[0] !in ids[1..]
  {
    var resto := ids[1..];
    if Distinct(ids) {
      forall k | 0 <= k < |resto| ensures resto[k] != ids[0] {
        assert resto[k] == ids[k + 1];
      }
    }
    if Distinct(resto) && ids[0] !in resto {
      forall i, j | 0 <= i < j < |ids| ensures ids[i] != ids[j] {
        assert ids[j] == resto[j - 1];
        if i > 0 {
          assert ids[i] == resto[i - 1];
        }
      }
    }
  }

  /** Putting a row in front of rows whose ids differ from its own keeps the ids distinct. */
  lemma ConsDistinct<K>(x: (int, K), rows: seq<(int, K)>)
    ensures Distinct(Ids(rows)) && (forall p | p in rows :: p.0 != x.0) ==> Distinct(Ids([x] + rows))
  {
    if Distinct(Ids(rows)) && (forall p | p in rows :: p.0 != x.0) {
      var ids := Ids([x] + rows);
      forall i, j | 0 <= i < j < |ids| ensures ids[i] != ids[j] {
        assert ([x] + rows)[j] == rows[j - 1];
        if i > 0 {
          assert ([x] + rows)[i] == rows[i - 1];
        } else {
          assert rows[j - 1] in rows;
        }
      }
    }
  }

  /** Rearranging rows whose ids are distinct keeps them distinct. */
  lemma PermutationKeepsDistinct<K>(xs: seq<(int, K)>, ys: seq<(int, K)>)
    requires multiset(ys) == multiset(xs) && Distinct(Ids(xs))
    ensures Distinct(Ids(ys))
  {
    SameRows(xs, ys);
    var a := Ids(xs);
    var b := Ids(ys);
    forall id ensures id in a <==> id in b {
      if id in a {
        var k :| 0 <= k < |a| && a[k] == id;
        assert xs[k] in ys;
        var m :| 0 <= m < |ys| && ys[m] == xs[k];
        assert b[m] == id;
      }
      if id in b {
        var k :| 0 <= k < |b| && b[k] == id;
        assert ys[k] in xs;
        var m :| 0 <= m < |xs| && xs[m] == ys[k];
        assert a[m] == id;
      }
    }
    assert (set id | id in a) == (set id | id in b);
    DistinctCard(a);
    DistinctCard(b);
  }

  /** A prefix of rows with distinct ids has distinct ids. */
  lemma PrefixDistinct<K>(xs: seq<(int, K)>, n: nat)
    requires n <= |xs| && Distinct(Ids(xs))
    ensures Distinct(Ids(xs[..n]))
  {
    var a := Ids(xs);
    var b := Ids(xs[..n]);
    forall i, j | 0 <= i < j < |b| ensures b[i] != b[j] {
      assert xs[..n][i] == xs[i] && xs[..n][j] == xs[j];
      assert a[i] != a[j];
    }
  }

  /** In rows sorted by an integer key, every row's key is at most that of any later row. */
  lemma {:induction false} SortedIntChain(xs: seq<(int, int)>, i: int, j: int)
    requires SortedBy(xs, IntLe) && 0 <= i <= j < |xs|
    ensures xs[i].1 <= xs[j].1
    decreases j - i
  {
    if i < j {
      assert IntLe(xs[i].1, xs[i + 1].1);
      SortedIntChain(xs, i + 1, j);
    }
  }

  /** In rows sorted by an integer key, a row whose id is not among the first n
      ids has a key no smaller than any of theirs. */
  lemma PrefixLeast(xs: seq<(int, int)>, n: nat, q: (int, int))
    requires SortedBy(xs, IntLe) && n <= |xs| && q in xs && q.0 !in Ids(xs[..n])
    ensures forall i | 0 <= i < n :: xs[i].1 <= q.1
  {
    var j :| 0 <= j < |xs| && xs[j] == q;
    forall i | 0 <= i < n ensures xs[i].1 <= q.1 {
      SortedIntChain(xs, i, j);
    }
  }

  /** The ids of the rows, in order. */
  function Ids<K>(xs: seq<(int, K)>): (ids: seq<int>)
    ensures |ids| == |xs|
    ensures forall i | 0 <= i < |xs| :: ids[i] == xs[i].0
  {
    if xs == [] then [] else [xs[0].0] + Ids(xs[1..])
  }

  /** Text order of SQLite's default BINARY collation: character by character,
      a proper prefix first. */
  predicate TextLe(a: string, b: string) {
    if a == [] then true
    else if b == [] then false
    else if a[0] != b[0] then a[0] < b[0]
    else TextLe(a[1..], b[1..])
  }

  lemma {:induction false} TextLeTotal(a: string, b: string)
    ensures TextLe(a, b) || TextLe(b, a)
  {
    if a != [] && b != [] && a[0] == b[0] {
      TextLeTotal(a[1..], b[1..]);
    }
  }

  lemma TextOrderTotal()
    ensures Total(TextLe)
  {
    forall a: string, b: string ensures TextLe(a, b) || TextLe(b, a) {
      TextLeTotal(a, b);
    }
  }

  /** The order of an integer column. */
  predicate IntLe(a: int, b: int) {
    a <= b
  }

  lemma IntOrderTotal()
    ensures Total(IntLe)
  {
  }
}
