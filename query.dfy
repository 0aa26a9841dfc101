/** The one query shape the store's code uses on a table: `Model.objects.filter(...)`
    over an auto-increment primary key. A table is a map from primary key to row;
    `Where` lists the keys of the matching rows in ascending order, which is the
    order the model reads an unordered queryset in. */
module Query {

  /** A table's keys all lie in [0, n): `n` is the next value of its id sequence. */
  ghost predicate KeysBelow<V>(table: map<int, V>, n: nat)
  {
    forall k :: k in table ==> 0 <= k < n
  }

  /** The primary keys below `n` of the rows of `table` that satisfy `keep`, ascending. */
  function Where<V>(table: map<int, V>, keep: V -> bool, n: nat): (keys: seq<int>)
    ensures |keys| <= n
  {
    if n == 0 then []
    else Where(table, keep, n - 1) + (if n - 1 in table && keep(table[n - 1]) then [n - 1] else [])
  }

  /** The rows `Where` lists are exactly the matching rows below `n`. */
  lemma {:induction false} WhereMembers<V>(table: map<int, V>, keep: V -> bool, n: nat)
    ensures forall x :: x in Where(table, keep, n) <==> 0 <= x < n && x in table && keep(table[x])
    ensures forall j :: 0 <= j < |Where(table, keep, n)| ==>
      var x := Where(table, keep, n)[j]; 0 <= x < n && x in table && keep(table[x])
  {
    if n > 0 {
      WhereMembers(table, keep, n - 1);
    }
  }

  /** `Where` lists each key once, in strictly ascending order. */
  lemma {:induction false} WhereIncreasing<V>(table: map<int, V>, keep: V -> bool, n: nat)
    ensures forall i, j :: 0 <= i < j < |Where(table, keep, n)| ==> Where(table, keep, n)[i] < Where(table, keep, n)[j]
  {
    if n > 0 {
      WhereIncreasing(table, keep, n - 1);
      WhereMembers(table, keep, n - 1);
      var prefix := Where(table, keep, n - 1);
      assert forall i :: 0 <= i < |prefix| ==> prefix[i] in prefix;
    }
  }

  /** Two filters that select the same keys below `n` list the same keys. */
  lemma {:induction false} WhereFrame<V, W>(t1: map<int, V>, k1: V -> bool, t2: map<int, W>, k2: W -> bool, n: nat)
    requires forall x :: 0 <= x < n ==> ((x in t1 && k1(t1[x])) <==> (x in t2 && k2(t2[x])))
    ensures Where(t1, k1, n) == Where(t2, k2, n)
  {
    if n > 0 {
      WhereFrame(t1, k1, t2, k2, n - 1);
    }
  }

  /** Raising the bound past keys that do not match changes nothing. */
  lemma {:induction false} WhereBeyond<V>(table: map<int, V>, keep: V -> bool, n: nat, m: nat)
    requires n <= m
    requires forall x :: n <= x < m ==> !(x in table && keep(table[x]))
    ensures Where(table, keep, m) == Where(table, keep, n)
  {
    if n < m {
      WhereBeyond(table, keep, n, m - 1);
    }
  }

  /** A filter that matches no row below `n` lists nothing. */
  /** The same, stated for any table: when no row matches, the listing is empty. */
  lemma WhereNoneWhen<V>(table: map<int, V>, keep: V -> bool, n: nat)
    ensures (forall x :: 0 <= x < n && x in table ==> !keep(table[x])) ==> Where(table, keep, n) == []
  {
    if forall x :: 0 <= x < n && x in table ==> !keep(table[x]) {
      WhereNone(table, keep, n);
    }
  }

  lemma WhereNone<V>(table: map<int, V>, keep: V -> bool, n: nat)
    requires forall x :: 0 <= x < n && x in table ==> !keep(table[x])
    ensures Where(table, keep, n) == []
  {
    WhereBeyond(table, keep, 0, n);
  }

  /** The number of keys `Where` lists is the number of matching rows below `n`. */
  lemma {:induction false} WhereCountBelow<V>(table: map<int, V>, keep: V -> bool, n: nat)
    ensures |Where(table, keep, n)| == |set x | x in table && 0 <= x < n && keep(table[x])|
  {
    if n > 0 {
      WhereCountBelow(table, keep, n - 1);
      var before := set x | x in table && 0 <= x < n - 1 && keep(table[x]);
      var after := set x | x in table && 0 <= x < n && keep(table[x]);
      if n - 1 in table && keep(table[n - 1]) {
        assert after == before + {n - 1};
      } else {
        assert after == before;
      }
    }
  }

  /** When every key is below `n`, `Where` counts all matching rows of the table. */
  lemma WhereCount<V>(table: map<int, V>, keep: V -> bool, n: nat)
    requires KeysBelow(table, n)
    ensures |Where(table, keep, n)| == |set x | x in table && keep(table[x])|
  {
    WhereCountBelow(table, keep, n);
    assert (set x | x in table && 0 <= x < n && keep(table[x])) == (set x | x in table && keep(table[x]));
  }

  /** The same count, for any set described row by row. */
  lemma WhereCountOf<V>(table: map<int, V>, keep: V -> bool, n: nat, rows: set<int>)
    requires KeysBelow(table, n)
    requires forall x :: x in rows <==> x in table && keep(table[x])
    ensures |Where(table, keep, n)| == |rows|
  {
    WhereCount(table, keep, n);
    var all := set x | x in table && keep(table[x]);
    forall x
      ensures x in rows <==> x in all
    {
      if x in table && keep(table[x]) { assert x in all; }
    }
    assert rows == all;
  }

  /** Rows `base`, `base + 1`, ..., `n - 1` all match and nothing below `base`
      does: `Where` lists exactly that run of keys. */
  lemma {:induction false} WhereRun<V>(table: map<int, V>, keep: V -> bool, base: nat, n: nat)
    requires base <= n
    requires Where(table, keep, base) == []
    requires forall j :: base <= j < n ==> j in table && keep(table[j])
    ensures |Where(table, keep, n)| == n - base
    ensures forall j :: 0 <= j < n - base ==> Where(table, keep, n)[j] == base + j
  {
    if base < n {
      WhereRun(table, keep, base, n - 1);
    }
  }
}
