/** Rows fetched by a repository query (`findBy`, `getOrderItems()`) arrive in an order the
    model does not know. `Enumerate` stands for such a query: it returns every id of the
    selected set exactly once, in some order. */
module Tables {

  ghost predicate Distinct(s: seq<nat>)
  {
    forall i, j :: 0 <= i < j < |s| ==> s[i] != s[j]
  }

  /** The ids in `s`, as a set. */
  function Elements(s: seq<nat>): set<nat>
  {
    set x | x in s
  }

  method Enumerate(keys: set<nat>) returns (ids: seq<nat>)
    ensures Distinct(ids)
    ensures Elements(ids) == keys
    ensures |ids| == |keys|
  {
    ids := [];
    var rest := keys;
    while rest != {}
      invariant Distinct(ids)
      invariant rest !! Elements(ids)
      invariant rest + Elements(ids) == keys
      invariant |ids| + |rest| == |keys|
      decreases |rest|
    {
      var x :| x in rest;
      ids := ids + [x];
      rest := rest - {x};
    }
  }

  /** Removing the ids of a prefix, one more at a time. */
  lemma ElementsSnoc(s: seq<nat>, i: nat)
    requires i < |s|
    ensures Elements(s[..i + 1]) == Elements(s[..i]) + {s[i]}
  {
    assert s[..i + 1] == s[..i] + [s[i]];
  }

  lemma ElementsAll(s: seq<nat>)
    ensures Elements(s[..|s|]) == Elements(s)
  {
    assert s[..|s|] == s;
  }

  /** `rows` are the rows of `table` under `ids`, in that order. */
  ghost predicate RowsAt<V>(table: map<nat, V>, ids: seq<nat>, rows: seq<V>)
  {
    |rows| == |ids| && forall i :: 0 <= i < |ids| ==> ids[i] in table && table[ids[i]] == rows[i]
  }

  /** The rows under ids that are all in use. */
  lemma Rows<V>(table: map<nat, V>, ids: seq<nat>) returns (rows: seq<V>)
    requires forall i :: 0 <= i < |ids| ==> ids[i] in table
    ensures RowsAt(table, ids, rows)
  {
    rows := seq(|ids|, i requires 0 <= i < |ids| => table[ids[i]]);
  }

  /** New rows inserted under consecutive fresh ids starting at `first`. */
  function Numbered<V>(first: nat, s: seq<V>): map<nat, V>
    decreases |s|
  {
    if s == [] then map[]
    else Numbered(first, s[..|s| - 1])[first + |s| - 1 := s[|s| - 1]]
  }

  /** The ids `Numbered` uses and the row under each. */
  lemma {:induction false} NumberedAt<V>(first: nat, s: seq<V>)
    ensures forall k :: k in Numbered(first, s) <==> first <= k < first + |s|
    ensures forall k :: first <= k < first + |s| ==> Numbered(first, s)[k] == s[k - first]
    decreases |s|
  {
    if s != [] {
      NumberedAt(first, s[..|s| - 1]);
    }
  }

  lemma NumberedSnoc<V>(first: nat, s: seq<V>, x: V)
    ensures Numbered(first, s + [x]) == Numbered(first, s)[first + |s| := x]
  {
    assert (s + [x])[..|s|] == s;
  }

  /** `s` without its element at index `k`. */
  function Without<T>(s: seq<T>, k: nat): (r: seq<T>)
    requires k < |s|
    ensures |r| == |s| - 1
    ensures forall i :: 0 <= i < |r| ==> r[i] == s[if i < k then i else i + 1]
    ensures multiset(s) == multiset(r) + multiset{s[k]}
  {
    assert s == s[..k] + [s[k]] + s[k + 1..];
    s[..k] + s[k + 1..]
  }

  /** Dropping one id keeps the ids distinct and removes exactly that id. */
  lemma WithoutDistinct(ids: seq<nat>, k: nat)
    requires Distinct(ids) && k < |ids|
    ensures Distinct(Without(ids, k))
    ensures forall x :: x in Elements(ids) && x != ids[k] ==> x in Elements(Without(ids, k))
  {
    var r := Without(ids, k);
    forall x | x in Elements(ids) && x != ids[k]
      ensures x in Elements(r)
    {
      var j :| 0 <= j < |ids| && ids[j] == x;
      if j < k {
        assert r[j] == x;
      } else {
        assert r[j - 1] == x;
      }
    }
  }

  /** Taking the last inserted row out of a read-back keeps the read-back's shape. */
  lemma RowsOfRangeStep<V>(first: nat, made: seq<V>, ids: seq<nat>, rows: seq<V>) returns (k: nat)
    requires Distinct(ids) && |rows| == |ids| && made != []
    requires forall i :: 0 <= i < |ids| ==> first <= ids[i] < first + |made| && rows[i] == made[ids[i] - first]
    requires forall j :: first <= j < first + |made| ==> j in Elements(ids)
    ensures k < |ids| && rows[k] == made[|made| - 1]
    ensures var n, ids', rows' := |made| - 1, Without(ids, k), Without(rows, k);
      && Distinct(ids') && |rows'| == |ids'|
      && (forall i :: 0 <= i < |ids'| ==> first <= ids'[i] < first + n && rows'[i] == made[..n][ids'[i] - first])
      && (forall j :: first <= j < first + n ==> j in Elements(ids'))
  {
    var n := |made| - 1;
    assert first + n in Elements(ids);
    k :| 0 <= k < |ids| && ids[k] == first + n;
    var ids', rows' := Without(ids, k), Without(rows, k);
    WithoutDistinct(ids, k);
    forall i | 0 <= i < |ids'|
      ensures first <= ids'[i] < first + n && rows'[i] == made[..n][ids'[i] - first]
    {
      var j := if i < k then i else i + 1;
      assert ids'[i] == ids[j] && rows'[i] == rows[j] && ids[j] != ids[k];
    }
  }

  /** Rows read back, in any order, from the consecutive ids `first`, `first + 1`, ...
      under which `made` was inserted are `made` rearranged. */
  lemma {:induction false} RowsOfRange<V>(first: nat, made: seq<V>, ids: seq<nat>, rows: seq<V>)
    requires Distinct(ids) && |rows| == |ids|
    requires forall i :: 0 <= i < |ids| ==> first <= ids[i] < first + |made| && rows[i] == made[ids[i] - first]
    requires forall j :: first <= j < first + |made| ==> j in Elements(ids)
    ensures multiset(rows) == multiset(made)
    decreases |ids|
  {
    if ids == [] {
      assert |made| == 0 || first in Elements(ids);
    } else {
      assert first <= ids[0] < first + |made|;
      var n := |made| - 1;
      var k := RowsOfRangeStep(first, made, ids, rows);
      RowsOfRange(first, made[..n], Without(ids, k), Without(rows, k));
      assert made == made[..n] + [made[n]];
    }
  }

  lemma MergeUpdate<V>(a: map<nat, V>, b: map<nat, V>, k: nat, x: V)
    ensures (a + b)[k := x] == a + b[k := x]
  {
  }
}
