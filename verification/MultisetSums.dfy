/** The total of a table of multisets, whatever order its rows are visited in. */
module MultisetSums {

  ghost function Total<K, T>(rows: map<K, multiset<T>>): multiset<T> {
    TotalOver(rows, rows.Keys)
  }

  ghost function TotalOver<K, T>(rows: map<K, multiset<T>>, keys: set<K>): multiset<T>
    requires keys <= rows.Keys
  {
    if keys == {} then multiset{}
    else
      var k :| k in keys;
      rows[k] + TotalOver(rows, keys - {k})
  }

  lemma TotalOfNone<K, T>(rows: map<K, multiset<T>>)
    ensures TotalOver(rows, {}) == multiset{}
  {
  }

  /** Any row may be taken out first. */
  lemma {:induction false} TakeRow<K, T>(rows: map<K, multiset<T>>, keys: set<K>, k: K)
    requires keys <= rows.Keys && k in keys
    ensures TotalOver(rows, keys) == rows[k] + TotalOver(rows, keys - {k})
  {
    var first :| first in keys && TotalOver(rows, keys) == rows[first] + TotalOver(rows, keys - {first});
    if first != k {
      TakeRow(rows, keys - {first}, k);
      TakeRow(rows, keys - {k}, first);
      assert keys - {first} - {k} == keys - {k} - {first};
    }
  }

  lemma {:induction false} SameRows<K, T>(a: map<K, multiset<T>>, b: map<K, multiset<T>>, keys: set<K>)
    requires keys <= a.Keys && keys <= b.Keys
    requires forall k :: k in keys ==> a[k] == b[k]
    ensures TotalOver(a, keys) == TotalOver(b, keys)
  {
    if keys != {} {
      var k :| k in keys;
      TakeRow(a, keys, k);
      TakeRow(b, keys, k);
      SameRows(a, b, keys - {k});
    }
  }

  /** Writing or removing one row leaves the rest of the total alone. */
  lemma RowWritten<K, T>(rows: map<K, multiset<T>>, k: K, row: multiset<T>) returns (rest: multiset<T>)
    ensures rest == Total(rows - {k})
    ensures Total(rows) == if k in rows then rest + rows[k] else rest
    ensures Total(rows[k := row]) == rest + row
  {
    rest := Total(rows - {k});
    var others := rows.Keys - {k};
    assert (rows - {k}).Keys == others && rows[k := row].Keys - {k} == others;
    TakeRow(rows[k := row], rows[k := row].Keys, k);
    SameRows(rows - {k}, rows[k := row], others);
    SameRows(rows - {k}, rows, others);
    if k in rows { TakeRow(rows, rows.Keys, k); } else { assert others == rows.Keys; }
  }

  /** Totals add up row by row. */
  lemma {:induction false} RowsSplit<K, T>(rows: map<K, multiset<T>>, a: map<K, multiset<T>>, b: map<K, multiset<T>>,
                                           keys: set<K>)
    requires keys <= rows.Keys && keys <= a.Keys && keys <= b.Keys
    requires forall k :: k in keys ==> rows[k] == a[k] + b[k]
    ensures TotalOver(rows, keys) == TotalOver(a, keys) + TotalOver(b, keys)
  {
    if keys != {} {
      var k :| k in keys;
      TakeRow(rows, keys, k);
      TakeRow(a, keys, k);
      TakeRow(b, keys, k);
      RowsSplit(rows, a, b, keys - {k});
    }
  }

  /** A row's elements are in the total. */
  lemma RowInTotal<K, T>(rows: map<K, multiset<T>>, k: K, x: T)
    requires k in rows && x in rows[k]
    ensures x in Total(rows)
  {
    TakeRow(rows, rows.Keys, k);
  }

  /** And there are no others. */
  lemma {:induction false} RowOf<K, T>(rows: map<K, multiset<T>>, keys: set<K>, x: T) returns (k: K)
    requires keys <= rows.Keys && x in TotalOver(rows, keys)
    ensures k in keys && x in rows[k]
  {
    k :| k in keys;
    TakeRow(rows, keys, k);
    if x !in rows[k] { k := RowOf(rows, keys - {k}, x); }
  }
}
