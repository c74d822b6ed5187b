/**
 * The order `print_global_memory` reports variables in (part15
 * interpreter.rs): its lines `name = value` are sorted as strings. Since
 * names are distinct and are followed by a space, which sorts before every
 * character a name can hold, that is the order of the names.
 */
module Rows {

  /** Strict lexicographic order on strings: a proper prefix, or a smaller character at the first difference. */
  predicate Below(a: string, b: string)
  {
    (|a| < |b| && a == b[..|a|]) ||
    exists k :: 0 <= k < |a| && k < |b| && a[..k] == b[..k] && a[k] < b[k]
  }

  /** Rows in strictly increasing order of name. */
  predicate SortedRows<V>(rows: seq<(string, V)>)
  {
    forall i, j | 0 <= i < j < |rows| :: Below(rows[i].0, rows[j].0)
  }

  /** Inserts a row before the first row whose name is above its own. */
  function InsertRow<V>(rows: seq<(string, V)>, row: (string, V)): (out: seq<(string, V)>)
    ensures |out| == |rows| + 1
    decreases |rows|
  {
    if rows == [] || Below(row.0, rows[0].0) then [row] + rows
    else [rows[0]] + InsertRow(rows[1..], row)
  }

  /** The length of the longest common prefix of `a` and `b`, searching from `i`. */
  function CommonPrefix(a: string, b: string, i: nat): (k: nat)
    requires i <= |a| && i <= |b| && a[..i] == b[..i]
    ensures i <= k <= |a| && k <= |b| && a[..k] == b[..k]
    ensures k < |a| && k < |b| ==> a[k] != b[k]
    decreases |a| - i
  {
    if i == |a| || i == |b| || a[i] != b[i] then i
    else
      assert a[..i + 1] == a[..i] + [a[i]] && b[..i + 1] == b[..i] + [b[i]];
      CommonPrefix(a, b, i + 1)
  }

  /** No string is below itself. */
  lemma BelowIrreflexive(a: string)
    ensures !Below(a, a)
  {
  }

  /** Of two different strings, one is below the other. */
  lemma BelowTotal(a: string, b: string)
    requires a != b
    ensures Below(a, b) || Below(b, a)
  {
    var k := CommonPrefix(a, b, 0);
    if k == |a| && k < |b| {
      assert a == b[..|a|];
    } else if k == |b| && k < |a| {
      assert b == a[..|b|];
    } else if k == |a| || k == |b| {
      assert false;
    } else if a[k] < b[k] {
      assert Below(a, b);
    } else {
      assert b[..k] == a[..k] && b[k] < a[k];
      assert Below(b, a);
    }
  }

  /** Equal prefixes of length `k` have equal shorter prefixes and equal characters below `k`. */
  lemma PrefixShorter(a: string, b: string, k: nat, j: nat)
    requires k <= |a| && k <= |b| && a[..k] == b[..k] && j <= k
    ensures a[..j] == b[..j] && forall i :: 0 <= i < j ==> a[i] == b[i]
  {
    assert a[..j] == a[..k][..j] && b[..j] == b[..k][..j];
    forall i | 0 <= i < j
      ensures a[i] == b[i]
    {
      assert a[i] == a[..k][i] && b[i] == b[..k][i];
    }
  }

  /** The order is transitive. */
  lemma BelowTransitive(a: string, b: string, c: string)
    requires Below(a, b) && Below(b, c)
    ensures Below(a, c)
  {
    if |a| < |b| && a == b[..|a|] {
      if |b| < |c| && b == c[..|b|] {
        assert a == c[..|a|] by { PrefixShorter(b, c[..|b|], |b|, |a|); }
      } else {
        var k :| 0 <= k < |b| && k < |c| && b[..k] == c[..k] && b[k] < c[k];
        if k < |a| {
          PrefixShorter(a, b, |a|, k + 1);
          PrefixShorter(b, c, k, k);
          assert Below(a, c);
        } else {
          PrefixShorter(b, c, k, |a|);
          assert a == c[..|a|];
        }
      }
    } else {
      var k :| 0 <= k < |a| && k < |b| && a[..k] == b[..k] && a[k] < b[k];
      if |b| < |c| && b == c[..|b|] {
        PrefixShorter(b, c, |b|, k + 1);
        assert a[..k] == c[..k] && a[k] < c[k];
      } else {
        var m :| 0 <= m < |b| && m < |c| && b[..m] == c[..m] && b[m] < c[m];
        if k < m {
          PrefixShorter(b, c, m, k + 1);
          assert a[..k] == c[..k] && a[k] < c[k];
        } else if m < k {
          PrefixShorter(a, b, k, m + 1);
          assert a[..m] == c[..m] && a[m] < c[m];
        } else {
          assert a[..k] == c[..k] && a[k] < c[k];
        }
      }
    }
  }

  /** The rows of `InsertRow` are the old rows and the new one, and no others. */
  lemma {:induction false} InsertRowMembers<V>(rows: seq<(string, V)>, row: (string, V))
    ensures multiset(InsertRow(rows, row)) == multiset(rows) + multiset{row}
    ensures forall x | x in InsertRow(rows, row) :: x in rows || x == row
    decreases |rows|
  {
    if rows != [] && !Below(row.0, rows[0].0) {
      InsertRowMembers(rows[1..], row);
      assert rows == [rows[0]] + rows[1..];
    }
  }

  /** Inserting a row whose name is not yet there keeps the rows sorted. */
  lemma {:induction false} InsertRowSorted<V>(rows: seq<(string, V)>, row: (string, V))
    requires SortedRows(rows) && forall i | 0 <= i < |rows| :: rows[i].0 != row.0
    ensures SortedRows(InsertRow(rows, row))
    decreases |rows|
  {
    if rows == [] {
    } else if Below(row.0, rows[0].0) {
      forall j | 0 < j < |rows|
        ensures Below(row.0, rows[j].0)
      {
        BelowTransitive(row.0, rows[0].0, rows[j].0);
      }
    } else {
      BelowTotal(row.0, rows[0].0);
      SortedTail(rows);
      InsertRowSorted(rows[1..], row);
      InsertRowAbove(rows, row);
      SortedCons(rows[0], InsertRow(rows[1..], row));
    }
  }

  /** The rows after the first of sorted rows are sorted. */
  lemma SortedTail<V>(rows: seq<(string, V)>)
    requires SortedRows(rows) && |rows| > 0
    ensures SortedRows(rows[1..])
  {
    var tail := rows[1..];
    forall i, j | 0 <= i < j < |tail|
      ensures Below(tail[i].0, tail[j].0)
    {
      assert tail[i] == rows[i + 1] && tail[j] == rows[j + 1];
    }
  }

  /**
   * When the new row goes after the first one, every row of the insertion
   * into the rest is above the first.
   */
  lemma InsertRowAbove<V>(rows: seq<(string, V)>, row: (string, V))
    requires SortedRows(rows) && |rows| > 0 && Below(rows[0].0, row.0)
    ensures forall x | x in InsertRow(rows[1..], row) :: Below(rows[0].0, x.0)
  {
    var tail := rows[1..];
    InsertRowMembers(tail, row);
    forall x | x in InsertRow(tail, row)
      ensures Below(rows[0].0, x.0)
    {
      if x != row {
        var j :| 0 <= j < |tail| && tail[j] == x;
        assert x == rows[j + 1];
      }
    }
  }

  /** A row below every row of sorted rows can head them. */
  lemma SortedCons<V>(first: (string, V), rest: seq<(string, V)>)
    requires SortedRows(rest) && forall x | x in rest :: Below(first.0, x.0)
    ensures SortedRows([first] + rest)
  {
    var out := [first] + rest;
    forall i, j | 0 <= i < j < |out|
      ensures Below(out[i].0, out[j].0)
    {
      assert out[j] == rest[j - 1];
      if i > 0 {
        assert out[i] == rest[i - 1];
      }
    }
  }
}
