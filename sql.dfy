/**
 * What the database does with the statements of the storage layer, stated
 * over a table held as a sequence of rows: the placeholder check that
 * database/sql makes before sending a statement, single-row lookup
 * (`WHERE id = $1`) and ordering (`ORDER BY created_at DESC`).
 */
module Sql {

  import opened Wrappers
  import opened Errors

  /**
   * database/sql refuses a statement whose number of bound values differs
   * from its number of placeholders ("sql: expected N arguments, got M").
   */
  function CheckArity(placeholders: nat, bound: nat): Option<DriverError> {
    if placeholders == bound then None else Some(ArgCount(placeholders, bound))
  }

  /** A column name as PostgreSQL reads it unquoted: one lower-case identifier. */
  predicate IsColumnName(s: string) {
    |s| > 0 && forall i | 0 <= i < |s| :: 'a' <= s[i] <= 'z' || s[i] == '_'
  }

  /** The position of the first row satisfying `p`: what `QueryRow(... WHERE …)` reads. */
  function IndexWhere<T>(s: seq<T>, p: T -> bool): (r: Option<nat>)
    ensures r.Some? ==> r.value < |s| && p(s[r.value])
    ensures r.Some? ==> forall j | 0 <= j < r.value :: !p(s[j])
    ensures r.None? <==> forall j | 0 <= j < |s| :: !p(s[j])
  {
    if s == [] then None
    else if p(s[0]) then Some(0)
    else match IndexWhere(s[1..], p)
      case None => None
      case Some(k) => Some(k + 1)
  }

  /** Rows in non-increasing order of `key`. */
  ghost predicate SortedDesc<T>(s: seq<T>, key: T -> int) {
    forall i, j | 0 <= i < j < |s| :: key(s[i]) >= key(s[j])
  }

  /** Puts `x` into the sorted `s`, before the first row whose key is not larger. */
  function InsertDesc<T>(s: seq<T>, x: T, key: T -> int): seq<T> {
    if s == [] || key(x) >= key(s[0]) then [x] + s
    else [s[0]] + InsertDesc(s[1..], x, key)
  }

  /**
   * `ORDER BY key DESC`: the rows inserted one at a time, in table order,
   * into a sorted result (how the list methods consume them).
   */
  function SortDesc<T>(s: seq<T>, key: T -> int): seq<T> {
    if s == [] then [] else InsertDesc(SortDesc(s[..|s| - 1], key), s[|s| - 1], key)
  }

  /** Inserting adds exactly `x` to the rows. */
  lemma {:induction false} InsertDescRows<T>(s: seq<T>, x: T, key: T -> int)
    ensures multiset(InsertDesc(s, x, key)) == multiset(s) + multiset{x}
  {
    if s != [] && key(x) < key(s[0]) {
      InsertDescRows(s[1..], x, key);
      assert s == [s[0]] + s[1..];
    }
  }

  /** Inserting into a sorted sequence keeps it sorted. */
  lemma {:induction false} InsertDescSorted<T>(s: seq<T>, x: T, key: T -> int)
    requires SortedDesc(s, key)
    ensures SortedDesc(InsertDesc(s, x, key), key)
  {
    if s == [] || key(x) >= key(s[0]) {
      var r := [x] + s;
      forall i, j | 0 <= i < j < |r| ensures key(r[i]) >= key(r[j]) {
        assert r[j] == s[j - 1];
        if i > 0 {
          assert r[i] == s[i - 1];
        }
      }
    } else {
      var tail := s[1..];
      assert SortedDesc(tail, key) by {
        forall i, j | 0 <= i < j < |tail| ensures key(tail[i]) >= key(tail[j]) {
          assert tail[i] == s[i + 1] && tail[j] == s[j + 1];
        }
      }
      InsertDescSorted(tail, x, key);
      InsertDescRows(tail, x, key);
      var t := InsertDesc(tail, x, key);
      forall j | 0 <= j < |t| ensures key(s[0]) >= key(t[j]) {
        assert t[j] in multiset(t);
        if t[j] != x {
          assert t[j] in multiset(tail);
          var k :| 0 <= k < |tail| && tail[k] == t[j];
          assert tail[k] == s[k + 1];
        }
      }
      var r := [s[0]] + t;
      forall i, j | 0 <= i < j < |r| ensures key(r[i]) >= key(r[j]) {
        assert r[j] == t[j - 1];
        if i > 0 {
          assert r[i] == t[i - 1];
        }
      }
    }
  }

  /** `ORDER BY key DESC` returns every row once, in non-increasing key order. */
  lemma {:induction false} SortDescCorrect<T>(s: seq<T>, key: T -> int)
    ensures SortedDesc(SortDesc(s, key), key)
    ensures multiset(SortDesc(s, key)) == multiset(s)
  {
    if s != [] {
      var init := s[..|s| - 1];
      SortDescCorrect(init, key);
      InsertDescSorted(SortDesc(init, key), s[|s| - 1], key);
      InsertDescRows(SortDesc(init, key), s[|s| - 1], key);
      assert s == init + [s[|s| - 1]];
    }
  }

  /** The sorted result has the same length and the same rows as the table. */
  lemma SortDescSameRows<T>(s: seq<T>, key: T -> int)
    ensures |SortDesc(s, key)| == |s|
    ensures forall x :: x in SortDesc(s, key) <==> x in s
  {
    SortDescCorrect(s, key);
    assert |multiset(SortDesc(s, key))| == |multiset(s)|;
    forall x ensures x in SortDesc(s, key) <==> x in s {
      assert x in SortDesc(s, key) <==> x in multiset(SortDesc(s, key));
      assert x in s <==> x in multiset(s);
    }
  }
}
