/**
 * The transaction-history query of storage/db.go: the rows of one account, ordered by time or by
 * delta, ascending or descending, optionally cut to one fixed-size page (LIMIT/OFFSET). The source
 * leaves the order of rows with equal keys to the database; here ties go by ascending
 * transaction id.
 */
module History {
  import opened Models
  import opened Ledger

  /** The column the query orders by: created_at for by-time, delta for by-sum. */
  function Key(t: Transaction, sorting: string): int
  {
    if sorting == SortBySumString then t.delta else t.createdAt
  }

  /** `a` may come before `b`: its key is strictly earlier in the requested direction, or the keys
      are equal and its id is not larger. */
  predicate InOrder(a: Transaction, b: Transaction, sorting: string, order: string)
  {
    var ka, kb := Key(a, sorting), Key(b, sorting);
    if ka != kb then (if order == OrderDescendingString then ka > kb else ka < kb)
    else a.id <= b.id
  }

  predicate Sorted(rows: seq<Transaction>, sorting: string, order: string)
  {
    forall i, j | 0 <= i < j < |rows| :: InOrder(rows[i], rows[j], sorting, order)
  }

  lemma InOrderTotal(a: Transaction, b: Transaction, sorting: string, order: string)
    ensures InOrder(a, b, sorting, order) || InOrder(b, a, sorting, order)
  {
  }

  lemma InOrderTransitive(a: Transaction, b: Transaction, c: Transaction, sorting: string, order: string)
    requires InOrder(a, b, sorting, order) && InOrder(b, c, sorting, order)
    ensures InOrder(a, c, sorting, order)
  {
  }

  /** Inserts `t` into an ordered sequence, keeping it ordered. */
  function Insert(t: Transaction, rows: seq<Transaction>, sorting: string, order: string): (r: seq<Transaction>)
    requires Sorted(rows, sorting, order)
    ensures Sorted(r, sorting, order)
    ensures multiset(r) == multiset(rows) + multiset{t}
  {
    if rows == [] then [t]
    else if InOrder(t, rows[0], sorting, order) then
      forall j | 0 <= j < |rows| ensures InOrder(t, rows[j], sorting, order) {
        if j > 0 { InOrderTransitive(t, rows[0], rows[j], sorting, order); }
      }
      [t] + rows
    else
      InOrderTotal(t, rows[0], sorting, order);
      var rest := Insert(t, rows[1..], sorting, order);
      assert rows == [rows[0]] + rows[1..];
      forall x | x in rest ensures InOrder(rows[0], x, sorting, order) {
        assert x in multiset(rest);
        if x != t {
          assert x in multiset(rows[1..]);
          assert x in rows[1..];
        }
      }
      var r := [rows[0]] + rest;
      assert forall j | 0 < j < |r| :: r[j] in rest;
      r
  }

  /** The rows in query order: a sorted permutation of its input. */
  function SortRows(rows: seq<Transaction>, sorting: string, order: string): (r: seq<Transaction>)
    ensures Sorted(r, sorting, order)
    ensures multiset(r) == multiset(rows)
  {
    if rows == [] then []
    else
      assert rows == [rows[0]] + rows[1..];
      Insert(rows[0], SortRows(rows[1..], sorting, order), sorting, order)
  }

  function Min(a: int, b: int): int
  {
    if a < b then a else b
  }

  /** LIMIT size OFFSET (page - 1) * size when page > 0; the whole sequence otherwise. */
  function Page(rows: seq<Transaction>, page: int, size: int): (r: seq<Transaction>)
    requires size > 0
    ensures page <= 0 ==> r == rows
    ensures page > 0 ==> |r| <= size
    ensures page > 0 ==>
      var offset := (page - 1) * size;
      offset >= 0 && r == rows[Min(offset, |rows|)..Min(offset + size, |rows|)]
  {
    if page <= 0 then rows
    else
      var offset := (page - 1) * size;
      if offset >= |rows| then []
      else if offset + size >= |rows| then rows[offset..]
      else rows[offset..offset + size]
  }

  /** A page holds no row more often than the whole sequence does. */
  lemma PageWithin(rows: seq<Transaction>, page: int, size: int)
    requires size > 0
    ensures multiset(Page(rows, page, size)) <= multiset(rows)
  {
    var r := Page(rows, page, size);
    if page > 0 {
      var offset := (page - 1) * size;
      var lo, hi := Min(offset, |rows|), Min(offset + size, |rows|);
      assert rows == rows[..lo] + r + rows[hi..];
    }
  }

  /** A page of an ordered sequence is ordered. */
  lemma PageSorted(rows: seq<Transaction>, page: int, size: int, sorting: string, order: string)
    requires size > 0
    requires Sorted(rows, sorting, order)
    ensures Sorted(Page(rows, page, size), sorting, order)
  {
    var r := Page(rows, page, size);
    if page > 0 {
      var offset := (page - 1) * size;
      var lo := Min(offset, |rows|);
      forall i, j | 0 <= i < j < |r| ensures InOrder(r[i], r[j], sorting, order) {
        assert r[i] == rows[lo + i] && r[j] == rows[lo + j];
      }
    }
  }

  lemma MembersOfSubMultiset(r: seq<Transaction>, rows: seq<Transaction>)
    requires multiset(r) <= multiset(rows)
    ensures forall t | t in r :: t in rows
  {
    forall t | t in r ensures t in rows {
      assert t in multiset(r);
    }
  }

  /** GetTransactionHistory's result: only the account's rows, in the requested order, and either
      all of them (page <= 0) or at most `size` of them starting at offset (page - 1) * size. */
  function Query(log: seq<Transaction>, accId: int, sorting: string, order: string, page: int, size: int)
    : (r: seq<Transaction>)
    requires IsSortKey(sorting) && IsOrder(order)
    requires size > 0
    ensures forall t | t in r :: t.accountId == accId && t in log
    ensures Sorted(r, sorting, order)
    ensures page <= 0 ==> multiset(r) == multiset(Rows(log, accId))
    ensures page > 0 ==> |r| <= size && multiset(r) <= multiset(Rows(log, accId))
    ensures page > 0 ==>
      var ordered := SortRows(Rows(log, accId), sorting, order);
      var offset := (page - 1) * size;
      r == ordered[Min(offset, |ordered|)..Min(offset + size, |ordered|)]
  {
    var rows := Rows(log, accId);
    var ordered := SortRows(rows, sorting, order);
    var r := Page(ordered, page, size);
    PageWithin(ordered, page, size);
    PageSorted(ordered, page, size, sorting, order);
    RowsMembers(log, accId);
    MembersOfSubMultiset(r, rows);
    r
  }

  /** by-sum desc: deltas never increase down a page. */
  lemma BySumDescNonIncreasing(log: seq<Transaction>, accId: int, page: int, size: int)
    requires size > 0
    ensures var r := Query(log, accId, SortBySumString, OrderDescendingString, page, size);
      forall i, j | 0 <= i < j < |r| :: r[i].delta >= r[j].delta
  {
  }

  /** by-time asc without a page: every row of the account, created_at never decreasing. */
  lemma ByTimeAscComplete(log: seq<Transaction>, accId: int, page: int, size: int)
    requires size > 0 && page <= 0
    ensures var r := Query(log, accId, SortByTimeString, OrderAscendingString, page, size);
      && multiset(r) == multiset(Rows(log, accId))
      && forall i, j | 0 <= i < j < |r| :: r[i].createdAt <= r[j].createdAt
  {
  }

  lemma InOrderAntisymmetric(a: Transaction, b: Transaction, sorting: string, order: string)
    requires InOrder(a, b, sorting, order) && InOrder(b, a, sorting, order)
    ensures Key(a, sorting) == Key(b, sorting) && a.id == b.id
  {
  }

  predicate DistinctIds(rows: seq<Transaction>)
  {
    forall i, j | 0 <= i < j < |rows| :: rows[i].id != rows[j].id
  }

  /** Two ordered arrangements of the same rows with distinct ids start with the same row. */
  lemma SortedHeads(a: seq<Transaction>, b: seq<Transaction>, sorting: string, order: string)
    requires Sorted(a, sorting, order) && Sorted(b, sorting, order)
    requires multiset(a) == multiset(b)
    requires DistinctIds(a)
    requires a != []
    ensures b != [] && a[0] == b[0]
  {
    assert |b| == |multiset(b)| == |a|;
    assert a[0] in multiset(b) && b[0] in multiset(a);
    var k :| 0 <= k < |b| && b[k] == a[0];
    var m :| 0 <= m < |a| && a[m] == b[0];
    assert InOrder(b[0], a[0], sorting, order);
    assert InOrder(a[0], b[0], sorting, order);
    InOrderAntisymmetric(a[0], b[0], sorting, order);
  }

  lemma SortedTail(a: seq<Transaction>, sorting: string, order: string)
    requires Sorted(a, sorting, order) && a != []
    ensures Sorted(a[1..], sorting, order)
  {
    var tail := a[1..];
    forall i, j | 0 <= i < j < |tail| ensures InOrder(tail[i], tail[j], sorting, order) {
      assert tail[i] == a[i + 1] && tail[j] == a[j + 1];
    }
  }

  lemma TailMultiset(a: seq<Transaction>)
    requires a != []
    ensures multiset(a[1..]) == multiset(a) - multiset{a[0]}
  {
    assert a == [a[0]] + a[1..];
  }

  /** With the id tie-break there is only one ordered arrangement of rows with distinct ids. */
  lemma {:induction false} SortedUnique(a: seq<Transaction>, b: seq<Transaction>, sorting: string, order: string)
    requires Sorted(a, sorting, order) && Sorted(b, sorting, order)
    requires multiset(a) == multiset(b)
    requires DistinctIds(a)
    ensures a == b
  {
    if a == [] {
      assert |b| == |multiset(b)| == 0;
    } else {
      SortedHeads(a, b, sorting, order);
      SortedTail(a, sorting, order);
      SortedTail(b, sorting, order);
      TailMultiset(a);
      TailMultiset(b);
      assert DistinctIds(a[1..]);
      SortedUnique(a[1..], b[1..], sorting, order);
      assert a == [a[0]] + a[1..] && b == [b[0]] + b[1..];
    }
  }

  lemma {:induction false} RowsIdsIncreasing(log: seq<Transaction>, id: int)
    requires IncreasingIds(log)
    ensures IncreasingIds(Rows(log, id))
  {
    if log != [] {
      var prefix := log[..|log| - 1];
      RowsIdsIncreasing(prefix, id);
      RowsMembers(prefix, id);
      var rows := Rows(log, id);
      var pre := Rows(prefix, id);
      var last := log[|log| - 1];
      if last.accountId == id {
        assert rows == pre + [last];
        forall i | 0 <= i < |pre| ensures pre[i].id < last.id {
          assert pre[i] in pre;
          var k :| 0 <= k < |prefix| && prefix[k] == pre[i];
          assert prefix[k] == log[k];
        }
        forall i, j | 0 <= i < j < |rows| ensures rows[i].id < rows[j].id {
          assert rows[i] == pre[i];
          if j < |pre| {
            assert rows[j] == pre[j];
          } else {
            assert rows[j] == last;
          }
        }
      } else {
        assert rows == pre;
      }
    }
  }

  /** The history of a consistent store is fully determined: any ordered arrangement of the
      account's rows is the one the query returns before paging. */
  lemma HistoryIsDetermined(s: Tables, accId: int, sorting: string, order: string, other: seq<Transaction>)
    requires Inv(s)
    requires Sorted(other, sorting, order)
    requires multiset(other) == multiset(Rows(s.log, accId))
    ensures other == SortRows(Rows(s.log, accId), sorting, order)
  {
    var rows := Rows(s.log, accId);
    var ordered := SortRows(rows, sorting, order);
    RowsIdsIncreasing(s.log, accId);
    forall i, j | 0 <= i < j < |ordered| ensures ordered[i].id != ordered[j].id {
      DistinctInMultiset(rows, ordered, i, j);
    }
    SortedUnique(ordered, other, sorting, order);
  }

  /** In a sequence with increasing ids every element occurs once. */
  lemma {:induction false} OccursOnce(rows: seq<Transaction>, x: int)
    requires IncreasingIds(rows)
    requires 0 <= x < |rows|
    ensures multiset(rows)[rows[x]] == 1
  {
    var n := |rows|;
    var prefix := rows[..n - 1];
    var last := rows[n - 1];
    assert rows == prefix + [last];
    if x == n - 1 {
      assert multiset(prefix)[last] == 0;
    } else {
      OccursOnce(prefix, x);
      assert prefix[x] == rows[x];
    }
  }

  /** An element found at two positions occurs at least twice. */
  lemma TwoPositions(perm: seq<Transaction>, i: int, j: int)
    requires 0 <= i < j < |perm| && perm[i] == perm[j]
    ensures multiset(perm)[perm[i]] >= 2
  {
    var p := perm[i];
    assert perm == perm[..j] + perm[j..];
    assert perm[..j][i] == p && perm[j..][0] == p;
    assert multiset(perm[..j])[p] >= 1 && multiset(perm[j..])[p] >= 1;
  }

  /** Two positions of a permutation of a sequence with increasing ids hold different ids. */
  lemma DistinctInMultiset(rows: seq<Transaction>, perm: seq<Transaction>, i: int, j: int)
    requires IncreasingIds(rows)
    requires multiset(perm) == multiset(rows)
    requires 0 <= i < j < |perm|
    ensures perm[i].id != perm[j].id
  {
    if perm[i].id == perm[j].id {
      assert perm[i] in multiset(rows) && perm[j] in multiset(rows);
      var x :| 0 <= x < |rows| && rows[x] == perm[i];
      var y :| 0 <= y < |rows| && rows[y] == perm[j];
      assert x == y;
      assert perm[i] == perm[j];
      TwoPositions(perm, i, j);
      OccursOnce(rows, x);
      assert false;
    }
  }
}
