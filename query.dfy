/** What the database does for a finder with a `Sort` or an ORDER BY: it
    selects the rows that match and lists their ids in the requested order. */
module Query {
  import opened Common

  /** No id is listed twice. */
  ghost predicate Distinct(ids: seq<Id>) {
    forall i, j :: 0 <= i < j < |ids| ==> ids[i] != ids[j]
  }

  /** Every listed id names a row, and the rows come in `leq` order. */
  ghost predicate SortedBy<T>(ids: seq<Id>, rows: map<Id, T>, leq: (T, T) -> bool) {
    && (forall k :: k in ids ==> k in rows)
    && (forall i, j :: 0 <= i < j < |ids| ==> leq(rows[ids[i]], rows[ids[j]]))
  }

  /** `leq` orders rows by a sort key: every two rows compare, and the
      comparison is transitive (rows with equal keys come in either order). */
  ghost predicate TotalPreorder<T(!new)>(leq: (T, T) -> bool) {
    && (forall a, b :: leq(a, b) || leq(b, a))
    && (forall a, b, c :: leq(a, b) && leq(b, c) ==> leq(a, c))
  }

  /** Puts `x` in front of the first row it does not sort after. */
  function Insert<T>(x: Id, s: seq<Id>, rows: map<Id, T>, leq: (T, T) -> bool): (r: seq<Id>)
    requires x in rows && forall k :: k in s ==> k in rows
    ensures |r| == |s| + 1
    ensures forall k :: k in r <==> k == x || k in s
  {
    if s == [] then [x]
    else if leq(rows[x], rows[s[0]]) then [x] + s
    else [s[0]] + Insert(x, s[1..], rows, leq)
  }

  lemma {:induction false} InsertKeepsOrder<T(!new)>(x: Id, s: seq<Id>, rows: map<Id, T>, leq: (T, T) -> bool)
    requires TotalPreorder(leq)
    requires x in rows && SortedBy(s, rows, leq)
    ensures SortedBy(Insert(x, s, rows, leq), rows, leq)
  {
    if s == [] {
    } else if leq(rows[x], rows[s[0]]) {
      var r := [x] + s;
      forall i, j | 0 <= i < j < |r| ensures leq(rows[r[i]], rows[r[j]]) {
        if i == 0 && j > 1 {
          assert leq(rows[s[0]], rows[s[j - 1]]);
        }
      }
    } else {
      var tail := s[1..];
      assert SortedBy(tail, rows, leq) by {
        forall i, j | 0 <= i < j < |tail| ensures leq(rows[tail[i]], rows[tail[j]]) {
          assert tail[i] == s[i + 1] && tail[j] == s[j + 1];
        }
      }
      InsertKeepsOrder(x, tail, rows, leq);
      var t := Insert(x, tail, rows, leq);
      var r := [s[0]] + t;
      forall j | 0 <= j < |t| ensures leq(rows[s[0]], rows[t[j]]) {
        if t[j] != x {
          assert t[j] in tail;
          var m :| 0 <= m < |tail| && tail[m] == t[j];
          assert tail[m] == s[m + 1];
        }
      }
      forall i, j | 0 <= i < j < |r| ensures leq(rows[r[i]], rows[r[j]]) {
        if i == 0 {
          assert r[j] == t[j - 1];
        } else {
          assert r[i] == t[i - 1] && r[j] == t[j - 1];
        }
      }
    }
  }

  lemma {:induction false} InsertKeepsDistinct<T>(x: Id, s: seq<Id>, rows: map<Id, T>, leq: (T, T) -> bool)
    requires x in rows && forall k :: k in s ==> k in rows
    requires Distinct(s) && x !in s
    ensures Distinct(Insert(x, s, rows, leq))
  {
    if s != [] && !leq(rows[x], rows[s[0]]) {
      var tail := s[1..];
      assert Distinct(tail) by {
        forall i, j | 0 <= i < j < |tail| ensures tail[i] != tail[j] {
          assert tail[i] == s[i + 1] && tail[j] == s[j + 1];
        }
      }
      InsertKeepsDistinct(x, tail, rows, leq);
      var t := Insert(x, tail, rows, leq);
      assert s[0] !in t by {
        assert s[0] !in tail by {
          forall j | 0 <= j < |tail| ensures tail[j] != s[0] {
            assert tail[j] == s[j + 1];
          }
        }
      }
      var r := [s[0]] + t;
      forall i, j | 0 <= i < j < |r| ensures r[i] != r[j] {
        if i == 0 {
          assert r[j] == t[j - 1];
        } else {
          assert r[i] == t[i - 1] && r[j] == t[j - 1];
        }
      }
    }
  }

  /** The ids a list mentions. */
  ghost function Elements(ids: seq<Id>): set<Id> {
    set k | k in ids
  }

  /** A list without repeats has as many entries as it has distinct ids. */
  lemma {:induction false} DistinctLength(ids: seq<Id>)
    requires Distinct(ids)
    ensures |Elements(ids)| == |ids|
  {
    if ids != [] {
      var tail := ids[1..];
      assert Distinct(tail) by {
        forall i, j | 0 <= i < j < |tail| ensures tail[i] != tail[j] {
          assert tail[i] == ids[i + 1] && tail[j] == ids[j + 1];
        }
      }
      DistinctLength(tail);
      assert ids[0] !in tail by {
        forall j | 0 <= j < |tail| ensures tail[j] != ids[0] {
          assert tail[j] == ids[j + 1];
        }
      }
      assert Elements(ids) == Elements(tail) + {ids[0]};
    }
  }

  /** The ids of the rows that satisfy `keep`. */
  ghost function Selected<T>(rows: map<Id, T>, keep: T -> bool): set<Id> {
    set k | k in rows && keep(rows[k])
  }

  /** SELECT the rows that satisfy `keep`, ORDER BY `leq`: the ids of exactly
      those rows, each once, in order. */
  method OrderBy<T(!new)>(rows: map<Id, T>, keep: T -> bool, leq: (T, T) -> bool) returns (ids: seq<Id>)
    requires TotalPreorder(leq)
    ensures forall k :: k in ids <==> k in rows && keep(rows[k])
    ensures Distinct(ids)
    ensures SortedBy(ids, rows, leq)
    ensures |ids| == |Selected(rows, keep)|
  {
    var todo := rows.Keys;
    ids := [];
    while todo != {}
      invariant todo <= rows.Keys
      invariant forall k :: k in ids <==> k in rows && k !in todo && keep(rows[k])
      invariant Distinct(ids)
      invariant SortedBy(ids, rows, leq)
      decreases todo
    {
      var k :| k in todo;
      todo := todo - {k};
      if keep(rows[k]) {
        InsertKeepsOrder(k, ids, rows, leq);
        InsertKeepsDistinct(k, ids, rows, leq);
        ids := Insert(k, ids, rows, leq);
      }
    }
    DistinctLength(ids);
    assert Elements(ids) == Selected(rows, keep);
  }

  /** String order by character codes, shorter prefix first: the "C"
      collation of a database. */
  predicate LexLeq(a: string, b: string) {
    |a| == 0 || (|b| > 0 && (a[0] < b[0] || (a[0] == b[0] && LexLeq(a[1..], b[1..]))))
  }

  lemma {:induction false} LexTotal(a: string, b: string)
    ensures LexLeq(a, b) || LexLeq(b, a)
  {
    if |a| > 0 && |b| > 0 && a[0] == b[0] {
      LexTotal(a[1..], b[1..]);
    }
  }

  lemma {:induction false} LexTransitive(a: string, b: string, c: string)
    requires LexLeq(a, b) && LexLeq(b, c)
    ensures LexLeq(a, c)
  {
    if |a| > 0 && a[0] == b[0] && b[0] == c[0] {
      LexTransitive(a[1..], b[1..], c[1..]);
    }
  }

  /** Character-code order is a collation: it orders every pair of strings
      and is transitive. */
  lemma LexLeqIsTotalPreorder()
    ensures TotalPreorder(LexLeq)
  {
    forall a: string, b: string ensures LexLeq(a, b) || LexLeq(b, a) {
      LexTotal(a, b);
    }
    forall a: string, b: string, c: string | LexLeq(a, b) && LexLeq(b, c) ensures LexLeq(a, c) {
      LexTransitive(a, b, c);
    }
  }
}
