/**
 * The slice of pandas and of Python's built-in containers that the group
 * selector uses: tables whose cells may be missing, column lookup that
 * raises KeyError, list indexing that raises IndexError (negative indices
 * count from the end), boolean-mask filtering and a left merge on one key.
 */
module DataFrames {

  datatype Option<T> = None | Some(value: T)

  /** The Python exceptions the core can raise. */
  datatype PyError = KeyError(key: string) | IndexError | TypeError

  datatype Result<T> = Success(value: T) | Failure(error: PyError)

  /** A table row: column name to cell; `None` (or an absent column) is NaN. */
  type Row = map<string, Option<string>>

  /** A data frame: its column labels in order, and its rows in order. */
  datatype Table = Table(columns: seq<string>, rows: seq<Row>)

  /** The cell of `row` under `column`; NaN when the row has no such cell. */
  function Cell(row: Row, column: string): Option<string>
  {
    if column in row then row[column] else None
  }

  /** `s[i]` on a Python list: negative indices count from the end. */
  function PyIndex<T>(s: seq<T>, i: int): (r: Result<T>)
    ensures r.Success? <==> -|s| <= i < |s|
    ensures r.Failure? ==> r.error == IndexError
    ensures 0 <= i < |s| ==> r == Success(s[i])
    ensures -|s| <= i < 0 ==> r == Success(s[|s| + i])
  {
    if 0 <= i < |s| then Success(s[i])
    else if -|s| <= i < 0 then Success(s[|s| + i])
    else Failure(IndexError)
  }

  /** `[x for x in s if keep(x)]`, the order of `s` kept. */
  function Filter<T>(s: seq<T>, keep: T -> bool): (kept: seq<T>)
    ensures |kept| <= |s|
    ensures forall k :: 0 <= k < |kept| ==> keep(kept[k])
    decreases |s|
  {
    if s == [] then []
    else
      Filter(s[..|s| - 1], keep) + (if keep(s[|s| - 1]) then [s[|s| - 1]] else [])
  }

  /**
   * The positions of `s` that `keep` selects, in increasing order: position
   * `k` of `Filter(s, keep)` holds the element at position `idx[k]` of `s`,
   * and every selected position occurs.
   */
  function FilterIndices<T>(s: seq<T>, keep: T -> bool): (idx: seq<int>)
    ensures forall k :: 0 <= k < |idx| ==> 0 <= idx[k] < |s| && keep(s[idx[k]])
    ensures forall j, k :: 0 <= j < k < |idx| ==> idx[j] < idx[k]
    ensures forall i :: 0 <= i < |s| && keep(s[i]) ==> i in idx
    decreases |s|
  {
    if s == [] then []
    else
      var n := |s| - 1;
      var prefix := s[..n];
      var before := FilterIndices(prefix, keep);
      assert forall k :: 0 <= k < |before| ==> s[before[k]] == prefix[before[k]];
      before + (if keep(s[n]) then [n] else [])
  }

  /** Position `k` of the filtered sequence holds the element at `FilterIndices(s, keep)[k]`. */
  lemma {:induction false} FilterAt<T>(s: seq<T>, keep: T -> bool)
    ensures |FilterIndices(s, keep)| == |Filter(s, keep)|
    ensures forall k :: 0 <= k < |Filter(s, keep)| ==> Filter(s, keep)[k] == s[FilterIndices(s, keep)[k]]
    decreases |s|
  {
    if s != [] {
      var n := |s| - 1;
      var prefix := s[..n];
      FilterAt(prefix, keep);
      var before := FilterIndices(prefix, keep);
      var kept := Filter(prefix, keep);
      var idx := FilterIndices(s, keep);
      var all := Filter(s, keep);
      assert idx == before + (if keep(s[n]) then [n] else []);
      assert all == kept + (if keep(s[n]) then [s[n]] else []);
      forall k | 0 <= k < |all|
        ensures all[k] == s[idx[k]]
      {
        if k < |kept| {
          assert all[k] == kept[k] && idx[k] == before[k];
          assert kept[k] == prefix[before[k]];
        }
      }
    }
  }

  /** The positions of `s` that `keep` selects. */
  ghost function Selected<T>(s: seq<T>, keep: T -> bool): set<int>
  {
    set i | 0 <= i < |s| && keep(s[i])
  }

  /** The filter keeps exactly as many elements as there are selected positions. */
  lemma {:induction false} FilterCountsSelected<T>(s: seq<T>, keep: T -> bool)
    ensures |Filter(s, keep)| == |Selected(s, keep)|
    decreases |s|
  {
    if s != [] {
      var n := |s| - 1;
      var prefix := s[..n];
      FilterCountsSelected(prefix, keep);
      var before := Selected(prefix, keep);
      assert Filter(s, keep) == Filter(prefix, keep) + (if keep(s[n]) then [s[n]] else []);
      assert n !in before;
      assert Selected(s, keep) == before + (if keep(s[n]) then {n} else {}) by {
        forall i | 0 <= i < n
          ensures prefix[i] == s[i]
        {
        }
      }
    }
  }

  /** An element is kept exactly when it occurs in `s` and `keep` accepts it. */
  lemma {:induction false} FilterMembership<T>(s: seq<T>, keep: T -> bool, x: T)
    ensures x in Filter(s, keep) <==> x in s && keep(x)
    decreases |s|
  {
    if s != [] {
      var n := |s| - 1;
      FilterMembership(s[..n], keep, x);
      assert s == s[..n] + [s[n]];
    }
  }

  /** Filtering distributes over concatenation, so relative order is kept. */
  lemma {:induction false} FilterAppend<T>(a: seq<T>, b: seq<T>, keep: T -> bool)
    ensures Filter(a + b, keep) == Filter(a, keep) + Filter(b, keep)
    decreases |b|
  {
    if b == [] {
      assert a + b == a;
    } else {
      var n := |b| - 1;
      FilterAppend(a, b[..n], keep);
      assert (a + b)[..|a + b| - 1] == a + b[..n];
    }
  }

  /** No accepted position comes before the first kept position. */
  lemma FirstIndexIsLeast<T>(s: seq<T>, keep: T -> bool)
    requires FilterIndices(s, keep) != []
    ensures forall j :: 0 <= j < |s| && keep(s[j]) ==> FilterIndices(s, keep)[0] <= j
  {
    var idx := FilterIndices(s, keep);
    forall j | 0 <= j < |s| && keep(s[j])
      ensures idx[0] <= j
    {
      var k :| 0 <= k < |idx| && idx[k] == j;
      assert k == 0 || idx[0] < idx[k];
    }
  }

  /** The first element kept is the first element of `s` that `keep` accepts. */
  lemma FilterFirst<T>(s: seq<T>, keep: T -> bool)
    requires Filter(s, keep) != []
    ensures exists i :: 0 <= i < |s| && s[i] == Filter(s, keep)[0] && keep(s[i]) &&
                        (forall j :: 0 <= j < i ==> !keep(s[j]))
  {
    var idx := FilterIndices(s, keep);
    FilterAt(s, keep);
    FirstIndexIsLeast(s, keep);
    var i := idx[0];
    assert s[i] == Filter(s, keep)[0] && keep(s[i]);
  }

  /** Row `r` agrees with `m` on every cell of `m`. */
  ghost predicate Extends(r: Row, m: Row)
  {
    forall c :: c in m ==> c in r && r[c] == m[c]
  }

  /** Selects the rows whose `key` cell equals `value`. */
  function KeyEquals(key: string, value: Option<string>): Row -> bool
  {
    (row: Row) => Cell(row, key) == value
  }

  /**
   * The rows produced for one left row `m` by a left merge on `key`: one per
   * right row with the same key, or `m` alone (right cells NaN) if none.
   */
  function JoinRow(m: Row, right: seq<Row>, key: string): (joined: seq<Row>)
    ensures |joined| >= 1
    ensures forall k :: 0 <= k < |joined| ==> Extends(joined[k], m)
  {
    var matches := Filter(right, KeyEquals(key, Cell(m, key)));
    if matches == [] then [m]
    else seq(|matches|, k requires 0 <= k < |matches| => matches[k] + m)
  }

  /** `left.merge(right, how="left", on=key)` on the rows. */
  function LeftJoin(left: seq<Row>, right: seq<Row>, key: string): (joined: seq<Row>)
    ensures |joined| >= |left|
    decreases |left|
  {
    if left == [] then []
    else JoinRow(left[0], right, key) + LeftJoin(left[1..], right, key)
  }

  /** The join of a concatenation is the concatenation of the joins. */
  lemma {:induction false} LeftJoinAppend(a: seq<Row>, b: seq<Row>, right: seq<Row>, key: string)
    ensures LeftJoin(a + b, right, key) == LeftJoin(a, right, key) + LeftJoin(b, right, key)
    decreases |a|
  {
    if a == [] {
      assert a + b == b;
    } else {
      var ab := a + b;
      assert ab[0] == a[0] && ab[1..] == a[1..] + b;
      LeftJoinAppend(a[1..], b, right, key);
      var head := JoinRow(a[0], right, key);
      var middle := LeftJoin(a[1..], right, key);
      var tail := LeftJoin(b, right, key);
      assert LeftJoin(ab, right, key) == head + LeftJoin(ab[1..], right, key);
      assert head + (middle + tail) == (head + middle) + tail;
    }
  }

  /** Every joined row extends some left row. */
  lemma {:induction false} LeftJoinOrigin(left: seq<Row>, right: seq<Row>, key: string)
    ensures forall j :: 0 <= j < |LeftJoin(left, right, key)| ==>
      exists i :: 0 <= i < |left| && Extends(LeftJoin(left, right, key)[j], left[i])
    decreases |left|
  {
    if left != [] {
      LeftJoinOrigin(left[1..], right, key);
      var head := JoinRow(left[0], right, key);
      var rest := LeftJoin(left[1..], right, key);
      var joined := LeftJoin(left, right, key);
      assert joined == head + rest;
      forall j | 0 <= j < |joined|
        ensures exists i :: 0 <= i < |left| && Extends(joined[j], left[i])
      {
        if j < |head| {
          assert Extends(joined[j], left[0]);
        } else {
          assert joined[j] == rest[j - |head|];
          var i :| 0 <= i < |left[1..]| && Extends(rest[j - |head|], left[1..][i]);
          assert Extends(joined[j], left[i + 1]);
        }
      }
    } else {
      assert LeftJoin(left, right, key) == [];
    }
  }

  /**
   * When every left row matches at most one right row, the join has one row
   * per left row, in the same order, each extending that left row, and
   * carrying the right row's cells when there is a match.
   */
  lemma {:induction false} LeftJoinOneToOne(left: seq<Row>, right: seq<Row>, key: string)
    requires forall i :: 0 <= i < |left| ==> |Filter(right, KeyEquals(key, Cell(left[i], key)))| <= 1
    ensures |LeftJoin(left, right, key)| == |left|
    ensures forall i :: 0 <= i < |left| ==> Extends(LeftJoin(left, right, key)[i], left[i])
    ensures forall i :: 0 <= i < |left| ==>
      var matches := Filter(right, KeyEquals(key, Cell(left[i], key)));
      LeftJoin(left, right, key)[i] == if matches == [] then left[i] else matches[0] + left[i]
    decreases |left|
  {
    if left != [] {
      LeftJoinOneToOne(left[1..], right, key);
      var head := JoinRow(left[0], right, key);
      assert |head| == 1;
      var joined := LeftJoin(left, right, key);
      assert joined == head + LeftJoin(left[1..], right, key);
      forall i | 1 <= i < |left|
        ensures joined[i] == LeftJoin(left[1..], right, key)[i - 1]
      {
      }
    }
  }

  /**
   * `left.merge(right, how="left", on=key)`: KeyError when either side has
   * no `key` column; otherwise the left columns followed by the right ones
   * other than `key`, and the left-joined rows.
   */
  function Merge(left: Table, right: Table, key: string): (r: Result<Table>)
    ensures r.Success? <==> key in left.columns && key in right.columns
    ensures r.Failure? ==> r.error == KeyError(key)
    ensures r.Success? ==> forall c :: c in r.value.columns <==> c in left.columns || c in right.columns
  {
    if key !in left.columns || key !in right.columns then Failure(KeyError(key))
    else
      var others := Filter(right.columns, (c: string) => c != key);
      assert forall c :: c in right.columns && c != key ==> c in others by {
        forall c | c in right.columns && c != key {
          FilterMembership(right.columns, (c: string) => c != key, c);
        }
      }
      assert forall c :: c in others ==> c in right.columns by {
        forall c | c in others {
          FilterMembership(right.columns, (c: string) => c != key, c);
        }
      }
      Success(Table(left.columns + others, LeftJoin(left.rows, right.rows, key)))
  }
}
