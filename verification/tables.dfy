/**
 * A database table: rows keyed by their identity column. `nextId` is the value the
 * identity column hands out next; ids are never reused. A row's `Id` property is
 * its key here, so the row values themselves carry no id.
 */
module Tables {
  import opened Wrappers
  import opened Ordering

  datatype Table<T> = Table(rows: map<int, T>, nextId: int) {

    /** Every key was issued by the identity column: it is positive and below `nextId`. */
    ghost predicate Valid() {
      1 <= nextId && forall id :: id in rows ==> 1 <= id < nextId
    }
  }

  /** A table that has never held a row. */
  function Empty<T>(): (t: Table<T>)
    ensures t.Valid() && t.rows == map[]
  {
    Table(map[], 1)
  }

  /** `DbSet.Add(row)` then `SaveChanges()`: the row gets the next identity value. */
  function Add<T>(t: Table<T>, row: T): (r: Table<T>)
    requires t.Valid()
    ensures r.Valid()
    ensures t.nextId !in t.rows && t.nextId in r.rows && r.rows[t.nextId] == row
    ensures r.rows.Keys == t.rows.Keys + {t.nextId}
    ensures forall id :: id in t.rows ==> r.rows[id] == t.rows[id]
  {
    Table(t.rows[t.nextId := row], t.nextId + 1)
  }

  /** The tracked row `id` saved with new values. */
  function Replace<T>(t: Table<T>, id: int, row: T): (r: Table<T>)
    requires t.Valid() && id in t.rows
    ensures r.Valid() && r.nextId == t.nextId
    ensures r.rows.Keys == t.rows.Keys && r.rows[id] == row
    ensures forall k :: k in t.rows && k != id ==> r.rows[k] == t.rows[k]
  {
    Table(t.rows[id := row], t.nextId)
  }

  /** `DbSet.Remove(row)` then `SaveChanges()`, once the database allows the delete. */
  function Delete<T>(t: Table<T>, id: int): (r: Table<T>)
    requires t.Valid()
    ensures r.Valid() && r.nextId == t.nextId
    ensures r.rows.Keys == t.rows.Keys - {id}
    ensures forall k :: k in r.rows ==> r.rows[k] == t.rows[k]
  {
    Table(t.rows - {id}, t.nextId)
  }

  /** A set-based `DELETE ... WHERE p`: the rows satisfying `p` go, the others stay as they were. */
  function RemoveWhere<T>(t: Table<T>, p: T -> bool): (r: Table<T>)
    requires t.Valid()
    ensures r.Valid() && r.nextId == t.nextId
    ensures forall id :: id in r.rows <==> id in t.rows && !p(t.rows[id])
    ensures forall id :: id in r.rows ==> r.rows[id] == t.rows[id]
  {
    Table(map id | id in t.rows && !p(t.rows[id]) :: t.rows[id], t.nextId)
  }

  /** The ids below `n`, in increasing order, of the rows for which `p(id, row)` holds. */
  function IdsBelow<T>(rows: map<int, T>, p: (int, T) -> bool, n: int): (ids: seq<int>)
    decreases n
    ensures forall i, j :: 0 <= i < j < |ids| ==> ids[i] < ids[j]
    ensures forall i :: 0 <= i < |ids| ==> ids[i] < n
    ensures forall id :: id in ids <==> id in rows && 1 <= id < n && p(id, rows[id])
  {
    if n <= 1 then []
    else IdsBelow(rows, p, n - 1) + (if n - 1 in rows && p(n - 1, rows[n - 1]) then [n - 1] else [])
  }

  /** `Where(p)` over the row and its key: the ids of the matching rows, in the order of a scan by id. */
  function WhereBy<T>(t: Table<T>, p: (int, T) -> bool): (ids: seq<int>)
    requires t.Valid()
    ensures forall i, j :: 0 <= i < j < |ids| ==> ids[i] < ids[j]
    ensures forall id :: id in ids <==> id in t.rows && p(id, t.rows[id])
  {
    IdsBelow(t.rows, p, t.nextId)
  }

  /** `FirstOrDefault(p)` over the row and its key: the first matching row of a scan by id, if any. */
  function FirstOrDefaultBy<T>(t: Table<T>, p: (int, T) -> bool): (r: Option<int>)
    requires t.Valid()
    ensures r.None? <==> forall id :: id in t.rows ==> !p(id, t.rows[id])
    ensures r.Some? ==> r.value in t.rows && p(r.value, t.rows[r.value])
    ensures r.Some? ==> forall id :: id in t.rows && id < r.value ==> !p(id, t.rows[id])
  {
    var ids := WhereBy(t, p);
    if ids == [] then None
    else
      assert forall id :: id in t.rows && p(id, t.rows[id]) ==> ids[0] <= id by {
        forall id | id in t.rows && p(id, t.rows[id]) ensures ids[0] <= id {
          var k :| 0 <= k < |ids| && ids[k] == id;
        }
      }
      assert ids[0] in ids;
      Some(ids[0])
  }

  /** `Where(p)`: the ids of the rows satisfying `p`, in the order of a scan by id. */
  function Where<T>(t: Table<T>, p: T -> bool): (ids: seq<int>)
    requires t.Valid()
    ensures forall i, j :: 0 <= i < j < |ids| ==> ids[i] < ids[j]
    ensures forall id :: id in ids <==> id in t.rows && p(t.rows[id])
  {
    WhereBy(t, (_, row) => p(row))
  }

  /** `FirstOrDefault(p)`: the first row of a scan by id that satisfies `p`, if any. */
  function FirstOrDefault<T>(t: Table<T>, p: T -> bool): (r: Option<int>)
    requires t.Valid()
    ensures r.None? <==> forall id :: id in t.rows ==> !p(t.rows[id])
    ensures r.Some? ==> r.value in t.rows && p(t.rows[r.value])
    ensures r.Some? ==> forall id :: id in t.rows && id < r.value ==> !p(t.rows[id])
  {
    FirstOrDefaultBy(t, (_, row) => p(row))
  }

  /** `Any(p)`: some row satisfies `p`. */
  predicate Any<T>(t: Table<T>, p: T -> bool)
    requires t.Valid()
    ensures Any(t, p) <==> exists id :: id in t.rows && p(t.rows[id])
  {
    FirstOrDefault(t, p).Some?
  }

  /** The rows with ids `ids`, each mapped by `f`. */
  function Select<T, D>(rows: map<int, T>, ids: seq<int>, f: (int, T) -> D): (r: seq<D>)
    requires forall i :: 0 <= i < |ids| ==> ids[i] in rows
    ensures |r| == |ids|
    ensures forall i :: 0 <= i < |ids| ==> r[i] == f(ids[i], rows[ids[i]])
  {
    seq(|ids|, i requires 0 <= i < |ids| => f(ids[i], rows[ids[i]]))
  }

  /**
   * `Where(p).OrderBy(before).Select(f)`: every row that satisfies `p` mapped by `f`,
   * each exactly once, sorted by `before`. `key` recovers the id from a mapped row,
   * which is what makes two rows map to different values.
   */
  function Query<T(!new), D(==,!new)>(t: Table<T>, p: T -> bool, f: (int, T) -> D, key: D -> int,
                          before: (D, D) -> bool): (r: seq<D>)
    requires t.Valid()
    requires forall id, row :: key(f(id, row)) == id
    requires TotalPreorder(before)
    ensures SortedBy(r, before)
    ensures multiset(r) == multiset(set id | id in t.rows && p(t.rows[id]) :: f(id, t.rows[id]))
  {
    var ids := Where(t, p);
    var unsorted := Select(t.rows, ids, f);
    var r := SortBy(unsorted, before);
    assert multiset(r) == multiset(set id | id in t.rows && p(t.rows[id]) :: f(id, t.rows[id])) by {
      QueryContents(t, p, f, key, ids, unsorted);
      SortBySorted(unsorted, before);
    }
    SortBySorted(unsorted, before);
    r
  }

  lemma QueryContents<T(!new), D(!new)>(t: Table<T>, p: T -> bool, f: (int, T) -> D, key: D -> int,
                            ids: seq<int>, unsorted: seq<D>)
    requires t.Valid()
    requires forall id, row :: key(f(id, row)) == id
    requires ids == Where(t, p) && unsorted == Select(t.rows, ids, f)
    ensures multiset(unsorted) == multiset(set id | id in t.rows && p(t.rows[id]) :: f(id, t.rows[id]))
  {
    var wanted := set id | id in t.rows && p(t.rows[id]) :: f(id, t.rows[id]);
    forall i, j | 0 <= i < j < |unsorted| ensures unsorted[i] != unsorted[j] {
      assert key(unsorted[i]) == ids[i] && key(unsorted[j]) == ids[j];
    }
    DistinctMultiset(unsorted);
    forall x ensures x in unsorted <==> x in wanted {
      if x in unsorted {
        var i :| 0 <= i < |unsorted| && unsorted[i] == x;
        assert ids[i] in ids;
      }
      if x in wanted {
        var id :| id in t.rows && p(t.rows[id]) && x == f(id, t.rows[id]);
        var i :| 0 <= i < |ids| && ids[i] == id;
        assert unsorted[i] == x;
      }
    }
    assert multiset(unsorted) == multiset(wanted);
  }
}
