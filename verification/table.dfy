/** One collection of the in-memory store: a JavaScript `Map<number, T>`
    together with the counter that allocates its ids.

    A JavaScript Map iterates in insertion order, `set` on a key that is
    already present keeps the key's position, and `delete` removes the key.
    The model therefore keeps the rows as a sequence in insertion order; the
    representation invariant `Valid` says ids are positive, strictly
    increasing along the sequence (so unique) and all below the counter. */
module Table {
  import opened Wrappers

  /** A stored record: the id the store assigned plus the other fields. */
  datatype Row<+T> = Row(id: int, data: T)

  datatype Table<T> = Table(rows: seq<Row<T>>, next: int)

  ghost predicate IdsIncreasing<T>(rows: seq<Row<T>>) {
    forall i, j :: 0 <= i < j < |rows| ==> rows[i].id < rows[j].id
  }

  ghost predicate Valid<T>(t: Table<T>) {
    && 1 <= t.next
    && IdsIncreasing(t.rows)
    && forall i :: 0 <= i < |t.rows| ==> 1 <= t.rows[i].id < t.next
  }

  /** The keys of the map. */
  function Ids<T(==)>(rows: seq<Row<T>>): set<int> {
    set x | x in rows :: x.id
  }

  /** `new Map()` with its counter at 1. */
  function Empty<T(==)>(): (t: Table<T>)
    ensures Valid(t)
    ensures Ids(t.rows) == {}
  {
    Table([], 1)
  }

  /** `map.get(id)`: the row with that id, or `undefined`. */
  function Find<T(==)>(rows: seq<Row<T>>, id: int): (r: Option<Row<T>>)
    ensures r.Some? ==> r.value in rows && r.value.id == id
    ensures r.None? <==> id !in Ids(rows)
  {
    if |rows| == 0 then None
    else if rows[0].id == id then Some(rows[0])
    else
      var r := Find(rows[1..], id);
      assert forall x :: x in rows[1..] ==> x in rows;
      assert Ids(rows) == {rows[0].id} + Ids(rows[1..]) by {
        assert rows == [rows[0]] + rows[1..];
      }
      r
  }

  /** With unique ids, every stored row is found under its own id. */
  lemma {:induction false} FindStored<T>(rows: seq<Row<T>>, i: int)
    requires IdsIncreasing(rows)
    requires 0 <= i < |rows|
    ensures Find(rows, rows[i].id) == Some(rows[i])
  {
    if i > 0 {
      assert rows[0].id < rows[i].id;
      assert rows[1..][i - 1] == rows[i];
      FindStored(rows[1..], i - 1);
    }
  }

  /** Under unique ids a row found by id is the one stored, so lookup is
      determined by membership. */
  lemma FindIsMember<T>(rows: seq<Row<T>>, x: Row<T>)
    requires IdsIncreasing(rows)
    ensures Find(rows, x.id) == Some(x) <==> x in rows
  {
    if x in rows {
      var i :| 0 <= i < |rows| && rows[i] == x;
      FindStored(rows, i);
    }
  }

  /** `map.set(counter++, v)` for a fresh key: the new row takes the
      current counter as its id, is appended at the end of the iteration
      order, and the counter moves on by one. */
  function Insert<T(==)>(t: Table<T>, v: T): (r: (Table<T>, Row<T>))
    ensures r.1 == Row(t.next, v)
    ensures r.0.next == t.next + 1
    ensures r.0.rows == t.rows + [r.1]
    ensures Valid(t) ==> Valid(r.0) && t.next !in Ids(t.rows)
    ensures Valid(t) ==> Find(r.0.rows, r.1.id) == Some(r.1)
    ensures Valid(t) ==> forall id :: id != r.1.id ==> Find(r.0.rows, id) == Find(t.rows, id)
  {
    var row := Row(t.next, v);
    var t' := Table(t.rows + [row], t.next + 1);
    AppendFresh(t, v);
    assert Valid(t) ==> Find(t'.rows, row.id) == Some(row) by {
      if Valid(t) {
        FindStored(t'.rows, |t.rows|);
      }
    }
    assert forall id :: id != row.id ==> Find(t'.rows, id) == Find(t.rows, id) by {
      forall id | id != row.id ensures Find(t'.rows, id) == Find(t.rows, id) {
        FindAppend(t.rows, row, id);
      }
    }
    (t', row)
  }

  /** Appending a row under the counter to a valid table, and moving the
      counter on, gives a valid table; the counter was not yet a key. */
  lemma AppendFresh<T>(t: Table<T>, v: T)
    ensures Valid(t) ==> Valid(Table(t.rows + [Row(t.next, v)], t.next + 1)) && t.next !in Ids(t.rows)
  {
    if Valid(t) {
      var rows := t.rows + [Row(t.next, v)];
      forall i | 0 <= i < |rows| ensures 1 <= rows[i].id < t.next + 1 {
        if i < |t.rows| {
          assert rows[i] == t.rows[i];
        }
      }
      forall i, j | 0 <= i < j < |rows| ensures rows[i].id < rows[j].id {
        assert rows[i] == t.rows[i];
        if j < |t.rows| {
          assert rows[j] == t.rows[j];
        }
      }
      forall x | x in t.rows ensures x.id < t.next {
        var i :| 0 <= i < |t.rows| && t.rows[i] == x;
      }
    }
  }

  lemma {:induction false} FindAppend<T>(rows: seq<Row<T>>, x: Row<T>, id: int)
    requires id != x.id
    ensures Find(rows + [x], id) == Find(rows, id)
  {
    if |rows| == 0 {
    } else {
      assert (rows + [x])[1..] == rows[1..] + [x];
      FindAppend(rows[1..], x, id);
    }
  }

  /** `map.set(id, v)` for a key that may already be present: the row with
      that id gets the new fields in place; ids, positions, the counter and
      every other row stay as they were. */
  function Update<T(==)>(t: Table<T>, id: int, v: T): (r: Table<T>)
    ensures r.next == t.next
    ensures |r.rows| == |t.rows|
    ensures forall i :: 0 <= i < |t.rows| ==> r.rows[i].id == t.rows[i].id
    ensures forall i :: 0 <= i < |t.rows| && t.rows[i].id != id ==> r.rows[i] == t.rows[i]
    ensures Ids(r.rows) == Ids(t.rows)
    ensures Valid(t) ==> Valid(r)
  {
    var rows := seq(|t.rows|, i requires 0 <= i < |t.rows| =>
      if t.rows[i].id == id then Row(id, v) else t.rows[i]);
    SameIdsSameKeys(t.rows, rows, t.next);
    Table(rows, t.next)
  }

  /** Rows that carry the same ids position by position have the same
      keys, and changing only the fields keeps a table valid. */
  lemma SameIdsSameKeys<T>(a: seq<Row<T>>, b: seq<Row<T>>, next: int)
    requires |a| == |b|
    requires forall i :: 0 <= i < |a| ==> a[i].id == b[i].id
    ensures Ids(a) == Ids(b)
    ensures Valid(Table(a, next)) ==> Valid(Table(b, next))
  {
    forall x | x in a ensures x.id in Ids(b) {
      var i :| 0 <= i < |a| && a[i] == x;
      assert b[i] in b;
    }
    forall x | x in b ensures x.id in Ids(a) {
      var i :| 0 <= i < |b| && b[i] == x;
      assert a[i] in a;
    }
  }

  /** Looking up after an update: the updated id yields the new fields,
      any other id yields what it yielded before. */
  lemma {:induction false} FindAfterUpdate<T>(t: Table<T>, id: int, v: T, other: int)
    requires Valid(t)
    requires id in Ids(t.rows)
    ensures Find(Update(t, id, v).rows, id) == Some(Row(id, v))
    ensures other != id ==> Find(Update(t, id, v).rows, other) == Find(t.rows, other)
  {
    var r := Update(t, id, v);
    var x :| x in t.rows && x.id == id;
    var i :| 0 <= i < |t.rows| && t.rows[i] == x;
    FindStored(r.rows, i);
    if other != id {
      match Find(t.rows, other)
      case Some(y) =>
        var j :| 0 <= j < |t.rows| && t.rows[j] == y;
        FindStored(r.rows, j);
        FindStored(t.rows, j);
      case None =>
    }
  }

  /** `rows.filter(p)`: exactly the rows that satisfy `p`, in their
      original order. */
  function Filter<T(==,!new)>(rows: seq<Row<T>>, p: Row<T> -> bool): (r: seq<Row<T>>)
    ensures forall x :: x in r <==> x in rows && p(x)
    ensures |r| <= |rows|
    ensures IdsIncreasing(rows) ==> IdsIncreasing(r)
  {
    if |rows| == 0 then []
    else
      var rest := Filter(rows[1..], p);
      PrependStep(rows, rest);
      if p(rows[0]) then [rows[0]] + rest else rest
  }

  /** The facts one step of `Filter` needs: the members of `rows` are its
      head and the members of its tail, and in an id-ordered sequence the
      head may go in front of any selection from the tail. */
  lemma PrependStep<T>(rows: seq<Row<T>>, rest: seq<Row<T>>)
    requires |rows| > 0
    requires forall x :: x in rest ==> x in rows[1..]
    requires IdsIncreasing(rows[1..]) ==> IdsIncreasing(rest)
    ensures forall x :: x in rows <==> x == rows[0] || x in rows[1..]
    ensures IdsIncreasing(rows) ==> IdsIncreasing(rows[1..]) && IdsIncreasing([rows[0]] + rest)
  {
    assert rows == [rows[0]] + rows[1..];
    if IdsIncreasing(rows) {
      assert IdsIncreasing(rows[1..]) by {
        forall i, j | 0 <= i < j < |rows[1..]| ensures rows[1..][i].id < rows[1..][j].id {
          assert rows[1..][i] == rows[i + 1] && rows[1..][j] == rows[j + 1];
        }
      }
      forall x | x in rest ensures rows[0].id < x.id {
        var j :| 0 <= j < |rows[1..]| && rows[1..][j] == x;
        assert rows[j + 1] == x;
      }
      var c := [rows[0]] + rest;
      forall i, j | 0 <= i < j < |c| ensures c[i].id < c[j].id {
        assert c[j] == rest[j - 1];
        if i > 0 {
          assert c[i] == rest[i - 1];
        }
      }
    }
  }

  /** Filtering commutes with appending one row at the end. */
  lemma {:induction false} FilterAppend<T(!new)>(rows: seq<Row<T>>, x: Row<T>, p: Row<T> -> bool)
    ensures Filter(rows + [x], p) == Filter(rows, p) + (if p(x) then [x] else [])
  {
    if |rows| == 0 {
      assert Filter([x], p) == (if p(x) then [x] else []) + Filter([x][1..], p);
    } else {
      assert (rows + [x])[1..] == rows[1..] + [x];
      FilterAppend(rows[1..], x, p);
    }
  }

  /** One step of the filter: the first row, if it passes, followed by
      the filtered rest. */
  lemma FilterCons<T(!new)>(rows: seq<Row<T>>, p: Row<T> -> bool)
    requires |rows| > 0
    ensures Filter(rows, p) == (if p(rows[0]) then [rows[0]] else []) + Filter(rows[1..], p)
  {
  }

  /** When the predicate holds on exactly the first `f` rows, filtering
      keeps exactly that prefix. */
  lemma {:induction false} FilterKeepsPrefix<T(!new)>(rows: seq<Row<T>>, p: Row<T> -> bool, f: nat)
    requires f <= |rows|
    requires forall i :: 0 <= i < |rows| ==> (p(rows[i]) <==> i < f)
    ensures Filter(rows, p) == rows[..f]
  {
    if |rows| > 0 {
      var tail := rows[1..];
      var g: nat := if f == 0 then 0 else f - 1;
      forall i | 0 <= i < |tail| ensures p(tail[i]) <==> i < g {
        assert tail[i] == rows[i + 1];
      }
      FilterKeepsPrefix(tail, p, g);
      FilterCons(rows, p);
      if f > 0 {
        var front := [rows[0]] + tail[..g];
        forall i | 0 <= i < f ensures front[i] == rows[i] {
          if i > 0 {
            assert front[i] == tail[i - 1];
          }
        }
        assert front == rows[..f];
      }
    }
  }

  /** Sequences with the same members are empty together. */
  lemma EmptyTogether<T>(a: seq<Row<T>>, b: seq<Row<T>>)
    requires forall x :: x in a <==> x in b
    ensures |a| == 0 <==> |b| == 0
  {
    if |a| > 0 {
      assert a[0] in b;
    }
    if |b| > 0 {
      assert b[0] in a;
    }
  }

  /** In an id-ordered sequence the head has the least id, and it is the
      only member with that id. */
  lemma HeadIsLeast<T>(a: seq<Row<T>>, x: Row<T>)
    requires IdsIncreasing(a) && |a| > 0 && x in a
    ensures a[0].id <= x.id
    ensures x.id == a[0].id ==> x == a[0]
    ensures x in a[1..] <==> x != a[0]
  {
    var k :| 0 <= k < |a| && a[k] == x;
    if k > 0 {
      assert a[1..][k - 1] == x;
    }
  }

  /** Two id-ordered sequences holding the same rows are the same
      sequence: insertion order is fully determined by the ids. */
  lemma {:induction false} SortedByIdUnique<T>(a: seq<Row<T>>, b: seq<Row<T>>)
    requires IdsIncreasing(a) && IdsIncreasing(b)
    requires forall x :: x in a <==> x in b
    ensures a == b
  {
    EmptyTogether(a, b);
    if |a| > 0 {
      HeadIsLeast(a, b[0]);
      HeadIsLeast(b, a[0]);
      assert a[0] == b[0];
      forall x ensures x in a[1..] <==> x in b[1..] {
        if x in a[1..] {
          HeadIsLeast(a, x);
          HeadIsLeast(b, x);
        }
        if x in b[1..] {
          HeadIsLeast(a, x);
          HeadIsLeast(b, x);
        }
      }
      SortedByIdUnique(a[1..], b[1..]);
      assert a == [a[0]] + a[1..];
      assert b == [b[0]] + b[1..];
    }
  }

  /** An independent characterisation of `Filter` on a valid table: any
      id-ordered sequence that holds exactly the rows satisfying `p` is
      the filtered list, i.e. the filter is the order-preserving
      subsequence of the rows that satisfy `p`. */
  lemma FilterIsTheOrderedSubsequence<T(!new)>(rows: seq<Row<T>>, p: Row<T> -> bool, r: seq<Row<T>>)
    requires IdsIncreasing(rows)
    requires IdsIncreasing(r)
    requires forall x :: x in r <==> x in rows && p(x)
    ensures r == Filter(rows, p)
  {
    SortedByIdUnique(r, Filter(rows, p));
  }

  /** `map.delete(id)`: reports whether the key was present and removes
      only that row; the counter is not touched, so the id is never handed
      out again. */
  function Remove<T(==,!new)>(t: Table<T>, id: int): (r: (Table<T>, bool))
    ensures r.1 <==> id in Ids(t.rows)
    ensures r.0.next == t.next
    ensures forall x :: x in r.0.rows <==> x in t.rows && x.id != id
    ensures Ids(r.0.rows) == Ids(t.rows) - {id}
    ensures Valid(t) ==> Valid(r.0)
  {
    var rows := Filter(t.rows, (x: Row<T>) => x.id != id);
    var present := Find(t.rows, id).Some?;
    (Table(rows, t.next), present)
  }
  /** `map.get(id)` followed by `map.set(id, f(old))` when the key is
      present; an unknown id changes nothing and yields `undefined`. */
  function Modify<T(==)>(t: Table<T>, id: int, f: T -> T): (r: (Table<T>, Option<Row<T>>))
    ensures r.1.None? <==> id !in Ids(t.rows)
    ensures r.1.None? ==> r.0 == t
    ensures r.1.Some? ==> r.1.value == Row(id, f(Find(t.rows, id).value.data))
    ensures r.0.next == t.next && Ids(r.0.rows) == Ids(t.rows)
    ensures |r.0.rows| == |t.rows|
    ensures forall i :: 0 <= i < |t.rows| ==> r.0.rows[i].id == t.rows[i].id
    ensures Valid(t) ==> Valid(r.0) && Find(r.0.rows, id) == r.1
    ensures Valid(t) ==> forall other :: other != id ==> Find(r.0.rows, other) == Find(t.rows, other)
  {
    match Find(t.rows, id)
    case None => (t, None)
    case Some(prev) =>
      var row := Row(id, f(prev.data));
      var t' := Update(t, id, row.data);
      assert Valid(t) ==> forall other :: Find(t'.rows, other) == (if other == id then Some(row) else Find(t.rows, other)) by {
        if Valid(t) {
          forall other ensures Find(t'.rows, other) == (if other == id then Some(row) else Find(t.rows, other)) {
            FindAfterUpdate(t, id, row.data, other);
          }
        }
      }
      (t', Some(row))
  }

  /** `rows.find(p)` / `rows.findIndex(p)`: the position of the first row
      satisfying `p`, or `None` when there is none. */
  function FindFirst<T>(rows: seq<Row<T>>, p: Row<T> -> bool): (r: Option<nat>)
    ensures r.Some? ==> r.value < |rows| && p(rows[r.value])
    ensures r.Some? ==> forall j :: 0 <= j < r.value ==> !p(rows[j])
    ensures r.None? <==> forall j :: 0 <= j < |rows| ==> !p(rows[j])
  {
    if |rows| == 0 then None
    else if p(rows[0]) then Some(0)
    else
      match FindFirst(rows[1..], p)
      case None => None
      case Some(k) => Some(k + 1)
  }

  /** Filtering with two predicates that agree on every row gives the same list. */
  lemma {:induction false} FilterExtensional<T(!new)>(rows: seq<Row<T>>, p: Row<T> -> bool, q: Row<T> -> bool)
    requires forall x :: p(x) == q(x)
    ensures Filter(rows, p) == Filter(rows, q)
  {
    if |rows| > 0 {
      FilterExtensional(rows[1..], p, q);
    }
  }
}
