/** The owner-scoped tables behind the platform and agent registries. Every query these
    routes send conditions on `user_id`; the functions here are those queries, on a table kept
    in insertion order. */
module Tables {
  import opened Common

  /** A registry row: platforms and agents share an id, an owner and a name; `data` holds the
      rest of the columns. */
  datatype Row<D> = Row(id: int, userId: int, name: string, data: D)

  function Init<D(==,!new)>(rows: seq<Row<D>>): seq<Row<D>>
    requires rows != []
  {
    rows[..|rows| - 1]
  }

  function Last<D(==,!new)>(rows: seq<Row<D>>): Row<D>
    requires rows != []
  {
    rows[|rows| - 1]
  }

  /** Row ids grow with insertion order (`last_row_id` of an ever-growing counter). */
  ghost predicate IdsIncreasing<D(!new)>(rows: seq<Row<D>>) {
    forall i, j :: 0 <= i < j < |rows| ==> rows[i].id < rows[j].id
  }

  ghost predicate IdsBelow<D(!new)>(rows: seq<Row<D>>, bound: int) {
    forall i :: 0 <= i < |rows| ==> rows[i].id < bound
  }

  /** The per-owner uniqueness constraint on `name`. */
  ghost predicate NamesUniquePerOwner<D(!new)>(rows: seq<Row<D>>) {
    forall i, j :: 0 <= i < j < |rows| && rows[i].userId == rows[j].userId ==> rows[i].name != rows[j].name
  }

  ghost predicate WellFormed<D(!new)>(rows: seq<Row<D>>, nextId: int) {
    IdsIncreasing(rows) && IdsBelow(rows, nextId) && NamesUniquePerOwner(rows)
  }

  /** `SELECT * FROM t WHERE user_id = ? ORDER BY created_at DESC`: exactly the owner's rows,
      newest first. */
  function Listing<D(==,!new)>(rows: seq<Row<D>>, uid: int): (r: seq<Row<D>>)
    ensures forall x :: x in r <==> x in rows && x.userId == uid
    ensures IdsIncreasing(rows) ==> forall i, j :: 0 <= i < j < |r| ==> r[i].id > r[j].id
    decreases |rows|
  {
    if rows == [] then []
    else if Last(rows).userId == uid then [Last(rows)] + Listing(Init(rows), uid)
    else Listing(Init(rows), uid)
  }

  /** The caller already owns a row with this name: an INSERT violates the constraint. */
  predicate OwnsName<D(==,!new)>(rows: seq<Row<D>>, uid: int, name: string) {
    exists x :: x in rows && x.userId == uid && x.name == name
  }

  /** Another row of the owner, not the one with id `id`, has this name: an UPDATE that renames
      row `id` violates the constraint. */
  predicate NameClash<D(==,!new)>(rows: seq<Row<D>>, id: int, uid: int, name: string) {
    exists x :: x in rows && x.userId == uid && x.name == name && x.id != id
  }

  predicate Matches<D>(x: Row<D>, id: int, uid: int) {
    x.id == id && x.userId == uid
  }

  /** `SELECT * FROM t WHERE id = ? AND user_id = ?` followed by `.first()`. */
  function FindRow<D(==,!new)>(rows: seq<Row<D>>, id: int, uid: int): (r: Option<Row<D>>)
    ensures r.Some? ==> r.value in rows && Matches(r.value, id, uid)
    ensures r.None? <==> forall x :: x in rows ==> !Matches(x, id, uid)
    decreases |rows|
  {
    if rows == [] then None
    else if Matches(rows[0], id, uid) then Some(rows[0])
    else FindRow(rows[1..], id, uid)
  }

  /** `meta.changes` of a statement whose WHERE clause is `id = ? AND user_id = ?`. */
  function CountWhere<D(==,!new)>(rows: seq<Row<D>>, id: int, uid: int): (n: nat)
    ensures n <= |rows|
    decreases |rows|
  {
    if rows == [] then 0
    else CountWhere(Init(rows), id, uid) + (if Matches(Last(rows), id, uid) then 1 else 0)
  }

  /** A statement changes no row exactly when no row has both the id and the owner. */
  lemma {:induction false} CountWhereNone<D(!new)>(rows: seq<Row<D>>, id: int, uid: int)
    ensures CountWhere(rows, id, uid) == 0 <==> forall x :: x in rows ==> !Matches(x, id, uid)
    decreases |rows|
  {
    if rows != [] {
      CountWhereNone(Init(rows), id, uid);
      assert rows == Init(rows) + [Last(rows)];
    }
  }

  /** `DELETE FROM t WHERE id = ? AND user_id = ?`. */
  function DeleteWhere<D(==,!new)>(rows: seq<Row<D>>, id: int, uid: int): (r: seq<Row<D>>)
    ensures forall x :: x in r <==> x in rows && !Matches(x, id, uid)
    ensures |r| + CountWhere(rows, id, uid) == |rows|
    decreases |rows|
  {
    if rows == [] then []
    else if Matches(Last(rows), id, uid) then DeleteWhere(Init(rows), id, uid)
    else DeleteWhere(Init(rows), id, uid) + [Last(rows)]
  }

  /** `UPDATE t SET name = ?, ... WHERE id = ? AND user_id = ?`: the matching rows take the new
      name and data, keep their id and owner, and stay where they are. */
  function UpdateWhere<D(==,!new)>(rows: seq<Row<D>>, id: int, uid: int, name: string, data: D): (r: seq<Row<D>>)
    ensures |r| == |rows|
    ensures forall i :: 0 <= i < |rows| ==>
      r[i] == if Matches(rows[i], id, uid) then Row(id, uid, name, data) else rows[i]
    decreases |rows|
  {
    if rows == [] then []
    else
      UpdateWhere(Init(rows), id, uid, name, data)
      + [if Matches(Last(rows), id, uid) then Row(id, uid, name, data) else Last(rows)]
  }

  /** A row id occurs at most once, so a statement on one id changes at most one row, and it
      changes one exactly when the lookup finds it. */
  lemma {:induction false} CountWhereFind<D(!new)>(rows: seq<Row<D>>, id: int, uid: int)
    requires IdsIncreasing(rows)
    ensures CountWhere(rows, id, uid) <= 1
    ensures CountWhere(rows, id, uid) == 1 <==> FindRow(rows, id, uid).Some?
    decreases |rows|
  {
    if rows != [] {
      CountWhereFind(Init(rows), id, uid);
      if Matches(Last(rows), id, uid) {
        assert Last(rows) in rows;
        forall x | x in Init(rows) ensures !Matches(x, id, uid) {
          var k :| 0 <= k < |Init(rows)| && Init(rows)[k] == x;
          assert rows[k] == x;
        }
        assert FindRow(Init(rows), id, uid).None?;
      } else {
        if FindRow(rows, id, uid).Some? {
          var x := FindRow(rows, id, uid).value;
          var k :| 0 <= k < |rows| && rows[k] == x;
          assert k < |rows| - 1;
          assert x in Init(rows);
        }
        if FindRow(Init(rows), id, uid).Some? {
          var x := FindRow(Init(rows), id, uid).value;
          assert x in rows;
        }
      }
    }
  }

  /** A new row heads its owner's listing; no other owner's listing changes. */
  lemma ListingInsert<D(!new)>(rows: seq<Row<D>>, x: Row<D>, uid: int)
    ensures Listing(rows + [x], uid) == if x.userId == uid then [x] + Listing(rows, uid) else Listing(rows, uid)
  {
    assert Init(rows + [x]) == rows;
  }

  /** Deleting one owner's row leaves every other owner's listing as it was. */
  lemma {:induction false} ListingDeleteOthers<D(!new)>(rows: seq<Row<D>>, id: int, uid: int, other: int)
    requires other != uid
    ensures Listing(DeleteWhere(rows, id, uid), other) == Listing(rows, other)
    decreases |rows|
  {
    if rows != [] {
      ListingDeleteOthers(Init(rows), id, uid, other);
      if !Matches(Last(rows), id, uid) {
        ListingInsert(DeleteWhere(Init(rows), id, uid), Last(rows), other);
      }
    }
  }

  /** Updating one owner's row leaves every other owner's listing as it was. */
  lemma {:induction false} ListingUpdateOthers<D(!new)>(rows: seq<Row<D>>, id: int, uid: int, name: string, data: D, other: int)
    requires other != uid
    ensures Listing(UpdateWhere(rows, id, uid, name, data), other) == Listing(rows, other)
    decreases |rows|
  {
    if rows != [] {
      ListingUpdateOthers(Init(rows), id, uid, name, data, other);
      var y := if Matches(Last(rows), id, uid) then Row(id, uid, name, data) else Last(rows);
      ListingInsert(UpdateWhere(Init(rows), id, uid, name, data), y, other);
    }
  }

  /** Appending a row with a fresh, larger id and a name its owner does not use yet keeps the
      table well formed. */
  lemma InsertWellFormed<D(!new)>(rows: seq<Row<D>>, nextId: int, x: Row<D>)
    requires WellFormed(rows, nextId)
    requires x.id == nextId && !OwnsName(rows, x.userId, x.name)
    ensures WellFormed(rows + [x], nextId + 1)
  {
    var r := rows + [x];
    forall i, j | 0 <= i < j < |r| && r[i].userId == r[j].userId
      ensures r[i].name != r[j].name
    {
      if j == |rows| {
        assert r[i] in rows;
      }
    }
  }

  /** Deleting rows keeps the table well formed. */
  lemma {:induction false} DeleteWellFormed<D(!new)>(rows: seq<Row<D>>, nextId: int, id: int, uid: int)
    requires WellFormed(rows, nextId)
    ensures WellFormed(DeleteWhere(rows, id, uid), nextId)
    decreases |rows|
  {
    if rows != [] {
      var init := Init(rows);
      assert WellFormed(init, nextId);
      DeleteWellFormed(init, nextId, id, uid);
      if !Matches(Last(rows), id, uid) {
        var d := DeleteWhere(init, id, uid);
        forall y | y in d ensures y.id < Last(rows).id && !(y.userId == Last(rows).userId && y.name == Last(rows).name) {
          var k :| 0 <= k < |init| && init[k] == y;
          assert rows[k] == y;
        }
        AppendWellFormed(d, Last(rows), nextId);
      }
    }
  }

  /** A row after every other by id, with a name its owner does not use, may be appended. */
  lemma AppendWellFormed<D(!new)>(rows: seq<Row<D>>, x: Row<D>, nextId: int)
    requires WellFormed(rows, nextId) && x.id < nextId
    requires forall y :: y in rows ==> y.id < x.id && !(y.userId == x.userId && y.name == x.name)
    ensures WellFormed(rows + [x], nextId)
  {
    var r := rows + [x];
    forall i, j | 0 <= i < j < |r| ensures r[i].id < r[j].id && (r[i].userId == r[j].userId ==> r[i].name != r[j].name) {
      if j == |rows| { assert r[i] in rows; }
    }
  }

  /** Renaming the row `id` of owner `uid` to a name no other row of that owner carries keeps
      the table well formed. */
  lemma UpdateWellFormed<D(!new)>(rows: seq<Row<D>>, nextId: int, id: int, uid: int, name: string, data: D)
    requires WellFormed(rows, nextId)
    requires !NameClash(rows, id, uid, name)
    ensures WellFormed(UpdateWhere(rows, id, uid, name, data), nextId)
  {
    var r := UpdateWhere(rows, id, uid, name, data);
    assert forall i :: 0 <= i < |r| ==> r[i].id == rows[i].id;
    forall i, j | 0 <= i < j < |r| && r[i].userId == r[j].userId
      ensures r[i].name != r[j].name
    {
      if Matches(rows[i], id, uid) {
        assert rows[j] in rows;
      } else if Matches(rows[j], id, uid) {
        assert rows[i] in rows;
      }
    }
  }

  /** An UPDATE whose WHERE clause matches no row leaves the table as it was. */
  lemma UpdateNoMatch<D(!new)>(rows: seq<Row<D>>, id: int, uid: int, name: string, data: D)
    requires FindRow(rows, id, uid).None?
    ensures UpdateWhere(rows, id, uid, name, data) == rows
  {
    var r := UpdateWhere(rows, id, uid, name, data);
    forall i | 0 <= i < |rows| ensures r[i] == rows[i] {
      assert rows[i] in rows;
    }
  }
}
