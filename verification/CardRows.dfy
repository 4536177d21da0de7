/**
 * Moving a card in the relational store (apps/api/internal/store/postgres/store.go), where a
 * column's order is kept only as position numbers on the card rows, and how far that refines
 * the in-memory store's move.
 */
module CardRows {
  import opened Common
  import opened BoardModel

  type Rows = map<Id, Card>

  // ---------- the order of a query ----------

  /** Ids in text order, the tie-break of ORDER BY position, id. */
  predicate IdLess(a: Id, b: Id) {
    b != "" && (a == "" || a[0] < b[0] || (a[0] == b[0] && IdLess(a[1..], b[1..])))
  }

  lemma {:induction false} IdLessTotal(a: Id, b: Id)
    ensures IdLess(a, b) || a == b || IdLess(b, a)
    ensures !(IdLess(a, b) && IdLess(b, a)) && !IdLess(a, a)
  {
    if a != "" {
      IdLessTotal(a[1..], a[1..]);
      if b != "" {
        IdLessTotal(a[1..], b[1..]);
        assert a == [a[0]] + a[1..] && b == [b[0]] + b[1..];
      }
    }
  }

  lemma {:induction false} IdLessTransitive(a: Id, b: Id, c: Id)
    requires IdLess(a, b) && IdLess(b, c)
    ensures IdLess(a, c)
  {
    if a != "" && a[0] == b[0] && b[0] == c[0] {
      IdLessTransitive(a[1..], b[1..], c[1..]);
    }
  }

  predicate Before(rows: Rows, x: Id, y: Id)
    requires x in rows && y in rows
  {
    rows[x].position < rows[y].position || (rows[x].position == rows[y].position && IdLess(x, y))
  }

  lemma BeforeTotal(rows: Rows, x: Id, y: Id)
    requires x in rows && y in rows
    ensures Before(rows, x, y) || x == y || Before(rows, y, x)
    ensures !(Before(rows, x, y) && Before(rows, y, x)) && !Before(rows, x, x)
  {
    IdLessTotal(x, y);
    IdLessTotal(x, x);
  }

  lemma BeforeTransitive(rows: Rows, x: Id, y: Id, z: Id)
    requires x in rows && y in rows && z in rows && Before(rows, x, y) && Before(rows, y, z)
    ensures Before(rows, x, z)
  {
    if IdLess(x, y) && IdLess(y, z) {
      IdLessTransitive(x, y, z);
    }
  }

  ghost predicate Sorted(rows: Rows, ids: seq<Id>) {
    && (forall i :: 0 <= i < |ids| ==> ids[i] in rows)
    && (forall i, j :: 0 <= i < j < |ids| ==> Before(rows, ids[i], ids[j]))
  }

  ghost predicate InColumn(rows: Rows, c: Id, k: Id) {
    k in rows && rows[k].columnId == c
  }

  /** What SELECT id FROM cards WHERE column_id = c ORDER BY position, id returns. */
  ghost predicate IsListing(rows: Rows, c: Id, ids: seq<Id>) {
    && Sorted(rows, ids)
    && forall k {:trigger InColumn(rows, c, k)} {:trigger k in ids} :: k in ids <==> InColumn(rows, c, k)
  }

  lemma {:induction false} SortedUnique(rows: Rows, a: seq<Id>, b: seq<Id>)
    requires Sorted(rows, a) && Sorted(rows, b) && forall k :: k in a <==> k in b
    ensures a == b
  {
    assert b != [] ==> b[0] in b;
    if a != [] {
      assert a[0] in a && a[0] in b;
      assert b[0] in b && b[0] in a;
      var i :| 0 <= i < |b| && b[i] == a[0];
      var j :| 0 <= j < |a| && a[j] == b[0];
      BeforeTotal(rows, a[0], b[0]);
      assert a[0] == b[0];
      forall k ensures k in a[1..] <==> k in b[1..] {
        SortedTail(rows, a, k);
        SortedTail(rows, b, k);
      }
      SortedUnique(rows, a[1..], b[1..]);
      assert a == [a[0]] + a[1..] && b == [b[0]] + b[1..];
    }
  }

  lemma SortedTail(rows: Rows, a: seq<Id>, k: Id)
    requires a != [] && Sorted(rows, a)
    ensures k in a[1..] <==> k in a && k != a[0]
  {
    if k in a && k != a[0] {
      var i :| 0 <= i < |a| && a[i] == k;
      assert a[1..][i - 1] == k;
    }
    if k in a[1..] {
      var i :| 0 <= i < |a[1..]| && a[1..][i] == k;
      BeforeTotal(rows, a[0], a[i + 1]);
    }
  }

  /** Adds one row to a result that is already in order. */
  function InsertSorted(rows: Rows, ids: seq<Id>, k: Id): seq<Id>
    requires k in rows && forall i :: 0 <= i < |ids| ==> ids[i] in rows
  {
    if ids == [] then [k]
    else if Before(rows, k, ids[0]) then [k] + ids
    else [ids[0]] + InsertSorted(rows, ids[1..], k)
  }

  lemma {:induction false} InsertSortedWorks(rows: Rows, ids: seq<Id>, k: Id)
    requires k in rows && Sorted(rows, ids) && k !in ids
    ensures Sorted(rows, InsertSorted(rows, ids, k))
    ensures forall x :: x in InsertSorted(rows, ids, k) <==> x in ids || x == k
  {
    if ids == [] {
    } else if Before(rows, k, ids[0]) {
      forall j | 0 < j < |ids| ensures Before(rows, k, ids[j]) {
        BeforeTransitive(rows, k, ids[0], ids[j]);
      }
    } else {
      InsertSortedWorks(rows, ids[1..], k);
      var rest := InsertSorted(rows, ids[1..], k);
      BeforeTotal(rows, k, ids[0]);
      forall j | 0 <= j < |rest| ensures Before(rows, ids[0], rest[j]) {
        assert rest[j] in rest;
        if rest[j] != k {
          var i :| 0 <= i < |ids[1..]| && ids[1..][i] == rest[j];
          assert Before(rows, ids[0], ids[i + 1]);
        }
      }
      assert ids == [ids[0]] + ids[1..];
    }
  }

  lemma {:induction false} SortedExists(rows: Rows, ks: set<Id>) returns (ids: seq<Id>)
    requires ks <= rows.Keys
    ensures Sorted(rows, ids) && forall k :: k in ids <==> k in ks
  {
    ids := [];
    if ks != {} {
      var k :| k in ks;
      var rest := SortedExists(rows, ks - {k});
      InsertSortedWorks(rows, rest, k);
      ids := InsertSorted(rows, rest, k);
    }
  }

  lemma ListingExists(rows: Rows, c: Id)
    ensures exists ids :: IsListing(rows, c, ids)
  {
    var ids := SortedExists(rows, set k | k in rows && rows[k].columnId == c);
    assert IsListing(rows, c, ids);
  }

  /** The one result the query can have. */
  ghost function Listing(rows: Rows, c: Id): (ids: seq<Id>)
    ensures IsListing(rows, c, ids)
  {
    ListingExists(rows, c);
    var ids :| IsListing(rows, c, ids);
    ids
  }

  lemma ListingIs(rows: Rows, c: Id, ids: seq<Id>)
    requires IsListing(rows, c, ids)
    ensures Listing(rows, c) == ids
  {
    forall k ensures k in ids <==> k in Listing(rows, c) {
      assert k in ids <==> InColumn(rows, c, k);
      assert k in Listing(rows, c) <==> InColumn(rows, c, k);
    }
    SortedUnique(rows, ids, Listing(rows, c));
  }

  lemma ListingNoDup(rows: Rows, c: Id)
    ensures NoDup(Listing(rows, c))
  {
    var ids := Listing(rows, c);
    forall i, j | 0 <= i < j < |ids| ensures ids[i] != ids[j] {
      BeforeTotal(rows, ids[i], ids[j]);
    }
  }

  /** A list of the column's rows along which positions climb is the query's result. */
  lemma ListingClimbs(rows: Rows, c: Id, ids: seq<Id>)
    requires forall k :: k in ids <==> InColumn(rows, c, k)
    requires forall i, j :: 0 <= i < j < |ids| && ids[i] in rows && ids[j] in rows ==>
        rows[ids[i]].position < rows[ids[j]].position
    ensures Listing(rows, c) == ids
  {
    forall i | 0 <= i < |ids| ensures ids[i] in rows {
      assert ids[i] in ids;
      assert InColumn(rows, c, ids[i]);
    }
    ListingIs(rows, c, ids);
  }

  /** The result depends only on which rows are in the column and on their positions. */
  lemma ListingFrame(rows: Rows, rows': Rows, c: Id)
    requires forall k :: InColumn(rows, c, k) <==> InColumn(rows', c, k)
    requires forall k :: InColumn(rows, c, k) ==> k in rows' && rows'[k].position == rows[k].position
    ensures Listing(rows', c) == Listing(rows, c)
  {
    var ids := Listing(rows, c);
    forall i | 0 <= i < |ids| ensures ids[i] in rows' && rows'[ids[i]].position == rows[ids[i]].position {
      assert ids[i] in ids;
      assert InColumn(rows, c, ids[i]);
    }
    assert Sorted(rows', ids);
    assert IsListing(rows', c, ids);
    ListingIs(rows', c, ids);
  }

  // ---------- the transaction ----------

  /** The final UPDATE of a move: five columns of one row. */
  function UpdateMoved(rows: Rows, moved: Card): Rows
    requires moved.id in rows
  {
    rows[moved.id := rows[moved.id].(columnId := moved.columnId, position := moved.position,
                                     completedAt := moved.completedAt, version := moved.version,
                                     updatedAt := moved.updatedAt)]
  }

  ghost function MoveRows(rows: Rows, columns: map<Id, Column>, cardId: Id, targetId: Id,
                          position: int, version: int, now: Time): (Rows, Outcome<Card>)
    requires cardId in rows ==> rows[cardId].id == cardId
  {
    if cardId !in rows then (rows, Err(NotFound))
    else
      var c := rows[cardId];
      if c.version != version then (rows, Stale(c))
      else if targetId !in columns then (rows, Err(NotFound))
      else if columns[targetId].boardId != c.boardId then (rows, Err(Forbidden))
      else
        var rows1 := ReindexCards(rows, Without(Listing(rows, c.columnId), cardId));
        var ids := Listing(rows1, targetId);
        var k := Clamp(position, |ids|);
        var c' := Moved(c, columns[targetId], k, now);
        (UpdateMoved(ReindexCards(rows1, InsertAt(ids, k, cardId)), c'), Ok(c'))
  }

  class Table {
    var rows: Rows
    const columns: map<Id, Column>

    constructor (rows: Rows, columns: map<Id, Column>)
      ensures this.rows == rows && this.columns == columns
    {
      this.rows := rows;
      this.columns := columns;
    }

    /** The query, as the database would answer it. */
    method ColumnCardIDs(columnId: Id) returns (ids: seq<Id>)
      ensures ids == Listing(rows, columnId)
    {
      ids := [];
      var rest := rows.Keys;
      while rest != {}
        invariant rest <= rows.Keys
        invariant Sorted(rows, ids)
        invariant forall k :: k in ids <==> k in rows && k !in rest && rows[k].columnId == columnId
        decreases rest
      {
        var k :| k in rest;
        rest := rest - {k};
        if rows[k].columnId == columnId {
          InsertSortedWorks(rows, ids, k);
          ids := InsertSorted(rows, ids, k);
        }
      }
      assert IsListing(rows, columnId, ids);
      ListingIs(rows, columnId, ids);
    }

    method ApplyPositions(ids: seq<Id>)
      modifies this`rows
      ensures rows == ReindexCards(old(rows), ids)
    {
      for i := 0 to |ids|
        invariant rows == ReindexCards(old(rows), ids[..i])
      {
        LastIndexSnoc(ids, i);
        if ids[i] in rows {
          var c := rows[ids[i]].(position := i);
          rows := rows[ids[i] := c];
        }
      }
      assert ids[..|ids|] == ids;
    }

    method ReindexWithout(columnId: Id, skipId: Id)
      modifies this`rows
      ensures rows == ReindexCards(old(rows), Without(Listing(old(rows), columnId), skipId))
    {
      var ids := ColumnCardIDs(columnId);
      var kept := [];
      for i := 0 to |ids|
        invariant rows == old(rows) && kept == Without(ids[..i], skipId)
      {
        WithoutConcat(ids[..i], [ids[i]], skipId);
        assert ids[..i + 1] == ids[..i] + [ids[i]];
        if ids[i] != skipId {
          kept := kept + [ids[i]];
        }
      }
      assert ids[..|ids|] == ids;
      ApplyPositions(kept);
    }

    method MoveCard(cardId: Id, targetId: Id, position: int, version: int, now: Time) returns (r: Outcome<Card>)
      requires forall k :: k in rows ==> rows[k].id == k
      requires forall c :: c in columns ==> columns[c].id == c
      modifies this`rows
      ensures (rows, r) == MoveRows(old(rows), columns, cardId, targetId, position, version, now)
    {
      if cardId !in rows {
        return Err(NotFound);
      }
      var c := rows[cardId];
      if c.version != version {
        return Stale(c);
      }
      if targetId !in columns {
        return Err(NotFound);
      }
      var target := columns[targetId];
      if target.boardId != c.boardId {
        return Err(Forbidden);
      }
      ReindexWithout(c.columnId, cardId);
      var ids := ColumnCardIDs(targetId);
      var at := position;
      if at < 0 {
        at := 0;
      }
      if at > |ids| {
        at := |ids|;
      }
      var newIds := ids[..at];
      newIds := newIds + [cardId];
      newIds := newIds + ids[at..];
      ApplyPositions(newIds);
      c := c.(columnId := targetId, position := at);
      if ColumnIsDone(target.name) {
        if c.completedAt == None {
          c := c.(completedAt := Some(now));
        }
      } else {
        c := c.(completedAt := None);
      }
      c := c.(version := c.version + 1, updatedAt := now);
      rows := UpdateMoved(rows, c);
      r := Ok(c);
    }
  }

  /** Ids are compared letter by letter; a proper beginning comes first. */
  lemma {:induction false} IdLessIff(a: Id, b: Id)
    ensures IdLess(a, b) <==>
            exists i: nat {:trigger a[..i]} :: i <= |a| && i <= |b| && a[..i] == b[..i]
                                               && i < |b| && (i == |a| || a[i] < b[i])
  {
    if IdLess(a, b) {
      var i := FirstDifference(a, b);
      assert a[..i] == b[..i];
    }
    if i: nat :| i <= |a| && i <= |b| && a[..i] == b[..i] && i < |b| && (i == |a| || a[i] < b[i]) {
      DiffersAt(a, b, i);
    }
  }

  lemma {:induction false} FirstDifference(a: Id, b: Id) returns (i: nat)
    requires IdLess(a, b)
    ensures i <= |a| && i < |b| && a[..i] == b[..i] && (i == |a| || a[i] < b[i])
  {
    if a == "" || a[0] < b[0] {
      i := 0;
    } else {
      var k := FirstDifference(a[1..], b[1..]);
      i := k + 1;
      assert a[..i] == [a[0]] + a[1..][..k] && b[..i] == [b[0]] + b[1..][..k];
    }
  }

  lemma {:induction false} DiffersAt(a: Id, b: Id, i: nat)
    requires i <= |a| && i < |b| && a[..i] == b[..i] && (i == |a| || a[i] < b[i])
    ensures IdLess(a, b)
  {
    if i > 0 {
      assert a[0] == a[..i][0] == b[..i][0] == b[0];
      assert a[1..][..i - 1] == a[..i][1..] && b[1..][..i - 1] == b[..i][1..];
      DiffersAt(a[1..], b[1..], i - 1);
    }
  }
}
