/** The in-memory store's board operations, map by map and loop by loop, against BoardModel. */
module BoardStore {
  import opened Common
  import opened BoardModel
  import BoardRuns

  class Store {
    var workspaces: set<Id>
    var boards: map<Id, Board>
    var columns: map<Id, Column>
    var cards: map<Id, Card>
    var boardCols: map<Id, seq<Id>>
    var columnCards: map<Id, seq<Id>>
    var sprints: map<Id, Sprint>

    function State(): State
      reads this
    {
      BoardModel.State(workspaces, boards, columns, cards, boardCols, columnCards, sprints)
    }

    ghost predicate Valid()
      reads this
    {
      Inv(State())
    }

    constructor ()
      ensures Valid() && State() == EMPTY
    {
      workspaces := {};
      boards, columns, cards, sprints := map[], map[], map[], map[];
      boardCols, columnCards := map[], map[];
    }

    method CreateBoard(wsId: Id, name: string, now: Time, id: Id, colIds: seq<Id>)
      returns (r: Outcome<Board>, created: seq<Column>)
      requires Valid() && BoardRuns.IdsAreNew(State(), BoardRuns.AddBoard(wsId, name, id, colIds))
      modifies this
      ensures Valid()
      ensures (State(), r) == BoardModel.CreateBoard(old(State()), wsId, name, now, id, colIds)
      ensures if r.Ok? then ListsDefaults(created, colIds, id, now) else created == []
    {
      CreateBoardKeepsInv(State(), wsId, name, now, id, colIds);
      if wsId !in workspaces {
        return Err(NotFound), [];
      }
      r, created := AddBoard(wsId, name, now, id, colIds);
    }

    method AddBoard(wsId: Id, name: string, now: Time, id: Id, colIds: seq<Id>)
      returns (r: Outcome<Board>, created: seq<Column>)
      requires wsId in workspaces && |colIds| == |DEFAULT_COLUMNS| && NoDup(colIds)
      modifies this
      ensures (State(), r) == BoardModel.CreateBoard(old(State()), wsId, name, now, id, colIds)
      ensures ListsDefaults(created, colIds, id, now)
    {
      var board := Board(id, wsId, name, now, None);
      boards := boards[id := board];
      created := AddDefaultColumns(id, colIds, now);
      boardCols := boardCols[id := colIds];
      r := Ok(board);
    }

    /** The loop that gives a new board its three columns. */
    method AddDefaultColumns(boardId: Id, colIds: seq<Id>, now: Time) returns (created: seq<Column>)
      requires |colIds| == |DEFAULT_COLUMNS| && NoDup(colIds)
      modifies this`columns, this`columnCards
      ensures columns == old(columns) + NewColumns(colIds, boardId, now)
      ensures columnCards == old(columnCards) + NewLists(colIds)
      ensures ListsDefaults(created, colIds, boardId, now)
    {
      created := [];
      for i := 0 to |DEFAULT_COLUMNS|
        invariant columns == old(columns) + NewColumns(colIds[..i], boardId, now)
        invariant columnCards == old(columnCards) + NewLists(colIds[..i])
        invariant ListsDefaults(created, colIds[..i], boardId, now)
      {
        NewColumnsSnoc(colIds, boardId, now, i);
        var col := Column(colIds[i], boardId, DEFAULT_COLUMNS[i], i, now);
        UnionUpdate(old(columns), NewColumns(colIds[..i], boardId, now), col.id, col);
        UnionUpdate(old(columnCards), NewLists(colIds[..i]), col.id, []);
        columns := columns[col.id := col];
        columnCards := columnCards[col.id := []];
        created := created + [col];
      }
      assert colIds[..|DEFAULT_COLUMNS|] == colIds;
    }

    method ArchiveBoard(boardId: Id, now: Time) returns (r: Outcome<()>)
      requires Valid()
      modifies this`boards
      ensures Valid()
      ensures (State(), r) == BoardModel.ArchiveBoard(old(State()), boardId, Some(now))
    {
      ArchiveBoardKeepsInv(State(), boardId, Some(now));
      if boardId !in boards {
        return Err(NotFound);
      }
      boards := boards[boardId := boards[boardId].(archivedAt := Some(now))];
      r := Ok(());
    }

    method UnarchiveBoard(boardId: Id) returns (r: Outcome<()>)
      requires Valid()
      modifies this`boards
      ensures Valid()
      ensures (State(), r) == BoardModel.ArchiveBoard(old(State()), boardId, None)
    {
      ArchiveBoardKeepsInv(State(), boardId, None);
      if boardId !in boards {
        return Err(NotFound);
      }
      boards := boards[boardId := boards[boardId].(archivedAt := None)];
      r := Ok(());
    }

    method CreateColumn(boardId: Id, name: string, now: Time, id: Id) returns (r: Outcome<Column>)
      requires Valid() && Fresh(State(), id)
      modifies this
      ensures Valid()
      ensures (State(), r) == BoardModel.CreateColumn(old(State()), boardId, name, now, id)
    {
      CreateColumnKeepsInv(State(), boardId, name, now, id);
      if boardId !in boards {
        return Err(NotFound);
      }
      var col := Column(id, boardId, name, |boardCols[boardId]|, now);
      columns := columns[id := col];
      boardCols := boardCols[boardId := boardCols[boardId] + [id]];
      columnCards := columnCards[id := []];
      r := Ok(col);
    }

    method RenameColumn(columnId: Id, name: string) returns (r: Outcome<Column>)
      requires Valid()
      modifies this`columns
      ensures Valid()
      ensures (State(), r) == BoardModel.RenameColumn(old(State()), columnId, name)
    {
      RenameColumnKeepsInv(State(), columnId, name);
      if columnId !in columns {
        return Err(NotFound);
      }
      var col := columns[columnId].(name := name);
      columns := columns[columnId := col];
      r := Ok(col);
    }

    /** Stores every listed column's index as its position. */
    method ReindexBoard(ids: seq<Id>)
      requires forall c :: c in ids ==> c in columns
      modifies this`columns
      ensures columns == ReindexColumns(old(columns), ids)
    {
      ghost var columns0 := columns;
      for i := 0 to |ids|
        invariant columns == ReindexColumns(columns0, ids[..i])
      {
        LastIndexSnoc(ids, i);
        assert ids[i] in ids;
        var c := columns[ids[i]].(position := i);
        columns := columns[ids[i] := c];
      }
      assert ids[..|ids|] == ids;
    }

    /** Stores every listed card's index as its position. */
    method ReindexColumn(columnId: Id)
      requires columnId in columnCards && forall k :: k in columnCards[columnId] ==> k in cards
      modifies this`cards
      ensures cards == ReindexCards(old(cards), columnCards[columnId])
    {
      var ids := columnCards[columnId];
      ghost var cards0 := cards;
      for i := 0 to |ids|
        invariant cards == ReindexCards(cards0, ids[..i])
      {
        LastIndexSnoc(ids, i);
        assert ids[i] in ids;
        var c := cards[ids[i]].(position := i);
        cards := cards[ids[i] := c];
      }
      assert ids[..|ids|] == ids;
    }

    /** The loop that copies a list without one id. */
    static method CopyWithout(ids: seq<Id>, skip: Id) returns (next: seq<Id>)
      ensures next == Without(ids, skip)
    {
      next := [];
      for i := 0 to |ids|
        invariant next == Without(ids[..i], skip)
      {
        WithoutConcat(ids[..i], [ids[i]], skip);
        assert ids[..i + 1] == ids[..i] + [ids[i]];
        if ids[i] != skip {
          next := next + [ids[i]];
        }
      }
      assert ids[..|ids|] == ids;
    }

    method DeleteColumn(columnId: Id) returns (r: Outcome<()>)
      requires Valid()
      modifies this`boardCols, this`columns, this`columnCards
      ensures Valid()
      ensures (State(), r) == BoardModel.DeleteColumn(old(State()), columnId)
    {
      DeleteColumnKeepsInv(State(), columnId);
      if columnId !in columns {
        return Err(NotFound);
      }
      if |columnCards[columnId]| > 0 {
        return Err(Invalid);
      }
      assert ColumnListed(State(), columnId);
      var b := columns[columnId].boardId;
      var ids := boardCols[b];
      if |ids| <= 1 {
        return Err(Forbidden);
      }
      var next := CopyWithout(ids, columnId);
      boardCols := boardCols[b := next];
      forall c | c in next ensures c in columns {
        WithoutElements(ids, columnId);
        InvMeaning(old(State()), b, c, "");
      }
      ReindexBoard(next);
      columns := columns - {columnId};
      columnCards := columnCards - {columnId};
      r := Ok(());
    }

    /** Checks a proposed order against the current one by crossing off ids. */
    static method IsReordering(current: seq<Id>, proposed: seq<Id>) returns (ok: bool)
      requires NoDup(current)
      ensures ok <==> multiset(proposed) == multiset(current)
    {
      if |current| != |proposed| {
        assert |multiset(current)| == |current| && |multiset(proposed)| == |proposed|;
        return false;
      }
      var seen := set c | c in current;
      for i := 0 to |proposed|
        invariant forall c :: c in proposed[..i] ==> c in current
        invariant NoDup(proposed[..i])
        invariant seen == (set c | c in current && c !in proposed[..i])
      {
        assert proposed[..i + 1] == proposed[..i] + [proposed[i]];
        if proposed[i] !in seen {
          RejectedOrder(current, proposed, i);
          return false;
        }
        seen := seen - {proposed[i]};
      }
      assert proposed[..|proposed|] == proposed;
      if seen != {} {
        if multiset(proposed) == multiset(current) {
          PermutationElements(proposed, current);
        }
        return false;
      }
      forall c ensures c in proposed <==> c in current {
        assert c in current && c !in proposed ==> c in seen;
      }
      SameElementsPermutation(proposed, current);
      return true;
    }

    method ReorderColumns(boardId: Id, columnIds: seq<Id>) returns (r: Outcome<()>)
      requires Valid()
      modifies this`boardCols, this`columns
      ensures Valid()
      ensures (State(), r) == BoardModel.ReorderColumns(old(State()), boardId, columnIds)
    {
      ReorderColumnsKeepsInv(State(), boardId, columnIds);
      if boardId !in boards {
        return Err(NotFound);
      }
      InvMeaning(State(), boardId, "", "");
      var ok := IsReordering(boardCols[boardId], columnIds);
      if !ok {
        return Err(Invalid);
      }
      forall c | c in columnIds ensures c in columns {
        PermutationElements(columnIds, boardCols[boardId]);
        InvMeaning(old(State()), boardId, c, "");
      }
      boardCols := boardCols[boardId := columnIds];
      ReindexBoard(columnIds);
      r := Ok(());
    }

    method CreateCard(columnId: Id, title: string, description: string, now: Time, id: Id) returns (r: Outcome<Card>)
      requires Valid() && Fresh(State(), id)
      modifies this`cards, this`columnCards
      ensures Valid()
      ensures (State(), r) == BoardModel.CreateCard(old(State()), columnId, title, description, now, id)
    {
      CreateCardKeepsInv(State(), columnId, title, description, now, id);
      if columnId !in columns {
        return Err(NotFound);
      }
      var col := columns[columnId];
      assert ColumnListed(State(), columnId);
      if col.boardId !in boards {
        return Err(NotFound);
      }
      var pos := |columnCards[columnId]|;
      var card := Card(id, columnId, col.boardId, title, description, pos, 1, "", None, now, now);
      if ColumnIsDone(col.name) {
        card := card.(completedAt := Some(now));
      }
      cards := cards[id := card];
      columnCards := columnCards[columnId := columnCards[columnId] + [id]];
      r := Ok(card);
    }

    method UpdateCard(cardId: Id, title: string, description: string, sprintId: Option<Id>, version: int, now: Time)
      returns (r: Outcome<Card>)
      requires Valid()
      modifies this`cards
      ensures Valid()
      ensures (State(), r) == BoardModel.UpdateCard(old(State()), cardId, title, description, sprintId, version, now)
    {
      UpdateCardKeepsInv(State(), cardId, title, description, sprintId, version, now);
      if cardId !in cards {
        return Err(NotFound);
      }
      var c := cards[cardId];
      if c.version != version {
        return Stale(c);
      }
      if title != "" {
        c := c.(title := title);
      }
      c := c.(description := description);
      match sprintId {
        case None =>
        case Some(sid) =>
          if sid == "" {
            c := c.(sprintId := "");
          } else {
            if sid !in sprints {
              return Err(NotFound);
            }
            if sprints[sid].boardId != c.boardId {
              return Err(Invalid);
            }
            c := c.(sprintId := sid);
          }
      }
      c := c.(version := c.version + 1, updatedAt := now);
      cards := cards[cardId := c];
      r := Ok(c);
    }

    method MoveCard(cardId: Id, targetId: Id, position: int, version: int, now: Time) returns (r: Outcome<Card>)
      requires Valid()
      modifies this`cards, this`columnCards
      ensures Valid()
      ensures (State(), r) == BoardModel.MoveCard(old(State()), cardId, targetId, position, version, now)
    {
      BoardRuns.MoveCardKeepsInv(State(), cardId, targetId, position, version, now);
      if cardId !in cards {
        return Err(NotFound);
      }
      var c := cards[cardId];
      if c.version != version {
        return Stale(c);
      }
      if targetId !in columns {
        return Err(NotFound);
      }
      var targetCol := columns[targetId];
      if targetCol.boardId != c.boardId {
        return Err(Forbidden);
      }
      assert CardListed(State(), cardId);
      BoardRuns.ListsHoldTheirCards(State());
      c := Relocate(cardId, targetId, position, now);
      r := Ok(c);
    }

    /** The part of a move that changes the store. */
    method Relocate(cardId: Id, targetId: Id, position: int, now: Time) returns (c: Card)
      requires cardId in cards && targetId in columns && columns[targetId].id == targetId
      requires cards[cardId].columnId in columnCards && targetId in columnCards
      requires cardId in columnCards[cards[cardId].columnId]
      requires forall k :: k in columnCards[cards[cardId].columnId] || k in columnCards[targetId] ==> k in cards
      modifies this`cards, this`columnCards
      ensures var source := old(cards)[cardId].columnId;
              var kept := Without(old(columnCards)[source], cardId);
              var removed := old(columnCards)[source := kept];
              var k := Clamp(position, |removed[targetId]|);
              var placed := InsertAt(removed[targetId], k, cardId);
              && c == Moved(old(cards)[cardId], columns[targetId], k, now)
              && columnCards == removed[targetId := placed]
              && cards == ReindexCards(ReindexCards(old(cards), kept), placed)[cardId := c]
    {
      c := cards[cardId];
      WithoutElements(columnCards[c.columnId], cardId);
      TakeOut(cardId, c.columnId);
      var pos := PutIn(cardId, targetId, position);
      c := c.(columnId := targetId, position := pos);
      if ColumnIsDone(columns[targetId].name) {
        if c.completedAt == None {
          c := c.(completedAt := Some(now));
        }
      } else {
        c := c.(completedAt := None);
      }
      c := c.(version := c.version + 1, updatedAt := now);
      cards := cards[cardId := c];
    }

    /** Rebuilds the old column's list without the card and renumbers it. */
    method TakeOut(cardId: Id, columnId: Id)
      requires columnId in columnCards && cardId in columnCards[columnId]
      requires forall k :: k in columnCards[columnId] ==> k in cards
      modifies this`cards, this`columnCards
      ensures columnCards == old(columnCards)[columnId := Without(old(columnCards)[columnId], cardId)]
      ensures cards == ReindexCards(old(cards), columnCards[columnId])
    {
      var oldIds := columnCards[columnId];
      assert |oldIds| - 1 >= 0;  // the capacity asked for is never negative
      var newOld := CopyWithout(oldIds, cardId);
      WithoutElements(oldIds, cardId);
      columnCards := columnCards[columnId := newOld];
      ReindexColumn(columnId);
    }

    /** Puts the card into the target list at the clamped position and renumbers it. */
    method PutIn(cardId: Id, targetId: Id, position: int) returns (pos: nat)
      requires targetId in columnCards && cardId in cards
      requires forall k :: k in columnCards[targetId] ==> k in cards
      modifies this`cards, this`columnCards
      ensures pos == Clamp(position, |old(columnCards)[targetId]|)
      ensures columnCards == old(columnCards)[targetId := InsertAt(old(columnCards)[targetId], pos, cardId)]
      ensures cards == ReindexCards(old(cards), columnCards[targetId])
    {
      var targetIds := columnCards[targetId];
      var at := position;
      if at < 0 {
        at := 0;
      }
      if at > |targetIds| {
        at := |targetIds|;
      }
      pos := at;
      InsertAtElements(targetIds, pos, cardId);
      targetIds := targetIds[..pos] + ([cardId] + targetIds[pos..]);
      assert targetIds == InsertAt(columnCards[targetId], pos, cardId);
      columnCards := columnCards[targetId := targetIds];
      ReindexColumn(targetId);
    }

    method CreateSprint(boardId: Id, name: string, startAt: Time, endAt: Time, now: Time, id: Id)
      returns (r: Outcome<Sprint>)
      requires Valid() && Fresh(State(), id)
      modifies this`sprints
      ensures Valid()
      ensures (State(), r) == BoardModel.CreateSprint(old(State()), boardId, name, startAt, endAt, now, id)
    {
      CreateSprintKeepsInv(State(), boardId, name, startAt, endAt, now, id);
      if boardId !in boards {
        return Err(NotFound);
      }
      var sp := Sprint(id, boardId, boards[boardId].workspaceId, name, startAt, endAt, now);
      sprints := sprints[id := sp];
      r := Ok(sp);
    }

    method UpdateSprint(sprintId: Id, name: string, startAt: Option<Time>, endAt: Option<Time>)
      returns (r: Outcome<Sprint>)
      requires Valid()
      modifies this`sprints
      ensures Valid()
      ensures (State(), r) == BoardModel.UpdateSprint(old(State()), sprintId, name, startAt, endAt)
    {
      UpdateSprintKeepsInv(State(), sprintId, name, startAt, endAt);
      if sprintId !in sprints {
        return Err(NotFound);
      }
      var sp := sprints[sprintId];
      if name != "" {
        sp := sp.(name := name);
      }
      if startAt.Some? {
        sp := sp.(startAt := startAt.value);
      }
      if endAt.Some? {
        sp := sp.(endAt := endAt.value);
      }
      sprints := sprints[sprintId := sp];
      r := Ok(sp);
    }

    /** The cards are visited in no particular order. */
    method DeleteSprint(sprintId: Id) returns (r: Outcome<()>)
      requires Valid()
      modifies this`sprints, this`cards
      ensures Valid()
      ensures (State(), r) == BoardModel.DeleteSprint(old(State()), sprintId)
    {
      DeleteSprintKeepsInv(State(), sprintId);
      if sprintId !in sprints {
        return Err(NotFound);
      }
      sprints := sprints - {sprintId};
      TakeOffSprint(sprintId);
      r := Ok(());
    }

    /** The loop over all cards that clears one sprint. */
    method TakeOffSprint(sprintId: Id)
      modifies this`cards
      ensures cards == ClearSprint(old(cards), sprintId)
    {
      ghost var cards0 := cards;
      var rest := cards.Keys;
      while rest != {}
        invariant rest <= cards0.Keys == cards.Keys
        invariant forall k :: k in cards0 ==>
                                cards[k] == if k in rest then cards0[k] else ClearSprint(cards0, sprintId)[k]
        decreases rest
      {
        var k :| k in rest;
        rest := rest - {k};
        if cards[k].sprintId == sprintId {
          cards := cards[k := cards[k].(sprintId := "")];
        }
      }
      assert cards == ClearSprint(cards0, sprintId);
    }
  }

  /** A new board's columns, in order. */
  predicate ListsDefaults(created: seq<Column>, colIds: seq<Id>, boardId: Id, now: Time) {
    && |created| == |colIds| <= |DEFAULT_COLUMNS|
    && forall k :: 0 <= k < |created| ==> created[k] == Column(colIds[k], boardId, DEFAULT_COLUMNS[k], k, now)
  }

  /** An id outside what is still expected means the proposal is no permutation. */
  lemma RejectedOrder(current: seq<Id>, proposed: seq<Id>, i: nat)
    requires NoDup(current) && i < |proposed|
    requires proposed[i] in proposed[..i] || proposed[i] !in current
    ensures multiset(proposed) != multiset(current)
  {
    if multiset(proposed) == multiset(current) {
      PermutationElements(proposed, current);
      PermutationNoDup(proposed, current);
    }
  }
}
