/**
 * The kanban board as values: the records, the maps that index them, what every store
 * operation makes of them, and the invariant that all of them keep
 * (apps/api/internal/store/memory/store.go).
 */
module BoardModel {
  import opened Common

  datatype Board = Board(id: Id, workspaceId: Id, name: string, createdAt: Time, archivedAt: Option<Time>)

  datatype Column = Column(id: Id, boardId: Id, name: string, position: int, createdAt: Time)

  datatype Card = Card(id: Id, columnId: Id, boardId: Id, title: string, description: string,
                       position: int, version: int, sprintId: Id, completedAt: Option<Time>,
                       createdAt: Time, updatedAt: Time)

  datatype Sprint = Sprint(id: Id, boardId: Id, workspaceId: Id, name: string,
                           startAt: Time, endAt: Time, createdAt: Time)

  /** `boardCols` and `columnCards` hold, redundantly, the order that the position fields also hold. */
  datatype State = State(
    workspaces: set<Id>,
    boards: map<Id, Board>,
    columns: map<Id, Column>,
    cards: map<Id, Card>,
    boardCols: map<Id, seq<Id>>,
    columnCards: map<Id, seq<Id>>,
    sprints: map<Id, Sprint>)

  const EMPTY := State({}, map[], map[], map[], map[], map[], map[])

  const DEFAULT_COLUMNS: seq<string> := ["To Do", "In Progress", "Done"]

  /** strings.EqualFold(strings.TrimSpace(name), "Done"): no other rune folds to these four letters. */
  predicate ColumnIsDone(name: string) {
    var t := TrimSpace(name);
    && |t| == 4
    && (t[0] == 'd' || t[0] == 'D') && (t[1] == 'o' || t[1] == 'O')
    && (t[2] == 'n' || t[2] == 'N') && (t[3] == 'e' || t[3] == 'E')
  }

  // ---------- the invariant ----------

  /** Every board has a non-empty column list whose entry number i is a column of that board at position i. */
  ghost predicate BoardListsOk(s: State) {
    && s.boardCols.Keys == s.boards.Keys
    && (forall b :: b in s.boards ==> s.boardCols[b] != [])
    && (forall b, i {:trigger ColumnAt(s, s.boardCols[b][i], b, i)} :: b in s.boards && 0 <= i < |s.boardCols[b]| ==>
                   ColumnAt(s, s.boardCols[b][i], b, i))
  }

  ghost predicate ColumnAt(s: State, c: Id, b: Id, i: int) {
    c in s.columns && s.columns[c].boardId == b && s.columns[c].position == i
  }

  /** Every column stands at its own position in its board's list. */
  ghost predicate ColumnsOk(s: State) {
    && s.columnCards.Keys == s.columns.Keys
    && (forall c {:trigger ColumnListed(s, c)} :: c in s.columns ==> ColumnListed(s, c))
  }

  ghost predicate ColumnListed(s: State, c: Id)
    requires c in s.columns
  {
    var b, p := s.columns[c].boardId, s.columns[c].position;
    b in s.boards && b in s.boardCols && 0 <= p < |s.boardCols[b]| && s.boardCols[b][p] == c
  }

  /** Entry number i of a column's card list is a card of that column at position i. */
  ghost predicate CardListsOk(s: State) {
    forall c, i {:trigger CardAt(s.cards, s.columnCards[c][i], c, i)} ::
      c in s.columnCards && 0 <= i < |s.columnCards[c]| ==> CardAt(s.cards, s.columnCards[c][i], c, i)
  }

  ghost predicate CardAt(cards: map<Id, Card>, k: Id, c: Id, i: int) {
    k in cards && cards[k].columnId == c && cards[k].position == i
  }

  /** Every card stands at its own position in its column's list, on its column's board. */
  ghost predicate CardsOk(s: State) {
    forall k {:trigger CardListed(s, k)} :: k in s.cards ==> CardListed(s, k)
  }

  ghost predicate CardListed(s: State, k: Id)
    requires k in s.cards
  {
    var c, p := s.cards[k].columnId, s.cards[k].position;
    && c in s.columns && c in s.columnCards && s.cards[k].boardId == s.columns[c].boardId
    && 0 <= p < |s.columnCards[c]| && s.columnCards[c][p] == k
  }

  /** A card's sprint, if it has one, is a live sprint of the card's board. */
  ghost predicate SprintsOk(s: State) {
    && "" !in s.sprints
    && forall k {:trigger SprintLive(s, s.cards[k])} :: k in s.cards && s.cards[k].sprintId != "" ==>
        SprintLive(s, s.cards[k])
  }

  ghost predicate SprintLive(s: State, c: Card) {
    c.sprintId in s.sprints && s.sprints[c.sprintId].boardId == c.boardId
  }

  /** Records are filed under their own ids. */
  ghost predicate IdsOk(s: State) {
    && (forall b :: b in s.boards ==> s.boards[b].id == b)
    && (forall c :: c in s.columns ==> s.columns[c].id == c)
    && (forall k :: k in s.cards ==> s.cards[k].id == k)
    && (forall p :: p in s.sprints ==> s.sprints[p].id == p)
  }

  ghost predicate Inv(s: State) {
    BoardListsOk(s) && ColumnsOk(s) && CardListsOk(s) && CardsOk(s) && SprintsOk(s) && IdsOk(s)
  }

  /** What the invariant says about one board and one column, in terms of whole lists. */
  lemma InvMeaning(s: State, b: Id, c: Id, k: Id)
    requires Inv(s)
    ensures b in s.boards ==> NoDup(s.boardCols[b]) && s.boardCols[b] != []
    ensures b in s.boards ==> (c in s.boardCols[b] <==> c in s.columns && s.columns[c].boardId == b)
    ensures c in s.columns ==> NoDup(s.columnCards[c])
    ensures c in s.columns ==> (k in s.columnCards[c] <==> k in s.cards && s.cards[k].columnId == c)
  {
    if b in s.boards {
      var ids := s.boardCols[b];
      forall i, j | 0 <= i < j < |ids| ensures ids[i] != ids[j] {
        assert ColumnAt(s, ids[i], b, i) && ColumnAt(s, ids[j], b, j);
      }
      if c in ids {
        var i :| 0 <= i < |ids| && ids[i] == c;
        assert ColumnAt(s, ids[i], b, i);
      }
      if c in s.columns && s.columns[c].boardId == b {
        assert ColumnListed(s, c);
      }
    }
    if c in s.columns {
      var ids := s.columnCards[c];
      forall i, j | 0 <= i < j < |ids| ensures ids[i] != ids[j] {
        assert CardAt(s.cards, ids[i], c, i) && CardAt(s.cards, ids[j], c, j);
      }
      if k in ids {
        var i :| 0 <= i < |ids| && ids[i] == k;
        assert CardAt(s.cards, ids[i], c, i);
      }
      if k in s.cards && s.cards[k].columnId == c {
        assert CardListed(s, k);
      }
    }
  }

  // ---------- re-indexing ----------

  /** Where a loop over `ids` that stores each index last left `id`. */
  function LastIndex(ids: seq<Id>, id: Id): (i: nat)
    requires id in ids
    ensures i < |ids| && ids[i] == id
  {
    if ids[|ids| - 1] == id then |ids| - 1
    else
      assert ids == ids[..|ids| - 1] + [ids[|ids| - 1]];
      LastIndex(ids[..|ids| - 1], id)
  }

  function ReindexCards(cards: map<Id, Card>, ids: seq<Id>): map<Id, Card> {
    map k | k in cards :: if k in ids then cards[k].(position := LastIndex(ids, k)) else cards[k]
  }

  function ReindexColumns(columns: map<Id, Column>, ids: seq<Id>): map<Id, Column> {
    map c | c in columns :: if c in ids then columns[c].(position := LastIndex(ids, c)) else columns[c]
  }

  lemma LastIndexOf(ids: seq<Id>, i: nat)
    requires NoDup(ids) && i < |ids|
    ensures LastIndex(ids, ids[i]) == i
  {
  }

  /** One more iteration of a re-indexing loop. */
  lemma LastIndexSnoc(ids: seq<Id>, n: nat)
    requires n < |ids|
    ensures forall k :: k in ids[..n + 1] <==> k in ids[..n] || k == ids[n]
    ensures forall k :: k in ids[..n + 1] ==>
                    LastIndex(ids[..n + 1], k) == if k == ids[n] then n else LastIndex(ids[..n], k)
  {
    var longer := ids[..n + 1];
    assert longer == ids[..n] + [ids[n]];
    forall k | k in longer ensures LastIndex(longer, k) == if k == ids[n] then n else LastIndex(ids[..n], k) {
      assert longer[|longer| - 1] == ids[n] && longer[..|longer| - 1] == ids[..n];
    }
  }

  // ---------- what the operations do ----------

  function CreateBoard(s: State, wsId: Id, name: string, now: Time, boardId: Id, colIds: seq<Id>)
    : (State, Outcome<Board>)
    requires |colIds| == |DEFAULT_COLUMNS|
  {
    if wsId !in s.workspaces then (s, Err(NotFound))
    else
      var board := Board(boardId, wsId, name, now, None);
      (s.(boards := s.boards[boardId := board],
          columns := s.columns + NewColumns(colIds, boardId, now),
          boardCols := s.boardCols[boardId := colIds],
          columnCards := s.columnCards + NewLists(colIds)), Ok(board))
  }

  function NewColumns(colIds: seq<Id>, boardId: Id, now: Time): map<Id, Column>
    requires |colIds| <= |DEFAULT_COLUMNS|
  {
    map c | c in colIds :: Column(c, boardId, DEFAULT_COLUMNS[LastIndex(colIds, c)], LastIndex(colIds, c), now)
  }

  function NewLists(colIds: seq<Id>): map<Id, seq<Id>> {
    map c | c in colIds :: []
  }

  /** One more iteration of the loop that creates a board's columns. */
  lemma NewColumnsSnoc(colIds: seq<Id>, boardId: Id, now: Time, n: nat)
    requires n < |colIds| <= |DEFAULT_COLUMNS|
    ensures NewColumns(colIds[..n + 1], boardId, now)
         == NewColumns(colIds[..n], boardId, now)[colIds[n] := Column(colIds[n], boardId, DEFAULT_COLUMNS[n], n, now)]
    ensures NewLists(colIds[..n + 1]) == NewLists(colIds[..n])[colIds[n] := []]
  {
    LastIndexSnoc(colIds, n);
  }

  function ArchiveBoard(s: State, boardId: Id, mark: Option<Time>): (State, Outcome<()>) {
    if boardId !in s.boards then (s, Err(NotFound))
    else (s.(boards := s.boards[boardId := s.boards[boardId].(archivedAt := mark)]), Ok(()))
  }

  function CreateColumn(s: State, boardId: Id, name: string, now: Time, id: Id): (State, Outcome<Column>)
    requires Inv(s)
  {
    if boardId !in s.boards then (s, Err(NotFound))
    else
      var col := Column(id, boardId, name, |s.boardCols[boardId]|, now);
      (s.(columns := s.columns[id := col],
          boardCols := s.boardCols[boardId := s.boardCols[boardId] + [id]],
          columnCards := s.columnCards[id := []]), Ok(col))
  }

  function RenameColumn(s: State, columnId: Id, name: string): (State, Outcome<Column>) {
    if columnId !in s.columns then (s, Err(NotFound))
    else
      var col := s.columns[columnId].(name := name);
      (s.(columns := s.columns[columnId := col]), Ok(col))
  }

  function DeleteColumn(s: State, columnId: Id): (State, Outcome<()>)
    requires Inv(s)
  {
    if columnId !in s.columns then (s, Err(NotFound))
    else if |s.columnCards[columnId]| > 0 then (s, Err(Invalid))
    else
      assert ColumnListed(s, columnId);
      var b := s.columns[columnId].boardId;
      if |s.boardCols[b]| <= 1 then (s, Err(Forbidden))
      else
        var next := Without(s.boardCols[b], columnId);
        (s.(boardCols := s.boardCols[b := next],
            columns := ReindexColumns(s.columns, next) - {columnId},
            columnCards := s.columnCards - {columnId}), Ok(()))
  }

  /** The lists that are accepted are exactly the permutations of the current one. */
  function ReorderColumns(s: State, boardId: Id, columnIds: seq<Id>): (State, Outcome<()>)
    requires Inv(s)
  {
    if boardId !in s.boards then (s, Err(NotFound))
    else if multiset(columnIds) != multiset(s.boardCols[boardId]) then (s, Err(Invalid))
    else
      (s.(boardCols := s.boardCols[boardId := columnIds],
          columns := ReindexColumns(s.columns, columnIds)), Ok(()))
  }

  function CreateCard(s: State, columnId: Id, title: string, description: string, now: Time, id: Id)
    : (State, Outcome<Card>)
    requires Inv(s)
  {
    if columnId !in s.columns then (s, Err(NotFound))
    else
      assert ColumnListed(s, columnId);
      var col := s.columns[columnId];
      var card := Card(id, columnId, col.boardId, title, description, |s.columnCards[columnId]|, 1, "",
                       if ColumnIsDone(col.name) then Some(now) else None, now, now);
      (s.(cards := s.cards[id := card],
          columnCards := s.columnCards[columnId := s.columnCards[columnId] + [id]]), Ok(card))
  }

  /** `sprintId` None leaves the sprint alone, Some("") clears it. */
  function UpdateCard(s: State, cardId: Id, title: string, description: string, sprintId: Option<Id>,
                      version: int, now: Time): (State, Outcome<Card>)
  {
    if cardId !in s.cards then (s, Err(NotFound))
    else
      var c := s.cards[cardId];
      if c.version != version then (s, Stale(c))
      else if sprintId.Some? && sprintId.value != "" && sprintId.value !in s.sprints then (s, Err(NotFound))
      else if sprintId.Some? && sprintId.value != "" && s.sprints[sprintId.value].boardId != c.boardId
        then (s, Err(Invalid))
      else
        var c' := c.(title := if title != "" then title else c.title,
                     description := description,
                     sprintId := if sprintId.Some? then sprintId.value else c.sprintId,
                     version := c.version + 1,
                     updatedAt := now);
        (s.(cards := s.cards[cardId := c']), Ok(c'))
  }

  /** When a move has to be recorded as completed, and since when. */
  function CompletedAfterMove(c: Card, done: bool, now: Time): Option<Time> {
    if !done then None else if c.completedAt.None? then Some(now) else c.completedAt
  }

  function Moved(c: Card, target: Column, position: int, now: Time): Card {
    c.(columnId := target.id, position := position,
       completedAt := CompletedAfterMove(c, ColumnIsDone(target.name), now),
       version := c.version + 1, updatedAt := now)
  }

  function MoveCard(s: State, cardId: Id, targetId: Id, position: int, version: int, now: Time): (State, Outcome<Card>)
    requires Inv(s)
  {
    if cardId !in s.cards then (s, Err(NotFound))
    else
      var c := s.cards[cardId];
      if c.version != version then (s, Stale(c))
      else if targetId !in s.columns then (s, Err(NotFound))
      else if s.columns[targetId].boardId != c.boardId then (s, Err(Forbidden))
      else
        assert CardListed(s, cardId);
        var kept := Without(s.columnCards[c.columnId], cardId);
        var removed := s.columnCards[c.columnId := kept];
        var k := Clamp(position, |removed[targetId]|);
        var placed := InsertAt(removed[targetId], k, cardId);
        var c' := Moved(c, s.columns[targetId], k, now);
        (s.(columnCards := removed[targetId := placed],
            cards := ReindexCards(ReindexCards(s.cards, kept), placed)[cardId := c']), Ok(c'))
  }

  function CreateSprint(s: State, boardId: Id, name: string, startAt: Time, endAt: Time, now: Time, id: Id)
    : (State, Outcome<Sprint>)
  {
    if boardId !in s.boards then (s, Err(NotFound))
    else
      var sp := Sprint(id, boardId, s.boards[boardId].workspaceId, name, startAt, endAt, now);
      (s.(sprints := s.sprints[id := sp]), Ok(sp))
  }

  function UpdateSprint(s: State, sprintId: Id, name: string, startAt: Option<Time>, endAt: Option<Time>)
    : (State, Outcome<Sprint>)
  {
    if sprintId !in s.sprints then (s, Err(NotFound))
    else
      var sp := s.sprints[sprintId];
      var sp' := sp.(name := if name != "" then name else sp.name,
                     startAt := if startAt.Some? then startAt.value else sp.startAt,
                     endAt := if endAt.Some? then endAt.value else sp.endAt);
      (s.(sprints := s.sprints[sprintId := sp']), Ok(sp'))
  }

  function ClearSprint(cards: map<Id, Card>, sprintId: Id): map<Id, Card> {
    map k | k in cards :: if cards[k].sprintId == sprintId then cards[k].(sprintId := "") else cards[k]
  }

  function DeleteSprint(s: State, sprintId: Id): (State, Outcome<()>) {
    if sprintId !in s.sprints then (s, Err(NotFound))
    else (s.(sprints := s.sprints - {sprintId}, cards := ClearSprint(s.cards, sprintId)), Ok(()))
  }

  // ---------- every operation keeps the invariant ----------

  ghost predicate Fresh(s: State, id: Id) {
    id != "" && id !in s.boards && id !in s.columns && id !in s.cards && id !in s.sprints
  }

  /** The column part survives any change that leaves board, position and list of every column alone. */
  ghost predicate ColumnPlacesKept(s: State, s': State) {
    && s'.boards.Keys == s.boards.Keys && s'.boardCols == s.boardCols
    && s'.columns.Keys == s.columns.Keys && s'.columnCards.Keys == s.columnCards.Keys
    && (forall c :: c in s.columns ==>
      s'.columns[c].boardId == s.columns[c].boardId && s'.columns[c].position == s.columns[c].position)
  }

  lemma FrameColumns(s: State, s': State)
    requires BoardListsOk(s) && ColumnsOk(s) && ColumnPlacesKept(s, s')
    ensures BoardListsOk(s') && ColumnsOk(s')
  {
    forall b, i | b in s'.boards && 0 <= i < |s'.boardCols[b]| ensures ColumnAt(s', s'.boardCols[b][i], b, i) {
      assert ColumnAt(s, s.boardCols[b][i], b, i);
    }
    forall c | c in s'.columns ensures ColumnListed(s', c) {
      assert ColumnListed(s, c);
    }
  }

  /** A change that leaves the place of every card alone; columns may come and go while empty. */
  ghost predicate CardPlacesKept(s: State, s': State) {
    && s'.cards.Keys == s.cards.Keys
    && (forall k :: k in s.cards ==>
      && s'.cards[k].columnId == s.cards[k].columnId && s'.cards[k].boardId == s.cards[k].boardId
      && s'.cards[k].position == s.cards[k].position)
    && (forall c :: c in s.columns && c in s.columnCards && s.columnCards[c] != [] ==>
      && c in s'.columns && s'.columns[c].boardId == s.columns[c].boardId
      && c in s'.columnCards && s'.columnCards[c] == s.columnCards[c])
    && (forall c :: c in s'.columnCards && s'.columnCards[c] != [] ==>
      c in s.columnCards && s'.columnCards[c] == s.columnCards[c])
  }

  lemma FrameCards(s: State, s': State)
    requires CardListsOk(s) && CardsOk(s) && CardPlacesKept(s, s')
    ensures CardListsOk(s') && CardsOk(s')
  {
    forall c, i | c in s'.columnCards && 0 <= i < |s'.columnCards[c]|
      ensures CardAt(s'.cards, s'.columnCards[c][i], c, i)
    {
      assert CardAt(s.cards, s.columnCards[c][i], c, i);
    }
    forall k | k in s'.cards ensures CardListed(s', k) {
      assert CardListed(s, k);
    }
  }

  /** No sprint goes away or changes its board, and no card changes its sprint. */
  ghost predicate SprintsKept(s: State, s': State) {
    && s'.sprints.Keys == s.sprints.Keys && s'.cards.Keys == s.cards.Keys
    && (forall p :: p in s.sprints ==> s'.sprints[p].boardId == s.sprints[p].boardId)
    && (forall k :: k in s.cards ==>
      s'.cards[k].sprintId == s.cards[k].sprintId && s'.cards[k].boardId == s.cards[k].boardId)
  }

  lemma FrameSprints(s: State, s': State)
    requires SprintsOk(s) && SprintsKept(s, s')
    ensures SprintsOk(s')
  {
    forall k | k in s'.cards && s'.cards[k].sprintId != "" ensures SprintLive(s', s'.cards[k]) {
      assert SprintLive(s, s.cards[k]);
    }
  }

  lemma FrameInv(s: State, s': State)
    requires Inv(s) && ColumnPlacesKept(s, s') && CardPlacesKept(s, s') && SprintsKept(s, s') && IdsOk(s')
    ensures Inv(s')
  {
    FrameColumns(s, s');
    FrameCards(s, s');
    FrameSprints(s, s');
  }

  lemma ArchiveBoardKeepsInv(s: State, boardId: Id, mark: Option<Time>)
    requires Inv(s)
    ensures Inv(ArchiveBoard(s, boardId, mark).0)
  {
    if boardId in s.boards {
      FrameInv(s, ArchiveBoard(s, boardId, mark).0);
    }
  }

  lemma RenameColumnKeepsInv(s: State, columnId: Id, name: string)
    requires Inv(s)
    ensures Inv(RenameColumn(s, columnId, name).0)
  {
    if columnId in s.columns {
      FrameInv(s, RenameColumn(s, columnId, name).0);
    }
  }

  lemma CreateBoardColumns(s: State, wsId: Id, name: string, now: Time, boardId: Id, colIds: seq<Id>)
    requires BoardListsOk(s) && ColumnsOk(s) && |colIds| == |DEFAULT_COLUMNS| && NoDup(colIds) && wsId in s.workspaces
    requires boardId !in s.boards && forall c :: c in colIds ==> c !in s.columns
    ensures var s' := CreateBoard(s, wsId, name, now, boardId, colIds).0; BoardListsOk(s') && ColumnsOk(s')
  {
    var s' := CreateBoard(s, wsId, name, now, boardId, colIds).0;
    forall b, i | b in s'.boards && 0 <= i < |s'.boardCols[b]| ensures ColumnAt(s', s'.boardCols[b][i], b, i) {
      if b == boardId {
        LastIndexOf(colIds, i);
        assert colIds[i] in colIds;
      } else {
        assert ColumnAt(s, s.boardCols[b][i], b, i);
      }
    }
    forall c | c in s'.columns ensures ColumnListed(s', c) {
      assert c !in colIds ==> ColumnListed(s, c);
    }
  }

  lemma CreateBoardKeepsInv(s: State, wsId: Id, name: string, now: Time, boardId: Id, colIds: seq<Id>)
    requires Inv(s) && |colIds| == |DEFAULT_COLUMNS| && NoDup(colIds)
    requires Fresh(s, boardId) && forall c :: c in colIds ==> Fresh(s, c)
    ensures Inv(CreateBoard(s, wsId, name, now, boardId, colIds).0)
  {
    var s' := CreateBoard(s, wsId, name, now, boardId, colIds).0;
    if wsId in s.workspaces {
      CreateBoardColumns(s, wsId, name, now, boardId, colIds);
      FrameCards(s, s');
      FrameSprints(s, s');
    }
  }

  lemma CreateColumnLists(s: State, boardId: Id, name: string, now: Time, id: Id)
    requires Inv(s) && Fresh(s, id)
    ensures BoardListsOk(CreateColumn(s, boardId, name, now, id).0)
  {
    var s' := CreateColumn(s, boardId, name, now, id).0;
    forall b, i | b in s'.boards && 0 <= i < |s'.boardCols[b]| ensures ColumnAt(s', s'.boardCols[b][i], b, i) {
      assert i < |s.boardCols[b]| ==> ColumnAt(s, s.boardCols[b][i], b, i);
    }
  }

  lemma CreateColumnColumns(s: State, boardId: Id, name: string, now: Time, id: Id)
    requires Inv(s) && Fresh(s, id)
    ensures var s' := CreateColumn(s, boardId, name, now, id).0; BoardListsOk(s') && ColumnsOk(s')
  {
    var s' := CreateColumn(s, boardId, name, now, id).0;
    assert BoardListsOk(s') by {
      CreateColumnLists(s, boardId, name, now, id);
    }
    forall c | c in s'.columns ensures ColumnListed(s', c) {
      assert c in s.columns ==> ColumnListed(s, c);
    }
  }

  lemma CreateColumnKeepsInv(s: State, boardId: Id, name: string, now: Time, id: Id)
    requires Inv(s) && Fresh(s, id)
    ensures Inv(CreateColumn(s, boardId, name, now, id).0)
  {
    if boardId in s.boards {
      var s' := CreateColumn(s, boardId, name, now, id).0;
      CreateColumnColumns(s, boardId, name, now, id);
      FrameCards(s, s');
      FrameSprints(s, s');
    }
  }

  /** A board with a new list, made of the columns it keeps; the others, which are empty, are dropped. */
  function Relisted(s: State, b: Id, next: seq<Id>, gone: set<Id>): State {
    s.(boardCols := s.boardCols[b := next],
       columns := ReindexColumns(s.columns, next) - gone,
       columnCards := s.columnCards - gone)
  }

  lemma RelistedColumns(s: State, b: Id, next: seq<Id>, gone: set<Id>)
    requires BoardListsOk(s) && ColumnsOk(s) && b in s.boards && next != [] && NoDup(next)
    requires forall c :: c in next <==> c in s.columns && s.columns[c].boardId == b && c !in gone
    requires forall c :: c in gone ==> c in s.columns && s.columns[c].boardId == b
    ensures BoardListsOk(Relisted(s, b, next, gone)) && ColumnsOk(Relisted(s, b, next, gone))
  {
    var s' := Relisted(s, b, next, gone);
    forall b', i | b' in s'.boards && 0 <= i < |s'.boardCols[b']| ensures ColumnAt(s', s'.boardCols[b'][i], b', i) {
      if b' == b {
        LastIndexOf(next, i);
        assert next[i] in next;
      } else {
        assert ColumnAt(s, s.boardCols[b'][i], b', i);
      }
    }
    forall c | c in s'.columns ensures ColumnListed(s', c) {
      assert ColumnListed(s, c);
    }
  }

  lemma RelistedKeepsInv(s: State, b: Id, next: seq<Id>, gone: set<Id>)
    requires Inv(s) && b in s.boards && next != [] && NoDup(next)
    requires forall c :: c in next <==> c in s.boardCols[b] && c !in gone
    requires forall c :: c in gone ==> c in s.boardCols[b] && (c in s.columnCards ==> s.columnCards[c] == [])
    ensures Inv(Relisted(s, b, next, gone))
  {
    forall c ensures c in s.boardCols[b] <==> c in s.columns && s.columns[c].boardId == b {
      InvMeaning(s, b, c, "");
    }
    RelistedColumns(s, b, next, gone);
    FrameCards(s, Relisted(s, b, next, gone));
    FrameSprints(s, Relisted(s, b, next, gone));
  }

  lemma DeleteColumnKeepsInv(s: State, columnId: Id)
    requires Inv(s)
    ensures Inv(DeleteColumn(s, columnId).0)
  {
    if columnId in s.columns && |s.columnCards[columnId]| == 0 {
      assert ColumnListed(s, columnId);
      var b := s.columns[columnId].boardId;
      var ids := s.boardCols[b];
      if |ids| > 1 {
        InvMeaning(s, b, columnId, "");
        WithoutElements(ids, columnId);
        WithoutNoDup(ids, columnId);
        WithoutAt(ids, s.columns[columnId].position);
        RelistedKeepsInv(s, b, Without(ids, columnId), {columnId});
      }
    }
  }

  lemma PermutationElements(a: seq<Id>, b: seq<Id>)
    requires multiset(a) == multiset(b)
    ensures |a| == |b| && forall x :: x in a <==> x in b
  {
    assert |multiset(a)| == |a| && |multiset(b)| == |b|;
    forall x ensures x in a <==> x in b {
      assert x in a <==> x in multiset(a);
      assert x in b <==> x in multiset(b);
    }
  }

  lemma {:induction false} NoDupCount(a: seq<Id>, x: Id)
    requires NoDup(a)
    ensures multiset(a)[x] == if x in a then 1 else 0
  {
    if a != [] {
      NoDupCount(a[1..], x);
      assert a == [a[0]] + a[1..];
    }
  }

  lemma {:induction false} CountNoDup(a: seq<Id>)
    requires forall x :: multiset(a)[x] <= 1
    ensures NoDup(a)
  {
    if a != [] {
      assert a == [a[0]] + a[1..];
      assert multiset(a) == multiset{a[0]} + multiset(a[1..]);
      forall x ensures multiset(a[1..])[x] <= 1 {
        assert multiset(a)[x] <= 1;
      }
      CountNoDup(a[1..]);
      assert multiset(a)[a[0]] <= 1;
      assert a[0] !in multiset(a[1..]);
    }
  }

  lemma PermutationNoDup(a: seq<Id>, b: seq<Id>)
    requires multiset(a) == multiset(b) && NoDup(b)
    ensures NoDup(a)
  {
    forall x ensures multiset(a)[x] <= 1 {
      NoDupCount(b, x);
    }
    CountNoDup(a);
  }

  /** Two duplicate-free lists with the same elements are permutations of each other. */
  lemma SameElementsPermutation(a: seq<Id>, b: seq<Id>)
    requires NoDup(a) && NoDup(b) && forall x :: x in a <==> x in b
    ensures multiset(a) == multiset(b)
  {
    forall x ensures multiset(a)[x] == multiset(b)[x] {
      NoDupCount(a, x);
      NoDupCount(b, x);
    }
  }

  lemma ReorderColumnsKeepsInv(s: State, boardId: Id, columnIds: seq<Id>)
    requires Inv(s)
    ensures Inv(ReorderColumns(s, boardId, columnIds).0)
  {
    if boardId in s.boards && multiset(columnIds) == multiset(s.boardCols[boardId]) {
      InvMeaning(s, boardId, "", "");
      PermutationElements(columnIds, s.boardCols[boardId]);
      PermutationNoDup(columnIds, s.boardCols[boardId]);
      RelistedKeepsInv(s, boardId, columnIds, {});
      assert ReindexColumns(s.columns, columnIds) - {} == ReindexColumns(s.columns, columnIds);
      assert s.columnCards - {} == s.columnCards;
    }
  }

  lemma CreateCardCards(s: State, columnId: Id, title: string, description: string, now: Time, id: Id)
    requires Inv(s) && Fresh(s, id)
    ensures var s' := CreateCard(s, columnId, title, description, now, id).0; CardListsOk(s') && CardsOk(s')
  {
    var s' := CreateCard(s, columnId, title, description, now, id).0;
    forall c, i | c in s'.columnCards && 0 <= i < |s'.columnCards[c]|
      ensures CardAt(s'.cards, s'.columnCards[c][i], c, i)
    {
      assert i < |s.columnCards[c]| ==> CardAt(s.cards, s.columnCards[c][i], c, i);
    }
    forall k | k in s'.cards ensures CardListed(s', k) {
      assert k in s.cards ==> CardListed(s, k);
    }
  }

  lemma CreateCardKeepsInv(s: State, columnId: Id, title: string, description: string, now: Time, id: Id)
    requires Inv(s) && Fresh(s, id)
    ensures Inv(CreateCard(s, columnId, title, description, now, id).0)
  {
    if columnId in s.columns {
      var s' := CreateCard(s, columnId, title, description, now, id).0;
      CreateCardCards(s, columnId, title, description, now, id);
      FrameColumns(s, s');
      assert SprintsOk(s') by {
        forall k | k in s'.cards && s'.cards[k].sprintId != "" ensures SprintLive(s', s'.cards[k]) {
          assert SprintLive(s, s.cards[k]);
        }
      }
    }
  }

  lemma UpdateCardSprints(s: State, cardId: Id, title: string, description: string, sprintId: Option<Id>, version: int,
                          now: Time)
    requires SprintsOk(s)
    ensures SprintsOk(UpdateCard(s, cardId, title, description, sprintId, version, now).0)
  {
    var s' := UpdateCard(s, cardId, title, description, sprintId, version, now).0;
    forall k | k in s'.cards && s'.cards[k].sprintId != "" ensures SprintLive(s', s'.cards[k]) {
      assert s.cards[k].sprintId != "" ==> SprintLive(s, s.cards[k]);
    }
  }

  lemma UpdateCardKeepsInv(s: State, cardId: Id, title: string, description: string, sprintId: Option<Id>,
                           version: int, now: Time)
    requires Inv(s)
    ensures Inv(UpdateCard(s, cardId, title, description, sprintId, version, now).0)
  {
    var s' := UpdateCard(s, cardId, title, description, sprintId, version, now).0;
    UpdateCardSprints(s, cardId, title, description, sprintId, version, now);
    if s' != s {
      FrameColumns(s, s');
      FrameCards(s, s');
    }
  }

  lemma CreateSprintKeepsInv(s: State, boardId: Id, name: string, startAt: Time, endAt: Time, now: Time, id: Id)
    requires Inv(s) && Fresh(s, id)
    ensures Inv(CreateSprint(s, boardId, name, startAt, endAt, now, id).0)
  {
    if boardId in s.boards {
      var s' := CreateSprint(s, boardId, name, startAt, endAt, now, id).0;
      FrameColumns(s, s');
      FrameCards(s, s');
      assert SprintsOk(s') by {
        forall k | k in s'.cards && s'.cards[k].sprintId != "" ensures SprintLive(s', s'.cards[k]) {
          assert SprintLive(s, s.cards[k]);
        }
      }
    }
  }

  lemma UpdateSprintKeepsInv(s: State, id: Id, name: string, startAt: Option<Time>, endAt: Option<Time>)
    requires Inv(s)
    ensures Inv(UpdateSprint(s, id, name, startAt, endAt).0)
  {
    if id in s.sprints {
      FrameInv(s, UpdateSprint(s, id, name, startAt, endAt).0);
    }
  }

  lemma DeleteSprintKeepsInv(s: State, id: Id)
    requires Inv(s)
    ensures Inv(DeleteSprint(s, id).0)
  {
    if id in s.sprints {
      var s' := DeleteSprint(s, id).0;
      FrameColumns(s, s');
      FrameCards(s, s');
      assert SprintsOk(s') by {
        forall k | k in s'.cards && s'.cards[k].sprintId != "" ensures SprintLive(s', s'.cards[k]) {
          assert SprintLive(s, s.cards[k]);
        }
      }
    }
  }
}
