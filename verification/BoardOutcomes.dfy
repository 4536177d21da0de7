/** What each board operation answers and changes, said without the functions that compute it. */
module BoardOutcomes {
  import opened Common
  import opened BoardModel
  import opened BoardRuns

  // ---------- done columns ----------

  function Lower(c: char): char {
    if 'A' <= c <= 'Z' then (c as int + 32) as char else c
  }

  /** The name, without the white space around it and in lower case, is "done". */
  predicate SaysDone(name: string) {
    var t := TrimSpace(name);
    |t| == 4 && seq(4, i requires 0 <= i < 4 => Lower(t[i])) == "done"
  }

  lemma DoneNames(name: string)
    ensures ColumnIsDone(name) <==> SaysDone(name)
  {
    var t := TrimSpace(name);
    if |t| == 4 {
      var low := seq(4, i requires 0 <= i < 4 => Lower(t[i]));
      assert low == "done" <==> low[0] == 'd' && low[1] == 'o' && low[2] == 'n' && low[3] == 'e';
    }
  }

  lemma DefaultNames()
    ensures SaysDone("Done") && SaysDone(" DONE ") && !SaysDone("To Do") && !SaysDone("In Progress")
  {
    NamesTrimmed();
    var done := seq(4, i requires 0 <= i < 4 => Lower("Done"[i]));
    var loud := seq(4, i requires 0 <= i < 4 => Lower("DONE"[i]));
    assert done == ['d', 'o', 'n', 'e'] && loud == ['d', 'o', 'n', 'e'];
  }

  lemma NamesTrimmed()
    ensures TrimSpace("Done") == "Done" && TrimSpace("To Do") == "To Do" && TrimSpace("In Progress") == "In Progress"
    ensures TrimSpace(" DONE ") == "DONE"
  {
    assert " DONE "[1..] == "DONE " && "DONE "[..4] == "DONE";
    assert TrimLeft(" DONE ") == TrimLeft("DONE ") == "DONE ";
    assert TrimRight("DONE ") == TrimRight("DONE") == "DONE";
  }

  // ---------- cards ----------

  /** What is said of a card's completion when it is put into a column of that name. */
  ghost predicate Completes(before: Option<Time>, after: Option<Time>, name: string, now: Time) {
    after == if !SaysDone(name) then None else if before.Some? then before else Some(now)
  }

  /**
   * A move is accepted exactly for a known card at its current version and a column of its board;
   * the card is then in that column at the clamped position, one version on, completed exactly if the
   * column says so, and since when it was completed before.  Every refusal changes nothing.
   */
  lemma MoveCardOutcome(s: State, cardId: Id, targetId: Id, position: int, version: int, now: Time)
    requires Inv(s)
    ensures var (s', r) := MoveCard(s, cardId, targetId, position, version, now);
            && (r.Ok? <==> cardId in s.cards && s.cards[cardId].version == version && targetId in s.columns
                           && s.columns[targetId].boardId == s.cards[cardId].boardId)
            && (r.Ok? ==>
                  var was := s.cards[cardId];
                  && cardId in s'.cards && s'.cards[cardId] == r.value && targetId in s.columnCards
                  && r.value.position == Clamp(position, |TargetWithout(s, cardId, targetId)|)
                  && r.value == was.(columnId := targetId, position := r.value.position, version := version + 1,
                                     updatedAt := now, completedAt := r.value.completedAt)
                  && Completes(was.completedAt, r.value.completedAt, s.columns[targetId].name, now))
            && (!r.Ok? ==>
                  && s' == s
                  && r == if cardId !in s.cards then Err(NotFound)
                          else if s.cards[cardId].version != version then Stale(s.cards[cardId])
                          else if targetId !in s.columns then Err(NotFound) else Err(Forbidden))
  {
    var r := MoveCard(s, cardId, targetId, position, version, now).1;
    if r.Ok? {
      MoveCardAnswer(s, cardId, targetId, position, version, now);
      DoneNames(s.columns[targetId].name);
    }
  }

  /** The two default columns at the ends: into "Done" a card counts as completed, into "To Do" it does not. */
  lemma MoveToDefaults(s: State, cardId: Id, targetId: Id, position: int, version: int, now: Time)
    requires Inv(s) && MoveCard(s, cardId, targetId, position, version, now).1.Ok?
    ensures var c := MoveCard(s, cardId, targetId, position, version, now).1.value;
            && (s.columns[targetId].name == "Done" ==>
                  c.completedAt == if s.cards[cardId].completedAt.Some? then s.cards[cardId].completedAt else Some(now))
            && (s.columns[targetId].name == "To Do" ==> c.completedAt == None)
  {
    DefaultNames();
    MoveCardOutcome(s, cardId, targetId, position, version, now);
  }

  /** A new card goes to the end of a known column, at version 1, completed at once if the column says so. */
  lemma CreateCardOutcome(s: State, columnId: Id, title: string, description: string, now: Time, id: Id)
    requires Inv(s) && Fresh(s, id)
    ensures var (s', r) := CreateCard(s, columnId, title, description, now, id);
            && (r.Ok? <==> columnId in s.columns)
            && (!r.Ok? ==> s' == s && r == Err(NotFound))
            && (r.Ok? ==>
                  && columnId in s.columnCards
                  && s' == s.(cards := s.cards[id := r.value], columnCards := s'.columnCards)
                  && s'.columnCards == s.columnCards[columnId := s.columnCards[columnId] + [id]]
                  && r.value == Card(id, columnId, s.columns[columnId].boardId, title, description,
                                     |s.columnCards[columnId]|, 1, "", r.value.completedAt, now, now)
                  && Completes(None, r.value.completedAt, s.columns[columnId].name, now))
  {
    if columnId in s.columns {
      DoneNames(s.columns[columnId].name);
    }
  }

  /**
   * An edit is accepted exactly for a known card at its current version and no sprint, or a live sprint
   * of the card's board; a stale version hands back the stored card.  No other card changes.
   */
  lemma UpdateCardOutcome(s: State, cardId: Id, title: string, description: string, sprintId: Option<Id>,
                          version: int, now: Time)
    ensures var (s', r) := UpdateCard(s, cardId, title, description, sprintId, version, now);
            && (r.Ok? <==> cardId in s.cards && s.cards[cardId].version == version
                           && (sprintId.None? || sprintId.value == ""
                               || (sprintId.value in s.sprints
                                   && s.sprints[sprintId.value].boardId == s.cards[cardId].boardId)))
            && (!r.Ok? ==> s' == s)
            && (cardId in s.cards && s.cards[cardId].version != version ==> r == Stale(s.cards[cardId]))
            && (r.Ok? ==>
                  var was := s.cards[cardId];
                  && s' == s.(cards := s.cards[cardId := r.value])
                  && r.value.description == description && r.value.version == version + 1 && r.value.updatedAt == now
                  && (title != "" ==> r.value.title == title) && (title == "" ==> r.value.title == was.title)
                  && (sprintId.Some? ==> r.value.sprintId == sprintId.value)
                  && (sprintId.None? ==> r.value.sprintId == was.sprintId)
                  && r.value.columnId == was.columnId && r.value.position == was.position
                  && r.value.completedAt == was.completedAt && r.value.createdAt == was.createdAt)
  {
  }

  // ---------- columns ----------

  /** A reordering is accepted exactly for a permutation; the columns are then listed and numbered as asked. */
  lemma ReorderColumnsOutcome(s: State, boardId: Id, columnIds: seq<Id>)
    requires Inv(s)
    ensures var (s', r) := ReorderColumns(s, boardId, columnIds);
            && (r.Ok? <==> boardId in s.boards && multiset(columnIds) == multiset(s.boardCols[boardId]))
            && (!r.Ok? ==> s' == s && r == Err(if boardId in s.boards then Invalid else NotFound))
            && (r.Ok? ==>
                  && s' == s.(boardCols := s.boardCols[boardId := columnIds], columns := s'.columns)
                  && s'.columns.Keys == s.columns.Keys
                  && (forall i {:trigger columnIds[i]} :: 0 <= i < |columnIds| ==>
                        && columnIds[i] in s.columns
                        && s'.columns[columnIds[i]] == s.columns[columnIds[i]].(position := i))
                  && (forall c :: c in s.columns && c !in columnIds ==> s'.columns[c] == s.columns[c]))
  {
    var (s', r) := ReorderColumns(s, boardId, columnIds);
    if r.Ok? {
      var was := s.boardCols[boardId];
      InvMeaning(s, boardId, "", "");
      PermutationNoDup(columnIds, was);
      PermutationElements(columnIds, was);
      forall i | 0 <= i < |columnIds|
        ensures columnIds[i] in s.columns && s'.columns[columnIds[i]] == s.columns[columnIds[i]].(position := i)
      {
        InvMeaning(s, boardId, columnIds[i], "");
        LastIndexOf(columnIds, i);
      }
    }
  }

  /** A column goes exactly if it is known, empty and not its board's only one; the others keep their order. */
  lemma DeleteColumnOutcome(s: State, columnId: Id)
    requires Inv(s)
    ensures var (s', r) := DeleteColumn(s, columnId);
            && (columnId in s.columns ==> columnId in s.columnCards && s.columns[columnId].boardId in s.boardCols)
            && (r.Ok? <==> columnId in s.columns && s.columnCards[columnId] == []
                           && |s.boardCols[s.columns[columnId].boardId]| >= 2)
            && (!r.Ok? ==>
                  && s' == s
                  && r == Err(if columnId !in s.columns then NotFound
                              else if s.columnCards[columnId] != [] then Invalid else Forbidden))
            && (r.Ok? ==>
                  var b := s.columns[columnId].boardId;
                  && s'.boardCols == s.boardCols[b := Without(s.boardCols[b], columnId)]
                  && s'.columns.Keys == s.columns.Keys - {columnId}
                  && s'.columnCards == s.columnCards - {columnId}
                  && s'.cards == s.cards && s'.boards == s.boards && s'.sprints == s.sprints
                  && (forall c :: c in s'.columns ==>
                        s'.columns[c] == s.columns[c].(position := s'.columns[c].position)))
  {
    if columnId in s.columns {
      assert ColumnListed(s, columnId);
    }
  }

  /** A new column is its board's last, and empty. */
  lemma CreateColumnOutcome(s: State, boardId: Id, name: string, now: Time, id: Id)
    requires Inv(s) && Fresh(s, id)
    ensures var (s', r) := CreateColumn(s, boardId, name, now, id);
            && (r.Ok? <==> boardId in s.boards)
            && (!r.Ok? ==> s' == s && r == Err(NotFound))
            && (r.Ok? ==>
                  && r.value == Column(id, boardId, name, |s.boardCols[boardId]|, now)
                  && s' == s.(columns := s.columns[id := r.value], columnCards := s.columnCards[id := []],
                              boardCols := s.boardCols[boardId := s.boardCols[boardId] + [id]]))
  {
  }

  /** A new board has the columns "To Do", "In Progress" and "Done", in this order and empty. */
  lemma CreateBoardOutcome(s: State, wsId: Id, name: string, now: Time, id: Id, a: Id, b: Id, c: Id)
    requires a != b && b != c && a != c
    ensures var (s', r) := CreateBoard(s, wsId, name, now, id, [a, b, c]);
            && (r.Ok? <==> wsId in s.workspaces)
            && (!r.Ok? ==> s' == s && r == Err(NotFound))
            && (r.Ok? ==>
                  && r.value == Board(id, wsId, name, now, None)
                  && s' == s.(boards := s.boards[id := r.value], boardCols := s.boardCols[id := [a, b, c]],
                              columns := s.columns + map[a := Column(a, id, "To Do", 0, now),
                                                         b := Column(b, id, "In Progress", 1, now),
                                                         c := Column(c, id, "Done", 2, now)],
                              columnCards := s.columnCards + map[a := [], b := [], c := []]))
  {
    NewColumnsAre(id, now, a, b, c);
  }

  lemma NewColumnsAre(board: Id, now: Time, a: Id, b: Id, c: Id)
    requires a != b && b != c && a != c
    ensures NewColumns([a, b, c], board, now)
         == map[a := Column(a, board, "To Do", 0, now), b := Column(b, board, "In Progress", 1, now),
                c := Column(c, board, "Done", 2, now)]
    ensures NewLists([a, b, c]) == map[a := [], b := [], c := []]
  {
    assert LastIndex([a, b, c], a) == 0 && LastIndex([a, b, c], b) == 1 && LastIndex([a, b, c], c) == 2;
  }

  // ---------- sprints ----------

  /** Deleting a sprint takes it off its own cards, otherwise as they were, and leaves all other cards alone. */
  lemma DeleteSprintOutcome(s: State, sprintId: Id)
    ensures var (s', r) := DeleteSprint(s, sprintId);
            && (r.Ok? <==> sprintId in s.sprints)
            && (!r.Ok? ==> s' == s && r == Err(NotFound))
            && (r.Ok? ==>
                  && s' == s.(sprints := s.sprints - {sprintId}, cards := s'.cards)
                  && s'.cards.Keys == s.cards.Keys
                  && (forall k :: k in s.cards && s.cards[k].sprintId == sprintId ==>
                        s'.cards[k] == s.cards[k].(sprintId := ""))
                  && (forall k :: k in s.cards && s.cards[k].sprintId != sprintId ==> s'.cards[k] == s.cards[k]))
  {
  }

  /** A sprint starts with the asked dates on its board; an update changes what was given and keeps the rest. */
  lemma SprintOutcomes(s: State, boardId: Id, sprintId: Id, name: string, startAt: Time, endAt: Time,
                       newStart: Option<Time>, newEnd: Option<Time>, now: Time, id: Id)
    requires Inv(s) && Fresh(s, id)
    ensures var (s', r) := CreateSprint(s, boardId, name, startAt, endAt, now, id);
            if boardId !in s.boards then s' == s && r == Err(NotFound)
            else && r == Ok(Sprint(id, boardId, s.boards[boardId].workspaceId, name, startAt, endAt, now))
                 && s' == s.(sprints := s.sprints[id := r.value])
    ensures var (s', r) := UpdateSprint(s, sprintId, name, newStart, newEnd);
            if sprintId !in s.sprints then s' == s && r == Err(NotFound)
            else
              && r.Ok? && s' == s.(sprints := s.sprints[sprintId := r.value])
              && r.value.startAt == (if newStart.Some? then newStart.value else s.sprints[sprintId].startAt)
              && r.value.endAt == (if newEnd.Some? then newEnd.value else s.sprints[sprintId].endAt)
              && r.value.name == (if name != "" then name else s.sprints[sprintId].name)
              && r.value.boardId == s.sprints[sprintId].boardId && r.value.createdAt == s.sprints[sprintId].createdAt
  {
  }

  // ---------- completion over runs ----------

  /** Every card counts as completed exactly when its column's name says so. */
  ghost predicate CompletionFits(s: State) {
    forall k {:trigger s.cards[k]} :: k in s.cards ==> CardFits(s, s.cards[k])
  }

  ghost predicate CardFits(s: State, c: Card) {
    c.columnId in s.columns && (c.completedAt.Some? <==> SaysDone(s.columns[c.columnId].name))
  }

  /** A rename that makes a column with cards a done one, or one that was no longer. */
  predicate FlipsDone(s: State, op: Op) {
    && op.NameColumn? && op.columnId in s.columns && op.columnId in s.columnCards && s.columnCards[op.columnId] != []
    && (SaysDone(op.name) != SaysDone(s.columns[op.columnId].name))
  }

  lemma MoveFits(s: State, cardId: Id, targetId: Id, position: int, version: int, now: Time)
    requires Inv(s) && CompletionFits(s)
    ensures CompletionFits(MoveCard(s, cardId, targetId, position, version, now).0)
  {
    var (s', r) := MoveCard(s, cardId, targetId, position, version, now);
    MoveCardOutcome(s, cardId, targetId, position, version, now);
    if r.Ok? {
      assert s'.columns == s.columns && s'.cards.Keys == s.cards.Keys by {
        assert CardListed(s, cardId);
      }
      forall k | k in s'.cards ensures CardFits(s', s'.cards[k]) {
        if k != cardId {
          MoveCardOthers(s, cardId, targetId, position, version, now, k);
          assert CardFits(s, s.cards[k]);
        }
      }
    }
  }

  lemma AddFits(s: State, columnId: Id, title: string, description: string, now: Time, id: Id)
    requires Inv(s) && Fresh(s, id) && CompletionFits(s)
    ensures CompletionFits(CreateCard(s, columnId, title, description, now, id).0)
  {
    var (s', r) := CreateCard(s, columnId, title, description, now, id);
    CreateCardOutcome(s, columnId, title, description, now, id);
    if r.Ok? {
      forall k | k in s'.cards ensures CardFits(s', s'.cards[k]) {
        if k != id {
          assert CardFits(s, s.cards[k]);
        }
      }
    }
  }

  lemma RenameFitsIff(s: State, columnId: Id, name: string)
    requires Inv(s) && CompletionFits(s)
    ensures CompletionFits(RenameColumn(s, columnId, name).0) <==> !FlipsDone(s, NameColumn(columnId, name))
  {
    var s' := RenameColumn(s, columnId, name).0;
    if FlipsDone(s, NameColumn(columnId, name)) {
      var k := s.columnCards[columnId][0];
      InvMeaning(s, "", columnId, k);
      assert CardFits(s, s.cards[k]);
      assert !CardFits(s', s'.cards[k]);
    } else {
      forall k | k in s'.cards ensures CardFits(s', s'.cards[k]) {
        assert CardFits(s, s.cards[k]);
        InvMeaning(s, "", columnId, k);
      }
    }
  }

  lemma DropFits(s: State, columnId: Id)
    requires Inv(s) && CompletionFits(s)
    ensures CompletionFits(DeleteColumn(s, columnId).0)
  {
    var (s', r) := DeleteColumn(s, columnId);
    DeleteColumnOutcome(s, columnId);
    if r.Ok? {
      forall k | k in s'.cards ensures CardFits(s', s'.cards[k]) {
        assert CardFits(s, s.cards[k]);
        InvMeaning(s, "", columnId, k);
      }
    }
  }

  lemma OrderFits(s: State, boardId: Id, columnIds: seq<Id>)
    requires Inv(s) && CompletionFits(s)
    ensures CompletionFits(ReorderColumns(s, boardId, columnIds).0)
  {
    var s' := ReorderColumns(s, boardId, columnIds).0;
    forall k | k in s'.cards ensures CardFits(s', s'.cards[k]) {
      assert CardFits(s, s.cards[k]);
    }
  }

  lemma EditFits(s: State, cardId: Id, title: string, description: string, sprintId: Option<Id>, version: int,
                 now: Time)
    requires CompletionFits(s)
    ensures CompletionFits(UpdateCard(s, cardId, title, description, sprintId, version, now).0)
  {
    var s' := UpdateCard(s, cardId, title, description, sprintId, version, now).0;
    forall k | k in s'.cards ensures CardFits(s', s'.cards[k]) {
      assert CardFits(s, s.cards[k]);
    }
  }

  lemma NewColumnFits(s: State, boardId: Id, name: string, now: Time, id: Id)
    requires Inv(s) && Fresh(s, id) && CompletionFits(s)
    ensures CompletionFits(CreateColumn(s, boardId, name, now, id).0)
  {
    var s' := CreateColumn(s, boardId, name, now, id).0;
    forall k | k in s'.cards ensures CardFits(s', s'.cards[k]) {
      assert CardFits(s, s.cards[k]);
    }
  }

  lemma NewBoardFits(s: State, wsId: Id, name: string, now: Time, id: Id, colIds: seq<Id>)
    requires CompletionFits(s) && |colIds| == |DEFAULT_COLUMNS| && forall c :: c in colIds ==> c !in s.columns
    ensures CompletionFits(CreateBoard(s, wsId, name, now, id, colIds).0)
  {
    var s' := CreateBoard(s, wsId, name, now, id, colIds).0;
    forall k | k in s'.cards ensures CardFits(s', s'.cards[k]) {
      assert CardFits(s, s.cards[k]);
    }
  }

  lemma SprintDropFits(s: State, sprintId: Id)
    requires CompletionFits(s)
    ensures CompletionFits(DeleteSprint(s, sprintId).0)
  {
    var s' := DeleteSprint(s, sprintId).0;
    forall k | k in s'.cards ensures CardFits(s', s'.cards[k]) {
      assert CardFits(s, s.cards[k]);
    }
  }

  /** Calls that touch neither cards nor columns. */
  lemma AsideFits(s: State, s': State)
    requires CompletionFits(s) && s'.cards == s.cards && s'.columns == s.columns
    ensures CompletionFits(s')
  {
    forall k | k in s'.cards ensures CardFits(s', s'.cards[k]) {
      assert CardFits(s, s.cards[k]);
    }
  }

  /** One call keeps completion and column names in step if and only if it is no rename that parts them. */
  lemma CallFitsIff(s: State, op: Op, now: Time)
    requires Inv(s) && IdsAreNew(s, op) && CompletionFits(s)
    ensures CompletionFits(Apply(s, op, now)) <==> !FlipsDone(s, op)
  {
    match op
    case NameColumn(c, name) => RenameFitsIff(s, c, name);
    case PlaceCard(k, c, p, v) => MoveFits(s, k, c, p, v, now);
    case AddCard(c, title, text, id) => AddFits(s, c, title, text, now, id);
    case DropColumn(c) => DropFits(s, c);
    case OrderColumns(b, ids) => OrderFits(s, b, ids);
    case EditCard(k, title, text, sp, v) => EditFits(s, k, title, text, sp, v, now);
    case AddColumn(b, name, id) => NewColumnFits(s, b, name, now, id);
    case AddBoard(w, name, id, cols) => NewBoardFits(s, w, name, now, id, cols);
    case DropSprint(p) => SprintDropFits(s, p);
    case _ => AsideFits(s, Apply(s, op, now));
  }

  ghost predicate AlwaysFits(s: State, calls: seq<Call>)
    requires Inv(s) && Possible(s, calls)
    decreases |calls|
  {
    CompletionFits(s) && (calls == [] || AlwaysFits(Apply(s, calls[0].op, calls[0].now), calls[1..]))
  }

  ghost predicate NeverFlips(s: State, calls: seq<Call>)
    requires Inv(s) && Possible(s, calls)
    decreases |calls|
  {
    calls == [] || (!FlipsDone(s, calls[0].op) && NeverFlips(Apply(s, calls[0].op, calls[0].now), calls[1..]))
  }

  /**
   * Along every run, each card counts as completed exactly when it is in a done column, at every
   * point, if and only if no rename on the way makes a column with cards done or not done.
   */
  lemma {:induction false} RunFitsIff(s: State, calls: seq<Call>)
    requires Inv(s) && Possible(s, calls) && CompletionFits(s)
    ensures AlwaysFits(s, calls) <==> NeverFlips(s, calls)
    decreases |calls|
  {
    if calls != [] {
      var s' := Apply(s, calls[0].op, calls[0].now);
      CallFitsIff(s, calls[0].op, calls[0].now);
      if CompletionFits(s') {
        RunFitsIff(s', calls[1..]);
      }
    }
  }

  // ---------- no lost change ----------

  /** An accepted edit or move of a card, and the version it named. */
  datatype Accepted = Accepted(cardId: Id, version: int)

  ghost function AcceptedBy(s: State, op: Op, now: Time): seq<Accepted>
    requires Inv(s)
  {
    if op.EditCard? && UpdateCard(s, op.cardId, op.title, op.description, op.sprintId, op.version, now).1.Ok?
    then [Accepted(op.cardId, op.version)]
    else if op.PlaceCard? && MoveCard(s, op.cardId, op.columnId, op.position, op.version, now).1.Ok?
    then [Accepted(op.cardId, op.version)]
    else []
  }

  ghost function AllAccepted(s: State, calls: seq<Call>): seq<Accepted>
    requires Inv(s) && Possible(s, calls)
    decreases |calls|
  {
    if calls == [] then []
    else AcceptedBy(s, calls[0].op, calls[0].now) + AllAccepted(Apply(s, calls[0].op, calls[0].now), calls[1..])
  }

  lemma MoveVersions(s: State, cardId: Id, targetId: Id, position: int, version: int, now: Time, k: Id)
    requires Inv(s) && k in s.cards
    ensures var (s', r) := MoveCard(s, cardId, targetId, position, version, now);
            && k in s'.cards && s'.cards[k].version >= s.cards[k].version
            && (r.Ok? && cardId == k ==> version == s.cards[k].version < s'.cards[k].version)
  {
    MoveCardOutcome(s, cardId, targetId, position, version, now);
    if Movable(s, cardId, targetId, version) && cardId != k {
      MoveCardOthers(s, cardId, targetId, position, version, now, k);
    }
  }

  lemma ColumnCallsKeepCards(s: State, op: Op, now: Time)
    requires Inv(s) && IdsAreNew(s, op)
    requires op.AddColumn? || op.NameColumn? || op.DropColumn? || op.OrderColumns?
    ensures Apply(s, op, now).cards == s.cards
  {
    match op
    case DropColumn(c) => assert DeleteColumn(s, c).0.cards == s.cards;
    case OrderColumns(b, ids) => assert ReorderColumns(s, b, ids).0.cards == s.cards;
    case _ =>
  }

  lemma AsideCallsKeepCards(s: State, op: Op, now: Time)
    requires Inv(s) && IdsAreNew(s, op)
    requires op.AddWorkspace? || op.AddBoard? || op.MarkBoard? || op.AddSprint? || op.EditSprint?
    ensures Apply(s, op, now).cards == s.cards
  {
  }

  /** Calls other than an edit or a move leave versions alone. */
  lemma VersionsStay(s: State, op: Op, now: Time, k: Id)
    requires Inv(s) && IdsAreNew(s, op) && k in s.cards && !op.EditCard? && !op.PlaceCard?
    ensures k in Apply(s, op, now).cards && Apply(s, op, now).cards[k].version == s.cards[k].version
  {
    if op.AddColumn? || op.NameColumn? || op.DropColumn? || op.OrderColumns? {
      ColumnCallsKeepCards(s, op, now);
    } else if !op.AddCard? && !op.DropSprint? {
      AsideCallsKeepCards(s, op, now);
    }
  }

  lemma CardVersionsClimb(s: State, op: Op, now: Time, k: Id)
    requires Inv(s) && IdsAreNew(s, op) && k in s.cards
    ensures var s' := Apply(s, op, now);
            && k in s'.cards && s'.cards[k].version >= s.cards[k].version
            && forall a :: a in AcceptedBy(s, op, now) && a.cardId == k ==>
                 a.version == s.cards[k].version < s'.cards[k].version
  {
    if op.PlaceCard? {
      MoveVersions(s, op.cardId, op.columnId, op.position, op.version, now, k);
    } else if op.EditCard? {
      UpdateCardOutcome(s, op.cardId, op.title, op.description, op.sprintId, op.version, now);
    } else {
      VersionsStay(s, op, now, k);
    }
  }

  lemma {:induction false} LaterVersionsAbove(s: State, calls: seq<Call>, k: Id)
    requires Inv(s) && Possible(s, calls) && k in s.cards
    ensures forall a :: a in AllAccepted(s, calls) && a.cardId == k ==> a.version >= s.cards[k].version
    decreases |calls|
  {
    if calls != [] {
      CardVersionsClimb(s, calls[0].op, calls[0].now, k);
      LaterVersionsAbove(Apply(s, calls[0].op, calls[0].now), calls[1..], k);
    }
  }

  lemma AcceptedIsKnown(s: State, op: Op, now: Time)
    requires Inv(s)
    ensures |AcceptedBy(s, op, now)| <= 1 && forall a :: a in AcceptedBy(s, op, now) ==> a.cardId in s.cards
  {
  }

  lemma FirstIsBelow(s: State, calls: seq<Call>, a: Accepted, b: Accepted)
    requires Inv(s) && Possible(s, calls) && calls != [] && a.cardId == b.cardId
    requires a in AcceptedBy(s, calls[0].op, calls[0].now)
    requires b in AllAccepted(Apply(s, calls[0].op, calls[0].now), calls[1..])
    ensures a.version < b.version
  {
    AcceptedIsKnown(s, calls[0].op, calls[0].now);
    CardVersionsClimb(s, calls[0].op, calls[0].now, a.cardId);
    LaterVersionsAbove(Apply(s, calls[0].op, calls[0].now), calls[1..], a.cardId);
  }

  /** Later changes of a card name higher versions. */
  ghost predicate Climbing(all: seq<Accepted>) {
    forall i, j :: 0 <= i < j < |all| && all[i].cardId == all[j].cardId ==> all[i].version < all[j].version
  }

  lemma ClimbingJoin(here: seq<Accepted>, later: seq<Accepted>)
    requires |here| <= 1 && Climbing(later)
    requires forall a, b :: a in here && b in later && a.cardId == b.cardId ==> a.version < b.version
    ensures Climbing(here + later)
  {
    var all := here + later;
    forall i, j | 0 <= i < j < |all| && all[i].cardId == all[j].cardId ensures all[i].version < all[j].version {
      if i < |here| {
        assert all[i] in here && all[j] in later;
      }
    }
  }

  /** Along every run no two accepted edits or moves of a card name the same version: none overwrites another unseen. */
  lemma {:induction false} NoCardChangeIsLost(s: State, calls: seq<Call>)
    requires Inv(s) && Possible(s, calls)
    ensures Climbing(AllAccepted(s, calls))
    decreases |calls|
  {
    if calls != [] {
      var op, now := calls[0].op, calls[0].now;
      var here, later := AcceptedBy(s, op, now), AllAccepted(Apply(s, op, now), calls[1..]);
      NoCardChangeIsLost(Apply(s, op, now), calls[1..]);
      AcceptedIsKnown(s, op, now);
      forall a, b | a in here && b in later && a.cardId == b.cardId ensures a.version < b.version {
        FirstIsBelow(s, calls, a, b);
      }
      ClimbingJoin(here, later);
    }
  }
}
