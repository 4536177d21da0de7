/** Moving a card, and whole runs of board operations. */
module BoardRuns {
  import opened Common
  import opened BoardModel

  // ---------- moving a card ----------

  lemma ListsHoldTheirCards(s: State)
    requires Inv(s)
    ensures forall c, k {:trigger k in s.columnCards[c]} :: c in s.columns ==>
              (k in s.columnCards[c] <==> k in s.cards && s.cards[k].columnId == c)
    ensures forall c {:trigger s.columnCards[c]} :: c in s.columns ==> NoDup(s.columnCards[c])
  {
    forall c, k | c in s.columns
      ensures k in s.columnCards[c] <==> k in s.cards && s.cards[k].columnId == c
      ensures NoDup(s.columnCards[c])
    {
      InvMeaning(s, "", c, k);
    }
  }

  /** The two conditions under which a move is carried out, once the card and its version are right. */
  predicate Movable(s: State, cardId: Id, targetId: Id, version: int) {
    && cardId in s.cards && s.cards[cardId].version == version
    && targetId in s.columns && s.columns[targetId].boardId == s.cards[cardId].boardId
  }

  /** The target column's list before the card goes in. */
  function TargetWithout(s: State, cardId: Id, targetId: Id): seq<Id>
    requires targetId in s.columnCards
  {
    Without(s.columnCards[targetId], cardId)
  }

  /** The record an accepted move answers with. */
  lemma MoveCardAnswer(s: State, cardId: Id, targetId: Id, position: int, version: int, now: Time)
    requires Inv(s) && Movable(s, cardId, targetId, version)
    ensures targetId in s.columnCards
    ensures MoveCard(s, cardId, targetId, position, version, now).1
         == Ok(Moved(s.cards[cardId], s.columns[targetId], Clamp(position, |TargetWithout(s, cardId, targetId)|), now))
  {
    assert CardListed(s, cardId);
    InvMeaning(s, "", targetId, cardId);
    if s.cards[cardId].columnId != targetId {
      WithoutAbsent(s.columnCards[targetId], cardId);
    }
  }

  /**
   * The lists after a move: in the target column the card stands at the clamped position
   * among the others, in every column the others keep their relative order.
   */
  lemma MoveCardLists(s: State, cardId: Id, targetId: Id, position: int, version: int, now: Time)
    requires Inv(s) && Movable(s, cardId, targetId, version)
    ensures var s' := MoveCard(s, cardId, targetId, position, version, now).0;
            var others := TargetWithout(s, cardId, targetId);
            && s'.columnCards.Keys == s.columnCards.Keys
            && s'.columnCards[targetId] == InsertAt(others, Clamp(position, |others|), cardId)
            && (forall c :: c in s.columns && c != targetId ==> s'.columnCards[c] == Without(s.columnCards[c], cardId))
  {
    var s' := MoveCard(s, cardId, targetId, position, version, now).0;
    ListsHoldTheirCards(s);
    assert CardListed(s, cardId);
    forall c | c in s.columns && c != s.cards[cardId].columnId
      ensures Without(s.columnCards[c], cardId) == s.columnCards[c]
    {
      WithoutAbsent(s.columnCards[c], cardId);
    }
  }

  lemma MoveCardOrder(s: State, cardId: Id, targetId: Id, position: int, version: int, now: Time)
    requires Inv(s) && Movable(s, cardId, targetId, version)
    ensures var s' := MoveCard(s, cardId, targetId, position, version, now).0;
            && s'.columnCards.Keys == s.columnCards.Keys
            && (forall c :: c in s.columns ==> Without(s'.columnCards[c], cardId) == Without(s.columnCards[c], cardId))
            && (forall c :: c in s.columns ==> (cardId in s'.columnCards[c] <==> c == targetId))
            && (forall c :: c in s.columns ==> NoDup(s'.columnCards[c]))
  {
    var s' := MoveCard(s, cardId, targetId, position, version, now).0;
    MoveCardLists(s, cardId, targetId, position, version, now);
    ListsHoldTheirCards(s);
    forall c | c in s.columns
      ensures Without(s'.columnCards[c], cardId) == Without(s.columnCards[c], cardId)
      ensures cardId in s'.columnCards[c] <==> c == targetId
      ensures NoDup(s'.columnCards[c])
    {
      var others := Without(s.columnCards[c], cardId);
      WithoutElements(s.columnCards[c], cardId);
      WithoutNoDup(s.columnCards[c], cardId);
      WithoutAbsent(others, cardId);
      if c == targetId {
        var k := Clamp(position, |others|);
        WithoutInsertAt(others, k, cardId);
        InsertAtNoDup(others, k, cardId);
        InsertAtElements(others, k, cardId);
      }
    }
  }

  /** What the two re-indexing passes do to a card other than the moved one. */
  lemma MoveCardReindexes(s: State, cardId: Id, targetId: Id, position: int, version: int, now: Time, k: Id)
    requires Inv(s) && Movable(s, cardId, targetId, version) && k in s.cards && k != cardId
    ensures var s' := MoveCard(s, cardId, targetId, position, version, now).0;
            var source := s.cards[cardId].columnId;
            && s'.cards.Keys == s.cards.Keys
            && source in s.columnCards && targetId in s'.columnCards
            && s'.cards[k] == s.cards[k].(position :=
                 if k in s'.columnCards[targetId] then LastIndex(s'.columnCards[targetId], k)
                 else if k in Without(s.columnCards[source], cardId)
                   then LastIndex(Without(s.columnCards[source], cardId), k)
                 else s.cards[k].position)
  {
    var s' := MoveCard(s, cardId, targetId, position, version, now).0;
    assert CardListed(s, cardId);
  }

  /** Where the moved card's neighbours are listed afterwards. */
  lemma MoveCardListing(s: State, cardId: Id, targetId: Id, position: int, version: int, now: Time, c: Id, k: Id)
    requires Inv(s) && Movable(s, cardId, targetId, version) && k != cardId && c in s.columns
    ensures var s' := MoveCard(s, cardId, targetId, position, version, now).0;
            c in s'.columnCards && (k in s'.columnCards[c] <==> k in s.columnCards[c])
  {
    var s' := MoveCard(s, cardId, targetId, position, version, now).0;
    MoveCardOrder(s, cardId, targetId, position, version, now);
    WithoutElements(s.columnCards[c], cardId);
    WithoutElements(s'.columnCards[c], cardId);
  }

  /** Every card other than the moved one stays in its column and only its position may change, to its new index. */
  lemma MoveCardOthers(s: State, cardId: Id, targetId: Id, position: int, version: int, now: Time, k: Id)
    requires Inv(s) && Movable(s, cardId, targetId, version) && k in s.cards && k != cardId
    ensures var s' := MoveCard(s, cardId, targetId, position, version, now).0;
            var c := s.cards[k].columnId;
            && s'.cards.Keys == s.cards.Keys
            && c in s'.columnCards && k in s'.columnCards[c]
            && s'.cards[k] == s.cards[k].(position := LastIndex(s'.columnCards[c], k))
  {
    var c, source := s.cards[k].columnId, s.cards[cardId].columnId;
    assert CardListed(s, cardId) && CardListed(s, k);
    MoveCardReindexes(s, cardId, targetId, position, version, now, k);
    MoveCardListing(s, cardId, targetId, position, version, now, c, k);
    MoveCardListing(s, cardId, targetId, position, version, now, targetId, k);
    InvMeaning(s, "", targetId, k);
    InvMeaning(s, "", source, k);
    if c != targetId {
      MoveCardLists(s, cardId, targetId, position, version, now);
      WithoutElements(s.columnCards[source], cardId);
      if c != source {
        InvMeaning(s, "", c, cardId);
        WithoutAbsent(s.columnCards[c], cardId);
        InListAt(s.columnCards[c], s.cards[k].position);
      }
    }
  }

  lemma InListAt(ids: seq<Id>, i: nat)
    requires NoDup(ids) && i < |ids|
    ensures ids[i] in ids && LastIndex(ids, ids[i]) == i
  {
    LastIndexOf(ids, i);
  }

  lemma MoveCardCards(s: State, cardId: Id, targetId: Id, position: int, version: int, now: Time)
    requires Inv(s) && Movable(s, cardId, targetId, version)
    ensures var s' := MoveCard(s, cardId, targetId, position, version, now).0; CardListsOk(s') && CardsOk(s')
  {
    var s' := MoveCard(s, cardId, targetId, position, version, now).0;
    var others := TargetWithout(s, cardId, targetId);
    var at := Clamp(position, |others|);
    MoveCardOrder(s, cardId, targetId, position, version, now);
    MoveCardLists(s, cardId, targetId, position, version, now);
    assert CardListed(s, cardId);
    assert s'.columnCards[targetId][at] == cardId;
    forall c, i | c in s'.columnCards && 0 <= i < |s'.columnCards[c]|
      ensures CardAt(s'.cards, s'.columnCards[c][i], c, i)
    {
      var k := s'.columnCards[c][i];
      assert k in s'.columnCards[c];
      if k != cardId {
        WithoutElements(s'.columnCards[c], cardId);
        WithoutElements(s.columnCards[c], cardId);
        InvMeaning(s, "", c, k);
        MoveCardOthers(s, cardId, targetId, position, version, now, k);
        LastIndexOf(s'.columnCards[c], i);
      }
    }
    forall k | k in s'.cards ensures CardListed(s', k) {
      if k != cardId {
        assert CardListed(s, k);
        MoveCardOthers(s, cardId, targetId, position, version, now, k);
      }
    }
  }

  lemma PlacedRecords(cards: map<Id, Card>, kept: seq<Id>, placed: seq<Id>, cardId: Id, c: Card)
    requires cardId in cards && c.id == cards[cardId].id && c.boardId == cards[cardId].boardId
        && c.sprintId == cards[cardId].sprintId
    ensures var cards' := ReindexCards(ReindexCards(cards, kept), placed)[cardId := c];
            && cards'.Keys == cards.Keys
            && forall k :: k in cards ==>
                 cards'[k].id == cards[k].id && cards'[k].boardId == cards[k].boardId
                     && cards'[k].sprintId == cards[k].sprintId
  {
    var twice := ReindexCards(ReindexCards(cards, kept), placed);
    assert twice.Keys == cards.Keys;
  }

  /** A move touches no column's place and no card's sprint or id. */
  lemma MoveCardFrames(s: State, cardId: Id, targetId: Id, position: int, version: int, now: Time)
    requires Inv(s) && Movable(s, cardId, targetId, version)
    ensures var s' := MoveCard(s, cardId, targetId, position, version, now).0;
            ColumnPlacesKept(s, s') && SprintsKept(s, s') && IdsOk(s')
  {
    assert CardListed(s, cardId);
    var s' := MoveCard(s, cardId, targetId, position, version, now).0;
    var c, kept := s.cards[cardId], Without(s.columnCards[s.cards[cardId].columnId], cardId);
    var removed := s.columnCards[c.columnId := kept];
    var at := Clamp(position, |removed[targetId]|);
    var placed := InsertAt(removed[targetId], at, cardId);
    PlacedRecords(s.cards, kept, placed, cardId, Moved(c, s.columns[targetId], at, now));
    assert s' == s.(columnCards := removed[targetId := placed],
                    cards := ReindexCards(ReindexCards(s.cards, kept), placed)[
                      cardId := Moved(c, s.columns[targetId], at, now)]);
  }

  lemma MoveCardKeepsInv(s: State, cardId: Id, targetId: Id, position: int, version: int, now: Time)
    requires Inv(s)
    ensures Inv(MoveCard(s, cardId, targetId, position, version, now).0)
  {
    if Movable(s, cardId, targetId, version) {
      var s' := MoveCard(s, cardId, targetId, position, version, now).0;
      assert BoardListsOk(s') && ColumnsOk(s') && SprintsOk(s') && IdsOk(s') by {
        MoveCardFrames(s, cardId, targetId, position, version, now);
        FrameColumns(s, s');
        FrameSprints(s, s');
      }
      MoveCardCards(s, cardId, targetId, position, version, now);
    }
  }

  /** A list is what is left without one of its elements, with that element put back at its place. */
  lemma PutBack(ids: seq<Id>, i: nat)
    requires NoDup(ids) && i < |ids|
    ensures i <= |Without(ids, ids[i])| && InsertAt(Without(ids, ids[i]), i, ids[i]) == ids
  {
    WithoutAt(ids, i);
    assert Without(ids, ids[i])[..i] == ids[..i];
  }

  lemma MoveBackLists(s: State, s1: State, cardId: Id, now: Time)
    requires Inv(s) && Inv(s1) && cardId in s.cards && cardId in s1.cards
    requires Movable(s1, cardId, s.cards[cardId].columnId, s1.cards[cardId].version)
    requires s1.columns == s.columns && s1.columnCards.Keys == s.columnCards.Keys
    requires forall c :: c in s.columns ==> Without(s1.columnCards[c], cardId) == Without(s.columnCards[c], cardId)
    ensures var c := s.cards[cardId];
            MoveCard(s1, cardId, c.columnId, c.position, s1.cards[cardId].version, now).0.columnCards == s.columnCards
  {
    var c := s.cards[cardId];
    var s2 := MoveCard(s1, cardId, c.columnId, c.position, s1.cards[cardId].version, now).0;
    assert CardListed(s, cardId);
    MoveCardLists(s1, cardId, c.columnId, c.position, s1.cards[cardId].version, now);
    ListsHoldTheirCards(s);
    forall b | b in s.columnCards ensures s2.columnCards[b] == s.columnCards[b] {
      if b == c.columnId {
        PutBack(s.columnCards[b], c.position);
      } else {
        WithoutAbsent(s.columnCards[b], cardId);
      }
    }
  }

  /**
   * Moving a card back to the column and position it came from restores every list, and
   * every other card's record; the card itself keeps only its new version and completion.
   */
  lemma MoveBackRestores(s: State, cardId: Id, targetId: Id, position: int, version: int, now: Time, later: Time)
    requires Inv(s) && Movable(s, cardId, targetId, version)
    ensures var c := s.cards[cardId];
            var s1 := MoveCard(s, cardId, targetId, position, version, now).0;
            && Inv(s1)
            && var r := MoveCard(s1, cardId, c.columnId, c.position, version + 1, later);
            && r.1.Ok?
            && r.0.columnCards == s.columnCards
            && (forall k :: k in s.cards && k != cardId ==> k in r.0.cards && r.0.cards[k] == s.cards[k])
  {
    var c := s.cards[cardId];
    var s1 := MoveCard(s, cardId, targetId, position, version, now).0;
    assert CardListed(s, cardId);
    MoveCardKeepsInv(s, cardId, targetId, position, version, now);
    MoveCardOrder(s, cardId, targetId, position, version, now);
    assert Movable(s1, cardId, c.columnId, version + 1);
    MoveBackLists(s, s1, cardId, later);
    forall k | k in s.cards && k != cardId
      ensures var s2 := MoveCard(s1, cardId, c.columnId, c.position, version + 1, later).0;
              k in s2.cards && s2.cards[k] == s.cards[k]
    {
      MoveBackCard(s, cardId, targetId, position, version, now, later, k);
    }
  }

  lemma MoveBackCard(s: State, cardId: Id, targetId: Id, position: int, version: int, now: Time, later: Time, k: Id)
    requires Inv(s) && Movable(s, cardId, targetId, version) && k in s.cards && k != cardId
    requires var s1 := MoveCard(s, cardId, targetId, position, version, now).0;
             && Inv(s1) && Movable(s1, cardId, s.cards[cardId].columnId, version + 1)
             && var c := s.cards[cardId];
             MoveCard(s1, cardId, c.columnId, c.position, version + 1, later).0.columnCards == s.columnCards
    ensures var s1 := MoveCard(s, cardId, targetId, position, version, now).0;
            var s2 := MoveCard(s1, cardId, s.cards[cardId].columnId, s.cards[cardId].position, version + 1, later).0;
            k in s2.cards && s2.cards[k] == s.cards[k]
  {
    var c := s.cards[cardId];
    var s1 := MoveCard(s, cardId, targetId, position, version, now).0;
    assert CardListed(s, k);
    MoveCardOthers(s, cardId, targetId, position, version, now, k);
    MoveCardOthers(s1, cardId, c.columnId, c.position, version + 1, later, k);
    InvMeaning(s, "", s.cards[k].columnId, k);
    InListAt(s.columnCards[s.cards[k].columnId], s.cards[k].position);
  }

  // ---------- whole runs ----------

  /** A call on the store; new records carry the id that was drawn for them. */
  datatype Op =
    | AddWorkspace(wsId: Id)
    | AddBoard(inWorkspace: Id, name: string, id: Id, colIds: seq<Id>)
    | MarkBoard(boardId: Id, archived: bool)
    | AddColumn(boardId: Id, name: string, id: Id)
    | NameColumn(columnId: Id, name: string)
    | DropColumn(columnId: Id)
    | OrderColumns(boardId: Id, columnIds: seq<Id>)
    | AddCard(columnId: Id, title: string, description: string, id: Id)
    | EditCard(cardId: Id, title: string, description: string, sprintId: Option<Id>, version: int)
    | PlaceCard(cardId: Id, columnId: Id, position: int, version: int)
    | AddSprint(boardId: Id, name: string, startAt: Time, endAt: Time, id: Id)
    | EditSprint(sprint: Id, name: string, newStart: Option<Time>, newEnd: Option<Time>)
    | DropSprint(sprint: Id)

  /** Drawn ids are new and distinct. */
  ghost predicate IdsAreNew(s: State, op: Op) {
    match op
    case AddBoard(_, _, id, colIds) =>
      Fresh(s, id) && |colIds| == |DEFAULT_COLUMNS| && NoDup(colIds) && forall c :: c in colIds ==> Fresh(s, c)
    case AddColumn(_, _, id) => Fresh(s, id)
    case AddCard(_, _, _, id) => Fresh(s, id)
    case AddSprint(_, _, _, _, id) => Fresh(s, id)
    case _ => true
  }

  function Apply(s: State, op: Op, now: Time): (r: State)
    requires Inv(s) && IdsAreNew(s, op)
    ensures Inv(r)
  {
    match op
    case AddWorkspace(w) => AddWorkspaceKeepsInv(s, w); s.(workspaces := s.workspaces + {w})
    case AddBoard(w, name, id, cols) =>
      CreateBoardKeepsInv(s, w, name, now, id, cols); CreateBoard(s, w, name, now, id, cols).0
    case MarkBoard(b, archived) =>
      var mark := if archived then Some(now) else None;
      ArchiveBoardKeepsInv(s, b, mark); ArchiveBoard(s, b, mark).0
    case AddColumn(b, name, id) => CreateColumnKeepsInv(s, b, name, now, id); CreateColumn(s, b, name, now, id).0
    case NameColumn(c, name) => RenameColumnKeepsInv(s, c, name); RenameColumn(s, c, name).0
    case DropColumn(c) => DeleteColumnKeepsInv(s, c); DeleteColumn(s, c).0
    case OrderColumns(b, ids) => ReorderColumnsKeepsInv(s, b, ids); ReorderColumns(s, b, ids).0
    case AddCard(c, title, text, id) =>
      CreateCardKeepsInv(s, c, title, text, now, id); CreateCard(s, c, title, text, now, id).0
    case EditCard(k, title, text, sp, v) =>
      UpdateCardKeepsInv(s, k, title, text, sp, v, now); UpdateCard(s, k, title, text, sp, v, now).0
    case PlaceCard(k, c, p, v) => MoveCardKeepsInv(s, k, c, p, v, now); MoveCard(s, k, c, p, v, now).0
    case AddSprint(b, name, from, to, id) =>
      CreateSprintKeepsInv(s, b, name, from, to, now, id); CreateSprint(s, b, name, from, to, now, id).0
    case EditSprint(p, name, from, to) =>
      UpdateSprintKeepsInv(s, p, name, from, to); UpdateSprint(s, p, name, from, to).0
    case DropSprint(p) => DeleteSprintKeepsInv(s, p); DeleteSprint(s, p).0
  }

  lemma AddWorkspaceKeepsInv(s: State, w: Id)
    requires Inv(s)
    ensures Inv(s.(workspaces := s.workspaces + {w}))
  {
    FrameInv(s, s.(workspaces := s.workspaces + {w}));
  }

  datatype Call = Call(op: Op, now: Time)

  ghost predicate Possible(s: State, calls: seq<Call>)
    requires Inv(s)
    decreases |calls|
  {
    calls == [] || (IdsAreNew(s, calls[0].op) && Possible(Apply(s, calls[0].op, calls[0].now), calls[1..]))
  }

  ghost function Run(s: State, calls: seq<Call>): State
    requires Inv(s) && Possible(s, calls)
    decreases |calls|
  {
    if calls == [] then s else Run(Apply(s, calls[0].op, calls[0].now), calls[1..])
  }

  lemma EmptyInv()
    ensures Inv(EMPTY)
  {
  }

  /** After any run from the empty store, the lists and the positions say the same thing. */
  lemma {:induction false} RunKeepsInv(s: State, calls: seq<Call>)
    requires Inv(s) && Possible(s, calls)
    ensures Inv(Run(s, calls))
    decreases |calls|
  {
    if calls != [] {
      RunKeepsInv(Apply(s, calls[0].op, calls[0].now), calls[1..]);
    }
  }

  /** No card was created after `clock` or completed before it was created. */
  ghost predicate TimesOk(cards: map<Id, Card>, clock: Time) {
    forall k :: k in cards ==>
      && cards[k].createdAt <= clock
      && (cards[k].completedAt.Some? ==> cards[k].createdAt <= cards[k].completedAt.value <= clock)
  }

  predicate ClockRuns(clock: Time, calls: seq<Call>)
    decreases |calls|
  {
    calls == [] || (clock <= calls[0].now && ClockRuns(calls[0].now, calls[1..]))
  }

  lemma MoveCardKeepsTimes(s: State, cardId: Id, targetId: Id, position: int, version: int, now: Time)
    requires Inv(s) && TimesOk(s.cards, now)
    ensures TimesOk(MoveCard(s, cardId, targetId, position, version, now).0.cards, now)
  {
    if Movable(s, cardId, targetId, version) {
      var s' := MoveCard(s, cardId, targetId, position, version, now).0;
      forall k | k in s'.cards
        ensures s'.cards[k].createdAt <= now
        ensures s'.cards[k].completedAt.Some? ==> s'.cards[k].createdAt <= s'.cards[k].completedAt.value <= now
      {
        if k != cardId {
          MoveCardOthers(s, cardId, targetId, position, version, now, k);
        }
      }
    }
  }

  lemma ApplyKeepsTimes(s: State, op: Op, now: Time)
    requires Inv(s) && IdsAreNew(s, op) && TimesOk(s.cards, now)
    ensures TimesOk(Apply(s, op, now).cards, now)
  {
    if op.PlaceCard? {
      MoveCardKeepsTimes(s, op.cardId, op.columnId, op.position, op.version, now);
    }
  }

  /** Under a clock that never goes back, no card is ever completed before it was created. */
  lemma {:induction false} RunKeepsTimes(s: State, calls: seq<Call>, clock: Time)
    requires Inv(s) && Possible(s, calls) && ClockRuns(clock, calls) && TimesOk(s.cards, clock)
    ensures forall k :: k in Run(s, calls).cards && Run(s, calls).cards[k].completedAt.Some? ==>
              Run(s, calls).cards[k].createdAt <= Run(s, calls).cards[k].completedAt.value
    decreases |calls|
  {
    if calls != [] {
      ApplyKeepsTimes(s, calls[0].op, calls[0].now);
      RunKeepsTimes(Apply(s, calls[0].op, calls[0].now), calls[1..], calls[0].now);
    }
  }
}
