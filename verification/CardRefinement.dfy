/** How far the relational move refines the in-memory one. */
module CardRefinement {
  import opened Common
  import opened BoardModel
  import opened CardRows
  import BoardOutcomes
  import BoardRuns

  /** The move is carried out: right card, right version, a column of the card's board. */
  predicate Accepted(rows: Rows, columns: map<Id, Column>, cardId: Id, targetId: Id, version: int) {
    && cardId in rows && rows[cardId].id == cardId && rows[cardId].version == version
    && targetId in columns && columns[targetId].id == targetId && columns[targetId].boardId == rows[cardId].boardId
  }

  /** The list the second renumbering goes through. */
  ghost function NewIds(rows: Rows, cardId: Id, targetId: Id, position: int): seq<Id>
    requires cardId in rows
  {
    var ids := Listing(Renumbered(rows, cardId), targetId);
    InsertAt(ids, Clamp(position, |ids|), cardId)
  }

  /** The rows after the card's old column has been renumbered without it. */
  ghost function Renumbered(rows: Rows, cardId: Id): Rows
    requires cardId in rows
  {
    ReindexCards(rows, Kept(rows, cardId))
  }

  ghost function Kept(rows: Rows, cardId: Id): seq<Id>
    requires cardId in rows
  {
    Without(Listing(rows, rows[cardId].columnId), cardId)
  }

  lemma MoveRowsShape(rows: Rows, columns: map<Id, Column>, cardId: Id, targetId: Id, position: int, version: int,
                      now: Time)
    requires Accepted(rows, columns, cardId, targetId, version)
    ensures var (rows', r) := MoveRows(rows, columns, cardId, targetId, position, version, now);
            && rows'.Keys == rows.Keys && r.Ok?
            && rows'[cardId] == r.value == Moved(rows[cardId], columns[targetId],
                 Clamp(position, |Listing(Renumbered(rows, cardId), targetId)|), now)
            && (forall x :: x in rows && x != cardId ==>
                 rows'[x] == rows[x].(position :=
                   if x in NewIds(rows, cardId, targetId, position)
                     then LastIndex(NewIds(rows, cardId, targetId, position), x)
                   else if x in Kept(rows, cardId) then LastIndex(Kept(rows, cardId), x)
                   else rows[x].position))
  {
    var kept, newIds := Kept(rows, cardId), NewIds(rows, cardId, targetId, position);
    forall x | x in rows
      ensures ReindexCards(ReindexCards(rows, kept), newIds)[x]
           == rows[x].(position := if x in newIds then LastIndex(newIds, x)
                                   else if x in kept then LastIndex(kept, x) else rows[x].position)
    {
      assert x in ReindexCards(rows, kept);
    }
  }

  /**
   * The transaction accepts a move exactly for a known card at its current version and a column of its
   * board; the answer is the stored row, in that column, one version on, completed exactly if the
   * column says so, and since when it was completed before.  Every refusal changes no row.
   */
  lemma MoveRowsOutcome(rows: Rows, columns: map<Id, Column>, cardId: Id, targetId: Id, position: int, version: int,
                        now: Time)
    requires cardId in rows ==> rows[cardId].id == cardId
    requires targetId in columns ==> columns[targetId].id == targetId
    ensures var (rows', r) := MoveRows(rows, columns, cardId, targetId, position, version, now);
            && (r.Ok? <==> cardId in rows && rows[cardId].version == version && targetId in columns
                           && columns[targetId].boardId == rows[cardId].boardId)
            && (r.Ok? ==>
                  var was, name := rows[cardId], columns[targetId].name;
                  && rows'.Keys == rows.Keys && rows'[cardId] == r.value
                  && r.value == was.(columnId := targetId, position := r.value.position, version := version + 1,
                                     updatedAt := now, completedAt := r.value.completedAt)
                  && BoardOutcomes.Completes(was.completedAt, r.value.completedAt, name, now)
                  && (name == "Done" ==>
                        r.value.completedAt == if was.completedAt.Some? then was.completedAt else Some(now))
                  && (name == "To Do" ==> r.value.completedAt == None))
            && (!r.Ok? ==>
                  && rows' == rows
                  && r == if cardId !in rows then Err(NotFound)
                          else if rows[cardId].version != version then Stale(rows[cardId])
                          else if targetId !in columns then Err(NotFound) else Err(Forbidden))
  {
    var r := MoveRows(rows, columns, cardId, targetId, position, version, now).1;
    if r.Ok? {
      BoardOutcomes.DoneNames(columns[targetId].name);
      BoardOutcomes.DefaultNames();
      MoveRowsShape(rows, columns, cardId, targetId, position, version, now);
    }
  }

  lemma KeptElements(rows: Rows, cardId: Id)
    requires cardId in rows
    ensures NoDup(Kept(rows, cardId))
    ensures forall x :: x in Kept(rows, cardId) <==> InColumn(rows, rows[cardId].columnId, x) && x != cardId
  {
    var listed := Listing(rows, rows[cardId].columnId);
    WithoutElements(listed, cardId);
    ListingNoDup(rows, rows[cardId].columnId);
    WithoutNoDup(listed, cardId);
  }

  // ---------- moves between two columns ----------

  lemma CrossNewIds(rows: Rows, cardId: Id, targetId: Id, position: int)
    requires cardId in rows && rows[cardId].columnId != targetId
    ensures Listing(Renumbered(rows, cardId), targetId) == Listing(rows, targetId)
    ensures var ids := Listing(rows, targetId);
            NewIds(rows, cardId, targetId, position) == InsertAt(ids, Clamp(position, |ids|), cardId)
    ensures NoDup(NewIds(rows, cardId, targetId, position))
    ensures forall x :: x in NewIds(rows, cardId, targetId, position) <==> InColumn(rows, targetId, x) || x == cardId
  {
    KeptElements(rows, cardId);
    ListingFrame(rows, Renumbered(rows, cardId), targetId);
    var ids := Listing(rows, targetId);
    assert !InColumn(rows, targetId, cardId);
    ListingNoDup(rows, targetId);
    InsertAtNoDup(ids, Clamp(position, |ids|), cardId);
    InsertAtElements(ids, Clamp(position, |ids|), cardId);
  }

  /** The target column after a move into it from another column. */
  lemma CrossTarget(rows: Rows, columns: map<Id, Column>, cardId: Id, targetId: Id, position: int, version: int,
                    now: Time)
    requires Accepted(rows, columns, cardId, targetId, version) && rows[cardId].columnId != targetId
    ensures var rows' := MoveRows(rows, columns, cardId, targetId, position, version, now).0;
            var ids := Listing(rows, targetId);
            && Listing(rows', targetId) == InsertAt(ids, Clamp(position, |ids|), cardId)
            && Dense(rows', targetId)
  {
    var rows' := MoveRows(rows, columns, cardId, targetId, position, version, now).0;
    var newIds := NewIds(rows, cardId, targetId, position);
    MoveRowsShape(rows, columns, cardId, targetId, position, version, now);
    CrossNewIds(rows, cardId, targetId, position);
    var ids := Listing(rows, targetId);
    var k := Clamp(position, |ids|);
    assert newIds[k] == cardId;
    forall i | 0 <= i < |newIds| ensures newIds[i] in rows' && rows'[newIds[i]].position == i {
      assert newIds[i] in newIds;
      LastIndexOf(newIds, i);
      assert newIds[i] != cardId ==> InColumn(rows, targetId, newIds[i]);
    }
    forall x ensures x in newIds <==> InColumn(rows', targetId, x) {
      assert x in newIds <==> InColumn(rows, targetId, x) || x == cardId;
    }
    ListingClimbs(rows', targetId, newIds);
  }

  /** Positions in a column are 0, 1, 2, ... in list order. */
  ghost predicate Dense(rows: Rows, c: Id) {
    forall i :: 0 <= i < |Listing(rows, c)| ==> Listing(rows, c)[i] in rows && rows[Listing(rows, c)[i]].position == i
  }

  /** The column the card has left. */
  lemma CrossSource(rows: Rows, columns: map<Id, Column>, cardId: Id, targetId: Id, position: int, version: int,
                    now: Time)
    requires Accepted(rows, columns, cardId, targetId, version) && rows[cardId].columnId != targetId
    ensures var rows' := MoveRows(rows, columns, cardId, targetId, position, version, now).0;
            var source := rows[cardId].columnId;
            && Listing(rows', source) == Without(Listing(rows, source), cardId)
            && Dense(rows', source)
  {
    var rows' := MoveRows(rows, columns, cardId, targetId, position, version, now).0;
    var source, kept := rows[cardId].columnId, Kept(rows, cardId);
    MoveRowsShape(rows, columns, cardId, targetId, position, version, now);
    CrossNewIds(rows, cardId, targetId, position);
    KeptElements(rows, cardId);
    forall i | 0 <= i < |kept| ensures kept[i] in rows' && rows'[kept[i]].position == i {
      assert kept[i] in kept;
      LastIndexOf(kept, i);
      assert InColumn(rows, source, kept[i]) && !InColumn(rows, targetId, kept[i]);
    }
    forall x ensures x in kept <==> InColumn(rows', source, x) {
      assert x in kept <==> InColumn(rows, source, x) && x != cardId;
    }
    ListingClimbs(rows', source, kept);
  }

  /** Every column the card is neither taken from nor put into. */
  lemma OtherColumns(rows: Rows, columns: map<Id, Column>, cardId: Id, targetId: Id, position: int, version: int,
                     now: Time, c: Id)
    requires Accepted(rows, columns, cardId, targetId, version) && c != targetId && c != rows[cardId].columnId
    ensures Listing(MoveRows(rows, columns, cardId, targetId, position, version, now).0, c) == Listing(rows, c)
  {
    var rows' := MoveRows(rows, columns, cardId, targetId, position, version, now).0;
    MoveRowsShape(rows, columns, cardId, targetId, position, version, now);
    KeptElements(rows, cardId);
    NewIdsInTarget(rows, cardId, targetId, position);
    forall x ensures InColumn(rows, c, x) <==> InColumn(rows', c, x) {
    }
    ListingFrame(rows, rows', c);
  }

  lemma NewIdsInTarget(rows: Rows, cardId: Id, targetId: Id, position: int)
    requires cardId in rows
    ensures forall x :: x in NewIds(rows, cardId, targetId, position) <==> InColumn(rows, targetId, x) || x == cardId
  {
    var rows1 := Renumbered(rows, cardId);
    var ids := Listing(rows1, targetId);
    InsertAtElements(ids, Clamp(position, |ids|), cardId);
    forall x ensures x in ids <==> InColumn(rows, targetId, x) {
      assert x in ids <==> InColumn(rows1, targetId, x);
    }
  }

  // ---------- moves inside one column ----------

  /**
   * Where the second query finds the moved card, which the first renumbering has left with its
   * old position number among the others, now numbered from 0: a tie is broken by id.
   */
  ghost function SelfSlot(rows: Rows, cardId: Id): (q: nat)
    requires cardId in rows
    ensures q <= |Kept(rows, cardId)|
  {
    var others, p := Kept(rows, cardId), rows[cardId].position;
    if p < 0 then 0
    else if p >= |others| then |others|
    else if IdLess(others[p], cardId) then p + 1
    else p
  }

  /** Others numbered from 0 and one more row, put where its own number and id sort it. */
  lemma TieOrder(rows: Rows, others: seq<Id>, x: Id, q: nat)
    requires x in rows && forall i :: 0 <= i < |others| ==> others[i] in rows && rows[others[i]].position == i
    requires q <= |others|
    requires forall i :: 0 <= i < q ==> Before(rows, others[i], x)
    requires forall i :: q <= i < |others| ==> Before(rows, x, others[i])
    ensures Sorted(rows, InsertAt(others, q, x))
  {
    var ids := InsertAt(others, q, x);
    forall i | 0 <= i < |ids| ensures ids[i] == if i < q then others[i] else if i == q then x else others[i - 1] {
    }
  }

  lemma SelfListing(rows: Rows, cardId: Id)
    requires cardId in rows
    ensures Listing(Renumbered(rows, cardId), rows[cardId].columnId)
         == InsertAt(Kept(rows, cardId), SelfSlot(rows, cardId), cardId)
  {
    var t, rows1 := rows[cardId].columnId, Renumbered(rows, cardId);
    var others, q := Kept(rows, cardId), SelfSlot(rows, cardId);
    var ids := InsertAt(others, q, cardId);
    KeptElements(rows, cardId);
    forall i | 0 <= i < |others|
      ensures others[i] in rows1 && rows1[others[i]].position == i
      ensures if i < q then Before(rows1, others[i], cardId) else Before(rows1, cardId, others[i])
    {
      assert others[i] in others;
      assert InColumn(rows, t, others[i]);
      LastIndexOf(others, i);
      IdLessTotal(others[i], cardId);
    }
    TieOrder(rows1, others, cardId, q);
    InsertAtElements(others, q, cardId);
    forall x ensures x in ids <==> InColumn(rows1, t, x) {
      assert x in others <==> InColumn(rows, t, x) && x != cardId;
    }
    ListingIs(rows1, t, ids);
  }

  /** The index, after two insertions, of an element that was at `i`. */
  function Shifted(i: nat, q: nat, k: nat): nat {
    var a := if i < q then i else i + 1;
    if a < k then a else a + 1
  }

  lemma ShiftedIndex(others: seq<Id>, q: nat, k: nat, x: Id, i: nat)
    requires NoDup(others) && x !in others && q <= |others| && k <= |others| + 1 && i < |others|
    ensures others[i] in InsertAt(InsertAt(others, q, x), k, x)
    ensures LastIndex(InsertAt(InsertAt(others, q, x), k, x), others[i]) == Shifted(i, q, k)
  {
    var ids := InsertAt(others, q, x);
    var twice := InsertAt(ids, k, x);
    assert twice[Shifted(i, q, k)] == others[i];
    assert others[i] in others;
    var l := LastIndex(twice, others[i]);
    var l' := if l < k then l else l - 1;
    assert l != k && ids[l'] == others[i];
    assert l' != q;
  }

  /** Where the card ends up among the others. */
  function FinalSlot(q: nat, k: nat): nat {
    if k <= q then k else k - 1
  }

  lemma FinalClimbs(rows: Rows, others: seq<Id>, x: Id, q: nat, k: nat)
    requires q <= |others| && k <= |others| + 1 && x in rows && rows[x].position == k
    requires forall i :: 0 <= i < |others| ==> others[i] in rows && rows[others[i]].position == Shifted(i, q, k)
    ensures FinalSlot(q, k) <= |others|
    ensures var final := InsertAt(others, FinalSlot(q, k), x);
            forall i, j :: 0 <= i < j < |final| && final[i] in rows && final[j] in rows ==>
                       rows[final[i]].position < rows[final[j]].position
  {
    var m := FinalSlot(q, k);
    var final := InsertAt(others, m, x);
    forall i | 0 <= i < |final| ensures final[i] == if i < m then others[i] else if i == m then x else others[i - 1] {
    }
  }

  lemma SameColumnPosition(rows: Rows, columns: map<Id, Column>, cardId: Id, targetId: Id, position: int, version: int,
                           now: Time, i: nat)
    requires Accepted(rows, columns, cardId, targetId, version) && rows[cardId].columnId == targetId
    requires i < |Kept(rows, cardId)|
    ensures var rows' := MoveRows(rows, columns, cardId, targetId, position, version, now).0;
            var others := Kept(rows, cardId);
            && others[i] in rows' && InColumn(rows', targetId, others[i])
            && rows'[others[i]].position == Shifted(i, SelfSlot(rows, cardId), Clamp(position, |others| + 1))
  {
    var others := Kept(rows, cardId);
    var x, k := others[i], Clamp(position, |others| + 1);
    assert x in others && x != cardId && InColumn(rows, targetId, x) by {
      KeptElements(rows, cardId);
    }
    assert NewIds(rows, cardId, targetId, position)
        == InsertAt(InsertAt(others, SelfSlot(rows, cardId), cardId), k, cardId) by {
      SelfListing(rows, cardId);
    }
    KeptElements(rows, cardId);
    ShiftedIndex(others, SelfSlot(rows, cardId), k, cardId, i);
    MoveRowsShape(rows, columns, cardId, targetId, position, version, now);
  }

  lemma SameColumnMembers(rows: Rows, columns: map<Id, Column>, cardId: Id, targetId: Id, position: int, version: int,
                          now: Time, x: Id)
    requires Accepted(rows, columns, cardId, targetId, version) && rows[cardId].columnId == targetId
    ensures var rows' := MoveRows(rows, columns, cardId, targetId, position, version, now).0;
            InColumn(rows', targetId, x) <==> x in Kept(rows, cardId) || x == cardId
  {
    KeptElements(rows, cardId);
    MoveRowsShape(rows, columns, cardId, targetId, position, version, now);
    assert x in Kept(rows, cardId) <==> InColumn(rows, targetId, x) && x != cardId;
  }

  /** The column after a move inside it: the card is one place short when it passes its own old entry. */
  lemma SameColumnResult(rows: Rows, columns: map<Id, Column>, cardId: Id, targetId: Id, position: int, version: int,
                         now: Time)
    requires Accepted(rows, columns, cardId, targetId, version) && rows[cardId].columnId == targetId
    ensures var others := Kept(rows, cardId);
            var m := FinalSlot(SelfSlot(rows, cardId), Clamp(position, |others| + 1));
            && m <= |others|
            && Listing(MoveRows(rows, columns, cardId, targetId, position, version, now).0, targetId)
            == InsertAt(others, m, cardId)
  {
    var rows' := MoveRows(rows, columns, cardId, targetId, position, version, now).0;
    var others, q := Kept(rows, cardId), SelfSlot(rows, cardId);
    var k := Clamp(position, |others| + 1);
    forall i | 0 <= i < |others| ensures others[i] in rows' && rows'[others[i]].position == Shifted(i, q, k) {
      SameColumnPosition(rows, columns, cardId, targetId, position, version, now, i);
    }
    assert cardId in rows' && rows'[cardId].position == k by {
      SelfListing(rows, cardId);
      MoveRowsShape(rows, columns, cardId, targetId, position, version, now);
    }
    FinalClimbs(rows', others, cardId, q, k);
    var final := InsertAt(others, FinalSlot(q, k), cardId);
    InsertAtElements(others, FinalSlot(q, k), cardId);
    forall x ensures x in final <==> InColumn(rows', targetId, x) {
      SameColumnMembers(rows, columns, cardId, targetId, position, version, now, x);
    }
    ListingClimbs(rows', targetId, final);
  }

  lemma InsertAtInjective(s: seq<Id>, a: nat, b: nat, x: Id)
    requires x !in s && a <= |s| && b <= |s|
    ensures InsertAt(s, a, x) == InsertAt(s, b, x) <==> a == b
  {
    var l, r := InsertAt(s, a, x), InsertAt(s, b, x);
    assert l[a] == x && r[b] == x;
    assert a != b ==> r[a] == if a < b then s[a] else s[a - 1];
  }

  // ---------- refinement ----------

  /** Equal but for the position number. */
  ghost predicate SameCard(a: Card, b: Card) {
    a == b.(position := a.position)
  }

  /** The rows and the in-memory maps hold the same board; position numbers may have gaps. */
  ghost predicate Represents(rows: Rows, s: State) {
    && rows.Keys == s.cards.Keys
    && (forall k {:trigger SameCard(rows[k], s.cards[k])} :: k in rows ==> SameCard(rows[k], s.cards[k]))
    && (forall c {:trigger Listing(rows, c)} :: c in s.columns ==>
          c in s.columnCards && Listing(rows, c) == s.columnCards[c])
  }

  ghost predicate SameOutcome(r: Outcome<Card>, m: Outcome<Card>) {
    match r
    case Ok(c) => m == Ok(c)
    case Stale(c) => m.Stale? && SameCard(c, m.current)
    case Err(e) => m == Err(e)
  }

  lemma AcceptedWhenMovable(rows: Rows, s: State, cardId: Id, targetId: Id, version: int)
    requires Inv(s) && Represents(rows, s)
    ensures Accepted(rows, s.columns, cardId, targetId, version) <==> BoardRuns.Movable(s, cardId, targetId, version)
    ensures cardId in rows ==> cardId in s.cards && SameCard(rows[cardId], s.cards[cardId]) && rows[cardId].id == cardId
  {
    assert cardId in rows ==> SameCard(rows[cardId], s.cards[cardId]);
  }

  /** The moved card's record, on both sides. */
  lemma MovedRecord(a: Card, b: Card, target: Column, k: nat, k': nat, now: Time)
    requires SameCard(a, b)
    ensures SameCard(Moved(a, target, k, now), Moved(b, target, k', now))
    ensures k == k' ==> Moved(a, target, k, now) == Moved(b, target, k', now)
  {
  }

  /** The card records agree after any accepted move, position numbers aside. */
  lemma MovedRecordsAgree(rows: Rows, s: State, cardId: Id, targetId: Id, position: int, version: int, now: Time, x: Id)
    requires Inv(s) && Represents(rows, s) && Accepted(rows, s.columns, cardId, targetId, version) && x in rows
    requires BoardRuns.Movable(s, cardId, targetId, version)
    ensures var rows' := MoveRows(rows, s.columns, cardId, targetId, position, version, now).0;
            var s' := MoveCard(s, cardId, targetId, position, version, now).0;
            x in rows' && x in s'.cards && SameCard(rows'[x], s'.cards[x])
  {
    var s' := MoveCard(s, cardId, targetId, position, version, now).0;
    MoveRowsShape(rows, s.columns, cardId, targetId, position, version, now);
    assert SameCard(rows[x], s.cards[x]);
    if x != cardId {
      BoardRuns.MoveCardOthers(s, cardId, targetId, position, version, now, x);
    } else {
      assert CardListed(s, cardId);
      MovedRecord(rows[x], s.cards[x], s.columns[targetId],
                  Clamp(position, |Listing(Renumbered(rows, cardId), targetId)|), s'.cards[x].position, now);
    }
  }

  lemma MovedKeys(rows: Rows, s: State, cardId: Id, targetId: Id, position: int, version: int, now: Time)
    requires Inv(s) && rows.Keys == s.cards.Keys && Accepted(rows, s.columns, cardId, targetId, version)
    requires BoardRuns.Movable(s, cardId, targetId, version)
    ensures MoveRows(rows, s.columns, cardId, targetId, position, version, now).0.Keys == rows.Keys
    ensures var s' := MoveCard(s, cardId, targetId, position, version, now).0;
            s'.cards.Keys == rows.Keys && s'.columns == s.columns
  {
    MoveRowsShape(rows, s.columns, cardId, targetId, position, version, now);
    assert CardListed(s, cardId);
  }

  /** Every column but the target has the same list on both sides after an accepted move. */
  lemma MovedListsAgree(rows: Rows, s: State, cardId: Id, targetId: Id, position: int, version: int, now: Time, c: Id)
    requires Inv(s) && Represents(rows, s) && Accepted(rows, s.columns, cardId, targetId, version)
    requires BoardRuns.Movable(s, cardId, targetId, version) && c in s.columns && c != targetId
    ensures var rows' := MoveRows(rows, s.columns, cardId, targetId, position, version, now).0;
            var s' := MoveCard(s, cardId, targetId, position, version, now).0;
            c in s'.columnCards && Listing(rows', c) == s'.columnCards[c]
  {
    BoardRuns.MoveCardLists(s, cardId, targetId, position, version, now);
    assert SameCard(rows[cardId], s.cards[cardId]);
    assert Listing(rows, c) == s.columnCards[c];
    if c == rows[cardId].columnId {
      CrossSource(rows, s.columns, cardId, targetId, position, version, now);
    } else {
      OtherColumns(rows, s.columns, cardId, targetId, position, version, now, c);
      InvMeaning(s, "", c, cardId);
      WithoutAbsent(s.columnCards[c], cardId);
    }
  }

  /** The two sides still represent the same board exactly when the target column's lists agree. */
  lemma RepresentsAfterMove(rows: Rows, s: State, cardId: Id, targetId: Id, position: int, version: int, now: Time)
    requires Inv(s) && Represents(rows, s) && Accepted(rows, s.columns, cardId, targetId, version)
    requires BoardRuns.Movable(s, cardId, targetId, version)
    ensures var rows' := MoveRows(rows, s.columns, cardId, targetId, position, version, now).0;
            var s' := MoveCard(s, cardId, targetId, position, version, now).0;
            && targetId in s'.columnCards
            && (Represents(rows', s') <==> Listing(rows', targetId) == s'.columnCards[targetId])
  {
    var rows' := MoveRows(rows, s.columns, cardId, targetId, position, version, now).0;
    var s' := MoveCard(s, cardId, targetId, position, version, now).0;
    MovedKeys(rows, s, cardId, targetId, position, version, now);
    assert targetId in s'.columnCards by {
      BoardRuns.MoveCardLists(s, cardId, targetId, position, version, now);
    }
    forall x | x in rows' ensures x in s'.cards && SameCard(rows'[x], s'.cards[x]) {
      MovedRecordsAgree(rows, s, cardId, targetId, position, version, now, x);
    }
    forall c | c in s.columns && c != targetId ensures c in s'.columnCards && Listing(rows', c) == s'.columnCards[c] {
      MovedListsAgree(rows, s, cardId, targetId, position, version, now, c);
    }
    AgreeingSidesRepresent(rows', s', targetId);
  }

  lemma AgreeingSidesRepresent(rows: Rows, s: State, t: Id)
    requires rows.Keys == s.cards.Keys && forall x :: x in rows ==> SameCard(rows[x], s.cards[x])
    requires t in s.columns && t in s.columnCards
    requires forall c :: c in s.columns && c != t ==> c in s.columnCards && Listing(rows, c) == s.columnCards[c]
    ensures Represents(rows, s) <==> Listing(rows, t) == s.columnCards[t]
  {
    if Listing(rows, t) == s.columnCards[t] {
      forall c | c in s.columns ensures c in s.columnCards && Listing(rows, c) == s.columnCards[c] {
      }
      assert Represents(rows, s);
    }
  }

  lemma RefusedMove(rows: Rows, s: State, cardId: Id, targetId: Id, position: int, version: int, now: Time)
    requires Inv(s) && Represents(rows, s) && !Accepted(rows, s.columns, cardId, targetId, version)
    ensures (cardId in rows ==> rows[cardId].id == cardId)
    ensures var (rows', r) := MoveRows(rows, s.columns, cardId, targetId, position, version, now);
            var (s', m) := MoveCard(s, cardId, targetId, position, version, now);
            rows' == rows && s' == s && SameOutcome(r, m) && !r.Ok?
  {
    AcceptedWhenMovable(rows, s, cardId, targetId, version);
  }

  lemma CrossMove(rows: Rows, s: State, cardId: Id, targetId: Id, position: int, version: int, now: Time)
    requires Inv(s) && Represents(rows, s) && Accepted(rows, s.columns, cardId, targetId, version)
    requires BoardRuns.Movable(s, cardId, targetId, version) && s.cards[cardId].columnId != targetId
    ensures var (rows', r) := MoveRows(rows, s.columns, cardId, targetId, position, version, now);
            var (s', m) := MoveCard(s, cardId, targetId, position, version, now);
            && targetId in s'.columnCards && Listing(rows', targetId) == s'.columnCards[targetId]
            && r == m
  {
    assert SameCard(rows[cardId], s.cards[cardId]);
    assert Listing(rows, targetId) == s.columnCards[targetId];
    BoardRuns.MoveCardLists(s, cardId, targetId, position, version, now);
    InvMeaning(s, "", targetId, cardId);
    WithoutAbsent(s.columnCards[targetId], cardId);
    CrossTarget(rows, s.columns, cardId, targetId, position, version, now);
    CrossNewIds(rows, cardId, targetId, position);
    MoveRowsShape(rows, s.columns, cardId, targetId, position, version, now);
    var k := Clamp(position, |s.columnCards[targetId]|);
    MovedRecord(rows[cardId], s.cards[cardId], s.columns[targetId], k, k, now);
  }

  /**
   * Every move to another column, and every refused move, does to the rows what the in-memory
   * store does to its maps, with the same answer; both columns are densely numbered afterwards.
   */
  lemma CrossColumnMoveRefines(rows: Rows, s: State, cardId: Id, targetId: Id, position: int, version: int, now: Time)
    requires Inv(s) && Represents(rows, s)
    requires cardId in s.cards ==> s.cards[cardId].columnId != targetId
    ensures cardId in rows ==> rows[cardId].id == cardId
    ensures var (rows', r) := MoveRows(rows, s.columns, cardId, targetId, position, version, now);
            var (s', m) := MoveCard(s, cardId, targetId, position, version, now);
            && Represents(rows', s') && SameOutcome(r, m)
            && (r.Ok? ==> Dense(rows', targetId) && Dense(rows', rows[cardId].columnId))
  {
    AcceptedWhenMovable(rows, s, cardId, targetId, version);
    if Accepted(rows, s.columns, cardId, targetId, version) {
      CrossMove(rows, s, cardId, targetId, position, version, now);
      RepresentsAfterMove(rows, s, cardId, targetId, position, version, now);
      CrossTarget(rows, s.columns, cardId, targetId, position, version, now);
      CrossSource(rows, s.columns, cardId, targetId, position, version, now);
    } else {
      RefusedMove(rows, s, cardId, targetId, position, version, now);
    }
  }

  /**
   * A move inside one column gives the in-memory order if and only if the requested position
   * is no later than the slot where the card's stale row still sorts, or is past the end.
   */
  lemma SameColumnOrderIff(rows: Rows, s: State, cardId: Id, targetId: Id, position: int, version: int, now: Time)
    requires Inv(s) && Represents(rows, s) && BoardRuns.Movable(s, cardId, targetId, version)
    requires s.cards[cardId].columnId == targetId
    ensures cardId in rows && rows[cardId].id == cardId
    ensures var rows' := MoveRows(rows, s.columns, cardId, targetId, position, version, now).0;
            var s' := MoveCard(s, cardId, targetId, position, version, now).0;
            Represents(rows', s') <==> position <= SelfSlot(rows, cardId) || position >= |s.columnCards[targetId]|
  {
    AcceptedWhenMovable(rows, s, cardId, targetId, version);
    RepresentsAfterMove(rows, s, cardId, targetId, position, version, now);
    SameColumnResult(rows, s.columns, cardId, targetId, position, version, now);
    BoardRuns.MoveCardLists(s, cardId, targetId, position, version, now);
    SameColumnKept(rows, s, cardId);
    var others, q := Kept(rows, cardId), SelfSlot(rows, cardId);
    InsertAtInjective(others, FinalSlot(q, Clamp(position, |others| + 1)), Clamp(position, |others|), cardId);
  }

  lemma SameColumnRowAnswer(rows: Rows, columns: map<Id, Column>, cardId: Id, targetId: Id, position: int,
                            version: int, now: Time)
    requires Accepted(rows, columns, cardId, targetId, version) && rows[cardId].columnId == targetId
    ensures MoveRows(rows, columns, cardId, targetId, position, version, now).1
         == Ok(Moved(rows[cardId], columns[targetId], Clamp(position, |Kept(rows, cardId)| + 1), now))
  {
    SelfListing(rows, cardId);
    MoveRowsShape(rows, columns, cardId, targetId, position, version, now);
  }

  lemma SameAnswerIff(a: Card, b: Card, target: Column, k: nat, k': nat, now: Time)
    requires SameCard(a, b)
    ensures SameOutcome(Ok(Moved(a, target, k, now)), Ok(Moved(b, target, k', now))) <==> k == k'
  {
    MovedRecord(a, b, target, k, k', now);
  }

  /** The two stores answer alike, position included, if and only if the requested position is inside the column. */
  lemma SameColumnAnswerIff(rows: Rows, s: State, cardId: Id, targetId: Id, position: int, version: int, now: Time)
    requires Inv(s) && Represents(rows, s) && BoardRuns.Movable(s, cardId, targetId, version)
    requires s.cards[cardId].columnId == targetId
    ensures cardId in rows && rows[cardId].id == cardId
    ensures var r := MoveRows(rows, s.columns, cardId, targetId, position, version, now).1;
            var m := MoveCard(s, cardId, targetId, position, version, now).1;
            SameOutcome(r, m) <==> position < |s.columnCards[targetId]|
  {
    AcceptedWhenMovable(rows, s, cardId, targetId, version);
    SameColumnKept(rows, s, cardId);
    SameColumnRowAnswer(rows, s.columns, cardId, targetId, position, version, now);
    BoardRuns.MoveCardAnswer(s, cardId, targetId, position, version, now);
    var n := |Kept(rows, cardId)|;
    SameAnswerIff(rows[cardId], s.cards[cardId], s.columns[targetId], Clamp(position, n + 1), Clamp(position, n), now);
  }

  /**
   * The column is numbered without gaps if and only if the card's stale row sorts last and the
   * position is inside the column.
   */
  lemma SameColumnDenseIff(rows: Rows, columns: map<Id, Column>, cardId: Id, targetId: Id, position: int, version: int,
                           now: Time)
    requires Accepted(rows, columns, cardId, targetId, version) && rows[cardId].columnId == targetId
    ensures var n := |Kept(rows, cardId)|;
            Dense(MoveRows(rows, columns, cardId, targetId, position, version, now).0, targetId)
            <==> SelfSlot(rows, cardId) == n && position <= n
  {
    var rows' := MoveRows(rows, columns, cardId, targetId, position, version, now).0;
    var others, q := Kept(rows, cardId), SelfSlot(rows, cardId);
    var k := Clamp(position, |others| + 1);
    forall i | 0 <= i < |others| ensures others[i] in rows' && rows'[others[i]].position == Shifted(i, q, k) {
      SameColumnPosition(rows, columns, cardId, targetId, position, version, now, i);
    }
    assert cardId in rows' && rows'[cardId].position == k by {
      SelfListing(rows, cardId);
      MoveRowsShape(rows, columns, cardId, targetId, position, version, now);
    }
    SameColumnResult(rows, columns, cardId, targetId, position, version, now);
    GapFreeIff(rows', targetId, others, cardId, q, k);
  }

  lemma GapFreeIff(rows: Rows, c: Id, others: seq<Id>, x: Id, q: nat, k: nat)
    requires q <= |others| && k <= |others| + 1 && x in rows && rows[x].position == k && FinalSlot(q, k) <= |others|
    requires forall i :: 0 <= i < |others| ==> others[i] in rows && rows[others[i]].position == Shifted(i, q, k)
    requires Listing(rows, c) == InsertAt(others, FinalSlot(q, k), x)
    ensures Dense(rows, c) <==> q == |others| && k <= q
  {
    var m := FinalSlot(q, k);
    var final := InsertAt(others, m, x);
    forall i | 0 <= i < |final| ensures final[i] == if i < m then others[i] else if i == m then x else others[i - 1] {
    }
    assert final[m] == x;
    if k <= q < |others| {
      assert final[q + 1] == others[q];
    }
  }

  /**
   * A move inside one column does what the in-memory store does, answer included, if and only
   * if the requested position is no later than the slot where the card's stale row still sorts.
   * The column is then also numbered without gaps if and only if that slot is the last.
   */
  lemma SameColumnMoveRefinesIff(rows: Rows, s: State, cardId: Id, targetId: Id, position: int, version: int, now: Time)
    requires Inv(s) && Represents(rows, s) && BoardRuns.Movable(s, cardId, targetId, version)
    requires s.cards[cardId].columnId == targetId
    ensures cardId in rows && rows[cardId].id == cardId
    ensures var (rows', r) := MoveRows(rows, s.columns, cardId, targetId, position, version, now);
            var (s', m) := MoveCard(s, cardId, targetId, position, version, now);
            && (Represents(rows', s') && SameOutcome(r, m) <==> position <= SelfSlot(rows, cardId))
            && (Represents(rows', s') && SameOutcome(r, m) && Dense(rows', targetId)
                <==> position <= SelfSlot(rows, cardId) == |s.columnCards[targetId]| - 1)
  {
    SameColumnOrderIff(rows, s, cardId, targetId, position, version, now);
    SameColumnAnswerIff(rows, s, cardId, targetId, position, version, now);
    AcceptedWhenMovable(rows, s, cardId, targetId, version);
    SameColumnKept(rows, s, cardId);
    SameColumnDenseIff(rows, s.columns, cardId, targetId, position, version, now);
  }

  lemma SameColumnKept(rows: Rows, s: State, cardId: Id)
    requires Inv(s) && Represents(rows, s) && cardId in rows
    ensures cardId in s.cards && s.cards[cardId].columnId in s.columnCards
    ensures var ids := s.columnCards[s.cards[cardId].columnId];
            Kept(rows, cardId) == Without(ids, cardId) && |ids| == |Kept(rows, cardId)| + 1
                && cardId !in Kept(rows, cardId)
  {
    assert SameCard(rows[cardId], s.cards[cardId]);
    assert CardListed(s, cardId);
    var t := s.cards[cardId].columnId;
    assert Listing(rows, t) == s.columnCards[t];
    InvMeaning(s, "", t, cardId);
    WithoutAt(s.columnCards[t], s.cards[cardId].position);
    KeptElements(rows, cardId);
  }

  /** A column holding the cards "A" and "B", in that order. */
  function TwoCards(): Rows {
    map["A" := Card("A", "c", "b", "", "", 0, 1, "", None, 0, 0),
        "B" := Card("B", "c", "b", "", "", 1, 1, "", None, 0, 0)]
  }

  lemma TwoCardsKept()
    ensures Listing(TwoCards(), "c") == ["A", "B"] && Kept(TwoCards(), "A") == ["B"] && SelfSlot(TwoCards(), "A") == 0
  {
    ListingClimbs(TwoCards(), "c", ["A", "B"]);
    assert Without(["A", "B"], "A") == ["B"] by {
      assert ["A", "B"][1..] == ["B"] && ["B"][1..] == [];
    }
  }

  /** Moving "A" one place down is accepted and leaves the order as it was. */
  lemma OneDownIsLost(now: Time)
    ensures Listing(TwoCards(), "c") == ["A", "B"]
    ensures var (rows', r) := MoveRows(TwoCards(), map["c" := Column("c", "b", "To Do", 0, 0)], "A", "c", 1, 1, now);
            r.Ok? && r.value.position == 1 && Listing(rows', "c") == ["A", "B"]
  {
    var columns := map["c" := Column("c", "b", "To Do", 0, 0)];
    TwoCardsKept();
    SelfListing(TwoCards(), "A");
    MoveRowsShape(TwoCards(), columns, "A", "c", 1, 1, now);
    SameColumnResult(TwoCards(), columns, "A", "c", 1, 1, now);
  }

  /** Moving "A" to the end gets the order right and the position number wrong: the last of two cards is at 2. */
  lemma EndIsMisnumbered(now: Time)
    ensures var (rows', r) := MoveRows(TwoCards(), map["c" := Column("c", "b", "To Do", 0, 0)], "A", "c", 2, 1, now);
            && r.Ok? && r.value.position == 2 && rows'["A"].position == 2 && Listing(rows', "c") == ["B", "A"]
  {
    var columns := map["c" := Column("c", "b", "To Do", 0, 0)];
    TwoCardsKept();
    SelfListing(TwoCards(), "A");
    MoveRowsShape(TwoCards(), columns, "A", "c", 2, 1, now);
    SameColumnResult(TwoCards(), columns, "A", "c", 2, 1, now);
  }
}
