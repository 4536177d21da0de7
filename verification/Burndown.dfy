/** apps/api/internal/domain/sprint.go: sprint windows and the burndown over the board store. */
module Burndown {
  import opened Common
  import opened BoardModel
  import BoardRuns
  import BoardStore

  /** One UTC day in nanoseconds. */
  const DAY: int := 86_400_000_000_000

  const MAX_SPRINT_DAYS := 90

  /** Midnight UTC at or before `t`. */
  function UTCDate(t: Time): Time {
    t - t % DAY
  }

  datatype Point = Point(date: Time, remaining: nat)

  // ---------- days ----------

  function DayCount(start: Time, end: Time): nat {
    if UTCDate(end) < UTCDate(start) then 0 else (UTCDate(end) - UTCDate(start)) / DAY + 1
  }

  /** Midnight number `i` of the window. */
  function DayAt(start: Time, i: nat): Time {
    UTCDate(start) + i * DAY
  }

  /** The days of a window: every midnight from the first day to the last, each once, in order. */
  method EachUTCDate(start: Time, end: Time) returns (out: seq<Time>)
    ensures |out| == DayCount(start, end)
    ensures forall i :: 0 <= i < |out| ==> out[i] == DayAt(start, i)
    ensures forall d :: d in out <==> UTCDate(d) == d && UTCDate(start) <= d <= UTCDate(end)
    ensures end >= start ==> |out| >= 1 && out[0] == UTCDate(start) && out[|out| - 1] == UTCDate(end)
  {
    var d := UTCDate(start);
    var last := UTCDate(end);
    out := [];
    if last >= d {
      while d <= last
        invariant d == DayAt(start, |out|) && d <= last + DAY
        invariant forall i :: 0 <= i < |out| ==> out[i] == DayAt(start, i) && out[i] <= last
        decreases last - d
      {
        out := out + [d];
        d := d + DAY;
      }
    }
    forall day ensures day in out <==> UTCDate(day) == day && UTCDate(start) <= day <= UTCDate(end) {
      DayInWindow(start, end, out, day);
    }
  }

  lemma DayInWindow(start: Time, end: Time, days: seq<Time>, d: Time)
    requires |days| == DayCount(start, end) && forall i :: 0 <= i < |days| ==> days[i] == DayAt(start, i)
    ensures d in days <==> UTCDate(d) == d && UTCDate(start) <= d <= UTCDate(end)
  {
    if d in days {
      var i :| 0 <= i < |days| && days[i] == d;
      assert DayAt(start, i) % DAY == 0;
      assert i <= (UTCDate(end) - UTCDate(start)) / DAY;
    }
    if UTCDate(d) == d && UTCDate(start) <= d <= UTCDate(end) {
      var i := (d - UTCDate(start)) / DAY;
      assert DayAt(start, i) == d;
      assert days[i] == d;
    }
  }

  predicate ValidSprintWindow(start: Time, end: Time) {
    end > start && 1 <= DayCount(start, end) <= MAX_SPRINT_DAYS
  }

  /** A window is valid exactly when it ends after it starts and at most 89 midnights later. */
  lemma ValidWindowIff(start: Time, end: Time)
    ensures ValidSprintWindow(start, end) <==> end > start && UTCDate(end) - UTCDate(start) <= 89 * DAY
  {
  }

  // ---------- the burndown ----------

  predicate CardOpenOn(c: Card, day: Time) {
    UTCDate(c.createdAt) <= UTCDate(day) && !(c.completedAt.Some? && UTCDate(c.completedAt.value) <= UTCDate(day))
  }

  predicate CreatedOn(c: Card, day: Time) {
    UTCDate(c.createdAt) <= UTCDate(day)
  }

  predicate CompletedOn(c: Card, day: Time) {
    c.completedAt.Some? && UTCDate(c.completedAt.value) <= UTCDate(day)
  }

  /** Cards of the sprint that still count at the end of the day. */
  function Remaining(cards: seq<Card>, sprintId: Id, day: Time): nat {
    if cards == [] then 0
    else (if cards[0].sprintId == sprintId && CardOpenOn(cards[0], day) then 1 else 0)
         + Remaining(cards[1..], sprintId, day)
  }

  function CreatedBy(cards: seq<Card>, sprintId: Id, day: Time): nat {
    if cards == [] then 0
    else (if cards[0].sprintId == sprintId && CreatedOn(cards[0], day) then 1 else 0)
         + CreatedBy(cards[1..], sprintId, day)
  }

  function CompletedBy(cards: seq<Card>, sprintId: Id, day: Time): nat {
    if cards == [] then 0
    else (if cards[0].sprintId == sprintId && CompletedOn(cards[0], day) then 1 else 0)
         + CompletedBy(cards[1..], sprintId, day)
  }

  method BurndownFor(sprint: Sprint, cards: seq<Card>) returns (points: seq<Point>)
    ensures |points| == DayCount(sprint.startAt, sprint.endAt)
    ensures forall i :: 0 <= i < |points| ==>
              points[i] == Point(DayAt(sprint.startAt, i), Remaining(cards, sprint.id, DayAt(sprint.startAt, i)))
    ensures ValidSprintWindow(sprint.startAt, sprint.endAt) ==> 1 <= |points| <= 90
  {
    points := [];
    var days := EachUTCDate(sprint.startAt, sprint.endAt);
    for i := 0 to |days|
      invariant |points| == i
      invariant forall k :: 0 <= k < i ==> points[k] == Point(days[k], Remaining(cards, sprint.id, days[k]))
    {
      var day := days[i];
      var remaining := 0;
      for j := 0 to |cards|
        invariant remaining >= 0
        invariant remaining + Remaining(cards[j..], sprint.id, day) == Remaining(cards, sprint.id, day)
      {
        assert cards[j..][0] == cards[j] && cards[j..][1..] == cards[j + 1..];
        if cards[j].sprintId == sprint.id {
          if CardOpenOn(cards[j], day) {
            remaining := remaining + 1;
          }
        }
      }
      assert cards[|cards|..] == [];
      points := points + [Point(day, remaining)];
    }
  }

  // ---------- what the numbers mean ----------

  /** Open is created minus completed, when no card is completed before it is created. */
  lemma {:induction false} RemainingIsCreatedMinusCompleted(cards: seq<Card>, sprintId: Id, day: Time)
    requires forall c :: c in cards && c.completedAt.Some? ==> c.createdAt <= c.completedAt.value
    ensures Remaining(cards, sprintId, day) == CreatedBy(cards, sprintId, day) - CompletedBy(cards, sprintId, day)
  {
    if cards != [] {
      RemainingIsCreatedMinusCompleted(cards[1..], sprintId, day);
      assert cards[0] in cards;
    }
  }

  /** The line never rises over days on which no sprint card was created. */
  lemma {:induction false} RemainingFallsWithoutCreation(cards: seq<Card>, sprintId: Id, day: Time, later: Time)
    requires UTCDate(day) <= UTCDate(later)
    requires forall c :: c in cards && c.sprintId == sprintId ==>
               !(UTCDate(day) < UTCDate(c.createdAt) <= UTCDate(later))
    ensures Remaining(cards, sprintId, later) <= Remaining(cards, sprintId, day)
  {
    if cards != [] {
      RemainingFallsWithoutCreation(cards[1..], sprintId, day, later);
      assert cards[0] in cards;
    }
  }

  // ---------- over the store ----------

  /** The records of one board, in any order. */
  ghost predicate ListsBoard(s: State, boardId: Id, list: seq<Card>) {
    && NoDup(list)
    && forall c :: c in list <==> c.id in s.cards && s.cards[c.id] == c && c.boardId == boardId
  }

  method ListCardsOnBoard(st: BoardStore.Store, boardId: Id) returns (r: Outcome<seq<Card>>)
    requires st.Valid()
    ensures r.Err? <==> boardId !in st.boards
    ensures r.Err? ==> r.error == NotFound
    ensures boardId in st.boards ==> r.Ok? && ListsBoard(st.State(), boardId, r.value)
  {
    if boardId !in st.boards {
      return Err(NotFound);
    }
    var out: seq<Card> := [];
    var rest := st.cards.Keys;
    while rest != {}
      invariant rest <= st.cards.Keys
      invariant NoDup(out)
      invariant forall c ::
                  c in out <==> c.id in st.cards && c.id !in rest && st.cards[c.id] == c && c.boardId == boardId
      decreases rest
    {
      var k :| k in rest;
      rest := rest - {k};
      if st.cards[k].boardId == boardId {
        out := out + [st.cards[k]];
      }
    }
    r := Ok(out);
  }

  /** The ids of every card in the store that belongs to the sprint and is open on the day. */
  ghost function OpenIds(s: State, sprintId: Id, day: Time): set<Id> {
    set k | k in s.cards && s.cards[k].sprintId == sprintId && CardOpenOn(s.cards[k], day)
  }

  lemma {:induction false} RemainingIsSetSize(cards: seq<Card>, sprintId: Id, day: Time)
    requires forall i, j :: 0 <= i < j < |cards| ==> cards[i].id != cards[j].id
    ensures Remaining(cards, sprintId, day)
         == |set c | c in cards && c.sprintId == sprintId && CardOpenOn(c, day) :: c.id|
  {
    var ids := set c | c in cards && c.sprintId == sprintId && CardOpenOn(c, day) :: c.id;
    if cards != [] {
      RemainingIsSetSize(cards[1..], sprintId, day);
      var tail := set c | c in cards[1..] && c.sprintId == sprintId && CardOpenOn(c, day) :: c.id;
      assert forall c :: c in cards <==> c == cards[0] || c in cards[1..];
      assert cards[0].id !in tail;
      if cards[0].sprintId == sprintId && CardOpenOn(cards[0], day) {
        assert ids == tail + {cards[0].id};
      } else {
        assert ids == tail;
      }
    }
  }

  /** A live sprint's burndown, read off its board's cards, misses no card of the sprint. */
  lemma BoardListCountsSprint(s: State, sprintId: Id, list: seq<Card>, day: Time)
    requires Inv(s) && sprintId in s.sprints && ListsBoard(s, s.sprints[sprintId].boardId, list)
    ensures Remaining(list, sprintId, day) == |OpenIds(s, sprintId, day)|
  {
    forall i, j | 0 <= i < j < |list| ensures list[i].id != list[j].id {
      assert list[i] in list && list[j] in list;
    }
    RemainingIsSetSize(list, sprintId, day);
    var ids := set c | c in list && c.sprintId == sprintId && CardOpenOn(c, day) :: c.id;
    forall k ensures k in ids <==> k in OpenIds(s, sprintId, day) {
      if k in OpenIds(s, sprintId, day) {
        assert SprintLive(s, s.cards[k]);
        assert s.cards[k] in list;
      }
      if k in ids {
        var c :| c in list && c.sprintId == sprintId && CardOpenOn(c, day) && c.id == k;
        assert s.cards[k] == c;
      }
    }
    assert ids == OpenIds(s, sprintId, day);
  }

  /** After any run under a clock that never goes back, every burndown point is created minus completed. */
  lemma BurndownAfterRun(calls: seq<BoardRuns.Call>, clock: Time, sprintId: Id, list: seq<Card>, day: Time)
    requires BoardRuns.Possible(EMPTY, calls) && BoardRuns.ClockRuns(clock, calls)
    requires var s := BoardRuns.Run(EMPTY, calls);
             sprintId in s.sprints && ListsBoard(s, s.sprints[sprintId].boardId, list)
    ensures Remaining(list, sprintId, day) == CreatedBy(list, sprintId, day) - CompletedBy(list, sprintId, day)
    ensures Remaining(list, sprintId, day) == |OpenIds(BoardRuns.Run(EMPTY, calls), sprintId, day)|
  {
    BoardRuns.RunKeepsInv(EMPTY, calls);
    BoardRuns.RunKeepsTimes(EMPTY, calls, clock);
    RemainingIsCreatedMinusCompleted(list, sprintId, day);
    BoardListCountsSprint(BoardRuns.Run(EMPTY, calls), sprintId, list, day);
  }

  // ---------- valid windows over runs ----------

  /** The service's check in front of the two store calls that set a window. */
  ghost predicate WindowChecked(s: State, op: BoardRuns.Op) {
    match op
    case AddSprint(_, _, from, to, _) => ValidSprintWindow(from, to)
    case EditSprint(p, _, from, to) =>
      p in s.sprints ==>
        ValidSprintWindow(if from.Some? then from.value else s.sprints[p].startAt,
                          if to.Some? then to.value else s.sprints[p].endAt)
    case _ => true
  }

  ghost predicate WindowsOk(s: State) {
    forall p :: p in s.sprints ==> ValidSprintWindow(s.sprints[p].startAt, s.sprints[p].endAt)
  }

  lemma ApplyKeepsWindows(s: State, op: BoardRuns.Op, now: Time)
    requires Inv(s) && BoardRuns.IdsAreNew(s, op) && WindowsOk(s) && WindowChecked(s, op)
    ensures WindowsOk(BoardRuns.Apply(s, op, now))
  {
    if op.PlaceCard? {
      if BoardRuns.Movable(s, op.cardId, op.columnId, op.version) {
      }
    }
  }

  ghost predicate AllChecked(s: State, calls: seq<BoardRuns.Call>)
    requires Inv(s) && BoardRuns.Possible(s, calls)
    decreases |calls|
  {
    calls == [] ||
    (WindowChecked(s, calls[0].op) && AllChecked(BoardRuns.Apply(s, calls[0].op, calls[0].now), calls[1..]))
  }

  /** In runs whose window changes all pass the service's check, every burndown has 1 to 90 points. */
  lemma {:induction false} RunKeepsWindows(s: State, calls: seq<BoardRuns.Call>, sprintId: Id)
    requires Inv(s) && BoardRuns.Possible(s, calls) && AllChecked(s, calls) && WindowsOk(s)
    requires sprintId in BoardRuns.Run(s, calls).sprints
    ensures var sp := BoardRuns.Run(s, calls).sprints[sprintId]; 1 <= DayCount(sp.startAt, sp.endAt) <= 90
    decreases |calls|
  {
    if calls != [] {
      ApplyKeepsWindows(s, calls[0].op, calls[0].now);
      RunKeepsWindows(BoardRuns.Apply(s, calls[0].op, calls[0].now), calls[1..], sprintId);
    }
  }

  // ---------- days, in nanoseconds ----------

  /** The date of an instant is the last midnight at or before it. */
  lemma DateMeans(t: Time)
    ensures UTCDate(t) <= t < UTCDate(t) + 86_400_000_000_000 && UTCDate(t) % 86_400_000_000_000 == 0
  {
  }

  /** At the end of the day that begins at midnight, a card counts if it is there and not completed by then. */
  lemma OpenMeans(c: Card, midnight: Time)
    requires midnight % 86_400_000_000_000 == 0
    ensures var end := midnight + 86_400_000_000_000;
            && (CardOpenOn(c, midnight) <==>
                  c.createdAt < end && !(c.completedAt.Some? && c.completedAt.value < end))
            && (CreatedOn(c, midnight) <==> c.createdAt < end)
            && (CompletedOn(c, midnight) <==> c.completedAt.Some? && c.completedAt.value < end)
  {
    DateMeans(c.createdAt);
    if c.completedAt.Some? {
      DateMeans(c.completedAt.value);
    }
  }

  /** A window is valid exactly when it ends after it starts and touches at most 90 days. */
  lemma ValidWindowMeans(start: Time, end: Time)
    ensures ValidSprintWindow(start, end) <==>
            end > start && (end - end % 86_400_000_000_000) - (start - start % 86_400_000_000_000)
                           <= 89 * 86_400_000_000_000
  {
    ValidWindowIff(start, end);
  }
}
