/**
 * The version history of one page: the unbounded log of distinct snapshots, the window the
 * in-memory store keeps of it, and the rows the relational store keeps.
 */
module PageHistory {
  import opened Common

  const MAX_PAGE_VERSIONS := 100

  datatype Snapshot = Snapshot(title: string, body: string, status: string)

  datatype PageVersion = PageVersion(pageId: Id, number: int, snap: Snapshot, sub: Id, createdAt: Time)

  /** One call of AppendPageVersionIfChanged. */
  datatype Submission = Submission(snap: Snapshot, sub: Id, now: Time)

  // ---------- the unbounded log ----------

  /** Every submission that differs from the last entry, numbered from 1. */
  function Log(pageId: Id, subs: seq<Submission>): seq<PageVersion> {
    if subs == [] then []
    else Extend(pageId, Log(pageId, subs[..|subs| - 1]), subs[|subs| - 1])
  }

  function Extend(pageId: Id, log: seq<PageVersion>, x: Submission): seq<PageVersion> {
    if log != [] && log[|log| - 1].snap == x.snap then log
    else log + [PageVersion(pageId, |log| + 1, x.snap, x.sub, x.now)]
  }

  /** Numbers count up from 1 and no entry repeats its predecessor. */
  ghost predicate IsLog(log: seq<PageVersion>) {
    && (forall i :: 0 <= i < |log| ==> log[i].number == i + 1)
    && (forall i :: 0 < i < |log| ==> log[i - 1].snap != log[i].snap)
  }

  lemma {:induction false} LogIsLog(pageId: Id, subs: seq<Submission>)
    ensures IsLog(Log(pageId, subs))
    ensures subs != [] ==>
        Log(pageId, subs) != [] && Log(pageId, subs)[|Log(pageId, subs)| - 1].snap == subs[|subs| - 1].snap
  {
    if subs != [] {
      LogIsLog(pageId, subs[..|subs| - 1]);
    }
  }

  /** The submissions, with every run of equal neighbours kept once. */
  function Distinct(subs: seq<Submission>): seq<Snapshot> {
    if subs == [] then []
    else
      var n := |subs| - 1;
      Distinct(subs[..n]) + if n > 0 && subs[n - 1].snap == subs[n].snap then [] else [subs[n].snap]
  }

  function Snaps(log: seq<PageVersion>): seq<Snapshot> {
    seq(|log|, i requires 0 <= i < |log| => log[i].snap)
  }

  /** The log holds exactly the submissions that changed something, in order. */
  lemma {:induction false} LogHoldsChanges(pageId: Id, subs: seq<Submission>)
    ensures Snaps(Log(pageId, subs)) == Distinct(subs)
  {
    if subs != [] {
      var n := |subs| - 1;
      LogHoldsChanges(pageId, subs[..n]);
      LogIsLog(pageId, subs[..n]);
      var log := Log(pageId, subs[..n]);
      if n > 0 {
        assert subs[..n][n - 1] == subs[n - 1];
      }
      assert Snaps(Log(pageId, subs))
          == Snaps(log) + if log != [] && log[|log| - 1].snap == subs[n].snap then [] else [subs[n].snap];
    }
  }

  // ---------- the window ----------

  /** The newest entries, as many as are kept. */
  function Window(log: seq<PageVersion>): seq<PageVersion> {
    if |log| > MAX_PAGE_VERSIONS then log[|log| - MAX_PAGE_VERSIONS..] else log
  }

  /** What the in-memory store does with one submission. */
  function Append(pageId: Id, vers: seq<PageVersion>, x: Submission): seq<PageVersion> {
    if vers != [] && vers[|vers| - 1].snap == x.snap then vers
    else
      Window(vers + [PageVersion(pageId, if vers == [] then 1 else vers[|vers| - 1].number + 1, x.snap, x.sub, x.now)])
  }

  function AppendAll(pageId: Id, vers: seq<PageVersion>, subs: seq<Submission>): seq<PageVersion> {
    if subs == [] then vers
    else Append(pageId, AppendAll(pageId, vers, subs[..|subs| - 1]), subs[|subs| - 1])
  }

  lemma WindowExtends(pageId: Id, log: seq<PageVersion>, x: Submission)
    requires IsLog(log)
    ensures Append(pageId, Window(log), x) == Window(Extend(pageId, log, x))
  {
    var w := Window(log);
    if log != [] {
      assert w[|w| - 1] == log[|log| - 1];
    }
  }

  /** After any submissions the stored list is the window of the unbounded log. */
  lemma {:induction false} StoredIsWindow(pageId: Id, subs: seq<Submission>)
    ensures AppendAll(pageId, [], subs) == Window(Log(pageId, subs))
  {
    if subs != [] {
      StoredIsWindow(pageId, subs[..|subs| - 1]);
      LogIsLog(pageId, subs[..|subs| - 1]);
      WindowExtends(pageId, Log(pageId, subs[..|subs| - 1]), subs[|subs| - 1]);
    }
  }

  /** A window by itself: consecutive numbers from 1, or as many entries as are kept; neighbours differ. */
  ghost predicate IsWindow(vers: seq<PageVersion>) {
    && |vers| <= MAX_PAGE_VERSIONS
    && (vers != [] ==> vers[0].number >= 1 && (vers[0].number > 1 ==> |vers| == MAX_PAGE_VERSIONS))
    && (forall i :: 0 <= i < |vers| ==> vers[i].number == vers[0].number + i)
    && (forall i :: 0 < i < |vers| ==> vers[i - 1].snap != vers[i].snap)
  }

  /** An append never renumbers or alters an entry; at the limit the oldest one drops off. */
  lemma AppendKeepsEntries(pageId: Id, vers: seq<PageVersion>, x: Submission)
    requires IsWindow(vers)
    ensures var r := Append(pageId, vers, x);
            && IsWindow(r) && r != [] && r[|r| - 1].snap == x.snap
            && (vers != [] && vers[|vers| - 1].snap == x.snap ==> r == vers)
            && (vers == [] || vers[|vers| - 1].snap != x.snap ==>
                  r[..|r| - 1] == if |vers| == MAX_PAGE_VERSIONS then vers[1..] else vers)
  {
  }

  // ---------- the rows ----------

  /** The page_versions rows of one page, in no particular order. */
  type Rows = set<PageVersion>

  /** The rows are exactly the entries of the list. */
  ghost predicate Holds(rows: Rows, vers: seq<PageVersion>) {
    forall v :: v in rows <==> v in vers
  }

  /** The row with the highest number, if there is any row. */
  ghost predicate IsNewest(rows: Rows, last: Option<PageVersion>) {
    match last
    case None => rows == {}
    case Some(v) => NoneNewer(rows, v)
  }

  ghost predicate NoneNewer(rows: Rows, v: PageVersion) {
    v in rows && forall w :: w in rows ==> w.number <= v.number
  }

  /** ORDER BY number DESC LIMIT 1. */
  method NewestRow(rows: Rows) returns (last: Option<PageVersion>)
    ensures IsNewest(rows, last)
  {
    last := None;
    var rest := rows;
    while rest != {}
      invariant rest <= rows
      invariant last.None? ==> rest == rows
      invariant last.Some? ==> NoneNewer(rows - rest, last.value)
      decreases rest
    {
      var v :| v in rest;
      rest := rest - {v};
      if last == None || v.number > last.value.number {
        last := Some(v);
      }
      assert v in rows - rest;
    }
    assert rows - rest == rows;
  }

  /** DELETE ... WHERE number <= cutoff. */
  function DeleteUpTo(rows: Rows, cutoff: int): Rows {
    set v | v in rows && v.number > cutoff
  }

  /** What the relational store makes of the rows when the newest one is `last`. */
  function RowsAfter(pageId: Id, rows: Rows, last: Option<PageVersion>, x: Submission): (Rows, PageVersion) {
    if last.Some? && last.value.snap == x.snap then (rows, last.value)
    else
      var num := if last.Some? then last.value.number + 1 else 1;
      var v := PageVersion(pageId, num, x.snap, x.sub, x.now);
      (if num > MAX_PAGE_VERSIONS then DeleteUpTo(rows + {v}, num - MAX_PAGE_VERSIONS) else rows + {v}, v)
  }

  /** One submission against the rows: some row is the newest, and the rows change accordingly. */
  ghost predicate RowStep(pageId: Id, rows: Rows, x: Submission, r: Rows) {
    exists last :: IsNewest(rows, last) && RowsAfter(pageId, rows, last, x).0 == r
  }

  /** The transaction: lock the page's row, compare with the newest version row, insert and prune. */
  method AppendRow(pages: set<Id>, pageId: Id, rows: Rows, x: Submission)
    returns (r: Rows, v: Outcome<PageVersion>, changed: bool)
    ensures pageId !in pages ==> r == rows && v == Err(NotFound)
    ensures pageId in pages ==>
              RowStep(pageId, rows, x, r) && v.Ok? && NoneNewer(r, v.value) && v.value.snap == x.snap
    ensures changed <==> r != rows
  {
    if pageId !in pages {
      return rows, Err(NotFound), false;
    }
    var last := NewestRow(rows);
    if last.Some? && last.value.snap == x.snap {
      assert RowsAfter(pageId, rows, last, x) == (rows, last.value);
      return rows, Ok(last.value), false;
    }
    var num := 1;
    if last.Some? {
      num := last.value.number + 1;
    }
    var added := PageVersion(pageId, num, x.snap, x.sub, x.now);
    r := rows + {added};
    if num > MAX_PAGE_VERSIONS {
      r := DeleteUpTo(r, num - MAX_PAGE_VERSIONS);
    }
    assert added in r && added !in rows;
    assert RowsAfter(pageId, rows, last, x) == (r, added);
    v, changed := Ok(added), true;
  }

  lemma NewestOfWindow(rows: Rows, vers: seq<PageVersion>, last: Option<PageVersion>)
    requires IsWindow(vers) && Holds(rows, vers) && IsNewest(rows, last)
    ensures last == if vers == [] then None else Some(vers[|vers| - 1])
  {
    if vers != [] {
      var v := vers[|vers| - 1];
      assert v in rows;
      var i :| 0 <= i < |vers| && vers[i] == last.value;
      assert vers[i].number == vers[0].number + i;
    }
  }

  /** Deleting up to the cutoff keeps the same entries as slicing the tail. */
  lemma RowStepFollows(pageId: Id, rows: Rows, vers: seq<PageVersion>, x: Submission, r: Rows)
    requires IsWindow(vers) && Holds(rows, vers) && RowStep(pageId, rows, x, r)
    ensures Holds(r, Append(pageId, vers, x))
  {
    var last :| IsNewest(rows, last) && RowsAfter(pageId, rows, last, x).0 == r;
    NewestOfWindow(rows, vers, last);
    if !(vers != [] && vers[|vers| - 1].snap == x.snap) {
      var num := if vers == [] then 1 else vers[|vers| - 1].number + 1;
      var v := PageVersion(pageId, num, x.snap, x.sub, x.now);
      InsertedRowsHold(rows, vers, v);
    }
  }

  lemma InsertedRowsHold(rows: Rows, vers: seq<PageVersion>, v: PageVersion)
    requires IsWindow(vers) && Holds(rows, vers)
    requires v.number == if vers == [] then 1 else vers[|vers| - 1].number + 1
    ensures Holds(if v.number > MAX_PAGE_VERSIONS then DeleteUpTo(rows + {v}, v.number - MAX_PAGE_VERSIONS)
                  else rows + {v},
                  Window(vers + [v]))
  {
    var longer := vers + [v];
    if |longer| > MAX_PAGE_VERSIONS {
      assert longer == [vers[0]] + longer[1..];
      assert v.number - MAX_PAGE_VERSIONS == vers[0].number;
      forall w ensures w in longer[1..] <==> w in longer && w.number > vers[0].number {
        if w in longer[1..] {
          var i :| 0 <= i < |longer[1..]| && longer[1..][i] == w;
          assert longer[i + 1] == w;
        }
      }
    }
  }

  /** Over every sequence of submissions the rows are the same window of the unbounded log. */
  lemma {:induction false} RowsAreWindow(pageId: Id, subs: seq<Submission>, states: seq<Rows>)
    requires |states| == |subs| + 1 && states[0] == {}
    requires forall i :: 0 <= i < |subs| ==> RowStep(pageId, states[i], subs[i], states[i + 1])
    ensures Holds(states[|subs|], Window(Log(pageId, subs)))
  {
    if subs != [] {
      var n := |subs| - 1;
      forall i | 0 <= i < n ensures RowStep(pageId, states[..n + 1][i], subs[..n][i], states[..n + 1][i + 1]) {
        assert RowStep(pageId, states[i], subs[i], states[i + 1]);
      }
      RowsAreWindow(pageId, subs[..n], states[..n + 1]);
      LogIsLog(pageId, subs[..n]);
      RowStepFollows(pageId, states[n], Window(Log(pageId, subs[..n])), subs[n], states[n + 1]);
      WindowExtends(pageId, Log(pageId, subs[..n]), subs[n]);
    }
  }
}
