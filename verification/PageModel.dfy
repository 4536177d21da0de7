/**
 * The wiki part of the in-memory store as values: pages, their parent pointers, archiving
 * (apps/api/internal/store/memory/store.go), and the forest that every operation keeps.
 */
module PageModel {
  import opened Common
  import opened Forest
  import opened PageTree
  import opened PageHistory
  import opened Roles

  /** `collab` finds a page by its collaboration room, `versions` holds each page's history. */
  datatype State = State(
    members: map<Id, map<Id, Role>>,
    pages: map<Id, Page>,
    collab: map<Id, Id>,
    versions: map<Id, seq<PageVersion>>)

  /** A workspace exists when it has a member table. */
  predicate HasWorkspace(s: State, wsId: Id) {
    wsId in s.members
  }

  // ---------- the parent check ----------

  /** The chain up from `x` leaves the known pages, at the root or at a missing page. */
  ghost predicate Leaves(m: Parents, x: Id) {
    exists n: nat, e: Id :: Climbs(m, x, e, n) && e !in m
  }

  /** What validateParentLocked answers, on any page map whatsoever. */
  ghost function ParentError(pages: map<Id, Page>, pageId: Id, wsId: Id, parentId: Id): Option<Error> {
    var m := ParentsOf(pages);
    if parentId == "" then None
    else if parentId == pageId then Some(Invalid)
    else if parentId !in pages then Some(NotFound)
    else if pages[parentId].workspaceId != wsId then Some(Invalid)
    else if !Leaves(m, parentId) || (pageId != "" && AtOrBelow(m, parentId, pageId)) then Some(Invalid)
    else None
  }

  lemma {:induction false} CycleNeverLeaves(m: Parents, x: Id, e: Id, n: nat)
    requires Below(m, x, x) && Climbs(m, x, e, n)
    ensures e in m
    decreases n
  {
    var j: nat :| j >= 1 && Climbs(m, x, x, j);
    if n < j {
      ClimbsSplit(m, x, e, x, n, j);
    } else {
      ClimbsSplit(m, x, x, e, j, n);
      CycleNeverLeaves(m, x, e, n - j);
    }
  }

  /** A walk that has come back to a page it has seen will never leave. */
  lemma RepeatNeverLeaves(m: Parents, start: Id, cur: Id, seen: set<Id>)
    requires Walked(m, start, cur, seen) && cur in seen
    ensures !Leaves(m, start)
  {
    var i: nat :| Climbs(m, start, cur, i);
    if Leaves(m, start) {
      var n: nat, e: Id :| Climbs(m, start, e, n) && e !in m;
      if i <= n {
        ClimbsSplit(m, start, cur, e, i, n);
        CycleNeverLeaves(m, cur, e, n - i);
      } else {
        ClimbsSplit(m, start, e, cur, n, i);
      }
    }
  }

  /** A walk that has left the pages passed every id on the chain. */
  lemma LeftWithoutMeeting(m: Parents, start: Id, cur: Id, n: nat, p: Id)
    requires Climbs(m, start, cur, n) && cur !in m && cur != p
    requires forall i: nat :: i < n ==> !Climbs(m, start, p, i)
    ensures Leaves(m, start) && !AtOrBelow(m, start, p)
  {
    if AtOrBelow(m, start, p) {
      var i: nat :| Climbs(m, start, p, i);
      ClimbsSplit(m, start, cur, p, n, i);
    }
  }

  // ---------- what the operations do ----------

  /** The first free position among the siblings. */
  ghost predicate IsNextPosition(pages: map<Id, Page>, wsId: Id, parentId: Id, pos: int) {
    && pos >= 0
    && (forall d :: d in pages && Sibling(pages[d], wsId, parentId) ==> pages[d].position < pos)
    && (pos == 0 || exists d :: d in pages && Sibling(pages[d], wsId, parentId) && pages[d].position == pos - 1)
  }

  predicate Sibling(p: Page, wsId: Id, parentId: Id) {
    p.workspaceId == wsId && p.parentId == parentId
  }

  ghost function CreatePage(s: State, wsId: Id, parentId: Id, title: string, body: string, status: string,
                            now: Time, id: Id, collabId: Id, pos: int): (State, Outcome<Page>)
  {
    if !HasWorkspace(s, wsId) then (s, Err(NotFound))
    else
      var e := ParentError(s.pages, "", wsId, parentId);
      if e.Some? then (s, Err(e.value))
      else
        var page := Page(id, wsId, parentId, title, body, status, pos, 1, collabId, now, now, None);
        (s.(pages := s.pages[id := page], collab := s.collab[collabId := id]), Ok(page))
  }

  ghost function UpdatePage(s: State, pageId: Id, title: Option<string>, body: Option<string>, status: Option<string>,
                            parentId: Option<Id>, version: int, now: Time): (State, Outcome<Page>)
  {
    if pageId !in s.pages then (s, Err(NotFound))
    else
      var p := s.pages[pageId];
      if p.version != version then (s, Stale(p))
      else
        var e := if parentId.Some? then ParentError(s.pages, pageId, p.workspaceId, parentId.value) else None;
        if e.Some? then (s, Err(e.value))
        else
          var p' := p.(parentId := if parentId.Some? then parentId.value else p.parentId,
                       title := if title.Some? then title.value else p.title,
                       body := if body.Some? then body.value else p.body,
                       status := if status.Some? then status.value else p.status,
                       version := p.version + 1, updatedAt := now);
          (s.(pages := s.pages[pageId := p']), Ok(p'))
  }

  /** The pages with the mark set on exactly one page and everything below it. */
  ghost function MarkSubtree(pages: map<Id, Page>, pageId: Id, mark: Option<Time>): map<Id, Page> {
    map d | d in pages :: if AtOrBelow(ParentsOf(pages), d, pageId) then pages[d].(archivedAt := mark) else pages[d]
  }

  ghost function ArchivePage(s: State, pageId: Id, mark: Option<Time>): (State, Outcome<()>) {
    if pageId !in s.pages then (s, Err(NotFound))
    else (s.(pages := MarkSubtree(s.pages, pageId, mark)), Ok(()))
  }

  function ApplyCollabSnapshot(s: State, collabId: Id, plaintext: string, now: Time): (State, Outcome<()>) {
    if collabId !in s.collab || s.collab[collabId] !in s.pages then (s, Err(NotFound))
    else
      var d := s.collab[collabId];
      (s.(pages := s.pages[d := s.pages[d].(body := plaintext, updatedAt := now)]), Ok(()))
  }

  function VersionsOf(s: State, pageId: Id): seq<PageVersion> {
    if pageId in s.versions then s.versions[pageId] else []
  }

  function AppendVersion(s: State, pageId: Id, x: Submission): (State, Outcome<PageVersion>) {
    if pageId !in s.pages then (s, Err(NotFound))
    else
      var vers := Append(pageId, VersionsOf(s, pageId), x);
      assert vers != [] by {
        assert VersionsOf(s, pageId) + [PageVersion(pageId, 1, x.snap, x.sub, x.now)] != [];
      }
      (if vers == VersionsOf(s, pageId) then s else s.(versions := s.versions[pageId := vers]), Ok(vers[|vers| - 1]))
  }

  // ---------- the forest ----------

  /** Each page is filed under its id, and its parent, if any, is a page of the same workspace. */
  ghost predicate PageOk(s: State, d: Id)
    requires d in s.pages
  {
    var p := s.pages[d];
    && p.id == d && d != "" && p.workspaceId in s.members
    && (p.parentId != "" ==> p.parentId in s.pages && s.pages[p.parentId].workspaceId == p.workspaceId)
  }

  ghost predicate ForestInv(s: State) {
    && (forall d {:trigger PageOk(s, d)} :: d in s.pages ==> PageOk(s, d))
    && (forall d :: d in s.pages ==> ReachesRoot(ParentsOf(s.pages), d))
    && "" !in s.pages
  }

  lemma ForestInvIsForest(s: State)
    requires ForestInv(s)
    ensures IsForest(ParentsOf(s.pages))
  {
  }

  /** In a reachable state the parent check is exact: no dangling chain, no cycle, nothing refused without reason. */
  lemma ParentCheckExact(s: State, pageId: Id, wsId: Id, parentId: Id)
    requires ForestInv(s)
    ensures ParentError(s.pages, pageId, wsId, parentId) == None <==>
            || parentId == ""
            || (&& parentId in s.pages && s.pages[parentId].workspaceId == wsId
                && (pageId == "" || (parentId != pageId && !Below(ParentsOf(s.pages), parentId, pageId))))
  {
    var m := ParentsOf(s.pages);
    if parentId in s.pages {
      var n: nat :| Climbs(m, parentId, "", n);
      assert Leaves(m, parentId);
      AtOrBelowIff(m, parentId, pageId);
    }
  }

  /** Changes that leave ids, workspaces and parents alone keep the forest. */
  lemma SamePointersKeepForest(s: State, s': State)
    requires ForestInv(s) && s'.pages.Keys == s.pages.Keys && s'.members == s.members
    requires forall d :: d in s.pages ==>
      && s'.pages[d].id == s.pages[d].id && s'.pages[d].workspaceId == s.pages[d].workspaceId
      && s'.pages[d].parentId == s.pages[d].parentId
    ensures ForestInv(s')
  {
    assert ParentsOf(s'.pages) == ParentsOf(s.pages);
    forall d | d in s'.pages ensures PageOk(s', d) {
      assert PageOk(s, d);
    }
  }

  /** Hanging a page, new or old, where the parent check allows keeps the forest. */
  lemma HangingKeepsForest(s: State, p: Page)
    requires ForestInv(s) && p.id != "" && p.workspaceId in s.members
    requires ParentError(s.pages, if p.id in s.pages then p.id else "", p.workspaceId, p.parentId) == None
    requires p.id in s.pages ==> s.pages[p.id].workspaceId == p.workspaceId
    ensures ForestInv(s.(pages := s.pages[p.id := p]))
  {
    var s' := s.(pages := s.pages[p.id := p]);
    var m := ParentsOf(s.pages);
    ParentCheckExact(s, if p.id in s.pages then p.id else "", p.workspaceId, p.parentId);
    assert ParentsOf(s'.pages) == m[p.id := p.parentId];
    assert Climbs(m, "", "", 0);
    assert ReachesRoot(m, p.parentId);
    NotAboveNewParent(s, p);
    ReparentKeepsForest(m, p.id, p.parentId);
    forall d | d in s'.pages ensures PageOk(s', d) {
      assert d in s.pages ==> PageOk(s, d);
      assert p.parentId in s.pages ==> PageOk(s, p.parentId);
    }
    forall d | d in s'.pages ensures ReachesRoot(ParentsOf(s'.pages), d) {
      assert Rooted(m[p.id := p.parentId], d);
    }
  }

  lemma NotAboveNewParent(s: State, p: Page)
    requires ForestInv(s) && p.id != ""
    requires ParentError(s.pages, if p.id in s.pages then p.id else "", p.workspaceId, p.parentId) == None
    ensures !AtOrBelow(ParentsOf(s.pages), p.parentId, p.id)
  {
    var m := ParentsOf(s.pages);
    ParentCheckExact(s, if p.id in s.pages then p.id else "", p.workspaceId, p.parentId);
    AtOrBelowIff(m, p.parentId, p.id);
    if Below(m, p.parentId, p.id) {
      var n: nat :| n >= 1 && Climbs(m, p.parentId, p.id, n);
      AboveRooted(m, p.parentId, p.id, n);
    }
  }

  lemma CreatePageKeepsForest(s: State, wsId: Id, parentId: Id, title: string, body: string, status: string,
                              now: Time, id: Id, collabId: Id, pos: int)
    requires ForestInv(s) && id != "" && id !in s.pages
    ensures ForestInv(CreatePage(s, wsId, parentId, title, body, status, now, id, collabId, pos).0)
  {
    var (s', r) := CreatePage(s, wsId, parentId, title, body, status, now, id, collabId, pos);
    if r.Ok? {
      HangingKeepsForest(s, r.value);
      SamePointersKeepForest(s.(pages := s.pages[id := r.value]), s');
    }
  }

  lemma UpdatePageKeepsForest(s: State, pageId: Id, title: Option<string>, body: Option<string>, status: Option<string>,
                              parentId: Option<Id>, version: int, now: Time)
    requires ForestInv(s)
    ensures ForestInv(UpdatePage(s, pageId, title, body, status, parentId, version, now).0)
  {
    var (s', r) := UpdatePage(s, pageId, title, body, status, parentId, version, now);
    if r.Ok? {
      assert PageOk(s, pageId);
      if parentId.Some? {
        HangingKeepsForest(s, r.value);
      } else {
        SamePointersKeepForest(s, s');
      }
    }
  }

  lemma ArchivePageKeepsForest(s: State, pageId: Id, mark: Option<Time>)
    requires ForestInv(s)
    ensures ForestInv(ArchivePage(s, pageId, mark).0)
  {
    if pageId in s.pages {
      SamePointersKeepForest(s, ArchivePage(s, pageId, mark).0);
    }
  }

  lemma ApplySnapshotKeepsForest(s: State, collabId: Id, plaintext: string, now: Time)
    requires ForestInv(s)
    ensures ForestInv(ApplyCollabSnapshot(s, collabId, plaintext, now).0)
  {
    SamePointersKeepForest(s, ApplyCollabSnapshot(s, collabId, plaintext, now).0);
  }

  lemma AppendVersionKeepsForest(s: State, pageId: Id, x: Submission)
    requires ForestInv(s)
    ensures ForestInv(AppendVersion(s, pageId, x).0)
  {
    SamePointersKeepForest(s, AppendVersion(s, pageId, x).0);
  }

  // ---------- runs of store calls, in any interleaving ----------

  datatype Op =
    | AddWorkspace(wsId: Id, owner: Id)
    | MakePage(inWorkspace: Id, parentId: Id, title: string, body: string, status: string,
               id: Id, collabId: Id, pos: int)
    | EditPage(pageId: Id, newTitle: Option<string>, newBody: Option<string>, newStatus: Option<string>,
               newParent: Option<Id>, version: int)
    | MarkPage(pageId: Id, archived: bool)
    | Snapshotted(room: Id, plaintext: string)
    | Recorded(pageId: Id, submission: Submission)

  /** Drawn page ids are new: not a page, and not a name anyone has used for a parent. */
  ghost predicate IdIsNew(s: State, op: Op) {
    op.MakePage? ==> op.id != "" && op.id !in s.pages
  }

  ghost function Apply(s: State, op: Op, now: Time): (r: State)
    requires ForestInv(s) && IdIsNew(s, op)
    ensures ForestInv(r)
  {
    match op
    case AddWorkspace(w, owner) =>
      var s' := s.(members := s.members[w := map[owner := ROLE_OWNER]]);
      MembersKeepForest(s, s'); s'
    case MakePage(w, p, t, b, st, id, c, pos) => CreatePageKeepsForest(s, w, p, t, b, st, now, id, c, pos);
      CreatePage(s, w, p, t, b, st, now, id, c, pos).0
    case EditPage(d, t, b, st, p, v) =>
      UpdatePageKeepsForest(s, d, t, b, st, p, v, now); UpdatePage(s, d, t, b, st, p, v, now).0
    case MarkPage(d, archived) =>
      var mark := if archived then Some(now) else None;
      ArchivePageKeepsForest(s, d, mark); ArchivePage(s, d, mark).0
    case Snapshotted(c, text) => ApplySnapshotKeepsForest(s, c, text, now); ApplyCollabSnapshot(s, c, text, now).0
    case Recorded(d, x) => AppendVersionKeepsForest(s, d, x); AppendVersion(s, d, x).0
  }

  lemma MembersKeepForest(s: State, s': State)
    requires ForestInv(s) && s'.pages == s.pages && s.members.Keys <= s'.members.Keys
    ensures ForestInv(s')
  {
    forall d | d in s'.pages ensures PageOk(s', d) {
      assert PageOk(s, d);
    }
  }

  datatype Call = Call(op: Op, now: Time)

  const EMPTY := State(map[], map[], map[], map[])

  ghost predicate Possible(s: State, calls: seq<Call>)
    requires ForestInv(s)
    decreases |calls|
  {
    calls == [] || (IdIsNew(s, calls[0].op) && Possible(Apply(s, calls[0].op, calls[0].now), calls[1..]))
  }

  ghost function Run(s: State, calls: seq<Call>): State
    requires ForestInv(s) && Possible(s, calls)
    decreases |calls|
  {
    if calls == [] then s else Run(Apply(s, calls[0].op, calls[0].now), calls[1..])
  }

  /** In every reachable state no page is below itself, and every page and its parent share a workspace. */
  lemma {:induction false} RunKeepsForest(s: State, calls: seq<Call>, d: Id)
    requires ForestInv(s) && Possible(s, calls) && d in Run(s, calls).pages
    ensures var s' := Run(s, calls);
            && ForestInv(s') && IsForest(ParentsOf(s'.pages)) && !Below(ParentsOf(s'.pages), d, d)
            && (s'.pages[d].parentId != "" ==>
                  s'.pages[d].parentId in s'.pages
                      && s'.pages[s'.pages[d].parentId].workspaceId == s'.pages[d].workspaceId)
    decreases |calls|
  {
    if calls == [] {
      RootedAcyclic(ParentsOf(s.pages), d);
      assert PageOk(s, d);
    } else {
      RunKeepsForest(Apply(s, calls[0].op, calls[0].now), calls[1..], d);
    }
  }

  /** The submission that a call records for a page, if any. */
  function RecordedBy(s: State, op: Op, d: Id): seq<Submission> {
    if op.Recorded? && op.pageId == d && d in s.pages then [op.submission] else []
  }

  /** The submissions that a run of calls records for a page. */
  ghost function RecordedFor(s: State, calls: seq<Call>, d: Id): seq<Submission>
    requires ForestInv(s) && Possible(s, calls)
    decreases |calls|
  {
    if calls == [] then []
    else RecordedBy(s, calls[0].op, d) + RecordedFor(Apply(s, calls[0].op, calls[0].now), calls[1..], d)
  }

  lemma {:induction false} AppendAllJoin(d: Id, vers: seq<PageVersion>, a: seq<Submission>, b: seq<Submission>)
    ensures AppendAll(d, AppendAll(d, vers, a), b) == AppendAll(d, vers, a + b)
  {
    if b == [] {
      assert a + b == a;
    } else {
      var n := |b| - 1;
      AppendAllJoin(d, vers, a, b[..n]);
      assert (a + b)[..|a + b| - 1] == a + b[..n];
    }
  }

  lemma ApplyRecords(s: State, op: Op, now: Time, d: Id)
    requires ForestInv(s) && IdIsNew(s, op)
    ensures VersionsOf(Apply(s, op, now), d) == AppendAll(d, VersionsOf(s, d), RecordedBy(s, op, d))
  {
    if RecordedBy(s, op, d) != [] {
      assert [op.submission][..0] == [];
    }
  }

  lemma {:induction false} VersionsAfterRun(s: State, calls: seq<Call>, d: Id)
    requires ForestInv(s) && Possible(s, calls)
    ensures VersionsOf(Run(s, calls), d) == AppendAll(d, VersionsOf(s, d), RecordedFor(s, calls, d))
    decreases |calls|
  {
    if calls != [] {
      var op, now := calls[0].op, calls[0].now;
      ApplyRecords(s, op, now, d);
      VersionsAfterRun(Apply(s, op, now), calls[1..], d);
      AppendAllJoin(d, VersionsOf(s, d), RecordedBy(s, op, d), RecordedFor(Apply(s, op, now), calls[1..], d));
    }
  }

  /** In every reachable state a page's stored history is the window of the log of all that was recorded for it. */
  lemma HistoryAfterRun(calls: seq<Call>, d: Id)
    requires Possible(EMPTY, calls)
    ensures VersionsOf(Run(EMPTY, calls), d) == Window(Log(d, RecordedFor(EMPTY, calls, d)))
    ensures var stored, log := VersionsOf(Run(EMPTY, calls), d), Log(d, RecordedFor(EMPTY, calls, d));
            |stored| == (if |log| <= 100 then |log| else 100) && stored == log[|log| - |stored|..]
  {
    VersionsAfterRun(EMPTY, calls, d);
    StoredIsWindow(d, RecordedFor(EMPTY, calls, d));
  }
}
