/**
 * Wiki requests of the service layer as values (apps/api/internal/service/workspace.go and
 * sprints.go): page creation, update, collaboration snapshots, restore, and the history they keep.
 */
module WikiModel {
  import opened Common
  import opened PageTree
  import opened PageHistory
  import opened Roles
  import opened PageModel
  import PageStore

  const MAX_PAGE_TITLE := 160
  const MAX_PAGE_BODY := 100000

  // ---------- roles ----------

  function MemberRole(s: State, wsId: Id, sub: Id): Outcome<Role> {
    if wsId !in s.members then Err(NotFound)
    else if sub !in s.members[wsId] then Err(Forbidden)
    else Ok(s.members[wsId][sub])
  }

  function RequireWrite(s: State, wsId: Id, sub: Id): Option<Error> {
    var role := MemberRole(s, wsId, sub);
    if role.Err? then Some(role.error)
    else if role.Ok? && RoleAtLeast(role.value, ROLE_MEMBER) then None
    else Some(Forbidden)
  }

  // ---------- requests ----------

  function SnapOf(p: Page): Snapshot {
    Snapshot(p.title, p.body, p.status)
  }

  /** Records the page as it now is; a failure to record is ignored. */
  function Record(s: State, p: Page, sub: Id, now: Time): State {
    AppendVersion(s, p.id, Submission(SnapOf(p), sub, now)).0
  }

  ghost function CreatePage(s: State, sub: Id, wsId: Id, parentId: Id, title: string, body: string, status: string,
                            now: Time, id: Id, collabId: Id, pos: int): (State, Outcome<Page>)
  {
    var e := RequireWrite(s, wsId, sub);
    if e.Some? then (s, Err(e.value))
    else if title == "" || ByteLen(title) > MAX_PAGE_TITLE then (s, Err(Invalid))
    else if ByteLen(body) > MAX_PAGE_BODY then (s, Err(Invalid))
    else
      var st := if status == "" then PAGE_STATUS_DRAFT else status;
      if st != PAGE_STATUS_DRAFT && st != PAGE_STATUS_PUBLISHED then (s, Err(Invalid))
      else
        var (s1, r) := PageModel.CreatePage(s, wsId, parentId, title, body, st, now, id, collabId, pos);
        if !r.Ok? then (s1, r) else (Record(s1, r.value, sub, now), r)
  }

  ghost function UpdatePage(s: State, sub: Id, pageId: Id, title: Option<string>, body: Option<string>,
                            status: Option<string>, parentId: Option<Id>, version: int, now: Time)
    : (State, Outcome<Page>)
  {
    if pageId !in s.pages then (s, Err(NotFound))
    else
      var e := RequireWrite(s, s.pages[pageId].workspaceId, sub);
      if e.Some? then (s, Err(e.value))
      else
        var t := if title.Some? then Some(TrimSpace(title.value)) else None;
        if t.Some? && (t.value == "" || ByteLen(t.value) > MAX_PAGE_TITLE) then (s, Err(Invalid))
        else if body.Some? && ByteLen(body.value) > MAX_PAGE_BODY then (s, Err(Invalid))
        else if status.Some? && status.value != PAGE_STATUS_DRAFT && status.value != PAGE_STATUS_PUBLISHED
          then (s, Err(Invalid))
        else
          var (s1, r) := PageModel.UpdatePage(s, pageId, t, body, status, parentId, version, now);
          if !r.Ok? then (s1, r)
          else if t.Some? || body.Some? || status.Some? then (Record(s1, r.value, sub, now), r)
          else (s1, r)
  }

  /** `validRoom` is the verdict of the room-name check. */
  function ApplySnapshot(s: State, validRoom: bool, collabId: Id, plaintext: string, editor: Id, now: Time)
    : (State, Outcome<()>)
  {
    if !validRoom || ByteLen(plaintext) > MAX_PAGE_BODY then (s, Err(Invalid))
    else if collabId !in s.collab then (s, Err(NotFound))
    else
      var (s1, r) := ApplyCollabSnapshot(s, collabId, plaintext, now);
      if !r.Ok? then (s1, r)
      else (Record(s1, s1.pages[s.collab[collabId]], editor, now), Ok(()))
  }

  ghost function RestorePageVersion(s: State, sub: Id, pageId: Id, number: int, lockVersion: int, now: Time)
    : (State, Outcome<Page>)
  {
    if pageId !in s.pages then (s, Err(NotFound))
    else
      var e := RequireWrite(s, s.pages[pageId].workspaceId, sub);
      if e.Some? then (s, Err(e.value))
      else
        match PageStore.GetVersion(s, pageId, number)
        case Err(err) => (s, Err(err))
        case Stale(v) => (s, Err(NotFound))
        case Ok(v) =>
          UpdatePage(s, sub, pageId, Some(v.snap.title), Some(v.snap.body),
                     if v.snap.status != "" then Some(v.snap.status) else None, None, lockVersion, now)
  }

  // ---------- the history invariant ----------

  predicate SnapOk(x: Snapshot) {
    && x.title != "" && ByteLen(x.title) <= MAX_PAGE_TITLE && ByteLen(x.body) <= MAX_PAGE_BODY
    && (x.status == PAGE_STATUS_DRAFT || x.status == PAGE_STATUS_PUBLISHED)
  }

  ghost predicate SnapsOk(vers: seq<PageVersion>) {
    forall i :: 0 <= i < |vers| ==> SnapOk(vers[i].snap)
  }

  /** A page's stored history: a window of acceptable snapshots whose newest is the page. */
  ghost predicate Fits(vers: seq<PageVersion>, p: Page) {
    IsWindow(vers) && SnapsOk(vers) && vers != [] && vers[|vers| - 1].snap == SnapOf(p)
  }

  ghost predicate HistoryOk(s: State, d: Id)
    requires d in s.pages
  {
    Fits(VersionsOf(s, d), s.pages[d])
  }

  ghost predicate Histories(s: State) {
    && (forall d {:trigger HistoryOk(s, d)} :: d in s.pages ==> HistoryOk(s, d))
    && s.versions.Keys <= s.pages.Keys
    && (forall c :: c in s.collab ==> s.collab[c] in s.pages)
  }

  ghost predicate WikiInv(s: State) {
    ForestInv(s) && Histories(s)
  }

  /** Appending an acceptable page's snapshot makes the history fit it, whatever it was before. */
  lemma AppendedFits(vers: seq<PageVersion>, p: Page, sub: Id, now: Time)
    requires IsWindow(vers) && SnapsOk(vers) && SnapOk(SnapOf(p))
    ensures Fits(Append(p.id, vers, Submission(SnapOf(p), sub, now)), p)
  {
    var x := Submission(SnapOf(p), sub, now);
    AppendKeepsEntries(p.id, vers, x);
    var r := Append(p.id, vers, x);
    forall i | 0 <= i < |r| ensures SnapOk(r[i].snap) {
      if r != vers && i < |r| - 1 {
        assert r[i] == r[..|r| - 1][i];
      }
    }
  }

  /** What recording a page does to the store. */
  lemma RecordEffect(s: State, p: Page, sub: Id, now: Time)
    requires p.id in s.pages
    ensures var s' := Record(s, p, sub, now);
            && s' == s.(versions := s'.versions)
            && s'.versions.Keys <= s.versions.Keys + {p.id}
            && VersionsOf(s', p.id) == Append(p.id, VersionsOf(s, p.id), Submission(SnapOf(p), sub, now))
            && (forall k {:trigger VersionsOf(s', k)} :: k != p.id ==> VersionsOf(s', k) == VersionsOf(s, k))
  {
  }

  /** A request that changes or adds one page, acceptably, and records it. */
  lemma RecordedChangeKeepsInv(s: State, s1: State, d: Id, sub: Id, now: Time)
    requires Histories(s) && d in s1.pages && s1.pages[d].id == d && SnapOk(SnapOf(s1.pages[d]))
    requires s1.versions == s.versions && s1.pages == s.pages[d := s1.pages[d]]
    requires forall c :: c in s1.collab ==> s1.collab[c] in s1.pages
    ensures Histories(Record(s1, s1.pages[d], sub, now))
  {
    var s' := Record(s1, s1.pages[d], sub, now);
    RecordEffect(s1, s1.pages[d], sub, now);
    assert d in s.pages ==> HistoryOk(s, d);
    assert VersionsOf(s1, d) == if d in s.pages then VersionsOf(s, d) else [];
    AppendedFits(VersionsOf(s1, d), s1.pages[d], sub, now);
    forall k | k in s'.pages ensures HistoryOk(s', k) {
      if k != d {
        assert HistoryOk(s, k);
        assert VersionsOf(s', k) == VersionsOf(s1, k);
      }
    }
  }

  lemma RecordKeepsForest(s: State, p: Page, sub: Id, now: Time)
    requires ForestInv(s)
    ensures ForestInv(Record(s, p, sub, now))
  {
    AppendVersionKeepsForest(s, p.id, Submission(SnapOf(p), sub, now));
  }

  lemma CreatedPage(s: State, sub: Id, wsId: Id, parentId: Id, title: string, body: string, status: string,
                    now: Time, id: Id, collabId: Id, pos: int) returns (s1: State)
    requires CreatePage(s, sub, wsId, parentId, title, body, status, now, id, collabId, pos).1.Ok?
    ensures var st := if status == "" then PAGE_STATUS_DRAFT else status;
            var (s', r) := CreatePage(s, sub, wsId, parentId, title, body, status, now, id, collabId, pos);
            && (s1, r) == PageModel.CreatePage(s, wsId, parentId, title, body, st, now, id, collabId, pos)
            && s' == Record(s1, r.value, sub, now)
            && r.value.id == id && SnapOk(SnapOf(r.value))
            && s1 == s.(pages := s.pages[id := r.value], collab := s.collab[collabId := id])
  {
    var st := if status == "" then PAGE_STATUS_DRAFT else status;
    s1 := PageModel.CreatePage(s, wsId, parentId, title, body, st, now, id, collabId, pos).0;
  }

  lemma CreatePageKeepsInv(s: State, sub: Id, wsId: Id, parentId: Id, title: string, body: string, status: string,
                           now: Time, id: Id, collabId: Id, pos: int)
    requires WikiInv(s) && id != "" && id !in s.pages
    ensures WikiInv(CreatePage(s, sub, wsId, parentId, title, body, status, now, id, collabId, pos).0)
  {
    var r := CreatePage(s, sub, wsId, parentId, title, body, status, now, id, collabId, pos).1;
    if r.Ok? {
      var s1 := CreatedPage(s, sub, wsId, parentId, title, body, status, now, id, collabId, pos);
      CreatePageKeepsForest(s, wsId, parentId, title, body, if status == "" then PAGE_STATUS_DRAFT else status, now,
                            id, collabId, pos);
      RecordKeepsForest(s1, r.value, sub, now);
      RecordedChangeKeepsInv(s, s1, id, sub, now);
    }
  }

  /** An accepted update, taken apart. */
  lemma UpdatedPage(s: State, sub: Id, pageId: Id, title: Option<string>, body: Option<string>,
                    status: Option<string>, parentId: Option<Id>, version: int, now: Time) returns (s1: State)
    requires UpdatePage(s, sub, pageId, title, body, status, parentId, version, now).1.Ok?
    ensures var t := if title.Some? then Some(TrimSpace(title.value)) else None;
            var (s', r) := UpdatePage(s, sub, pageId, title, body, status, parentId, version, now);
            && pageId in s.pages
            && (s1, r) == PageModel.UpdatePage(s, pageId, t, body, status, parentId, version, now)
            && s1 == s.(pages := s.pages[pageId := r.value]) && r.value.id == s.pages[pageId].id
            && s' == (if t.Some? || body.Some? || status.Some? then Record(s1, r.value, sub, now) else s1)
            && (t.None? && body.None? && status.None? ==> SnapOf(r.value) == SnapOf(s.pages[pageId]))
            && (SnapOk(SnapOf(s.pages[pageId])) ==> SnapOk(SnapOf(r.value)))
  {
    var t := if title.Some? then Some(TrimSpace(title.value)) else None;
    s1 := PageModel.UpdatePage(s, pageId, t, body, status, parentId, version, now).0;
  }

  lemma UpdatePageKeepsInv(s: State, sub: Id, pageId: Id, title: Option<string>, body: Option<string>,
                           status: Option<string>, parentId: Option<Id>, version: int, now: Time)
    requires WikiInv(s)
    ensures WikiInv(UpdatePage(s, sub, pageId, title, body, status, parentId, version, now).0)
  {
    var r := UpdatePage(s, sub, pageId, title, body, status, parentId, version, now).1;
    if r.Ok? {
      var t := if title.Some? then Some(TrimSpace(title.value)) else None;
      var s1 := UpdatedPage(s, sub, pageId, title, body, status, parentId, version, now);
      UpdatePageKeepsForest(s, pageId, t, body, status, parentId, version, now);
      assert HistoryOk(s, pageId) && PageOk(s, pageId);
      if t.Some? || body.Some? || status.Some? {
        RecordKeepsForest(s1, r.value, sub, now);
        RecordedChangeKeepsInv(s, s1, pageId, sub, now);
      } else {
        SameSnapsKeepHistories(s, s1);
      }
    }
  }

  lemma SameSnapsKeepHistories(s: State, s': State)
    requires Histories(s) && s'.pages.Keys == s.pages.Keys && s'.versions == s.versions && s'.collab == s.collab
    requires forall k :: k in s.pages ==> SnapOf(s'.pages[k]) == SnapOf(s.pages[k])
    ensures Histories(s')
  {
    forall k | k in s'.pages ensures HistoryOk(s', k) {
      assert HistoryOk(s, k);
    }
  }

  lemma ApplySnapshotKeepsInv(s: State, validRoom: bool, collabId: Id, plaintext: string, editor: Id, now: Time)
    requires WikiInv(s)
    ensures WikiInv(ApplySnapshot(s, validRoom, collabId, plaintext, editor, now).0)
  {
    if ApplySnapshot(s, validRoom, collabId, plaintext, editor, now).1.Ok? {
      var d := s.collab[collabId];
      var s1 := ApplyCollabSnapshot(s, collabId, plaintext, now).0;
      ApplySnapshotKeepsForest(s, collabId, plaintext, now);
      assert HistoryOk(s, d) && PageOk(s, d);
      RecordKeepsForest(s1, s1.pages[d], editor, now);
      RecordedChangeKeepsInv(s, s1, d, editor, now);
    }
  }

  lemma ArchiveKeepsInv(s: State, pageId: Id, mark: Option<Time>)
    requires WikiInv(s)
    ensures WikiInv(ArchivePage(s, pageId, mark).0)
  {
    ArchivePageKeepsForest(s, pageId, mark);
    if pageId in s.pages {
      SameSnapsKeepHistories(s, ArchivePage(s, pageId, mark).0);
    }
  }

  lemma RestoreKeepsInv(s: State, sub: Id, pageId: Id, number: int, lockVersion: int, now: Time)
    requires WikiInv(s)
    ensures WikiInv(RestorePageVersion(s, sub, pageId, number, lockVersion, now).0)
  {
    if pageId in s.pages {
      var v := PageStore.GetVersion(s, pageId, number);
      if v.Ok? {
        UpdatePageKeepsInv(s, sub, pageId, Some(v.value.snap.title), Some(v.value.snap.body),
                           if v.value.snap.status != ""
                             then Some(v.value.snap.status) else None, None, lockVersion, now);
      }
    }
  }

  // ---------- whole runs of requests ----------

  datatype Request =
    | NewWorkspace(wsId: Id)
    | NewPage(inWorkspace: Id, parentId: Id, title: string, body: string, status: string,
              id: Id, collabId: Id, pos: int)
    | ChangePage(pageId: Id, newTitle: Option<string>, newBody: Option<string>, newStatus: Option<string>,
                 newParent: Option<Id>, version: int)
    | Archive(pageId: Id, archived: bool)
    | Collab(validRoom: bool, room: Id, plaintext: string)
    | Restore(pageId: Id, number: int, version: int)
    | SetRole(workspace: Id, member: Id, role: Role)

  ghost predicate IdIsNew(s: State, q: Request) {
    && (q.NewPage? ==> q.id != "" && q.id !in s.pages)
    && (q.NewWorkspace? ==> q.wsId !in s.members)
  }

  ghost function Serve(s: State, q: Request, sub: Id, now: Time): (r: State)
    requires WikiInv(s) && IdIsNew(s, q)
    ensures WikiInv(r)
  {
    match q
    case NewWorkspace(w) =>
      var s' := s.(members := s.members[w := map[sub := ROLE_OWNER]]);
      MembersKeepInv(s, s'); s'
    case NewPage(w, p, t, b, st, id, c, pos) =>
      CreatePageKeepsInv(s, sub, w, p, t, b, st, now, id, c, pos);
      CreatePage(s, sub, w, p, t, b, st, now, id, c, pos).0
    case ChangePage(d, t, b, st, p, v) =>
      UpdatePageKeepsInv(s, sub, d, t, b, st, p, v, now);
      UpdatePage(s, sub, d, t, b, st, p, v, now).0
    case Archive(d, archived) =>
      if d !in s.pages || RequireWrite(s, s.pages[d].workspaceId, sub).Some? then s
      else
        var mark := if archived then Some(now) else None;
        ArchiveKeepsInv(s, d, mark);
        ArchivePage(s, d, mark).0
    case Collab(ok, c, text) =>
      ApplySnapshotKeepsInv(s, ok, c, text, sub, now); ApplySnapshot(s, ok, c, text, sub, now).0
    case Restore(d, n, v) => RestoreKeepsInv(s, sub, d, n, v, now); RestorePageVersion(s, sub, d, n, v, now).0
    case SetRole(w, member, role) =>
      if w !in s.members then s
      else
        var s' := s.(members := s.members[w := s.members[w][member := role]]);
        MembersKeepInv(s, s'); s'
  }

  lemma MembersKeepInv(s: State, s': State)
    requires WikiInv(s) && s' == s.(members := s'.members) && s.members.Keys <= s'.members.Keys
    ensures WikiInv(s')
  {
    MembersKeepForest(s, s');
    SameSnapsKeepHistories(s, s');
  }

  datatype Served = Served(request: Request, sub: Id, now: Time)

  ghost predicate Possible(s: State, qs: seq<Served>)
    requires WikiInv(s)
    decreases |qs|
  {
    qs == [] || (IdIsNew(s, qs[0].request) && Possible(Serve(s, qs[0].request, qs[0].sub, qs[0].now), qs[1..]))
  }

  ghost function Run(s: State, qs: seq<Served>): State
    requires WikiInv(s) && Possible(s, qs)
    decreases |qs|
  {
    if qs == [] then s else Run(Serve(s, qs[0].request, qs[0].sub, qs[0].now), qs[1..])
  }

  lemma EmptyInv()
    ensures WikiInv(EMPTY) && TitlesTrimmed(EMPTY)
  {
  }

  /** Between requests, every page's newest history entry is the page as it is. */
  lemma {:induction false} NewestIsLive(s: State, qs: seq<Served>, d: Id)
    requires WikiInv(s) && Possible(s, qs) && d in Run(s, qs).pages
    ensures var s' := Run(s, qs);
            var vers := VersionsOf(s', d);
            && WikiInv(s') && vers != [] && IsWindow(vers)
            && vers[|vers| - 1].snap == Snapshot(s'.pages[d].title, s'.pages[d].body, s'.pages[d].status)
    decreases |qs|
  {
    if qs == [] {
      assert HistoryOk(s, d);
    } else {
      NewestIsLive(Serve(s, qs[0].request, qs[0].sub, qs[0].now), qs[1..], d);
    }
  }

  // ---------- restoring ----------

  lemma {:induction false} TrimLeftShortens(t: string)
    ensures ByteLen(TrimLeft(t)) <= ByteLen(t)
  {
    if t != "" && IsSpace(t[0]) {
      TrimLeftShortens(t[1..]);
    }
  }

  lemma {:induction false} ByteLenSnoc(t: string)
    requires t != ""
    ensures ByteLen(t[..|t| - 1]) <= ByteLen(t)
  {
    if |t| > 1 {
      ByteLenSnoc(t[1..]);
      assert t[..|t| - 1][0] == t[0] && t[..|t| - 1][1..] == t[1..][..|t[1..]| - 1];
    }
  }

  lemma {:induction false} TrimRightShortens(t: string)
    ensures ByteLen(TrimRight(t)) <= ByteLen(t)
  {
    if t != "" && IsSpace(t[|t| - 1]) {
      ByteLenSnoc(t);
      TrimRightShortens(t[..|t| - 1]);
    }
  }

  lemma TrimShortens(t: string)
    ensures ByteLen(TrimSpace(t)) <= ByteLen(t)
  {
    TrimLeftShortens(t);
    TrimRightShortens(TrimLeft(t));
  }

  /** A version that can be read back is one of the stored ones. */
  lemma RetainedVersion(s: State, pageId: Id, number: int)
    requires WikiInv(s) && pageId in s.pages
    ensures var vers := VersionsOf(s, pageId);
            var r := PageStore.GetVersion(s, pageId, number);
            && vers != []
            && vers[|vers| - 1].number == vers[0].number + |vers| - 1
            && (r.Ok? <==> vers[0].number <= number <= vers[|vers| - 1].number)
            && (r.Ok? ==> && 0 <= number - vers[0].number < |vers|
                          && r.value == vers[number - vers[0].number] && SnapOk(r.value.snap))
            && (!r.Ok? ==> r == Err(NotFound))
  {
    assert HistoryOk(s, pageId);
    var vers := VersionsOf(s, pageId);
    PageStore.FirstNumberedIn(vers, vers[0].number, number);
  }

  /**
   * Restoring a retained version with the current lock version succeeds if and only if its title
   * is more than white space; the page then has that title trimmed, that body and that status.
   */
  lemma RestoreSucceedsIff(s: State, sub: Id, pageId: Id, number: int, now: Time)
    requires WikiInv(s) && pageId in s.pages && RequireWrite(s, s.pages[pageId].workspaceId, sub) == None
    requires PageStore.GetVersion(s, pageId, number).Ok?
    ensures var p := s.pages[pageId];
            var x := PageStore.GetVersion(s, pageId, number).value.snap;
            var (s', r) := RestorePageVersion(s, sub, pageId, number, p.version, now);
            && (r.Ok? <==> TrimSpace(x.title) != "")
            && (r.Ok? ==> pageId in s'.pages && s'.pages[pageId] == r.value
                          && r.value == p.(title := TrimSpace(x.title), body := x.body, status := x.status,
                                           version := p.version + 1, updatedAt := now))
            && (!r.Ok? ==> r == Err(Invalid) && s' == s)
  {
    RetainedVersion(s, pageId, number);
    var x := PageStore.GetVersion(s, pageId, number).value.snap;
    TrimShortens(x.title);
    assert PageOk(s, pageId);
  }

  /** One recorded change: nothing renumbered or altered; one entry more, and at the limit the oldest drops off. */
  ghost predicate Grew(before: seq<PageVersion>, after: seq<PageVersion>, x: Snapshot) {
    && after != [] && after[|after| - 1].snap == x
    && if before != [] && before[|before| - 1].snap == x then after == before
       else after[..|after| - 1] == if |before| == MAX_PAGE_VERSIONS then before[1..] else before
  }

  /** Every accepted change of title, body or status only ever grows the page's own history. */
  lemma UpdateGrowsHistory(s: State, sub: Id, pageId: Id, title: Option<string>, body: Option<string>,
                           status: Option<string>, parentId: Option<Id>, version: int, now: Time)
    requires WikiInv(s) && UpdatePage(s, sub, pageId, title, body, status, parentId, version, now).1.Ok?
    requires title.Some? || body.Some? || status.Some?
    ensures var (s', r) := UpdatePage(s, sub, pageId, title, body, status, parentId, version, now);
            && Grew(VersionsOf(s, pageId), VersionsOf(s', pageId), SnapOf(r.value))
            && (forall k {:trigger VersionsOf(s', k)} :: k != pageId ==> VersionsOf(s', k) == VersionsOf(s, k))
  {
    var r := UpdatePage(s, sub, pageId, title, body, status, parentId, version, now).1;
    var s1 := UpdatedPage(s, sub, pageId, title, body, status, parentId, version, now);
    assert PageOk(s, pageId) && HistoryOk(s, pageId);
    RecordEffect(s1, r.value, sub, now);
    AppendKeepsEntries(pageId, VersionsOf(s, pageId), Submission(SnapOf(r.value), sub, now));
    assert forall k :: VersionsOf(s1, k) == VersionsOf(s, k);
  }

  lemma RestoreKeepsEntries(s: State, sub: Id, pageId: Id, number: int, lockVersion: int, now: Time)
    requires WikiInv(s) && RestorePageVersion(s, sub, pageId, number, lockVersion, now).1.Ok?
    ensures var (s', r) := RestorePageVersion(s, sub, pageId, number, lockVersion, now);
            && Grew(VersionsOf(s, pageId), VersionsOf(s', pageId), SnapOf(r.value))
            && (forall k {:trigger VersionsOf(s', k)} :: k != pageId ==> VersionsOf(s', k) == VersionsOf(s, k))
  {
    RetainedVersion(s, pageId, number);
    var x := PageStore.GetVersion(s, pageId, number).value.snap;
    UpdateGrowsHistory(s, sub, pageId, Some(x.title), Some(x.body), Some(x.status), None, lockVersion, now);
  }

  /** A page created under a title of nothing but spaces is accepted, and its first version can never be restored. */
  lemma BlankTitleCannotBeRestored(s: State, sub: Id, wsId: Id, title: string, now: Time, id: Id, collabId: Id,
                                   pos: int)
    requires WikiInv(s) && RequireWrite(s, wsId, sub) == None && id != "" && id !in s.pages
    requires title != "" && ByteLen(title) <= MAX_PAGE_TITLE && TrimSpace(title) == ""
    ensures var (s', r) := CreatePage(s, sub, wsId, "", title, "", "", now, id, collabId, pos);
            && r.Ok? && RestorePageVersion(s', sub, id, 1, 1, now) == (s', Err(Invalid))
  {
    var (s', r) := CreatePage(s, sub, wsId, "", title, "", "", now, id, collabId, pos);
    assert r.Ok? by {
      assert ByteLen("") == 0;
    }
    CreatePageKeepsInv(s, sub, wsId, "", title, "", "", now, id, collabId, pos);
    var vers := VersionsOf(s', id);
    assert VersionsOf(s, id) == [];
    assert vers == [PageVersion(id, 1, SnapOf(r.value), sub, now)];
    assert PageStore.GetVersion(s', id, 1) == Ok(vers[0]);
    RestoreSucceedsIff(s', sub, id, 1, now);
  }

  // ---------- titles that arrive trimmed ----------

  predicate Trimmed(t: string) {
    TrimSpace(t) == t
  }

  lemma {:induction false} TrimLeftEnds(t: string)
    ensures TrimLeft(t) == "" || !IsSpace(TrimLeft(t)[0])
  {
    if t != "" && IsSpace(t[0]) {
      TrimLeftEnds(t[1..]);
    }
  }

  lemma {:induction false} TrimRightEnds(t: string)
    ensures TrimRight(t) == "" || !IsSpace(TrimRight(t)[|TrimRight(t)| - 1])
    ensures t != "" && !IsSpace(t[0]) ==> TrimRight(t) != "" && TrimRight(t)[0] == t[0]
  {
    if t != "" && IsSpace(t[|t| - 1]) {
      TrimRightEnds(t[..|t| - 1]);
    }
  }

  /** Trimming takes white space off both ends and nothing else. */
  lemma TrimSpaceTakes(t: string) returns (l: string, r: string)
    ensures t == l + TrimSpace(t) + r && (forall c :: c in l || c in r ==> IsSpace(c))
    ensures TrimSpace(t) == "" || (!IsSpace(TrimSpace(t)[0]) && !IsSpace(TrimSpace(t)[|TrimSpace(t)| - 1]))
  {
    l := TrimLeftTakes(t);
    var m := TrimLeft(t);
    r := TrimRightTakes(m);
    TrimEnds(t);
    assert l + (TrimRight(m) + r) == l + TrimRight(m) + r;
  }

  lemma TrimEnds(t: string)
    ensures TrimSpace(t) == "" || (!IsSpace(TrimSpace(t)[0]) && !IsSpace(TrimSpace(t)[|TrimSpace(t)| - 1]))
  {
    TrimLeftEnds(t);
    TrimRightEnds(TrimLeft(t));
  }

  lemma {:induction false} TrimLeftTakes(t: string) returns (l: string)
    ensures t == l + TrimLeft(t) && forall c :: c in l ==> IsSpace(c)
  {
    if t != "" && IsSpace(t[0]) {
      var k := TrimLeftTakes(t[1..]);
      l := [t[0]] + k;
      assert t == [t[0]] + t[1..];
    } else {
      l := "";
    }
  }

  lemma {:induction false} TrimRightTakes(t: string) returns (r: string)
    ensures t == TrimRight(t) + r && forall c :: c in r ==> IsSpace(c)
  {
    if t != "" && IsSpace(t[|t| - 1]) {
      var n := |t| - 1;
      var k := TrimRightTakes(t[..n]);
      r := k + [t[n]];
      assert t == t[..n] + [t[n]];
    } else {
      r := "";
    }
  }

  /** Lengths count bytes: one per character of plain text, never more than four. */
  lemma {:induction false} ByteLenMeans(t: string)
    ensures |t| <= ByteLen(t) <= 4 * |t|
    ensures (forall c :: c in t ==> c as int < 0x80) ==> ByteLen(t) == |t|
  {
    if t != "" {
      ByteLenMeans(t[1..]);
      assert t[0] in t && forall c :: c in t[1..] ==> c in t;
    }
  }

  /** Trimming twice is trimming once. */
  lemma TrimTwice(t: string)
    ensures Trimmed(TrimSpace(t))
  {
    TrimLeftEnds(t);
    TrimRightEnds(TrimLeft(t));
  }

  ghost predicate TitlesTrimmed(s: State) {
    && (forall d {:trigger s.pages[d]} :: d in s.pages ==> Trimmed(s.pages[d].title))
    && (forall d {:trigger s.versions[d]} :: d in s.versions ==>
          forall i :: 0 <= i < |s.versions[d]| ==> Trimmed(s.versions[d][i].snap.title))
  }

  lemma RecordKeepsTrimmed(s: State, p: Page, sub: Id, now: Time)
    requires TitlesTrimmed(s) && Trimmed(p.title)
    ensures TitlesTrimmed(Record(s, p, sub, now))
  {
    var vers := VersionsOf(s, p.id);
    forall i | 0 <= i < |vers| ensures Trimmed(vers[i].snap.title) {
      assert Trimmed(s.versions[p.id][i].snap.title);
    }
  }

  lemma UpdatedTitle(s: State, sub: Id, pageId: Id, title: Option<string>, body: Option<string>,
                     status: Option<string>, parentId: Option<Id>, version: int, now: Time)
    requires TitlesTrimmed(s) && UpdatePage(s, sub, pageId, title, body, status, parentId, version, now).1.Ok?
    ensures Trimmed(UpdatePage(s, sub, pageId, title, body, status, parentId, version, now).1.value.title)
  {
    assert Trimmed(s.pages[pageId].title);
    if title.Some? {
      TrimTwice(title.value);
    }
  }

  lemma UpdateKeepsTrimmed(s: State, sub: Id, pageId: Id, title: Option<string>, body: Option<string>,
                           status: Option<string>, parentId: Option<Id>, version: int, now: Time)
    requires TitlesTrimmed(s)
    ensures TitlesTrimmed(UpdatePage(s, sub, pageId, title, body, status, parentId, version, now).0)
  {
    var (s', r) := UpdatePage(s, sub, pageId, title, body, status, parentId, version, now);
    if r.Ok? {
      var s1 := UpdatedPage(s, sub, pageId, title, body, status, parentId, version, now);
      UpdatedTitle(s, sub, pageId, title, body, status, parentId, version, now);
      RecordKeepsTrimmed(s1, r.value, sub, now);
    }
  }

  lemma CreateKeepsTrimmed(s: State, sub: Id, wsId: Id, parentId: Id, title: string, body: string, status: string,
                           now: Time, id: Id, collabId: Id, pos: int)
    requires TitlesTrimmed(s) && Trimmed(title)
    ensures TitlesTrimmed(CreatePage(s, sub, wsId, parentId, title, body, status, now, id, collabId, pos).0)
  {
    var r := CreatePage(s, sub, wsId, parentId, title, body, status, now, id, collabId, pos).1;
    if r.Ok? {
      var s1 := CreatedPage(s, sub, wsId, parentId, title, body, status, now, id, collabId, pos);
      assert r.value.title == title;
      assert TitlesTrimmed(s1);
      RecordKeepsTrimmed(s1, r.value, sub, now);
    }
  }

  lemma SnapshotKeepsTrimmed(s: State, validRoom: bool, collabId: Id, plaintext: string, editor: Id, now: Time)
    requires WikiInv(s) && TitlesTrimmed(s)
    ensures TitlesTrimmed(ApplySnapshot(s, validRoom, collabId, plaintext, editor, now).0)
  {
    if collabId in s.collab {
      var s1 := ApplyCollabSnapshot(s, collabId, plaintext, now).0;
      var d := s.collab[collabId];
      assert Trimmed(s.pages[d].title);
      assert TitlesTrimmed(s1);
      RecordKeepsTrimmed(s1, s1.pages[d], editor, now);
    }
  }

  /** The service is handed a trimmed title for every page it creates. */
  predicate ArrivesTrimmed(q: Request) {
    q.NewPage? ==> Trimmed(q.title)
  }

  lemma ArchiveKeepsTrimmed(s: State, pageId: Id, mark: Option<Time>)
    requires TitlesTrimmed(s)
    ensures TitlesTrimmed(ArchivePage(s, pageId, mark).0)
  {
    var s' := ArchivePage(s, pageId, mark).0;
    forall k | k in s'.pages ensures Trimmed(s'.pages[k].title) {
      assert Trimmed(s.pages[k].title);
    }
  }

  lemma ServeKeepsTrimmed(s: State, q: Request, sub: Id, now: Time)
    requires WikiInv(s) && IdIsNew(s, q) && TitlesTrimmed(s) && ArrivesTrimmed(q)
    ensures TitlesTrimmed(Serve(s, q, sub, now))
  {
    match q
    case NewPage(w, p, t, b, st, id, c, pos) => CreateKeepsTrimmed(s, sub, w, p, t, b, st, now, id, c, pos);
    case ChangePage(d, t, b, st, p, v) => UpdateKeepsTrimmed(s, sub, d, t, b, st, p, v, now);
    case Collab(ok, c, text) => SnapshotKeepsTrimmed(s, ok, c, text, sub, now);
    case Restore(d, n, v) => RestoreKeepsTrimmed(s, sub, d, n, v, now);
    case Archive(d, archived) => ArchiveKeepsTrimmed(s, d, if archived then Some(now) else None);
    case _ =>
  }

  lemma RestoreKeepsTrimmed(s: State, sub: Id, pageId: Id, number: int, lockVersion: int, now: Time)
    requires WikiInv(s) && TitlesTrimmed(s)
    ensures TitlesTrimmed(RestorePageVersion(s, sub, pageId, number, lockVersion, now).0)
  {
    if pageId in s.pages && RequireWrite(s, s.pages[pageId].workspaceId, sub).None? {
      var v := PageStore.GetVersion(s, pageId, number);
      if v.Ok? {
        var x := v.value.snap;
        UpdateKeepsTrimmed(s, sub, pageId, Some(x.title), Some(x.body), if x.status != "" then Some(x.status) else None,
                           None, lockVersion, now);
      }
    }
  }

  lemma {:induction false} RunKeepsTrimmed(s: State, qs: seq<Served>)
    requires WikiInv(s) && Possible(s, qs) && TitlesTrimmed(s)
    requires forall i :: 0 <= i < |qs| ==> ArrivesTrimmed(qs[i].request)
    ensures WikiInv(Run(s, qs)) && TitlesTrimmed(Run(s, qs))
    decreases |qs|
  {
    if qs != [] {
      ServeKeepsTrimmed(s, qs[0].request, qs[0].sub, qs[0].now);
      RunKeepsTrimmed(Serve(s, qs[0].request, qs[0].sub, qs[0].now), qs[1..]);
    }
  }

  /**
   * After any requests whose new pages arrive with trimmed titles, every retained version has a
   * trimmed title that is not empty, and a writer who restores it with the current lock version
   * succeeds and makes the page equal that version.
   */
  lemma {:induction false} RestoreSucceedsAfterTrimmedRun(s: State, qs: seq<Served>, sub: Id, pageId: Id, number: int,
                                                          now: Time)
    requires WikiInv(s) && Possible(s, qs) && TitlesTrimmed(s)
    requires forall i :: 0 <= i < |qs| ==> ArrivesTrimmed(qs[i].request)
    requires var t := Run(s, qs);
             && pageId in t.pages && RequireWrite(t, t.pages[pageId].workspaceId, sub) == None
             && PageStore.GetVersion(t, pageId, number).Ok?
    ensures var t := Run(s, qs);
            var x := PageStore.GetVersion(t, pageId, number).value.snap;
            var (t', r) := RestorePageVersion(t, sub, pageId, number, t.pages[pageId].version, now);
            && Trimmed(x.title) && x.title != ""
            && r.Ok? && pageId in t'.pages && t'.pages[pageId] == r.value && SnapOf(r.value) == x
  {
    RunKeepsTrimmed(s, qs);
    var t := Run(s, qs);
    RetainedVersion(t, pageId, number);
    RestoreSucceedsIff(t, sub, pageId, number, now);
    assert VersionsOf(t, pageId) == t.versions[pageId];
  }
}
