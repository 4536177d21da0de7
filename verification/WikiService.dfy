/** Wiki requests as the service carries them out: checks, then store calls, one after the other. */
module WikiService {
  import opened Common
  import opened PageTree
  import opened PageHistory
  import opened Roles
  import opened PageModel
  import opened GuestView
  import WikiModel
  import PageStore
  import LineDiff

  datatype PageDiff = PageDiff(pageId: Id, from: int, to: int, titleChanged: bool, fromTitle: string, toTitle: string,
                               lines: seq<LineDiff.DiffLine>)

  /** The titles are both snapshots', and the lines are a shortest script from one body to the other. */
  ghost predicate Compares(diff: PageDiff, a: Snapshot, b: Snapshot) {
    && diff.fromTitle == a.title && diff.toTitle == b.title && (diff.titleChanged <==> a.title != b.title)
    && LineDiff.JoinLines(LineDiff.OldLines(diff.lines)) == a.body
    && LineDiff.JoinLines(LineDiff.NewLines(diff.lines)) == b.body
    && LineDiff.IsScript(diff.lines, LineDiff.SplitLines(a.body), LineDiff.SplitLines(b.body))
    && (forall s :: LineDiff.IsScript(s, LineDiff.SplitLines(a.body), LineDiff.SplitLines(b.body)) ==>
          LineDiff.Changes(diff.lines) <= LineDiff.Changes(s))
    && (LineDiff.Changes(diff.lines) == 0 <==> a.body == b.body)
  }

  method DiffPages(pageId: Id, a: PageVersion, b: PageVersion) returns (diff: PageDiff)
    ensures diff.pageId == pageId && diff.from == a.number && diff.to == b.number
    ensures Compares(diff, a.snap, b.snap)
  {
    var lines := LineDiff.LineDiff(a.snap.body, b.snap.body);
    diff := PageDiff(pageId, a.number, b.number, a.snap.title != b.snap.title, a.snap.title, b.snap.title, lines);
  }

  /** The caller is a guest of the workspace. */
  predicate GuestIn(s: State, wsId: Id, sub: Id) {
    wsId in s.members && sub in s.members[wsId] && s.members[wsId][sub] == "guest"
  }

  class Wiki {
    const store: PageStore.Store

    constructor (st: PageStore.Store)
      ensures store == st
    {
      store := st;
    }

    // ----- writing -----

    method CreatePage(sub: Id, wsId: Id, parentId: Id, title: string, body: string, status: string,
                      now: Time, id: Id, collabId: Id) returns (r: Outcome<Page>)
      requires store.Valid() && id != "" && id !in store.pages
      modifies store
      ensures store.Valid()
      ensures r.Ok? ==> IsNextPosition(old(store.pages), wsId, parentId, r.value.position)
      ensures (store.State(), r)
          == WikiModel.CreatePage(old(store.State()), sub, wsId, parentId, title, body, status, now, id,
                                                         collabId, if r.Ok? then r.value.position else 0)
    {
      var e := WikiModel.RequireWrite(store.State(), wsId, sub);
      if e.Some? {
        return Err(e.value);
      }
      if title == "" || ByteLen(title) > WikiModel.MAX_PAGE_TITLE {
        return Err(Invalid);
      }
      if ByteLen(body) > WikiModel.MAX_PAGE_BODY {
        return Err(Invalid);
      }
      var st := if status == "" then PAGE_STATUS_DRAFT else status;
      if st != PAGE_STATUS_DRAFT && st != PAGE_STATUS_PUBLISHED {
        return Err(Invalid);
      }
      r := store.CreatePage(wsId, parentId, title, body, st, now, id, collabId);
      if !r.Ok? {
        return;
      }
      var page := r.value;
      var v, changed := store.AppendPageVersionIfChanged(page.id, WikiModel.SnapOf(page), sub, now);
    }

    method UpdatePage(sub: Id, pageId: Id, title: Option<string>, body: Option<string>, status: Option<string>,
                      parentId: Option<Id>, version: int, now: Time) returns (r: Outcome<Page>)
      requires store.Valid()
      modifies store
      ensures store.Valid()
      ensures (store.State(), r) ==
              WikiModel.UpdatePage(old(store.State()), sub, pageId, title, body, status, parentId, version, now)
    {
      if pageId !in store.pages {
        return Err(NotFound);
      }
      var e := WikiModel.RequireWrite(store.State(), store.pages[pageId].workspaceId, sub);
      if e.Some? {
        return Err(e.value);
      }
      var t := title;
      if title.Some? {
        t := Some(TrimSpace(title.value));
        if t.value == "" || ByteLen(t.value) > WikiModel.MAX_PAGE_TITLE {
          return Err(Invalid);
        }
      }
      if body.Some? && ByteLen(body.value) > WikiModel.MAX_PAGE_BODY {
        return Err(Invalid);
      }
      if status.Some? && status.value != PAGE_STATUS_DRAFT && status.value != PAGE_STATUS_PUBLISHED {
        return Err(Invalid);
      }
      r := store.UpdatePage(pageId, t, body, status, parentId, version, now);
      if !r.Ok? {
        return;
      }
      if t.Some? || body.Some? || status.Some? {
        var page := r.value;
        var v, changed := store.AppendPageVersionIfChanged(page.id, WikiModel.SnapOf(page), sub, now);
      }
    }

    method ApplyCollabSnapshot(validRoom: bool, collabId: Id, plaintext: string, editor: Id, now: Time)
      returns (r: Outcome<()>)
      requires store.Valid()
      modifies store
      ensures store.Valid()
      ensures (store.State(), r)
          == WikiModel.ApplySnapshot(old(store.State()), validRoom, collabId, plaintext, editor, now)
    {
      if !validRoom {
        return Err(Invalid);
      }
      if ByteLen(plaintext) > WikiModel.MAX_PAGE_BODY {
        return Err(Invalid);
      }
      if collabId !in store.collab {
        return Err(NotFound);
      }
      var target := store.collab[collabId];
      r := store.ApplyCollabSnapshot(collabId, plaintext, now);
      if !r.Ok? {
        return;
      }
      var p := store.pages[target];
      var v, changed := store.AppendPageVersionIfChanged(p.id, WikiModel.SnapOf(p), editor, now);
      r := Ok(());
    }

    method RestorePageVersion(sub: Id, pageId: Id, number: int, lockVersion: int, now: Time) returns (r: Outcome<Page>)
      requires store.Valid()
      modifies store
      ensures store.Valid()
      ensures (store.State(), r)
          == WikiModel.RestorePageVersion(old(store.State()), sub, pageId, number, lockVersion, now)
    {
      if pageId !in store.pages {
        return Err(NotFound);
      }
      var e := WikiModel.RequireWrite(store.State(), store.pages[pageId].workspaceId, sub);
      if e.Some? {
        return Err(e.value);
      }
      var found := store.GetPageVersion(pageId, number);
      match found {
        case Err(error) =>
          r := Err(error);
        case Stale(_) =>
          r := Err(NotFound);
        case Ok(snap) =>
          var status := None;
          if snap.snap.status != "" {
            status := Some(snap.snap.status);
          }
          r := UpdatePage(sub, pageId, Some(snap.snap.title), Some(snap.snap.body), status, None, lockVersion, now);
      }
    }

    /** The difference between two retained versions, for anyone who may read the page. */
    method DiffPageVersions(sub: Id, pageId: Id, from: int, to: int) returns (r: Outcome<PageDiff>)
      requires store.Valid()
      ensures r.Ok? <==> PageFor(store.State(), sub, pageId).Ok? && from >= 1 && to >= 1 && from != to
                         && PageStore.GetVersion(store.State(), pageId, from).Ok?
                         && PageStore.GetVersion(store.State(), pageId, to).Ok?
      ensures r.Ok? ==>
                && r.value.pageId == pageId && r.value.from == from && r.value.to == to
                && Compares(r.value, PageStore.GetVersion(store.State(), pageId, from).value.snap,
                            PageStore.GetVersion(store.State(), pageId, to).value.snap)
    {
      var page := GetPage(sub, pageId);
      if !page.Ok? {
        return if page.Err? then Err(page.error) else Err(NotFound);
      }
      if from < 1 || to < 1 || from == to {
        return Err(Invalid);
      }
      var a := store.GetPageVersion(pageId, from);
      if !a.Ok? {
        return if a.Err? then Err(a.error) else Err(NotFound);
      }
      var b := store.GetPageVersion(pageId, to);
      if !b.Ok? {
        return if b.Err? then Err(b.error) else Err(NotFound);
      }
      var diff := DiffPages(pageId, a.value, b.value);
      r := Ok(diff);
    }

    // ----- reading -----

    method GetPage(sub: Id, pageId: Id) returns (r: Outcome<Page>)
      requires store.Valid()
      ensures r == PageFor(store.State(), sub, pageId)
      ensures r.Ok? && GuestIn(store.State(), r.value.workspaceId, sub) ==>
                r.value.status == "published" && r.value.archivedAt.None?
    {
      if pageId !in store.pages {
        return Err(NotFound);
      }
      var wsId := store.pages[pageId].workspaceId;
      var role := WikiModel.MemberRole(store.State(), wsId, sub);
      if role.Err? {
        return Err(role.error);
      }
      var page := store.pages[pageId];
      if page.archivedAt.Some? && role == Ok(ROLE_GUEST) {
        return Err(NotFound);
      }
      if role == Ok(ROLE_GUEST) && !PageVisibleToGuest(page) {
        return Err(NotFound);
      }
      if role == Ok(ROLE_GUEST) {
        var ancestors := store.ListPages(wsId);
        ListingIndex(store.State(), wsId, ancestors.value);
        var visible := FilterGuestPages(ancestors.value);
        assert PageOk(store.State(), pageId);
        var ok := HasPage(visible, pageId);
        if !ok {
          return Err(NotFound);
        }
      }
      r := Ok(page);
    }

    /** The pages a search goes through: the workspace's, and for a guest those that pass the guest filter. */
    method PagesToSearch(wsId: Id, role: Role) returns (r: Outcome<seq<Page>>)
      requires store.Valid()
      ensures wsId !in store.members ==> r == Err(NotFound)
      ensures wsId in store.members ==> r.Ok? && SearchedPages(store.State(), wsId, role, r.value)
    {
      var listed := store.ListPages(wsId);
      if listed.Err? {
        return Err(listed.error);
      }
      var pages := listed.value;
      ListingIndex(store.State(), wsId, pages);
      if role == ROLE_GUEST {
        pages := FilterGuestPages(pages);
      }
      r := Ok(pages);
    }

    /** Page search: guest filter, then archive filter, then the text match, which is a parameter here. */
    method SearchPages(wsId: Id, role: Role, matches: Page -> bool) returns (r: Outcome<seq<Id>>)
      requires store.Valid()
      ensures wsId !in store.members ==> r == Err(NotFound)
      ensures wsId in store.members ==>
                r.Ok? && NoDup(r.value) && forall d :: d in r.value <==> IsHit(store.State(), wsId, role, matches, d)
      ensures r.Ok? && role == "guest" ==>
                forall d :: d in r.value ==>
                  d in store.pages && store.pages[d].status == "published" && store.pages[d].archivedAt.None?
    {
      var searched := PagesToSearch(wsId, role);
      if searched.Err? {
        return Err(searched.error);
      }
      var pages := searched.value;
      var hits: seq<Id> := [];
      for i := 0 to |pages|
        invariant hits == MatchingIds(pages[..i], matches)
      {
        var p := pages[i];
        assert pages[..i + 1][..i] == pages[..i];
        if p.archivedAt.Some? {
          continue;
        }
        if !matches(p) {
          continue;
        }
        hits := hits + [p.id];
      }
      assert pages[..|pages|] == pages;
      SearchAnswers(store.State(), wsId, role, matches, pages);
      r := Ok(hits);
    }

    /** The tree of a workspace as one member sees it. */
    method ReadPageTree(sub: Id, wsId: Id) returns (r: Outcome<seq<PageNode>>, ghost live: seq<Page>)
      requires store.Valid()
      ensures r.Err? <==> WikiModel.MemberRole(store.State(), wsId, sub).Err?
      ensures r.Ok? ==> UniqueIds(live) && IsTree(r.value, ById(live), "")
      ensures r.Ok? && WikiModel.MemberRole(store.State(), wsId, sub) == Ok(ROLE_GUEST) ==>
          IsGuestTreeList(store.State(), wsId, live)
      ensures r.Ok? && WikiModel.MemberRole(store.State(), wsId, sub) != Ok(ROLE_GUEST) ==>
                forall p :: p in live
                    <==> p.id in store.pages && store.pages[p.id] == p && p.workspaceId == wsId && p.archivedAt.None?
      ensures r.Ok? && GuestIn(store.State(), wsId, sub) ==>
                forall p :: p in live ==> p.status == "published" && p.archivedAt.None?
    {
      live := [];
      var role := WikiModel.MemberRole(store.State(), wsId, sub);
      if role.Err? {
        return Err(role.error), [];
      }
      var listed := store.ListPages(wsId);
      var pages := listed.value;
      ListingIndex(store.State(), wsId, pages);
      if role == Ok(ROLE_GUEST) {
        pages := FilterGuestPages(pages);
      }
      var kept := KeepLive(pages);
      var tree := BuildPageTree(kept);
      r, live := Ok(tree), kept;
    }
  }

  /** The look for one page among those a guest sees. */
  method HasPage(pages: seq<Page>, pageId: Id) returns (ok: bool)
    ensures ok <==> exists p :: p in pages && p.id == pageId
  {
    ok := false;
    for i := 0 to |pages|
      invariant ok <==> exists p :: p in pages[..i] && p.id == pageId
    {
      assert pages[..i + 1] == pages[..i] + [pages[i]];
      if pages[i].id == pageId {
        ok := true;
      }
    }
    assert pages[..|pages|] == pages;
  }

  /** The archive filter. */
  method KeepLive(pages: seq<Page>) returns (live: seq<Page>)
    requires UniqueIds(pages)
    ensures UniqueIds(live) && forall p :: p in live <==> p in pages && p.archivedAt.None?
  {
    live := [];
    for i := 0 to |pages|
      invariant UniqueIds(live)
      invariant forall p :: p in live <==> p in pages[..i] && p.archivedAt.None?
    {
      assert pages[..i + 1] == pages[..i] + [pages[i]];
      if pages[i].archivedAt.None? {
        forall p | p in live ensures p.id != pages[i].id {
          var j :| 0 <= j < i && pages[j] == p;
        }
        live := live + [pages[i]];
      }
    }
    assert pages[..|pages|] == pages;
  }
}
