/** The in-memory store's page operations, walk by walk and loop by loop, against PageModel. */
module PageStore {
  import opened Common
  import opened Forest
  import opened PageTree
  import opened PageHistory
  import opened Roles
  import opened PageModel

  // ---------- the parent check ----------

  /** Steps 0 to n-1 of the climb from `start` avoid `p`. */
  ghost predicate Avoids(m: Parents, start: Id, p: Id, n: nat) {
    forall i: nat :: i < n ==> !Climbs(m, start, p, i)
  }

  lemma AvoidsNext(m: Parents, start: Id, cur: Id, n: nat, p: Id)
    requires Climbs(m, start, cur, n) && cur in m && cur != p
    ensures Avoids(m, start, p, n) ==> Avoids(m, start, p, n + 1)
    ensures Climbs(m, start, m[cur], n + 1)
  {
    assert Climbs(m, cur, m[cur], 1) by {
      assert Climbs(m, m[cur], m[cur], 0);
    }
    ClimbsJoin(m, start, cur, m[cur], n, 1);
    if Climbs(m, start, p, n) {
      ClimbsSplit(m, start, cur, p, n, n);
    }
  }

  /** The walk is outside the pages. */
  lemma WalkIsOver(m: Parents, start: Id, cur: Id, n: nat, p: Id)
    requires Climbs(m, start, cur, n) && cur !in m && (p != "" ==> cur != p && Avoids(m, start, p, n))
    ensures Leaves(m, start) && (p != "" ==> !AtOrBelow(m, start, p))
  {
    if p != "" {
      LeftWithoutMeeting(m, start, cur, n, p);
    }
  }

  /** The upward walk of the parent check, above a parent that exists; it ends on any page map. */
  method WalkUp(pages: map<Id, Page>, pageId: Id, parentId: Id) returns (ok: bool)
    requires "" !in pages && parentId in pages && parentId != pageId
    ensures ok
        <==> Leaves(ParentsOf(pages), parentId) && (pageId == "" || !AtOrBelow(ParentsOf(pages), parentId, pageId))
  {
    ghost var m := ParentsOf(pages);
    ghost var n: nat := 1;
    var cur := pages[parentId].parentId;
    var seen := {parentId};
    assert Climbs(m, parentId, parentId, 0);
    WalkStep(m, parentId, parentId, {});
    assert {} + {parentId} == seen;
    AvoidsNext(m, parentId, parentId, 0, pageId);
    while cur != ""
      invariant Climbs(m, parentId, cur, n) && Walked(m, parentId, cur, seen)
      invariant pageId != "" ==> Avoids(m, parentId, pageId, n)
      invariant seen <= m.Keys
      decreases m.Keys - seen
    {
      if cur == pageId {
        assert AtOrBelow(m, parentId, pageId);
        return false;
      }
      if cur in seen {
        RepeatNeverLeaves(m, parentId, cur, seen);
        return false;
      }
      if cur !in pages {
        WalkIsOver(m, parentId, cur, n, pageId);
        return true;
      }
      AvoidsNext(m, parentId, cur, n, pageId);
      WalkStep(m, parentId, cur, seen);
      seen := seen + {cur};
      cur := pages[cur].parentId;
      n := n + 1;
    }
    WalkIsOver(m, parentId, cur, n, pageId);
    ok := true;
  }

  // ---------- the subtree of a page, on a forest ----------

  /** All strict descendants, each once; the pages are visited in no particular order. */
  method DescendantPageIDs(pages: map<Id, Page>, parentId: Id) returns (out: seq<Id>)
    requires IsForest(ParentsOf(pages)) && ReachesRoot(ParentsOf(pages), parentId)
    ensures NoDup(out)
    ensures forall d :: d in out <==> Below(ParentsOf(pages), d, parentId)
    decreases Under(ParentsOf(pages), parentId)
  {
    ghost var m := ParentsOf(pages);
    out := [];
    var rest := pages.Keys;
    while rest != {}
      invariant rest <= pages.Keys
      invariant NoDup(out)
      invariant forall d :: d in out <==> Gathered(m, parentId, m.Keys - rest, d)
      decreases rest
    {
      var id :| id in rest;
      ghost var done := m.Keys - rest;
      rest := rest - {id};
      assert m.Keys - rest == done + {id};
      if pages[id].parentId == parentId {
        assert Rooted(m, id);
        UnderShrinks(m, id);
        var below := DescendantPageIDs(pages, id);
        SubtreeIsNew(m, parentId, done, id);
        RootedAcyclic(m, id);
        AtOrBelowIff(m, id, id);
        ghost var before := out;
        out := out + [id] + below;
        JoinNoDup(before, [id], below);
        forall d ensures d in out <==> Gathered(m, parentId, done + {id}, d) {
          AtOrBelowIff(m, d, id);
          GatheredMore(m, parentId, done, id, d);
        }
      } else {
        forall d ensures Gathered(m, parentId, done, d) <==> Gathered(m, parentId, done + {id}, d) {
          GatheredMore(m, parentId, done, id, d);
        }
      }
    }
    forall d ensures d in out <==> Below(m, d, parentId) {
      BelowViaChild(m, d, parentId);
      assert m.Keys - rest == m.Keys;
    }
  }

  /** `d` is one of the children already visited, or below one. */
  ghost predicate Gathered(m: Parents, parentId: Id, done: set<Id>, d: Id) {
    exists c :: c in done && c in m && m[c] == parentId && AtOrBelow(m, d, c)
  }

  lemma GatheredMore(m: Parents, parentId: Id, done: set<Id>, id: Id, d: Id)
    requires id in m
    ensures Gathered(m, parentId, done + {id}, d) <==>
            Gathered(m, parentId, done, d) || (m[id] == parentId && AtOrBelow(m, d, id))
  {
    if Gathered(m, parentId, done, d) {
      var c :| c in done && c in m && m[c] == parentId && AtOrBelow(m, d, c);
      assert c in done + {id};
    }
    if m[id] == parentId && AtOrBelow(m, d, id) {
      assert id in done + {id};
    }
  }

  lemma SubtreeIsNew(m: Parents, parentId: Id, done: set<Id>, id: Id)
    requires IsForest(m) && ReachesRoot(m, parentId) && id in m && m[id] == parentId && id !in done
    ensures forall d :: AtOrBelow(m, d, id) ==> !Gathered(m, parentId, done, d)
  {
    forall d | AtOrBelow(m, d, id) ensures !Gathered(m, parentId, done, d) {
      if Gathered(m, parentId, done, d) {
        var c :| c in done && c in m && m[c] == parentId && AtOrBelow(m, d, c);
        SiblingsDisjoint(m, c, id, d);
      }
    }
  }

  lemma JoinNoDup(a: seq<Id>, b: seq<Id>, c: seq<Id>)
    requires NoDup(a) && NoDup(b) && NoDup(c)
    requires forall x :: x in b ==> x !in a && x !in c
    requires forall x :: x in c ==> x !in a
    ensures NoDup(a + b + c)
  {
    NoDupJoin(a, b);
    NoDupJoin(a + b, c);
  }

  /** The pages exactly `k` steps below `p`. */
  ghost function Level(m: Parents, p: Id, k: nat): set<Id> {
    set d | d in m && Climbs(m, d, p, k)
  }

  /** The pages at most `k` steps below `p`. */
  ghost function Within(m: Parents, p: Id, k: nat): set<Id> {
    if k == 0 then Level(m, p, 0) else Within(m, p, k - 1) + Level(m, p, k)
  }

  /** The row-set form of the same walk: WITH RECURSIVE, one level of the tree at a time. */
  method RecursiveTree(rows: map<Id, Page>, pageId: Id) returns (tree: set<Id>)
    requires IsForest(ParentsOf(rows))
    ensures forall d :: d in tree <==> d in rows && pageId in rows && AtOrBelow(ParentsOf(rows), d, pageId)
  {
    ghost var m := ParentsOf(rows);
    if pageId !in rows {
      return {};
    }
    var level := {pageId};
    tree := level;
    ghost var k: nat := 0;
    assert level == Level(m, pageId, 0);
    while level != {}
      invariant level == Level(m, pageId, k) && tree == Within(m, pageId, k)
      decreases m.Keys - tree, level
    {
      var next := set d | d in rows && rows[d].parentId in level;
      NextLevel(m, pageId, k);
      assert next == Level(m, pageId, k + 1);
      LevelIsNew(m, pageId, k + 1, k);
      WithinIsPages(m, pageId, k + 1);
      ghost var before := tree;
      tree := tree + next;
      level := next;
      k := k + 1;
      if level == {} {
        assert tree == before;
      } else {
        assert m.Keys - tree < m.Keys - before;
      }
    }
    forall d ensures d in tree <==> d in m && AtOrBelow(m, d, pageId) {
      AllLevels(m, pageId, k, d);
    }
  }

  lemma NextLevel(m: Parents, p: Id, k: nat)
    requires p in m
    ensures Level(m, p, k + 1) == set d | d in m && m[d] in Level(m, p, k)
  {
    forall d | d in m && Climbs(m, d, p, k + 1) ensures m[d] in m {
      assert Climbs(m, m[d], p, k);
    }
  }

  lemma {:induction false} LevelIsNew(m: Parents, p: Id, n: nat, k: nat)
    requires IsForest(m) && p in m && k < n
    ensures Level(m, p, n) !! Within(m, p, k)
  {
    if k > 0 {
      LevelIsNew(m, p, n, k - 1);
    }
    forall d | d in Level(m, p, n) ensures d !in Level(m, p, k) {
      if d in Level(m, p, k) {
        ClimbsSplit(m, d, p, p, k, n);
        assert Rooted(m, p) && Below(m, p, p);
        RootedAcyclic(m, p);
      }
    }
  }

  lemma {:induction false} WithinIsPages(m: Parents, p: Id, k: nat)
    ensures Within(m, p, k) <= m.Keys
    ensures forall d :: d in Within(m, p, k) ==> AtOrBelow(m, d, p)
    ensures forall d, i: nat :: i <= k && d in m && Climbs(m, d, p, i) ==> d in Within(m, p, k)
  {
    if k > 0 {
      WithinIsPages(m, p, k - 1);
    }
  }

  /** When a level is empty, the levels before it are the whole subtree. */
  lemma AllLevels(m: Parents, p: Id, k: nat, d: Id)
    requires p in m && Level(m, p, k) == {}
    ensures d in Within(m, p, k) <==> d in m && AtOrBelow(m, d, p)
  {
    WithinIsPages(m, p, k);
    if d in m && AtOrBelow(m, d, p) {
      var n: nat :| Climbs(m, d, p, n);
      if n > k {
        PassesLevel(m, d, p, n, k);
      }
    }
  }

  /** A longer climb goes through the level at distance `k`. */
  lemma {:induction false} PassesLevel(m: Parents, d: Id, p: Id, n: nat, k: nat)
    requires Climbs(m, d, p, n) && k < n && p in m
    ensures Level(m, p, k) != {}
    decreases n
  {
    if n == k + 1 {
      assert k == 0 ==> m[d] == p;
      assert m[d] in Level(m, p, k);
    } else {
      PassesLevel(m, m[d], p, n - 1, k);
    }
  }

  method ArchiveRows(rows: map<Id, Page>, pageId: Id, mark: Option<Time>) returns (r: map<Id, Page>, updated: nat)
    requires IsForest(ParentsOf(rows))
    ensures updated < 1 <==> pageId !in rows
    ensures r == if pageId in rows then MarkSubtree(rows, pageId, mark) else rows
  {
    var tree := RecursiveTree(rows, pageId);
    r := map d | d in rows :: if d in tree then rows[d].(archivedAt := mark) else rows[d];
    updated := |tree|;
    if pageId in rows {
      AtOrBelowIff(ParentsOf(rows), pageId, pageId);
      assert pageId in tree;
    } else {
      assert tree == {};
    }
  }

  // ---------- the store ----------

  class Store {
    var members: map<Id, map<Id, Role>>
    var pages: map<Id, Page>
    var collab: map<Id, Id>
    var versions: map<Id, seq<PageVersion>>

    function State(): State
      reads this
    {
      PageModel.State(members, pages, collab, versions)
    }

    ghost predicate Valid()
      reads this
    {
      ForestInv(State())
    }

    constructor ()
      ensures Valid() && State() == EMPTY
    {
      members, pages, collab, versions := map[], map[], map[], map[];
    }

    method ValidateParent(pageId: Id, wsId: Id, parentId: Id) returns (e: Option<Error>)
      requires "" !in pages
      ensures e == ParentError(pages, pageId, wsId, parentId)
    {
      if parentId == "" {
        return None;
      }
      if parentId == pageId {
        return Some(Invalid);
      }
      if parentId !in pages {
        return Some(NotFound);
      }
      if pages[parentId].workspaceId != wsId {
        return Some(Invalid);
      }
      var ok := WalkUp(pages, pageId, parentId);
      return if ok then None else Some(Invalid);
    }

    /** The position after the last sibling. */
    method NextPosition(wsId: Id, parentId: Id) returns (pos: int)
      ensures IsNextPosition(pages, wsId, parentId, pos)
    {
      pos := 0;
      var rest := pages.Keys;
      while rest != {}
        invariant rest <= pages.Keys && pos >= 0
        invariant forall d :: d in pages && d !in rest && Sibling(pages[d], wsId, parentId) ==> pages[d].position < pos
        invariant pos == 0 ||
                  exists d :: d in pages && Sibling(pages[d], wsId, parentId) && pages[d].position == pos - 1
        decreases rest
      {
        var d :| d in rest;
        rest := rest - {d};
        var p := pages[d];
        if p.workspaceId == wsId && p.parentId == parentId && p.position >= pos {
          pos := p.position + 1;
          assert Sibling(pages[d], wsId, parentId) && pages[d].position == pos - 1;
        }
      }
    }

    method CreatePage(wsId: Id, parentId: Id, title: string, body: string, status: string, now: Time, id: Id,
                      collabId: Id)
      returns (r: Outcome<Page>)
      requires Valid() && id != "" && id !in pages
      modifies this`pages, this`collab
      ensures Valid()
      ensures r.Ok? ==> IsNextPosition(old(pages), wsId, parentId, r.value.position)
      ensures (State(), r) == PageModel.CreatePage(old(State()), wsId, parentId, title, body, status, now, id, collabId,
                                                   if r.Ok? then r.value.position else 0)
    {
      if wsId !in members {
        return Err(NotFound);
      }
      var e := ValidateParent("", wsId, parentId);
      if e.Some? {
        return Err(e.value);
      }
      var pos := NextPosition(wsId, parentId);
      CreatePageKeepsForest(State(), wsId, parentId, title, body, status, now, id, collabId, pos);
      var page := Page(id, wsId, parentId, title, body, status, pos, 1, collabId, now, now, None);
      pages := pages[page.id := page];
      collab := collab[collabId := page.id];
      r := Ok(page);
    }

    method UpdatePage(pageId: Id, title: Option<string>, body: Option<string>, status: Option<string>,
                      parentId: Option<Id>, version: int, now: Time) returns (r: Outcome<Page>)
      requires Valid()
      modifies this`pages
      ensures Valid()
      ensures (State(), r) == PageModel.UpdatePage(old(State()), pageId, title, body, status, parentId, version, now)
    {
      UpdatePageKeepsForest(State(), pageId, title, body, status, parentId, version, now);
      if pageId !in pages {
        return Err(NotFound);
      }
      var p := pages[pageId];
      if p.version != version {
        return Stale(p);
      }
      if parentId.Some? {
        var e := ValidateParent(pageId, p.workspaceId, parentId.value);
        if e.Some? {
          return Err(e.value);
        }
        p := p.(parentId := parentId.value);
      }
      if title.Some? {
        p := p.(title := title.value);
      }
      if body.Some? {
        p := p.(body := body.value);
      }
      if status.Some? {
        p := p.(status := status.value);
      }
      p := p.(version := p.version + 1, updatedAt := now);
      pages := pages[pageId := p];
      r := Ok(p);
    }

    /** Sets or clears the archive mark on a page and everything below it. */
    method MarkPages(pageId: Id, mark: Option<Time>)
      requires Valid() && pageId in pages
      modifies this`pages
      ensures pages == MarkSubtree(old(pages), pageId, mark)
    {
      ghost var m := ParentsOf(pages);
      ghost var pages0 := pages;
      ForestInvIsForest(State());
      var ids := DescendantPageIDs(pages, pageId);
      ids := ids + [pageId];
      forall d ensures d in ids <==> AtOrBelow(m, d, pageId) {
        AtOrBelowIff(m, d, pageId);
      }
      forall d | d in ids ensures d in pages {
        AtOrBelowIff(m, d, pageId);
        BelowIsPage(m, d, pageId);
      }
      for i := 0 to |ids|
        invariant pages.Keys == pages0.Keys
        invariant forall d :: d in pages0 ==>
                    pages[d] == if d in ids[..i] then pages0[d].(archivedAt := mark) else pages0[d]
      {
        assert ids[..i + 1] == ids[..i] + [ids[i]];
        assert ids[i] in ids;
        var p := pages[ids[i]].(archivedAt := mark);
        pages := pages[ids[i] := p];
      }
      assert ids[..|ids|] == ids;
    }

    method ArchivePage(pageId: Id, now: Time) returns (r: Outcome<()>)
      requires Valid()
      modifies this`pages
      ensures Valid()
      ensures (State(), r) == PageModel.ArchivePage(old(State()), pageId, Some(now))
    {
      ArchivePageKeepsForest(State(), pageId, Some(now));
      if pageId !in pages {
        return Err(NotFound);
      }
      MarkPages(pageId, Some(now));
      r := Ok(());
    }

    method UnarchivePage(pageId: Id) returns (r: Outcome<()>)
      requires Valid()
      modifies this`pages
      ensures Valid()
      ensures (State(), r) == PageModel.ArchivePage(old(State()), pageId, None)
    {
      ArchivePageKeepsForest(State(), pageId, None);
      if pageId !in pages {
        return Err(NotFound);
      }
      MarkPages(pageId, None);
      r := Ok(());
    }

    method ApplyCollabSnapshot(collabId: Id, plaintext: string, now: Time) returns (r: Outcome<()>)
      requires Valid()
      modifies this`pages
      ensures Valid()
      ensures (State(), r) == PageModel.ApplyCollabSnapshot(old(State()), collabId, plaintext, now)
    {
      ApplySnapshotKeepsForest(State(), collabId, plaintext, now);
      if collabId !in collab {
        return Err(NotFound);
      }
      var id := collab[collabId];
      if id !in pages {
        return Err(NotFound);
      }
      pages := pages[id := pages[id].(body := plaintext, updatedAt := now)];
      r := Ok(());
    }

    method AppendPageVersionIfChanged(pageId: Id, snap: Snapshot, sub: Id, now: Time)
      returns (r: Outcome<PageVersion>, changed: bool)
      requires Valid()
      modifies this`versions
      ensures Valid()
      ensures (State(), r) == PageModel.AppendVersion(old(State()), pageId, Submission(snap, sub, now))
      ensures changed <==> State() != old(State())
    {
      AppendVersionKeepsForest(State(), pageId, Submission(snap, sub, now));
      if pageId !in pages {
        return Err(NotFound), false;
      }
      var vers := if pageId in versions then versions[pageId] else [];
      if |vers| > 0 {
        var last := vers[|vers| - 1];
        if last.snap == snap {
          return Ok(last), false;
        }
      }
      var v := PageVersion(pageId, |vers| + 1, snap, sub, now);
      if |vers| > 0 {
        v := v.(number := vers[|vers| - 1].number + 1);
      }
      ghost var stored := vers;
      vers := vers + [v];
      if |vers| > MAX_PAGE_VERSIONS {
        vers := vers[|vers| - MAX_PAGE_VERSIONS..];
      }
      assert vers == Append(pageId, stored, Submission(snap, sub, now));
      assert vers[|vers| - 1] == v;
      assert stored != [] ==> stored[|stored| - 1] != v;
      versions := versions[pageId := vers];
      r, changed := Ok(v), true;
    }

    /** A version number can be read back exactly while it is in the window. */
    method GetPageVersion(pageId: Id, number: int) returns (r: Outcome<PageVersion>)
      ensures r == GetVersion(State(), pageId, number)
      ensures r.Ok? ==> r.value.number == number
    {
      if pageId !in pages {
        return Err(NotFound);
      }
      var vers := if pageId in versions then versions[pageId] else [];
      for i := 0 to |vers|
        invariant FirstNumbered(vers[i..], number) == FirstNumbered(vers, number)
      {
        assert vers[i..][0] == vers[i] && vers[i..][1..] == vers[i + 1..];
        if vers[i].number == number {
          return Ok(vers[i]);
        }
      }
      r := Err(NotFound);
    }

    /** All pages of a workspace, in no particular order. */
    method ListPages(wsId: Id) returns (r: Outcome<seq<Page>>)
      requires Valid()
      ensures wsId !in members ==> r == Err(NotFound)
      ensures wsId in members ==> r.Ok? && ListsWorkspace(State(), wsId, r.value)
    {
      if wsId !in members {
        return Err(NotFound);
      }
      var out: seq<Page> := [];
      var rest := pages.Keys;
      while rest != {}
        invariant rest <= pages.Keys
        invariant forall p :: p in out <==> p.id in pages && p.id !in rest && pages[p.id] == p && p.workspaceId == wsId
        invariant UniqueIds(out)
        decreases rest
      {
        var d :| d in rest;
        rest := rest - {d};
        assert PageOk(State(), d);
        if pages[d].workspaceId == wsId {
          forall p | p in out ensures p.id != d {
          }
          out := out + [pages[d]];
        }
      }
      r := Ok(out);
    }
  }

  lemma BelowIsPage(m: Parents, d: Id, a: Id)
    requires AtOrBelow(m, d, a) && a in m
    ensures d in m
  {
    var n: nat :| Climbs(m, d, a, n);
  }

  function FirstNumbered(vers: seq<PageVersion>, number: int): Outcome<PageVersion> {
    if vers == [] then Err(NotFound)
    else if vers[0].number == number then Ok(vers[0])
    else FirstNumbered(vers[1..], number)
  }

  function GetVersion(s: State, pageId: Id, number: int): Outcome<PageVersion> {
    if pageId !in s.pages then Err(NotFound) else FirstNumbered(VersionsOf(s, pageId), number)
  }

  /** In a window a number is found exactly while it is between the oldest and the newest. */
  lemma {:induction false} FirstNumberedIn(vers: seq<PageVersion>, first: int, number: int)
    requires forall i :: 0 <= i < |vers| ==> vers[i].number == first + i
    ensures FirstNumbered(vers, number) ==
            if first <= number < first + |vers| then Ok(vers[number - first]) else Err(NotFound)
  {
    if vers != [] {
      FirstNumberedIn(vers[1..], first + 1, number);
    }
  }

  /** A listing of one workspace's pages. */
  ghost predicate ListsWorkspace(s: State, wsId: Id, list: seq<Page>) {
    UniqueIds(list) && forall p :: p in list <==> p.id in s.pages && s.pages[p.id] == p && p.workspaceId == wsId
  }
}
