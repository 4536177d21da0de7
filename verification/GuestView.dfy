/** What a guest can reach: page lookup, page search and the page tree agree. */
module GuestView {
  import opened Common
  import opened Forest
  import opened PageTree
  import opened Roles
  import opened PageModel
  import opened WikiModel
  import PageStore

  // ---------- chains through a part of the pages ----------

  /** `m` has some of the pointers of `n`. */
  ghost predicate PartOf(m: Parents, n: Parents) {
    "" !in n && forall d :: d in m ==> d in n && m[d] == n[d]
  }

  lemma {:induction false} ClimbsInWhole(m: Parents, n: Parents, d: Id, a: Id, k: nat)
    requires PartOf(m, n) && Climbs(m, d, a, k)
    ensures Climbs(n, d, a, k)
    decreases k
  {
    if k > 0 {
      ClimbsInWhole(m, n, m[d], a, k - 1);
    }
  }

  lemma {:induction false} ClimbsInPart(m: Parents, n: Parents, d: Id, k: nat)
    requires PartOf(m, n) && Climbs(n, d, "", k)
    requires forall a :: a != "" && AtOrBelow(n, d, a) ==> a in m
    ensures Climbs(m, d, "", k)
    decreases k
  {
    if k > 0 {
      AtOrBelowIff(n, d, d);
      forall a | a != "" && AtOrBelow(n, n[d], a) ensures a in m {
        var i: nat :| Climbs(n, n[d], a, i);
        assert Climbs(n, d, a, i + 1);
      }
      ClimbsInPart(m, n, n[d], k - 1);
    }
  }

  lemma {:induction false} OnPartChain(m: Parents, n: Parents, d: Id, a: Id, k: nat, i: nat)
    requires PartOf(m, n) && Climbs(m, d, "", k) && Climbs(n, d, a, i) && a != ""
    ensures a in m
    decreases i
  {
    if i > 0 {
      OnPartChain(m, n, m[d], a, k - 1, i - 1);
    }
  }

  /** A chain is rooted within the part exactly when it is rooted and all of it lies in the part. */
  lemma RootedInPartIff(m: Parents, n: Parents, d: Id)
    requires PartOf(m, n)
    ensures Rooted(m, d) <==> Rooted(n, d) && forall a :: a != "" && AtOrBelow(n, d, a) ==> a in m
  {
    if Rooted(m, d) {
      var k: nat :| Climbs(m, d, "", k);
      ClimbsInWhole(m, n, d, "", k);
      forall a | a != "" && AtOrBelow(n, d, a) ensures a in m {
        var i: nat :| Climbs(n, d, a, i);
        OnPartChain(m, n, d, a, k, i);
      }
    }
    if Rooted(n, d) && forall a :: a != "" && AtOrBelow(n, d, a) ==> a in m {
      var k: nat :| Climbs(n, d, "", k);
      ClimbsInPart(m, n, d, k);
      AtOrBelowIff(n, d, d);
    }
  }

  /** The guest filter keeps a page exactly when it and every ancestor exist and are published, and the chain ends. */
  lemma GuestFilterIff(byId: map<Id, Page>, d: Id)
    requires "" !in byId
    ensures Rooted(GuestParents(byId), d) <==>
            && Rooted(ParentsOf(byId), d)
            && forall a :: a != "" && AtOrBelow(ParentsOf(byId), d, a) ==> a in byId && byId[a].status == "published"
  {
    RootedInPartIff(GuestParents(byId), ParentsOf(byId), d);
  }

  // ---------- one workspace ----------

  function WorkspacePages(s: State, wsId: Id): map<Id, Page> {
    map d | d in s.pages && s.pages[d].workspaceId == wsId :: s.pages[d]
  }

  lemma ListingIndex(s: State, wsId: Id, list: seq<Page>)
    requires ForestInv(s) && PageStore.ListsWorkspace(s, wsId, list)
    ensures ById(list) == WorkspacePages(s, wsId)
  {
    ByIdUnique(list);
    ByIdKeys(list);
    forall d | d in s.pages ensures s.pages[d].id == d {
      assert PageOk(s, d);
    }
    forall d | d in WorkspacePages(s, wsId) ensures d in ById(list) && ById(list)[d] == s.pages[d] {
      assert s.pages[d] in list;
    }
    forall d | d in ById(list) ensures d in WorkspacePages(s, wsId) {
      assert ById(list)[d] in list;
    }
  }

  /** The page, its archive mark and its published chain let a guest read it. */
  ghost predicate GuestReads(s: State, d: Id) {
    && d in s.pages && s.pages[d].archivedAt.None?
    && Rooted(GuestParents(WorkspacePages(s, s.pages[d].workspaceId)), d)
  }

  /** Looking up one page. */
  ghost function PageFor(s: State, sub: Id, pageId: Id): Outcome<Page> {
    if pageId !in s.pages then Err(NotFound)
    else
      var role := MemberRole(s, s.pages[pageId].workspaceId, sub);
      if role.Err? then Err(role.error)
      else if role == Ok(ROLE_GUEST) && !GuestReads(s, pageId) then Err(NotFound)
      else Ok(s.pages[pageId])
  }

  /** Published pages of a workspace that are not archived. */
  function OpenToGuests(s: State, wsId: Id): Parents {
    map d | d in s.pages && s.pages[d].workspaceId == wsId && PageVisibleToGuest(s.pages[d])
        && s.pages[d].archivedAt.None?
      :: s.pages[d].parentId
  }

  /** The list the tree of a guest is built from: visible pages, then those not archived. */
  ghost predicate IsGuestTreeList(s: State, wsId: Id, live: seq<Page>) {
    && UniqueIds(live)
    && forall p :: p in live <==>
         p.id in s.pages && s.pages[p.id] == p && p.workspaceId == wsId && p.archivedAt.None?
         && Rooted(GuestParents(WorkspacePages(s, wsId)), p.id)
  }

  lemma GuestTreeParents(s: State, wsId: Id, live: seq<Page>)
    requires ForestInv(s) && IsGuestTreeList(s, wsId, live)
    ensures var m := ParentsOf(ById(live));
            && (forall d :: d in m <==> d in OpenToGuests(s, wsId) && GuestReads(s, d))
            && PartOf(m, OpenToGuests(s, wsId))
  {
    ByIdUnique(live);
    ByIdKeys(live);
    forall d ensures d in ById(live) <==> d in OpenToGuests(s, wsId) && GuestReads(s, d) {
      assert d in ById(live) ==> ById(live)[d] in live;
      if d in s.pages {
        assert PageOk(s, d);
        if s.pages[d] in live {
          assert d in GuestParents(WorkspacePages(s, wsId));
        }
      }
    }
    forall d | d in ById(live) ensures ById(live)[d] == s.pages[d] {
      assert ById(live)[d] in live;
    }
  }

  /** Everything above a page that a guest reads, if not archived, is read by the guest too. */
  lemma AncestorsRead(s: State, wsId: Id, d: Id, a: Id)
    requires ForestInv(s) && Rooted(OpenToGuests(s, wsId), d)
    requires a != "" && AtOrBelow(OpenToGuests(s, wsId), d, a)
    ensures a in OpenToGuests(s, wsId) && GuestReads(s, a)
  {
    var open := OpenToGuests(s, wsId);
    var guests := GuestParents(WorkspacePages(s, wsId));
    var i: nat :| Climbs(open, d, a, i);
    AboveRooted(open, d, a, i);
    var k: nat :| Climbs(open, a, "", k);
    assert k > 0;
    ClimbsInWhole(open, guests, a, "", k);
  }

  /** Ancestors are in the page's own workspace. */
  lemma {:induction false} AncestorWorkspace(s: State, d: Id, a: Id, k: nat)
    requires ForestInv(s) && d in s.pages && a in s.pages && Climbs(ParentsOf(s.pages), d, a, k)
    ensures s.pages[a].workspaceId == s.pages[d].workspaceId
    decreases k
  {
    assert PageOk(s, d);
    if k > 0 && s.pages[d].parentId != "" {
      AncestorWorkspace(s, s.pages[d].parentId, a, k - 1);
    }
  }

  /** What is above a page is a page of its workspace. */
  lemma ChainStays(s: State, d: Id, a: Id)
    requires ForestInv(s) && d in s.pages && a != "" && AtOrBelow(ParentsOf(s.pages), d, a)
    ensures a in s.pages && s.pages[a].workspaceId == s.pages[d].workspaceId
  {
    var n := ParentsOf(s.pages);
    var k: nat :| Climbs(n, d, a, k);
    AboveRooted(n, d, a, k);
    var r: nat :| Climbs(n, a, "", r);
    assert r > 0;
    AncestorWorkspace(s, d, a, k);
  }

  /** A chain of open pages: the page and everything above it is published and not archived. */
  lemma OpenChainIff(s: State, wsId: Id, d: Id)
    requires ForestInv(s)
    ensures Rooted(OpenToGuests(s, wsId), d) <==>
            && d in s.pages && s.pages[d].workspaceId == wsId
            && forall a :: a in s.pages && AtOrBelow(ParentsOf(s.pages), d, a) ==>
                 s.pages[a].status == "published" && s.pages[a].archivedAt.None?
  {
    var n, m := ParentsOf(s.pages), OpenToGuests(s, wsId);
    RootedInPartIff(m, n, d);
    if d in s.pages {
      AtOrBelowIff(n, d, d);
      forall a | a != "" && AtOrBelow(n, d, a)
        ensures a in s.pages && s.pages[a].workspaceId == s.pages[d].workspaceId
      {
        ChainStays(s, d, a);
      }
    }
  }

  /** A guest's tree holds exactly the pages whose whole chain is published and not archived; each can be read. */
  lemma GuestTreeIff(s: State, wsId: Id, live: seq<Page>, tree: seq<PageNode>, sub: Id, d: Id)
    requires ForestInv(s) && IsGuestTreeList(s, wsId, live) && IsTree(tree, ById(live), "")
    requires MemberRole(s, wsId, sub) == Ok(ROLE_GUEST)
    ensures NoDup(Ids(tree))
    ensures d in Ids(tree) <==> Rooted(OpenToGuests(s, wsId), d)
    ensures d in Ids(tree) <==>
            && d in s.pages && s.pages[d].workspaceId == wsId
            && forall a :: a in s.pages && AtOrBelow(ParentsOf(s.pages), d, a) ==>
                 s.pages[a].status == "published" && s.pages[a].archivedAt.None?
    ensures d in Ids(tree) ==> d in s.pages && PageFor(s, sub, d) == Ok(s.pages[d])
  {
    var m := ParentsOf(ById(live));
    var open := OpenToGuests(s, wsId);
    TreeHoldsRootedOnce(tree, live);
    GuestTreeParents(s, wsId, live);
    RootedInPartIff(m, open, d);
    OpenChainIff(s, wsId, d);
    if Rooted(open, d) {
      forall a | a != "" && AtOrBelow(open, d, a) ensures a in m {
        AncestorsRead(s, wsId, d, a);
      }
    }
  }

  /** What a search with some role and text match has to return. */
  ghost predicate IsHit(s: State, wsId: Id, role: Role, matches: Page -> bool, d: Id) {
    && d in s.pages && s.pages[d].workspaceId == wsId && s.pages[d].archivedAt.None? && matches(s.pages[d])
    && (role == ROLE_GUEST ==> GuestReads(s, d))
  }

  predicate Matching(p: Page, matches: Page -> bool) {
    p.archivedAt.None? && matches(p)
  }

  /** The ids of the pages that pass the archive filter and the text match, in list order. */
  function MatchingIds(pages: seq<Page>, matches: Page -> bool): seq<Id> {
    if pages == [] then []
    else
      var n := |pages| - 1;
      MatchingIds(pages[..n], matches) + if Matching(pages[n], matches) then [pages[n].id] else []
  }

  lemma {:induction false} MatchingIdsAre(pages: seq<Page>, matches: Page -> bool, d: Id)
    ensures d in MatchingIds(pages, matches) <==> exists p :: p in pages && Matching(p, matches) && p.id == d
  {
    if pages != [] {
      var n := |pages| - 1;
      MatchingIdsAre(pages[..n], matches, d);
      assert pages == pages[..n] + [pages[n]];
    }
  }

  lemma {:induction false} MatchingIdsOnce(pages: seq<Page>, matches: Page -> bool)
    requires UniqueIds(pages)
    ensures NoDup(MatchingIds(pages, matches))
  {
    if pages != [] {
      var n := |pages| - 1;
      MatchingIdsOnce(pages[..n], matches);
      MatchingIdsAre(pages[..n], matches, pages[n].id);
      forall p | p in pages[..n] ensures p.id != pages[n].id {
        var j :| 0 <= j < n && pages[j] == p;
      }
    }
  }

  /** The pages a search of the workspace goes through, for a role. */
  ghost predicate SearchedPages(s: State, wsId: Id, role: Role, pages: seq<Page>) {
    && UniqueIds(pages)
    && forall p :: p in pages <==>
         && p.id in s.pages && s.pages[p.id] == p && p.workspaceId == wsId
         && (role == ROLE_GUEST ==> Rooted(GuestParents(WorkspacePages(s, wsId)), p.id))
  }

  lemma HitsAreMatching(s: State, wsId: Id, role: Role, matches: Page -> bool, pages: seq<Page>, d: Id)
    requires ForestInv(s) && SearchedPages(s, wsId, role, pages)
    ensures d in MatchingIds(pages, matches) <==> IsHit(s, wsId, role, matches, d)
  {
    MatchingIdsAre(pages, matches, d);
    if d in s.pages {
      assert PageOk(s, d);
      assert s.pages[d] in pages || s.pages[d] !in pages;
    }
  }

  /** All hits of a search, each once. */
  lemma SearchAnswers(s: State, wsId: Id, role: Role, matches: Page -> bool, pages: seq<Page>)
    requires ForestInv(s) && SearchedPages(s, wsId, role, pages)
    ensures NoDup(MatchingIds(pages, matches))
    ensures forall d :: d in MatchingIds(pages, matches) <==> IsHit(s, wsId, role, matches, d)
    ensures role == "guest" ==>
              forall d :: d in MatchingIds(pages, matches) ==>
                d in s.pages && s.pages[d].status == "published" && s.pages[d].archivedAt.None?
  {
    MatchingIdsOnce(pages, matches);
    forall d
      ensures d in MatchingIds(pages, matches) <==> IsHit(s, wsId, role, matches, d)
      ensures role == "guest" && d in MatchingIds(pages, matches) ==>
                d in s.pages && s.pages[d].status == "published" && s.pages[d].archivedAt.None?
    {
      HitsAreMatching(s, wsId, role, matches, pages, d);
      if role == "guest" && d in MatchingIds(pages, matches) {
        GuestReadsIff(s, d);
        AtOrBelowItself(s, d);
      }
    }
  }

  lemma AtOrBelowItself(s: State, d: Id)
    requires d in s.pages
    ensures AtOrBelow(ParentsOf(s.pages), d, d)
  {
    AtOrBelowIff(ParentsOf(s.pages), d, d);
  }

  /** A guest reads a page exactly when it is not archived and it and all its ancestors are published. */
  lemma GuestReadsIff(s: State, d: Id)
    requires ForestInv(s) && d in s.pages
    ensures GuestReads(s, d) <==>
            && s.pages[d].archivedAt.None?
            && forall a :: a in s.pages && AtOrBelow(ParentsOf(s.pages), d, a) ==> s.pages[a].status == "published"
  {
    var n := ParentsOf(s.pages);
    var m := GuestParents(WorkspacePages(s, s.pages[d].workspaceId));
    RootedInPartIff(m, n, d);
    forall a | a != "" && AtOrBelow(n, d, a) ensures a in s.pages && (a in m <==> s.pages[a].status == "published") {
      ChainStays(s, d, a);
    }
  }

  /**
   * A guest's search returns exactly the matching pages of the workspace that the guest would
   * also get by id, and those are the unarchived ones published all the way up.
   */
  lemma GuestHitsAreReadable(s: State, wsId: Id, sub: Id, matches: Page -> bool, d: Id)
    requires ForestInv(s) && MemberRole(s, wsId, sub) == Ok(ROLE_GUEST)
    requires d in s.pages && s.pages[d].workspaceId == wsId && matches(s.pages[d])
    ensures IsHit(s, wsId, ROLE_GUEST, matches, d) <==> PageFor(s, sub, d) == Ok(s.pages[d])
    ensures IsHit(s, wsId, ROLE_GUEST, matches, d) <==>
            && s.pages[d].archivedAt.None?
            && forall a :: a in s.pages && AtOrBelow(ParentsOf(s.pages), d, a) ==> s.pages[a].status == "published"
  {
    GuestReadsIff(s, d);
  }

  /** What a search by a member or owner has to return: every matching page that is not archived, drafts too. */
  lemma MemberHitsAre(s: State, wsId: Id, role: Role, matches: Page -> bool, d: Id)
    requires role != "guest"
    ensures IsHit(s, wsId, role, matches, d) <==>
            d in s.pages && s.pages[d].workspaceId == wsId && s.pages[d].archivedAt.None? && matches(s.pages[d])
  {
  }

  /**
   * Lookup answers with the page exactly for someone in its workspace who is no guest, or for a guest
   * if the page is not archived and it and all its ancestors are published.
   */
  lemma LookupIff(s: State, sub: Id, d: Id)
    requires ForestInv(s)
    ensures d in s.pages ==> s.pages[d].workspaceId in s.members
    ensures PageFor(s, sub, d).Ok? <==>
            && d in s.pages && sub in s.members[s.pages[d].workspaceId]
            && (s.members[s.pages[d].workspaceId][sub] == "guest" ==>
                  && s.pages[d].archivedAt.None?
                  && forall a :: a in s.pages && AtOrBelow(ParentsOf(s.pages), d, a) ==>
                       s.pages[a].status == "published")
    ensures PageFor(s, sub, d) ==
            if PageFor(s, sub, d).Ok? then Ok(s.pages[d])
            else if d in s.pages && sub !in s.members[s.pages[d].workspaceId] then Err(Forbidden) else Err(NotFound)
  {
    if d in s.pages {
      assert PageOk(s, d);
      GuestReadsIff(s, d);
    }
  }
}
