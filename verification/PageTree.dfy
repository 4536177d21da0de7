/** apps/api/internal/domain/tree.go: the page tree and the pages a guest may see. */
module PageTree {
  import opened Common
  import opened Forest

  datatype Page = Page(id: Id, workspaceId: Id, parentId: Id, title: string, body: string, status: string,
                       position: int, version: int, collabId: Id, createdAt: Time, updatedAt: Time,
                       archivedAt: Option<Time>)

  datatype PageNode = PageNode(id: Id, parentId: Id, title: string, status: string, position: int,
                               children: seq<PageNode>)

  const PAGE_STATUS_DRAFT := "draft"
  const PAGE_STATUS_PUBLISHED := "published"

  predicate PageVisibleToGuest(p: Page) {
    p.status == PAGE_STATUS_PUBLISHED
  }

  // ---------- lists of pages ----------

  /** `byID[p.ID] = p` for every page of the list. */
  function ById(pages: seq<Page>): map<Id, Page> {
    if pages == [] then map[] else ById(pages[..|pages| - 1])[pages[|pages| - 1].id := pages[|pages| - 1]]
  }

  function ParentsOf(pages: map<Id, Page>): Parents {
    map d | d in pages :: pages[d].parentId
  }

  /** The pointers among published pages only. */
  function GuestParents(pages: map<Id, Page>): Parents {
    map d | d in pages && PageVisibleToGuest(pages[d]) :: pages[d].parentId
  }

  /** Ids are not empty and no two pages share one, as in any store listing. */
  ghost predicate UniqueIds(pages: seq<Page>) {
    && (forall i :: 0 <= i < |pages| ==> pages[i].id != "")
    && (forall i, j :: 0 <= i < j < |pages| ==> pages[i].id != pages[j].id)
  }

  lemma {:induction false} ByIdKeys(pages: seq<Page>)
    ensures forall d :: d in ById(pages) ==> ById(pages)[d].id == d && ById(pages)[d] in pages
    ensures forall p :: p in pages ==> p.id in ById(pages)
  {
    if pages != [] {
      var n := |pages| - 1;
      ByIdKeys(pages[..n]);
      assert pages == pages[..n] + [pages[n]];
    }
  }

  lemma ByIdUnique(pages: seq<Page>)
    requires UniqueIds(pages)
    ensures forall p :: p in pages <==> p.id in ById(pages) && ById(pages)[p.id] == p
    ensures "" !in ById(pages)
  {
    ByIdKeys(pages);
    forall p | p in pages ensures p.id != "" && ById(pages)[p.id] == p {
      var q := ById(pages)[p.id];
      var i :| 0 <= i < |pages| && pages[i] == p;
      var j :| 0 <= j < |pages| && pages[j] == q;
    }
  }

  method IndexById(pages: seq<Page>) returns (byId: map<Id, Page>)
    ensures byId == ById(pages)
  {
    byId := map[];
    for i := 0 to |pages|
      invariant byId == ById(pages[..i])
    {
      assert pages[..i + 1][..i] == pages[..i];
      byId := byId[pages[i].id := pages[i]];
    }
    assert pages[..|pages|] == pages;
  }

  // ---------- what a guest may see ----------

  /** The page and its whole ancestor chain exist and are published, and the chain ends. */
  ghost predicate GuestSees(byId: map<Id, Page>, p: Page) {
    PageVisibleToGuest(p) && ReachesRoot(GuestParents(byId), p.parentId)
  }

  /** The visible pages, in list order. */
  ghost function Seen(byId: map<Id, Page>, pages: seq<Page>): seq<Page> {
    if pages == [] then []
    else Seen(byId, pages[..|pages| - 1]) +
         if GuestSees(byId, pages[|pages| - 1]) then [pages[|pages| - 1]] else []
  }

  lemma {:induction false} SeenElements(byId: map<Id, Page>, pages: seq<Page>)
    ensures forall p :: p in Seen(byId, pages) <==> p in pages && GuestSees(byId, p)
  {
    if pages != [] {
      var n := |pages| - 1;
      SeenElements(byId, pages[..n]);
      assert pages == pages[..n] + [pages[n]];
    }
  }

  lemma {:induction false} SeenUnique(byId: map<Id, Page>, pages: seq<Page>)
    requires UniqueIds(pages)
    ensures UniqueIds(Seen(byId, pages))
  {
    if pages != [] {
      var n := |pages| - 1;
      SeenUnique(byId, pages[..n]);
      SeenElements(byId, pages[..n]);
      forall p | p in Seen(byId, pages[..n]) ensures p.id != pages[n].id && p.id != "" {
        var i :| 0 <= i < n && pages[i] == p;
      }
    }
  }

  /** Climbs one page's chain through published pages; the set of seen ids stops it on a cycle. */
  method ChainVisible(byId: map<Id, Page>, start: Id) returns (ok: bool)
    requires "" !in byId
    ensures ok <==> ReachesRoot(GuestParents(byId), start)
  {
    ghost var m := GuestParents(byId);
    var cur := start;
    var seen: set<Id> := {};
    assert Climbs(m, start, start, 0);
    while cur != ""
      invariant Walked(m, start, cur, seen)
      invariant seen <= m.Keys
      decreases m.Keys - seen
    {
      if cur in seen {
        WalkFails(m, start, cur, seen);
        return false;
      }
      if cur !in byId || !PageVisibleToGuest(byId[cur]) {
        WalkFails(m, start, cur, seen);
        return false;
      }
      WalkStep(m, start, cur, seen);
      seen := seen + {cur};
      cur := byId[cur].parentId;
    }
    WalkSucceeds(m, start, seen);
    return true;
  }

  method FilterGuestPages(pages: seq<Page>) returns (out: seq<Page>)
    requires forall p :: p in pages ==> p.id != ""
    ensures out == Seen(ById(pages), pages)
    ensures forall p :: p in out <==> p in pages && GuestSees(ById(pages), p)
    ensures forall p :: p in out ==> p.status == "published"
    ensures UniqueIds(pages) ==>
        UniqueIds(out) && forall p :: p in out <==> p in pages && Rooted(GuestParents(ById(pages)), p.id)
  {
    var byId := IndexById(pages);
    ByIdKeys(pages);
    out := [];
    for i := 0 to |pages|
      invariant out == Seen(byId, pages[..i])
    {
      var p := pages[i];
      assert pages[..i + 1][..i] == pages[..i];
      if !PageVisibleToGuest(p) {
        continue;
      }
      var ok := ChainVisible(byId, p.parentId);
      if ok {
        out := out + [p];
      }
    }
    assert pages[..|pages|] == pages;
    SeenElements(byId, pages);
    if UniqueIds(pages) {
      SeenUnique(byId, pages);
      ByIdUnique(pages);
      forall p | p in pages ensures GuestSees(byId, p) <==> Rooted(GuestParents(byId), p.id) {
        SeesIffRooted(byId, p);
      }
    }
  }

  lemma SeesIffRooted(byId: map<Id, Page>, p: Page)
    requires p.id in byId && byId[p.id] == p && "" !in byId
    ensures GuestSees(byId, p) <==> Rooted(GuestParents(byId), p.id)
  {
    var m := GuestParents(byId);
    if GuestSees(byId, p) {
      var n: nat :| Climbs(m, p.parentId, "", n);
      assert Climbs(m, p.id, "", n + 1);
    }
    if Rooted(m, p.id) {
      var n: nat :| Climbs(m, p.id, "", n);
      assert n > 0;
      assert Climbs(m, m[p.id], "", n - 1);
    }
  }

  // ---------- the tree ----------

  /** Sibling order: by position, then by creation time. */
  predicate Precedes(p: Page, q: Page) {
    p.position < q.position || (p.position == q.position && p.createdAt < q.createdAt)
  }

  ghost predicate InOrder(kids: seq<Page>) {
    forall i, j :: 0 <= i < j < |kids| ==> !Precedes(kids[j], kids[i])
  }

  /** The list's pages under one parent, in list order. */
  function Kids(pages: seq<Page>, parent: Id): seq<Page> {
    if pages == [] then []
    else Kids(pages[..|pages| - 1], parent) +
         if pages[|pages| - 1].parentId == parent then [pages[|pages| - 1]] else []
  }

  lemma {:induction false} KidsElements(pages: seq<Page>, parent: Id)
    ensures forall p :: p in Kids(pages, parent) <==> p in pages && p.parentId == parent
  {
    if pages != [] {
      var n := |pages| - 1;
      KidsElements(pages[..n], parent);
      assert pages == pages[..n] + [pages[n]];
    }
  }

  lemma {:induction false} KidsUnique(pages: seq<Page>, parent: Id)
    requires UniqueIds(pages)
    ensures UniqueIds(Kids(pages, parent))
  {
    if pages != [] {
      var n := |pages| - 1;
      KidsUnique(pages[..n], parent);
      KidsElements(pages[..n], parent);
      forall p | p in Kids(pages[..n], parent) ensures p.id != pages[n].id && p.id != "" {
        var i :| 0 <= i < n && pages[i] == p;
      }
    }
  }

  /** The sort of one group of siblings; ties may come out in any order. */
  method SortKids(kids: seq<Page>) returns (out: seq<Page>)
    ensures InOrder(out) && multiset(out) == multiset(kids)
  {
    out := [];
    for i := 0 to |kids|
      invariant InOrder(out) && multiset(out) == multiset(kids[..i])
    {
      var k := |out|;
      while k > 0 && Precedes(kids[i], out[k - 1])
        invariant 0 <= k <= |out|
        invariant forall j :: k <= j < |out| ==> Precedes(kids[i], out[j])
      {
        k := k - 1;
      }
      InsertKeepsOrder(out, k, kids[i]);
      InsertAdds(out, k, kids, i);
      out := out[..k] + [kids[i]] + out[k..];
    }
    assert kids[..|kids|] == kids;
  }

  lemma InsertAdds(out: seq<Page>, k: nat, kids: seq<Page>, i: nat)
    requires k <= |out| && i < |kids| && multiset(out) == multiset(kids[..i])
    ensures multiset(out[..k] + [kids[i]] + out[k..]) == multiset(kids[..i + 1])
  {
    assert kids[..i + 1] == kids[..i] + [kids[i]];
    assert out == out[..k] + out[k..];
  }

  lemma InsertKeepsOrder(kids: seq<Page>, k: nat, p: Page)
    requires k <= |kids| && InOrder(kids)
    requires forall j :: k <= j < |kids| ==> Precedes(p, kids[j])
    requires k > 0 ==> !Precedes(p, kids[k - 1])
    ensures InOrder(kids[..k] + [p] + kids[k..])
  {
    forall j | 0 <= j < k ensures !Precedes(p, kids[j]) {
      if j < k - 1 {
        assert !Precedes(kids[k - 1], kids[j]);
      }
    }
  }

  /** Groups as the tree uses them: each parent's pages, all of them, in sibling order. */
  ghost predicate Grouped(byParent: map<Id, seq<Page>>, pages: seq<Page>) {
    forall parent {:trigger GroupOf(byParent, parent)} ::
      InOrder(GroupOf(byParent, parent)) && multiset(GroupOf(byParent, parent)) == multiset(Kids(pages, parent))
  }

  /** Reading a missing group gives no pages. */
  function GroupOf(byParent: map<Id, seq<Page>>, parent: Id): seq<Page> {
    if parent in byParent then byParent[parent] else []
  }

  method GroupByParent(pages: seq<Page>) returns (byParent: map<Id, seq<Page>>)
    ensures Grouped(byParent, pages)
  {
    byParent := map[];
    for i := 0 to |pages|
      invariant forall parent :: GroupOf(byParent, parent) == Kids(pages[..i], parent)
    {
      assert pages[..i + 1][..i] == pages[..i];
      byParent := byParent[pages[i].parentId := GroupOf(byParent, pages[i].parentId) + [pages[i]]];
    }
    assert pages[..|pages|] == pages;
    ghost var before := byParent;
    var rest := byParent.Keys;
    while rest != {}
      invariant rest <= byParent.Keys == before.Keys
      invariant forall parent :: parent in rest ==> byParent[parent] == before[parent]
      invariant forall parent :: parent in byParent && parent !in rest ==>
                                   InOrder(byParent[parent]) && multiset(byParent[parent]) == multiset(before[parent])
      decreases rest
    {
      var parent :| parent in rest;
      rest := rest - {parent};
      var kids := SortKids(byParent[parent]);
      byParent := byParent[parent := kids];
    }
    forall parent
      ensures InOrder(GroupOf(byParent, parent)) && multiset(GroupOf(byParent, parent)) == multiset(Kids(pages, parent))
    {
      assert GroupOf(before, parent) == Kids(pages, parent);
    }
  }

  ghost predicate Shows(n: PageNode, p: Page) {
    n.id == p.id && n.parentId == p.parentId && n.title == p.title && n.status == p.status && n.position == p.position
  }

  /** The nodes are exactly the parent's pages, each once, in sibling order, each with its own subtree. */
  ghost predicate IsTree(nodes: seq<PageNode>, byId: map<Id, Page>, parent: Id)
    decreases nodes, 1
  {
    && (forall i {:trigger nodes[i]} :: 0 <= i < |nodes| ==>
      && nodes[i].id in byId && Shows(nodes[i], byId[nodes[i].id]) && nodes[i].parentId == parent
      && IsTree(nodes[i].children, byId, nodes[i].id))
    && (forall d :: d in byId && byId[d].parentId == parent ==> HasNode(nodes, d))
    && (forall i, j :: 0 <= i < j < |nodes| ==> RightlyBefore(nodes[i], nodes[j], byId))
  }

  /** Different pages, the first not behind the second in sibling order. */
  ghost predicate RightlyBefore(a: PageNode, b: PageNode, byId: map<Id, Page>) {
    a.id != b.id && a.id in byId && b.id in byId && !Precedes(byId[b.id], byId[a.id])
  }

  ghost predicate HasNode(nodes: seq<PageNode>, d: Id) {
    exists i :: 0 <= i < |nodes| && nodes[i].id == d
  }

  method BuildPageTree(pages: seq<Page>) returns (tree: seq<PageNode>)
    requires UniqueIds(pages)
    ensures IsTree(tree, ById(pages), "")
  {
    var byParent := GroupByParent(pages);
    ByIdUnique(pages);
    assert Climbs(ParentsOf(ById(pages)), "", "", 0);
    tree := BuildNodes(byParent, "", pages);
  }

  /** The recursion ends although the pointers are arbitrary: from the root only ever smaller subtrees are entered. */
  method BuildNodes(byParent: map<Id, seq<Page>>, parent: Id, ghost pages: seq<Page>) returns (out: seq<PageNode>)
    requires UniqueIds(pages) && Grouped(byParent, pages)
    requires ReachesRoot(ParentsOf(ById(pages)), parent)
    ensures IsTree(out, ById(pages), parent)
    decreases Under(ParentsOf(ById(pages)), parent)
  {
    ghost var byId := ById(pages);
    var kids := GroupOf(byParent, parent);
    GroupFacts(byParent, pages, parent);
    out := [];
    for i := 0 to |kids|
      invariant |out| == i
      invariant forall k {:trigger out[k]} :: 0 <= k < i ==>
          Shows(out[k], kids[k]) && IsTree(out[k].children, byId, out[k].id)
    {
      var p := kids[i];
      KidStep(byId, p.id);
      var children := BuildNodes(byParent, p.id, pages);
      out := out + [PageNode(p.id, p.parentId, p.title, p.status, p.position, children)];
    }
    NodesMakeTree(out, kids, byId, parent);
  }

  lemma KidStep(byId: map<Id, Page>, d: Id)
    requires "" !in byId && d in byId && ReachesRoot(ParentsOf(byId), byId[d].parentId)
    ensures ReachesRoot(ParentsOf(byId), d)
    ensures Under(ParentsOf(byId), d) < Under(ParentsOf(byId), byId[d].parentId)
  {
    var m := ParentsOf(byId);
    var n: nat :| Climbs(m, m[d], "", n);
    assert Climbs(m, d, "", n + 1);
    UnderShrinks(m, d);
  }

  /** A sorted group of distinct pages. */
  ghost predicate IsGroup(kids: seq<Page>, byId: map<Id, Page>, parent: Id) {
    && InOrder(kids)
    && (forall i {:trigger kids[i]} :: 0 <= i < |kids| ==>
          kids[i].id in byId && byId[kids[i].id] == kids[i] && kids[i].parentId == parent)
    && (forall i, j :: 0 <= i < j < |kids| ==> kids[i].id != kids[j].id)
    && (forall d :: d in byId && byId[d].parentId == parent ==> byId[d].id == d && byId[d] in kids)
  }

  lemma {:induction false} NodesMakeTree(out: seq<PageNode>, kids: seq<Page>, byId: map<Id, Page>, parent: Id)
    requires |out| == |kids| && IsGroup(kids, byId, parent)
    requires forall k {:trigger out[k]} :: 0 <= k < |out| ==>
        Shows(out[k], kids[k]) && IsTree(out[k].children, byId, out[k].id)
    ensures IsTree(out, byId, parent)
  {
    forall d | d in byId && byId[d].parentId == parent ensures HasNode(out, d) {
      var k :| 0 <= k < |kids| && kids[k] == byId[d];
      assert Shows(out[k], kids[k]);
    }
    forall i, j | 0 <= i < j < |out| ensures RightlyBefore(out[i], out[j], byId) {
      assert Shows(out[i], kids[i]) && Shows(out[j], kids[j]);
      assert byId[kids[i].id] == kids[i] && byId[kids[j].id] == kids[j];
    }
  }

  /** One sorted group holds exactly the parent's pages, each once. */
  lemma GroupFacts(byParent: map<Id, seq<Page>>, pages: seq<Page>, parent: Id)
    requires UniqueIds(pages) && Grouped(byParent, pages)
    ensures "" !in ById(pages) && IsGroup(GroupOf(byParent, parent), ById(pages), parent)
  {
    var kids, byId := GroupOf(byParent, parent), ById(pages);
    ByIdUnique(pages);
    ByIdKeys(pages);
    KidsElements(pages, parent);
    KidsUnique(pages, parent);
    forall p ensures p in kids <==> p in Kids(pages, parent) {
      assert p in kids <==> p in multiset(kids);
      assert p in Kids(pages, parent) <==> p in multiset(Kids(pages, parent));
    }
    forall i | 0 <= i < |kids| ensures kids[i].id in byId && byId[kids[i].id] == kids[i] && kids[i].parentId == parent {
      assert kids[i] in kids;
    }
    forall i, j | 0 <= i < j < |kids| ensures kids[i].id != kids[j].id {
      PermutedNoDup(kids, Kids(pages, parent), i, j);
    }
  }

  lemma PermutedNoDup(a: seq<Page>, b: seq<Page>, i: nat, j: nat)
    requires multiset(a) == multiset(b) && NoDup(b) && i < j < |a|
    ensures a[i] != a[j]
  {
    if a[i] == a[j] {
      var x := a[i];
      assert a == a[..i] + [x] + a[i + 1..j] + [x] + a[j + 1..];
      assert multiset(a)[x] >= 2;
      CountOnce(b, x);
    }
  }

  lemma {:induction false} CountOnce(b: seq<Page>, x: Page)
    requires NoDup(b)
    ensures multiset(b)[x] <= 1
  {
    if b != [] {
      CountOnce(b[1..], x);
      assert b == [b[0]] + b[1..];
      if b[0] == x {
        assert x !in b[1..];
      }
    }
  }

  // ---------- which pages the tree holds ----------

  /** All ids of a tree, parents first. */
  function Ids(nodes: seq<PageNode>): seq<Id>
    decreases nodes
  {
    if nodes == [] then [] else [nodes[0].id] + Ids(nodes[0].children) + Ids(nodes[1..])
  }

  lemma {:induction false} IdsOfNodes(nodes: seq<PageNode>, d: Id)
    ensures d in Ids(nodes) <==> exists i :: 0 <= i < |nodes| && (d == nodes[i].id || d in Ids(nodes[i].children))
    decreases |nodes|
  {
    if nodes != [] {
      IdsOfNodes(nodes[1..], d);
      if d in Ids(nodes) {
        if d == nodes[0].id || d in Ids(nodes[0].children) {
        } else {
          var i :| 0 <= i < |nodes[1..]| && (d == nodes[1..][i].id || d in Ids(nodes[1..][i].children));
          assert nodes[1..][i] == nodes[i + 1];
        }
      }
      if exists i :: 0 <= i < |nodes| && (d == nodes[i].id || d in Ids(nodes[i].children)) {
        var i :| 0 <= i < |nodes| && (d == nodes[i].id || d in Ids(nodes[i].children));
        if i > 0 {
          assert nodes[1..][i - 1] == nodes[i];
        }
      }
    }
  }

  /** A tree under `parent` holds exactly the pages whose chain passes through `parent`. */
  lemma {:induction false} TreeHoldsSubtree(nodes: seq<PageNode>, byId: map<Id, Page>, parent: Id, d: Id)
    requires IsTree(nodes, byId, parent)
    ensures d in Ids(nodes) <==> Below(ParentsOf(byId), d, parent)
    decreases nodes
  {
    var m := ParentsOf(byId);
    IdsOfNodes(nodes, d);
    BelowViaChild(m, d, parent);
    forall i | 0 <= i < |nodes|
      ensures (d == nodes[i].id || d in Ids(nodes[i].children)) <==> AtOrBelow(m, d, nodes[i].id)
    {
      TreeHoldsSubtree(nodes[i].children, byId, nodes[i].id, d);
      AtOrBelowIff(m, d, nodes[i].id);
    }
    if Below(m, d, parent) {
      var c :| c in m && m[c] == parent && AtOrBelow(m, d, c);
      assert HasNode(nodes, c);
    }
    if d in Ids(nodes) {
      var i :| 0 <= i < |nodes| && (d == nodes[i].id || d in Ids(nodes[i].children));
      assert nodes[i].id in m && m[nodes[i].id] == parent;
    }
  }

  /** Nodes of one parent's tree from number `k` on. */
  lemma {:induction false} TreeIdsDistinct(nodes: seq<PageNode>, byId: map<Id, Page>, parent: Id, k: nat)
    requires IsTree(nodes, byId, parent) && k <= |nodes|
    requires "" !in byId && ReachesRoot(ParentsOf(byId), parent)
    ensures NoDup(Ids(nodes[k..]))
    decreases nodes, |nodes| - k
  {
    if k < |nodes| {
      var n := nodes[k];
      var rest := nodes[k + 1..];
      assert nodes[k..][0] == n && nodes[k..][1..] == rest;
      TreeIdsDistinct(nodes, byId, parent, k + 1);
      KidStep(byId, n.id);
      assert n.children[0..] == n.children;
      TreeIdsDistinct(n.children, byId, n.id, 0);
      NodeNotBelowItself(n, byId);
      NoDupJoin([n.id], Ids(n.children));
      forall d | d in [n.id] + Ids(n.children) ensures d !in Ids(rest) {
        NotInLaterSubtree(nodes, byId, parent, k, d);
      }
      NoDupJoin([n.id] + Ids(n.children), Ids(rest));
    }
  }

  lemma {:induction false} NodeNotBelowItself(n: PageNode, byId: map<Id, Page>)
    requires IsTree(n.children, byId, n.id) && "" !in byId && ReachesRoot(ParentsOf(byId), n.id)
    ensures n.id !in Ids(n.children)
  {
    TreeHoldsSubtree(n.children, byId, n.id, n.id);
    RootedAcyclic(ParentsOf(byId), n.id);
  }

  lemma {:induction false} NotInLaterSubtree(nodes: seq<PageNode>, byId: map<Id, Page>, parent: Id, k: nat, d: Id)
    requires IsTree(nodes, byId, parent) && k < |nodes|
    requires "" !in byId && ReachesRoot(ParentsOf(byId), parent)
    requires d == nodes[k].id || d in Ids(nodes[k].children)
    ensures d !in Ids(nodes[k + 1..])
  {
    if d in Ids(nodes[k + 1..]) {
      var j := HolderFrom(nodes, k + 1, d);
      InOneSubtree(nodes, byId, parent, k, j, d);
    }
  }

  /** A node from number `k` on that holds the id. */
  lemma {:induction false} HolderFrom(nodes: seq<PageNode>, k: nat, d: Id) returns (j: nat)
    requires k <= |nodes| && d in Ids(nodes[k..])
    ensures k <= j < |nodes| && (d == nodes[j].id || d in Ids(nodes[j].children))
  {
    var rest := nodes[k..];
    IdsOfNodes(rest, d);
    var i :| 0 <= i < |rest| && (d == rest[i].id || d in Ids(rest[i].children));
    assert rest[i] == nodes[k + i];
    j := k + i;
  }

  lemma {:induction false} InOneSubtree(nodes: seq<PageNode>, byId: map<Id, Page>, parent: Id, i: nat, j: nat, d: Id)
    requires IsTree(nodes, byId, parent) && i < |nodes| && j < |nodes|
    requires "" !in byId && ReachesRoot(ParentsOf(byId), parent)
    requires d == nodes[i].id || d in Ids(nodes[i].children)
    requires d == nodes[j].id || d in Ids(nodes[j].children)
    ensures i == j
  {
    var m := ParentsOf(byId);
    TreeHoldsSubtree(nodes[i].children, byId, nodes[i].id, d);
    TreeHoldsSubtree(nodes[j].children, byId, nodes[j].id, d);
    AtOrBelowIff(m, d, nodes[i].id);
    AtOrBelowIff(m, d, nodes[j].id);
    assert i < j ==> RightlyBefore(nodes[i], nodes[j], byId);
    assert j < i ==> RightlyBefore(nodes[j], nodes[i], byId);
    SiblingsDisjoint(m, nodes[i].id, nodes[j].id, d);
  }

  lemma NoDupJoin(a: seq<Id>, b: seq<Id>)
    requires NoDup(a) && NoDup(b) && forall x :: x in a ==> x !in b
    ensures NoDup(a + b)
  {
    forall i, j | 0 <= i < j < |a + b| ensures (a + b)[i] != (a + b)[j] {
      if i < |a| <= j {
        assert a[i] in a && b[j - |a|] in b;
      }
    }
  }

  /** The page tree holds exactly the pages whose parent chain reaches the root, each once. */
  lemma {:induction false} TreeHoldsRootedOnce(tree: seq<PageNode>, pages: seq<Page>)
    requires UniqueIds(pages) && IsTree(tree, ById(pages), "")
    ensures NoDup(Ids(tree))
    ensures forall d :: d in Ids(tree) <==> Rooted(ParentsOf(ById(pages)), d)
  {
    var byId := ById(pages);
    var m := ParentsOf(byId);
    ByIdUnique(pages);
    assert Climbs(m, "", "", 0);
    assert tree[0..] == tree;
    TreeIdsDistinct(tree, byId, "", 0);
    forall d ensures d in Ids(tree) <==> Rooted(m, d) {
      TreeHoldsSubtree(tree, byId, "", d);
      if Rooted(m, d) {
        var n: nat :| Climbs(m, d, "", n);
        assert n >= 1;
      }
    }
  }

  /** Sibling order: by position, and among equal positions by creation time. */
  lemma InOrderIff(kids: seq<Page>)
    ensures InOrder(kids) <==>
            forall i, j :: 0 <= i < j < |kids| ==>
              || kids[i].position < kids[j].position
              || (kids[i].position == kids[j].position && kids[i].createdAt <= kids[j].createdAt)
  {
    if InOrder(kids) {
      forall i, j | 0 <= i < j < |kids|
        ensures || kids[i].position < kids[j].position
                || (kids[i].position == kids[j].position && kids[i].createdAt <= kids[j].createdAt)
      {
        assert !Precedes(kids[j], kids[i]);
      }
    }
  }

  /** Each node of a tree shows its page, and siblings stand by position and then creation time. */
  lemma TreeShowsPages(nodes: seq<PageNode>, byId: map<Id, Page>, parent: Id, i: nat)
    requires IsTree(nodes, byId, parent) && i < |nodes|
    ensures nodes[i].id in byId
    ensures var p := byId[nodes[i].id];
            && nodes[i] == PageNode(p.id, p.parentId, p.title, p.status, p.position, nodes[i].children)
            && p.parentId == parent && IsTree(nodes[i].children, byId, nodes[i].id)
    ensures forall j :: 0 <= j < i ==>
              && nodes[j].id in byId && nodes[j].id != nodes[i].id
              && (nodes[j].position < nodes[i].position
                  || (nodes[j].position == nodes[i].position
                      && byId[nodes[j].id].createdAt <= byId[nodes[i].id].createdAt))
  {
    forall j | 0 <= j < i
      ensures && nodes[j].id in byId && nodes[j].id != nodes[i].id
              && (nodes[j].position < nodes[i].position
                  || (nodes[j].position == nodes[i].position
                      && byId[nodes[j].id].createdAt <= byId[nodes[i].id].createdAt))
    {
      assert RightlyBefore(nodes[j], nodes[i], byId);
    }
  }
}
