/**
 * Along every interleaving of wiki requests: no accepted update overwrites another unseen, and every
 * change of a page comes from someone who could write in its workspace when the request was checked.
 */
module WikiRuns {
  import opened Common
  import opened Forest
  import opened PageTree
  import PageModel
  import opened WikiOutcomes
  import opened WikiThreads
  import WikiModel

  // ---------- no lost update ----------

  /** An accepted update of a page, and the lock version it named. */
  datatype Accepted = Accepted(pageId: Id, version: int)

  ghost function AcceptedBy(w: World, e: Event): seq<Accepted> {
    if e.Runs? && e.who in w.threads && w.threads[e.who].MayStore? && w.threads[e.who].write.Change? then
      var c := w.threads[e.who].write;
      var r := PageModel.UpdatePage(w.data, c.pageId, c.newTitle, c.newBody, c.newStatus, c.newParent, c.version,
                                    e.now).1;
      if r.Ok? then [Accepted(c.pageId, c.version)] else []
    else []
  }

  ghost function AllAccepted(w: World, es: seq<Event>): seq<Accepted>
    decreases |es|
  {
    if es == [] then [] else AcceptedBy(w, es[0]) + AllAccepted(Step(w, es[0]), es[1..])
  }

  /** A page stays, in its workspace, at its lock version or a later one. */
  ghost predicate Onward(s: PageModel.State, s': PageModel.State, d: Id) {
    d in s.pages ==>
      && d in s'.pages && s'.pages[d].workspaceId == s.pages[d].workspaceId
      && s'.pages[d].version >= s.pages[d].version
  }

  lemma StoreGoesOnward(s: PageModel.State, write: Write, sub: Id, now: Time, stamp: nat, d: Id)
    requires write.Make? ==> write.id !in s.pages
    ensures Onward(s, Store(s, write, sub, now, stamp).data, d)
  {
    match write
    case Make(_, _, _, _, _, _, _, _) =>
    case Change(_, _, _, _, _, _) =>
    case Mark(_, _) =>
    case Sync(_, _, _) =>
  }

  lemma CallGoesOnward(w: World, t: Thread, now: Time, d: Id)
    requires t.MayStore? && t.write.Make? ==> t.write.id !in w.data.pages
    ensures Onward(w.data, Next(w.data, t, now, |w.writes|, w.last).data, d)
  {
    match t
    case Begun(req) => BeginShape(w.data, req);
    case MayStore(write, sub) => StoreGoesOnward(w.data, write, sub, now, |w.writes|, d);
    case MayRecord(p, sub, _) => RecordKeepsPages(w.data, p, sub, now);
    case _ =>
  }

  lemma RecordKeepsPages(s: PageModel.State, p: Page, sub: Id, now: Time)
    ensures WikiModel.Record(s, p, sub, now).pages == s.pages
  {
  }

  /** The store and the threads after a call. */
  lemma StepOf(w: World, who: nat, now: Time)
    requires who in w.threads
    ensures var o := Next(w.data, w.threads[who], now, |w.writes|, w.last);
            var w' := Step(w, Runs(who, now));
            w'.data == o.data && w'.threads == w.threads[who := o.next]
  {
  }

  lemma VersionsClimb(w: World, e: Event, d: Id)
    requires IdsAreNew(w, e)
    ensures Onward(w.data, Step(w, e).data, d)
    ensures |AcceptedBy(w, e)| <= 1
    ensures forall a :: a in AcceptedBy(w, e) && a.pageId == d ==>
              && d in w.data.pages && d in Step(w, e).data.pages
              && a.version == w.data.pages[d].version < Step(w, e).data.pages[d].version
  {
    if e.Runs? && e.who in w.threads {
      StepOf(w, e.who, e.now);
      CallGoesOnward(w, w.threads[e.who], e.now, d);
    }
  }

  lemma {:induction false} LaterVersionsAbove(w: World, es: seq<Event>, d: Id)
    requires Possible(w, es) && d in w.data.pages
    ensures forall a :: a in AllAccepted(w, es) && a.pageId == d ==> a.version >= w.data.pages[d].version
    decreases |es|
  {
    if es != [] {
      VersionsClimb(w, es[0], d);
      LaterVersionsAbove(Step(w, es[0]), es[1..], d);
    }
  }

  lemma FirstIsBelow(w: World, es: seq<Event>, a: Accepted, b: Accepted)
    requires Possible(w, es) && es != [] && a.pageId == b.pageId
    requires a in AcceptedBy(w, es[0]) && b in AllAccepted(Step(w, es[0]), es[1..])
    ensures a.version < b.version
  {
    VersionsClimb(w, es[0], a.pageId);
    LaterVersionsAbove(Step(w, es[0]), es[1..], a.pageId);
  }

  /** Later updates of a page name higher versions. */
  ghost predicate Climbing(all: seq<Accepted>) {
    forall i, j :: 0 <= i < j < |all| && all[i].pageId == all[j].pageId ==> all[i].version < all[j].version
  }

  lemma ClimbingJoin(here: seq<Accepted>, later: seq<Accepted>)
    requires |here| <= 1 && Climbing(later)
    requires forall a, b :: a in here && b in later && a.pageId == b.pageId ==> a.version < b.version
    ensures Climbing(here + later)
  {
    var all := here + later;
    forall i, j | 0 <= i < j < |all| && all[i].pageId == all[j].pageId ensures all[i].version < all[j].version {
      if i < |here| {
        assert all[i] in here && all[j] in later;
      }
    }
  }

  /**
   * Along every interleaving no two accepted updates of a page name the same lock version, and later ones
   * name higher ones: whoever updates a page has seen every update accepted before.
   */
  lemma {:induction false} NoUpdateIsLost(w: World, es: seq<Event>)
    requires Possible(w, es)
    ensures Climbing(AllAccepted(w, es))
    decreases |es|
  {
    if es != [] {
      var here, later := AcceptedBy(w, es[0]), AllAccepted(Step(w, es[0]), es[1..]);
      NoUpdateIsLost(Step(w, es[0]), es[1..]);
      VersionsClimb(w, es[0], "");
      forall a, b | a in here && b in later && a.pageId == b.pageId ensures a.version < b.version {
        FirstIsBelow(w, es, a, b);
      }
      ClimbingJoin(here, later);
    }
  }

  // ---------- points of a run ----------

  /** The world after the first `k` events, from the empty store. */
  ghost function At(es: seq<Event>, k: nat): World
    requires k <= |es|
  {
    Run(START, es[..k])
  }

  /** One event leads from each point to the next, and ids drawn there are new. */
  lemma {:induction false} RunAt(w: World, es: seq<Event>, k: nat)
    requires k < |es|
    ensures Run(w, es[..k + 1]) == Step(Run(w, es[..k]), es[k])
    ensures Possible(w, es) ==> IdsAreNew(Run(w, es[..k]), es[k])
    decreases k
  {
    if k == 0 {
      assert es[..1][1..] == [];
      assert Run(w, es[..1]) == Run(Step(w, es[0]), []);
    } else {
      assert es[..k + 1][1..] == es[1..][..k] && es[..k][1..] == es[1..][..k - 1];
      RunAt(Step(w, es[0]), es[1..], k - 1);
    }
  }

  // ---------- who may write ----------

  /** The workspace a thread's check is about is that of its page. */
  ghost predicate PlaceFits(t: Thread, s: PageModel.State) {
    t.MayCheck? && (t.req.UpdateReq? || t.req.RestoreReq? || t.req.MarkReq?) ==>
      t.req.pageId in s.pages && s.pages[t.req.pageId].workspaceId == t.wsId
  }

  ghost predicate PlacesFit(w: World) {
    forall k {:trigger w.threads[k]} :: k in w.threads ==> PlaceFits(w.threads[k], w.data)
  }

  lemma NextPlaceFits(s: PageModel.State, t: Thread, now: Time, stamp: nat, last: map<Id, nat>)
    ensures PlaceFits(Next(s, t, now, stamp, last).next, Next(s, t, now, stamp, last).data)
  {
    match t
    case MayStore(write, sub) => if write.Make? {} else if write.Change? {} else if write.Sync? {}
    case MayCheck(req, wsId) => CheckShape(s, req, wsId);
    case _ =>
  }

  lemma StepKeepsPlaces(w: World, e: Event)
    requires PlacesFit(w) && IdsAreNew(w, e)
    ensures PlacesFit(Step(w, e))
  {
    var w' := Step(w, e);
    if e.Runs? && e.who in w.threads {
      StepOf(w, e.who, e.now);
      NextPlaceFits(w.data, w.threads[e.who], e.now, |w.writes|, w.last);
      forall k | k in w'.threads ensures PlaceFits(w'.threads[k], w'.data) {
        if k != e.who {
          assert PlaceFits(w.threads[k], w.data);
          if w.threads[k].MayCheck? && !w.threads[k].req.WorkspaceReq? && !w.threads[k].req.RoleReq?
             && !w.threads[k].req.CreateReq? && !w.threads[k].req.SyncReq? {
            CallGoesOnward(w, w.threads[e.who], e.now, w.threads[k].req.pageId);
          }
        }
      }
    }
  }

  lemma {:induction false} PlacesAlwaysFit(es: seq<Event>, k: nat)
    requires Possible(START, es) && k <= |es|
    ensures PlacesFit(At(es, k))
    decreases k
  {
    if k > 0 {
      RunAt(START, es, k - 1);
      PlacesAlwaysFit(es, k - 1);
      StepKeepsPlaces(At(es, k - 1), es[k - 1]);
    }
  }

  /** A thread may write what it is about to write: its user writes in the workspace, and the texts fit. */
  ghost predicate Entitled(s: PageModel.State, t: Thread) {
    t.MayStore? ==>
      match t.write
      case Make(wsId, _, title, body, status, _, _, _) =>
        MayWrite(s, wsId, t.sub) && TextsFit(Some(title), Some(body), Some(status))
      case Change(d, title, body, status, _, _) =>
        d in s.pages && MayWrite(s, s.pages[d].workspaceId, t.sub) && TextsFit(title, body, status)
      case Mark(d, _) => d in s.pages && MayWrite(s, s.pages[d].workspaceId, t.sub)
      case Sync(room, plaintext, d) => room in s.collab && s.collab[room] == d && ByteLen(plaintext) <= 100000
  }

  lemma CheckEntitles(s: PageModel.State, req: Request, wsId: Id)
    requires PlaceFits(MayCheck(req, wsId), s)
    ensures Entitled(s, Check(s, req, wsId))
  {
    match req
    case UpdateReq(sub, _, _, _, _, _, _) => WritersAre(s, wsId, sub);
    case RestoreReq(sub, _, _, _) => WritersAre(s, wsId, sub);
    case MarkReq(sub, _, _) => WritersAre(s, wsId, sub);
    case _ =>
  }

  lemma BeginEntitles(s: PageModel.State, req: Request)
    ensures Entitled(s, Begin(s, req).next)
  {
    if req.CreateReq? {
      WritersAre(s, req.wsId, req.sub);
    }
  }

  lemma CallEntitles(s: PageModel.State, t: Thread, now: Time, stamp: nat, last: map<Id, nat>)
    requires PlaceFits(t, s)
    ensures Next(s, t, now, stamp, last).next.MayStore? ==> Entitled(s, Next(s, t, now, stamp, last).next)
  {
    match t
    case Begun(req) => BeginEntitles(s, req);
    case MayCheck(req, wsId) => CheckEntitles(s, req, wsId);
    case MayStore(write, sub) => if write.Make? {} else if write.Change? {} else if write.Sync? {}
    case _ =>
  }

  /** Every thread about to write has passed its checks at some earlier event of its own. */
  lemma {:induction false} EveryWriterIsEntitled(es: seq<Event>, k: nat, who: nat) returns (i: nat)
    requires Possible(START, es) && k <= |es| && who in At(es, k).threads && At(es, k).threads[who].MayStore?
    ensures i < k && es[i].Runs? && es[i].who == who && Entitled(At(es, i).data, At(es, k).threads[who])
    decreases k
  {
    if k == 0 {
      assert false;
    } else {
      RunAt(START, es, k - 1);
      var w, e := At(es, k - 1), es[k - 1];
      PlacesAlwaysFit(es, k - 1);
      if e.Runs? && e.who == who {
        StepOf(w, who, e.now);
        assert PlaceFits(w.threads[who], w.data);
        CallEntitles(w.data, w.threads[who], e.now, |w.writes|, w.last);
        i := k - 1;
      } else {
        if e.Runs? && e.who in w.threads {
          StepOf(w, e.who, e.now);
        }
        i := EveryWriterIsEntitled(es, k - 1, who);
      }
    }
  }

  // ---------- every change of a page ----------

  function Live(pages: map<Id, Page>, d: Id): Option<Page> {
    if d in pages then Some(pages[d]) else None
  }

  /** What a write makes of a page whose record it changes. */
  ghost predicate Wrote(s: PageModel.State, write: Write, d: Id, had: Option<Page>, has: Option<Page>) {
    match write
    case Make(wsId, parent, title, body, status, id, room, pos) =>
      && id == d && had == None && has.Some? && has.value.version == 1 && has.value.archivedAt == None
      && has.value.workspaceId == wsId && has.value.parentId == parent && has.value.title == title
      && has.value.body == body && has.value.status == status
    case Change(id, title, body, status, parent, version) =>
      && id == d && had.Some? && has.Some? && had.value.version == version
      && has.value == had.value.(title := if title.Some? then title.value else had.value.title,
                                 body := if body.Some? then body.value else had.value.body,
                                 status := if status.Some? then status.value else had.value.status,
                                 parentId := if parent.Some? then parent.value else had.value.parentId,
                                 version := version + 1, updatedAt := has.value.updatedAt)
    case Mark(id, archived) =>
      && id in s.pages && had.Some? && has.Some? && (d == id || Below(ParentsOf(s.pages), d, id))
      && has.value == had.value.(archivedAt := has.value.archivedAt) && (has.value.archivedAt.Some? <==> archived)
    case Sync(room, plaintext, _) =>
      && room in s.collab && s.collab[room] == d && had.Some? && has.Some?
      && has.value == had.value.(body := plaintext, updatedAt := has.value.updatedAt)
  }

  lemma StoreWrote(s: PageModel.State, write: Write, sub: Id, now: Time, stamp: nat, d: Id)
    requires Live(Store(s, write, sub, now, stamp).data.pages, d) != Live(s.pages, d)
    requires write.Make? ==> write.id !in s.pages
    ensures Wrote(s, write, d, Live(s.pages, d), Live(Store(s, write, sub, now, stamp).data.pages, d))
  {
    match write
    case Make(_, _, _, _, _, _, _, _) =>
    case Change(_, _, _, _, _, _) =>
    case Mark(id, archived) => ArchivePageOutcome(s, id, if archived then Some(now) else None, d);
    case Sync(_, _, _) =>
  }

  lemma OnlyStoresWrite(s: PageModel.State, t: Thread, now: Time, stamp: nat, last: map<Id, nat>)
    requires !t.MayStore?
    ensures Next(s, t, now, stamp, last).data.pages == s.pages
  {
    match t
    case MayRecord(p, sub, _) => RecordKeepsPages(s, p, sub, now);
    case _ =>
  }

  /**
   * Along every interleaving, whatever changes a page is a write by a thread that was entitled to it when it
   * was checked: by an owner or member of the page's workspace, or the collaboration room's own text.
   */
  lemma PageChangesAreEntitled(es: seq<Event>, k: nat, d: Id) returns (i: nat)
    requires Possible(START, es) && k < |es|
    requires Live(At(es, k + 1).data.pages, d) != Live(At(es, k).data.pages, d)
    ensures i < k && es[k].Runs? && es[i].Runs? && es[i].who == es[k].who
    ensures es[k].who in At(es, k).threads && At(es, k).threads[es[k].who].MayStore?
    ensures var t := At(es, k).threads[es[k].who];
            && Entitled(At(es, i).data, t)
            && Wrote(At(es, k).data, t.write, d, Live(At(es, k).data.pages, d), Live(At(es, k + 1).data.pages, d))
  {
    RunAt(START, es, k);
    var w, e := At(es, k), es[k];
    assert e.Runs? && e.who in w.threads;
    StepOf(w, e.who, e.now);
    var t := w.threads[e.who];
    if !t.MayStore? {
      OnlyStoresWrite(w.data, t, e.now, |w.writes|, w.last);
      assert false;
    }
    StoreWrote(w.data, t.write, t.sub, e.now, |w.writes|, d);
    i := EveryWriterIsEntitled(es, k, e.who);
  }
}
