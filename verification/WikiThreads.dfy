/**
 * Wiki requests (apps/api/internal/service/workspace.go and sprints.go) as threads that share
 * the store: each makes its store calls one at a time, and others may run in between.  Writing a
 * page and recording its history are two calls, so records can run in another order than writes.
 */
module WikiThreads {
  import opened Common
  import opened PageTree
  import opened PageHistory
  import opened Roles
  import opened PageModel
  import PageStore
  import WikiModel

  // ---------- requests and threads ----------

  /** Texts and roles are as they reach the service; ids are drawn for new records. */
  datatype Request =
    | WorkspaceReq(sub: Id, wsId: Id)
    | RoleReq(wsId: Id, member: Id, role: Role)
    | CreateReq(sub: Id, wsId: Id, parentId: Id, title: string, body: string, status: string,
                id: Id, collabId: Id, pos: int)
    | UpdateReq(sub: Id, pageId: Id, newTitle: Option<string>, newBody: Option<string>, newStatus: Option<string>,
                newParent: Option<Id>, version: int)
    | RestoreReq(sub: Id, pageId: Id, number: int, version: int)
    | MarkReq(sub: Id, pageId: Id, archived: bool)
    | SyncReq(validRoom: bool, room: Id, plaintext: string, editor: Id)

  /** The store call that a request's checks lead to. */
  datatype Write =
    | Make(wsId: Id, parentId: Id, title: string, body: string, status: string, id: Id, collabId: Id, pos: int)
    | Change(pageId: Id, newTitle: Option<string>, newBody: Option<string>, newStatus: Option<string>,
             newParent: Option<Id>, version: int)
    | Mark(pageId: Id, archived: bool)
    | Sync(room: Id, plaintext: string, target: Id)

  /** Where a request stands; `stamp` is the number of the content write that the page to be recorded shows. */
  datatype Thread =
    | Begun(req: Request)
    | MayCheck(req: Request, wsId: Id)
    | MayFetch(req: Request)
    | MayStore(write: Write, sub: Id)
    | MayReread(pageId: Id, sub: Id)
    | MayRecord(page: Page, sub: Id, stamp: nat)
    | Ended

  // ---------- one store call ----------

  /** `wrote` is the page whose title, body or status the call has written, if any. */
  datatype Effect = Effect(data: State, next: Thread, wrote: Option<Page>)

  function Quiet(s: State, next: Thread): Effect {
    Effect(s, next, None)
  }

  predicate StatusKnown(status: string) {
    status == PAGE_STATUS_DRAFT || status == PAGE_STATUS_PUBLISHED
  }

  function Begin(s: State, req: Request): Effect {
    match req
    case WorkspaceReq(sub, wsId) => Quiet(s.(members := s.members[wsId := map[sub := ROLE_OWNER]]), Ended)
    case RoleReq(wsId, member, role) =>
      Quiet(if wsId in s.members then s.(members := s.members[wsId := s.members[wsId][member := role]]) else s, Ended)
    case CreateReq(sub, wsId, parentId, title, body, status, id, collabId, pos) =>
      var st := if status == "" then PAGE_STATUS_DRAFT else status;
      Quiet(s, if WikiModel.RequireWrite(s, wsId, sub).Some? then Ended
               else if title == "" || ByteLen(title) > WikiModel.MAX_PAGE_TITLE then Ended
               else if ByteLen(body) > WikiModel.MAX_PAGE_BODY || !StatusKnown(st) then Ended
               else MayStore(Make(wsId, parentId, title, body, st, id, collabId, pos), sub))
    case UpdateReq(_, pageId, _, _, _, _, _) =>
      Quiet(s, if pageId !in s.pages then Ended else MayCheck(req, s.pages[pageId].workspaceId))
    case RestoreReq(_, pageId, _, _) =>
      Quiet(s, if pageId !in s.pages then Ended else MayCheck(req, s.pages[pageId].workspaceId))
    case MarkReq(_, pageId, _) =>
      Quiet(s, if pageId !in s.pages then Ended else MayCheck(req, s.pages[pageId].workspaceId))
    case SyncReq(validRoom, room, plaintext, editor) =>
      Quiet(s, if !validRoom || ByteLen(plaintext) > WikiModel.MAX_PAGE_BODY || room !in s.collab then Ended
               else MayStore(Sync(room, plaintext, s.collab[room]), editor))
  }

  /** The role check on a page's workspace, and what the service checks after it. */
  function Check(s: State, req: Request, wsId: Id): Thread {
    match req
    case UpdateReq(sub, pageId, title, body, status, parentId, version) =>
      var t := if title.Some? then Some(TrimSpace(title.value)) else None;
      if WikiModel.RequireWrite(s, wsId, sub).Some? then Ended
      else if t.Some? && (t.value == "" || ByteLen(t.value) > WikiModel.MAX_PAGE_TITLE) then Ended
      else if body.Some? && ByteLen(body.value) > WikiModel.MAX_PAGE_BODY then Ended
      else if status.Some? && !StatusKnown(status.value) then Ended
      else MayStore(Change(pageId, t, body, status, parentId, version), sub)
    case RestoreReq(sub, _, _, _) => if WikiModel.RequireWrite(s, wsId, sub).Some? then Ended else MayFetch(req)
    case MarkReq(sub, pageId, archived) =>
      if WikiModel.RequireWrite(s, wsId, sub).Some? then Ended else MayStore(Mark(pageId, archived), sub)
    case _ => Ended
  }

  ghost function Store(s: State, write: Write, sub: Id, now: Time, stamp: nat): Effect {
    match write
    case Make(wsId, parentId, title, body, status, id, collabId, pos) =>
      var (s', r) := PageModel.CreatePage(s, wsId, parentId, title, body, status, now, id, collabId, pos);
      if r.Ok? then Effect(s', MayRecord(r.value, sub, stamp), Some(r.value)) else Quiet(s', Ended)
    case Change(pageId, title, body, status, parentId, version) =>
      var (s', r) := PageModel.UpdatePage(s, pageId, title, body, status, parentId, version, now);
      if r.Ok? && (title.Some? || body.Some? || status.Some?)
      then Effect(s', MayRecord(r.value, sub, stamp), Some(r.value))
      else Quiet(s', Ended)
    case Mark(pageId, archived) => Quiet(ArchivePage(s, pageId, if archived then Some(now) else None).0, Ended)
    case Sync(room, plaintext, target) =>
      var (s', r) := ApplyCollabSnapshot(s, room, plaintext, now);
      if r.Ok? then Effect(s', MayReread(target, sub), Some(s'.pages[s.collab[room]])) else Quiet(s', Ended)
  }

  /** The next store call of a thread; `stamp` numbers a content write, `last` has each page's latest. */
  ghost function Next(s: State, t: Thread, now: Time, stamp: nat, last: map<Id, nat>): Effect {
    match t
    case Begun(req) => Begin(s, req)
    case MayCheck(req, wsId) => Quiet(s, Check(s, req, wsId))
    case MayFetch(req) =>
      if !req.RestoreReq? then Quiet(s, Ended)
      else
        var v := PageStore.GetVersion(s, req.pageId, req.number);
        Quiet(s, if !v.Ok? then Ended
                 else
                   var x := v.value.snap;
                   Begun(UpdateReq(req.sub, req.pageId, Some(x.title), Some(x.body),
                                   if x.status != "" then Some(x.status) else None, None, req.version)))
    case MayStore(write, sub) => Store(s, write, sub, now, stamp)
    case MayReread(pageId, sub) =>
      Quiet(s, if pageId in s.pages && pageId in last then MayRecord(s.pages[pageId], sub, last[pageId]) else Ended)
    case MayRecord(page, sub, _) => Quiet(WikiModel.Record(s, page, sub, now), Ended)
    case Ended => Quiet(s, Ended)
  }

  // ---------- the world ----------

  /** A content write: the page, and its title, body and status from then on. */
  datatype Written = Written(pageId: Id, snap: Snapshot)

  /** A record that ran, and the content write whose page it carried. */
  datatype Ran = Ran(made: Submission, stamp: nat)

  /** The store, the running requests, all content writes, each page's last one, and each page's records. */
  datatype World = World(data: State, threads: map<nat, Thread>, writes: seq<Written>, last: map<Id, nat>,
                         records: map<Id, seq<Ran>>)

  const START := World(PageModel.EMPTY, map[], [], map[], map[])

  datatype Event = Arrives(who: nat, req: Request) | Runs(who: nat, now: Time)

  function RecordsOf(w: World, d: Id): seq<Ran> {
    if d in w.records then w.records[d] else []
  }

  /** What a call leaves on the books. */
  function Booked(w: World, t: Thread, now: Time, wrote: Option<Page>): World {
    if wrote.Some? then
      w.(writes := w.writes + [Written(wrote.value.id, WikiModel.SnapOf(wrote.value))],
         last := w.last[wrote.value.id := |w.writes|])
    else if t.MayRecord? && t.page.id in w.data.pages then
      var made := Submission(WikiModel.SnapOf(t.page), t.sub, now);
      w.(records := w.records[t.page.id := RecordsOf(w, t.page.id) + [Ran(made, t.stamp)]])
    else w
  }

  ghost function Step(w: World, e: Event): World {
    match e
    case Arrives(who, req) => if who in w.threads then w else w.(threads := w.threads[who := Begun(req)])
    case Runs(who, now) =>
      if who !in w.threads then w
      else
        var o := Next(w.data, w.threads[who], now, |w.writes|, w.last);
        Booked(w, w.threads[who], now, o.wrote).(data := o.data, threads := w.threads[who := o.next])
  }

  /** Ids drawn for a new page and its room are new when they are used. */
  predicate IdsAreNew(w: World, e: Event) {
    e.Runs? && e.who in w.threads && w.threads[e.who].MayStore? && w.threads[e.who].write.Make? ==>
      w.threads[e.who].write.id !in w.data.pages && w.threads[e.who].write.collabId !in w.data.collab
  }

  ghost predicate Possible(w: World, es: seq<Event>)
    decreases |es|
  {
    es == [] || (IdsAreNew(w, es[0]) && Possible(Step(w, es[0]), es[1..]))
  }

  ghost function Run(w: World, es: seq<Event>): World
    decreases |es|
  {
    if es == [] then w else Run(Step(w, es[0]), es[1..])
  }

  // ---------- what every interleaving keeps ----------

  /** The live page shows its last content write. */
  ghost predicate PageFits(w: World, d: Id) {
    && d in w.data.pages && w.data.pages[d].id == d
    && d in w.last && w.last[d] < |w.writes|
    && w.writes[w.last[d]] == Written(d, WikiModel.SnapOf(w.data.pages[d]))
    && forall i :: w.last[d] < i < |w.writes| ==> w.writes[i].pageId != d
  }

  /** What a thread carries is what some content write left. */
  ghost predicate ThreadFits(t: Thread, s: State, writes: seq<Written>) {
    match t
    case MayStore(Sync(room, _, target), _) => room in s.collab && s.collab[room] == target
    case MayReread(d, _) => d in s.pages
    case MayRecord(p, _, k) => p.id in s.pages && k < |writes| && writes[k] == Written(p.id, WikiModel.SnapOf(p))
    case _ => true
  }

  /** The submissions of records. */
  function Subs(recs: seq<Ran>): seq<Submission> {
    if recs == [] then [] else Subs(recs[..|recs| - 1]) + [recs[|recs| - 1].made]
  }

  /** The stored history is what the page's records make, each of which carries some write of the page. */
  ghost predicate HistoryFits(w: World, d: Id) {
    && VersionsOf(w.data, d) == AppendAll(d, [], Subs(RecordsOf(w, d)))
    && forall i {:trigger RecordsOf(w, d)[i]} :: 0 <= i < |RecordsOf(w, d)| ==>
         RecordsOf(w, d)[i].stamp < |w.writes|
             && w.writes[RecordsOf(w, d)[i].stamp] == Written(d, RecordsOf(w, d)[i].made.snap)
  }

  /** The thread is about to record what the page's last write left. */
  predicate Holds(t: Thread, d: Id, k: nat) {
    (t.MayRecord? && t.page.id == d && t.stamp == k) || (t.MayReread? && t.pageId == d)
  }

  /** The record of the page's last write has run, or some thread still holds it. */
  ghost predicate Covered(w: World, d: Id)
    requires d in w.last
  {
    || (exists who {:trigger w.threads[who]} :: who in w.threads && Holds(w.threads[who], d, w.last[d]))
    || (exists i {:trigger RecordsOf(w, d)[i]} :: 0 <= i < |RecordsOf(w, d)| && RecordsOf(w, d)[i].stamp == w.last[d])
  }

  ghost predicate PagesFit(w: World) {
    && w.last.Keys == w.data.pages.Keys && w.records.Keys <= w.data.pages.Keys
    && forall d {:trigger PageFits(w, d)} :: d in w.data.pages ==> PageFits(w, d)
  }

  ghost predicate ThreadsFit(threads: map<nat, Thread>, s: State, writes: seq<Written>) {
    forall k {:trigger threads[k]} :: k in threads ==> ThreadFits(threads[k], s, writes)
  }

  ghost predicate HistoriesFit(w: World) {
    forall d {:trigger HistoryFits(w, d)} :: HistoryFits(w, d)
  }

  ghost predicate AllCovered(w: World) {
    forall d {:trigger Covered(w, d)} :: d in w.last ==> Covered(w, d)
  }

  ghost predicate Inv(w: World) {
    PagesFit(w) && ThreadsFit(w.threads, w.data, w.writes) && HistoriesFit(w) && AllCovered(w)
  }

  lemma StartInv()
    ensures Inv(START)
  {
    forall d ensures HistoryFits(START, d) {
    }
  }

  // ---------- what one call does to pages ----------

  /** No page's title, body or status changes. */
  ghost predicate SameContent(s: State, s': State) {
    && s'.collab == s.collab && s'.pages.Keys == s.pages.Keys
    && forall d {:trigger s'.pages[d]} :: d in s.pages ==>
         s'.pages[d].id == s.pages[d].id && WikiModel.SnapOf(s'.pages[d]) == WikiModel.SnapOf(s.pages[d])
  }

  /** One page is written; rooms keep their pages. */
  ghost predicate OneWritten(s: State, s': State, p: Page) {
    && s'.versions == s.versions && s'.pages == s.pages[p.id := p]
    && forall c :: c in s.collab ==> c in s'.collab && s'.collab[c] == s.collab[c]
  }

  ghost predicate PageIdsOk(s: State) {
    forall d :: d in s.pages ==> s.pages[d].id == d
  }

  /** What a write leaves: one page written and about to be recorded, or nothing. */
  ghost predicate StoreOk(s: State, o: Effect, sub: Id, stamp: nat) {
    if o.wrote.Some? then
      && OneWritten(s, o.data, o.wrote.value)
      && (o.next == MayRecord(o.wrote.value, sub, stamp) || o.next == MayReread(o.wrote.value.id, sub))
    else SameContent(s, o.data) && o.data.versions == s.versions && o.next == Ended
  }

  lemma MakeShape(s: State, write: Write, sub: Id, now: Time, stamp: nat)
    requires write.Make? && write.id !in s.pages && write.collabId !in s.collab
    ensures StoreOk(s, Store(s, write, sub, now, stamp), sub, stamp)
  {
  }

  lemma ChangeShape(s: State, write: Write, sub: Id, now: Time, stamp: nat)
    requires PageIdsOk(s) && write.Change?
    ensures StoreOk(s, Store(s, write, sub, now, stamp), sub, stamp)
  {
  }

  lemma SyncShape(s: State, write: Write, sub: Id, now: Time, stamp: nat)
    requires PageIdsOk(s) && write.Sync? && write.room in s.collab && s.collab[write.room] == write.target
    ensures StoreOk(s, Store(s, write, sub, now, stamp), sub, stamp)
  {
  }

  lemma StoreShape(s: State, write: Write, sub: Id, now: Time, stamp: nat)
    requires PageIdsOk(s)
    requires write.Make? ==> write.id !in s.pages && write.collabId !in s.collab
    requires write.Sync? ==> write.room in s.collab && s.collab[write.room] == write.target
    ensures StoreOk(s, Store(s, write, sub, now, stamp), sub, stamp)
  {
    match write
    case Make(_, _, _, _, _, _, _, _) => MakeShape(s, write, sub, now, stamp);
    case Change(_, _, _, _, _, _) => ChangeShape(s, write, sub, now, stamp);
    case Mark(_, _) =>
    case Sync(_, _, _) => SyncShape(s, write, sub, now, stamp);
  }

  lemma BeginShape(s: State, req: Request)
    ensures var o := Begin(s, req);
            SameContent(s, o.data) && o.data.versions == s.versions && o.wrote.None? && ThreadFits(o.next, s, [])
                && !o.next.MayReread? && !o.next.MayRecord?
  {
  }

  lemma CheckShape(s: State, req: Request, wsId: Id)
    ensures var t := Check(s, req, wsId); ThreadFits(t, s, []) && !t.MayReread? && !t.MayRecord?
  {
  }

  // ---------- the three kinds of step ----------

  lemma ThreadsStayFit(threads: map<nat, Thread>, who: nat, next: Thread, s: State, s': State,
                       writes: seq<Written>, writes': seq<Written>)
    requires ThreadsFit(threads, s, writes) && ThreadFits(next, s', writes')
    requires s.pages.Keys <= s'.pages.Keys && writes <= writes'
    requires forall c :: c in s.collab ==> c in s'.collab && s'.collab[c] == s.collab[c]
    ensures ThreadsFit(threads[who := next], s', writes')
  {
    var threads' := threads[who := next];
    forall k {:trigger threads'[k]} | k in threads' ensures ThreadFits(threads'[k], s', writes') {
      assert k != who ==> ThreadFits(threads[k], s, writes);
    }
  }

  lemma HistoriesStayFit(w: World, w': World)
    requires HistoriesFit(w) && w'.data.versions == w.data.versions && w'.records == w.records && w.writes <= w'.writes
    ensures HistoriesFit(w')
  {
    forall d ensures HistoryFits(w', d) {
      assert HistoryFits(w, d);
      assert RecordsOf(w', d) == RecordsOf(w, d);
    }
  }

  lemma PagesStayFit(w: World, w': World)
    requires PagesFit(w) && SameContent(w.data, w'.data) && w'.last == w.last && w'.writes == w.writes
    requires w'.records.Keys <= w.data.pages.Keys
    ensures PagesFit(w')
  {
    forall d | d in w'.data.pages ensures PageFits(w', d) {
      assert PageFits(w, d);
    }
  }

  lemma WrittenPagesFit(w: World, w': World, p: Page)
    requires PagesFit(w) && OneWritten(w.data, w'.data, p) && w'.records == w.records
    requires w'.last == w.last[p.id := |w.writes|] && w'.writes == w.writes + [Written(p.id, WikiModel.SnapOf(p))]
    ensures PagesFit(w')
  {
    forall d | d in w'.data.pages ensures PageFits(w', d) {
      if d != p.id {
        assert PageFits(w, d);
      }
    }
  }

  /** The holder of a page's last write, if it is not the running thread, still holds it. */
  lemma StaysCovered(w: World, w': World, d: Id, who: nat)
    requires d in w.last && d in w'.last && w'.last[d] == w.last[d] && Covered(w, d)
    requires forall k {:trigger w.threads[k]} :: k in w.threads && k != who ==>
        k in w'.threads && w'.threads[k] == w.threads[k]
    requires RecordsOf(w, d) <= RecordsOf(w', d)
    requires who in w.threads && Holds(w.threads[who], d, w.last[d]) ==>
               || (who in w'.threads && Holds(w'.threads[who], d, w.last[d]))
               || (RecordsOf(w', d) != [] && RecordsOf(w', d)[|RecordsOf(w', d)| - 1].stamp == w.last[d])
    ensures Covered(w', d)
  {
    if who in w.threads && Holds(w.threads[who], d, w.last[d]) {
      if !(who in w'.threads && Holds(w'.threads[who], d, w.last[d])) {
        var i := |RecordsOf(w', d)| - 1;
        assert RecordsOf(w', d)[i].stamp == w'.last[d];
      }
    } else if k :| k in w.threads && Holds(w.threads[k], d, w.last[d]) {
      assert Holds(w'.threads[k], d, w'.last[d]);
    } else {
      var i :| 0 <= i < |RecordsOf(w, d)| && RecordsOf(w, d)[i].stamp == w.last[d];
      assert RecordsOf(w', d)[i] == RecordsOf(w, d)[i];
    }
  }

  lemma QuietCovered(w: World, who: nat, next: Thread, s': State)
    requires AllCovered(w)
    requires who in w.threads ==> forall d :: d in w.last && Holds(w.threads[who], d, w.last[d]) ==>
        Holds(next, d, w.last[d])
    ensures AllCovered(w.(data := s', threads := w.threads[who := next]))
  {
    var w' := w.(data := s', threads := w.threads[who := next]);
    forall d | d in w'.last ensures Covered(w', d) {
      StaysCovered(w, w', d, who);
    }
  }

  /** A step that writes and records nothing. */
  lemma QuietKeepsInv(w: World, who: nat, next: Thread, s': State)
    requires Inv(w) && SameContent(w.data, s') && s'.versions == w.data.versions && ThreadFits(next, s', w.writes)
    requires who in w.threads ==> forall d :: d in w.last && Holds(w.threads[who], d, w.last[d]) ==>
        Holds(next, d, w.last[d])
    ensures Inv(w.(data := s', threads := w.threads[who := next]))
  {
    var w' := w.(data := s', threads := w.threads[who := next]);
    assert PagesFit(w') by { PagesStayFit(w, w'); }
    assert ThreadsFit(w'.threads, s', w.writes) by {
      ThreadsStayFit(w.threads, who, next, w.data, s', w.writes, w.writes);
    }
    assert HistoriesFit(w') by { HistoriesStayFit(w, w'); }
    QuietCovered(w, who, next, s');
  }

  lemma WriteCovered(w: World, w': World, who: nat, p: Page)
    requires AllCovered(w) && who in w.threads && !w.threads[who].MayRecord? && !w.threads[who].MayReread?
    requires w'.records == w.records && w'.last == w.last[p.id := |w.writes|] && who in w'.threads
    requires w'.threads == w.threads[who := w'.threads[who]] && Holds(w'.threads[who], p.id, |w.writes|)
    ensures AllCovered(w')
  {
    forall d | d in w'.last ensures Covered(w', d) {
      if d == p.id {
        assert Holds(w'.threads[who], d, w'.last[d]);
      } else {
        StaysCovered(w, w', d, who);
      }
    }
  }

  /** A content write. */
  lemma WriteKeepsInv(w: World, who: nat, next: Thread, s': State, p: Page)
    requires Inv(w) && OneWritten(w.data, s', p) && who in w.threads
    requires !w.threads[who].MayRecord? && !w.threads[who].MayReread?
    requires Holds(next, p.id, |w.writes|) && (next.MayRecord? ==> next.page == p)
    ensures Inv(w.(data := s', threads := w.threads[who := next], last := w.last[p.id := |w.writes|],
                   writes := w.writes + [Written(p.id, WikiModel.SnapOf(p))]))
  {
    var writes' := w.writes + [Written(p.id, WikiModel.SnapOf(p))];
    var w' := w.(data := s', threads := w.threads[who := next], last := w.last[p.id := |w.writes|], writes := writes');
    assert PagesFit(w') by { WrittenPagesFit(w, w', p); }
    assert ThreadsFit(w'.threads, s', writes') by {
      ThreadsStayFit(w.threads, who, next, w.data, s', w.writes, writes');
    }
    assert HistoriesFit(w') by { HistoriesStayFit(w, w'); }
    WriteCovered(w, w', who, p);
  }

  lemma AppendAllSnoc(d: Id, subs: seq<Submission>, x: Submission)
    ensures AppendAll(d, [], subs + [x]) == Append(d, AppendAll(d, [], subs), x)
  {
    assert (subs + [x])[..|subs|] == subs;
  }

  lemma RecordedHistoryFits(w: World, w': World, d: Id, x: Ran)
    requires HistoryFits(w, d) && w'.writes == w.writes && RecordsOf(w', d) == RecordsOf(w, d) + [x]
    requires x.stamp < |w.writes| && w.writes[x.stamp] == Written(d, x.made.snap)
    requires VersionsOf(w'.data, d) == Append(d, VersionsOf(w.data, d), x.made)
    ensures HistoryFits(w', d)
  {
    AppendAllSnoc(d, Subs(RecordsOf(w, d)), x.made);
  }

  lemma RecordedHistoriesFit(w: World, w': World, p: Page, x: Ran)
    requires HistoriesFit(w) && p.id in w.data.pages && w'.writes == w.writes
    requires x.stamp < |w.writes| && w.writes[x.stamp] == Written(p.id, x.made.snap)
        && x.made.snap == WikiModel.SnapOf(p)
    requires VersionsOf(w'.data, p.id) == Append(p.id, VersionsOf(w.data, p.id), x.made)
    requires forall k {:trigger VersionsOf(w'.data, k)} :: k != p.id ==> VersionsOf(w'.data, k) == VersionsOf(w.data, k)
    requires w'.records == w.records[p.id := RecordsOf(w, p.id) + [x]]
    ensures HistoriesFit(w')
  {
    forall d ensures HistoryFits(w', d) {
      assert HistoryFits(w, d);
      if d == p.id {
        RecordedHistoryFits(w, w', d, x);
      } else {
        assert VersionsOf(w'.data, d) == VersionsOf(w.data, d) && RecordsOf(w', d) == RecordsOf(w, d);
      }
    }
  }

  lemma RecordCovered(w: World, w': World, who: nat, x: Ran)
    requires AllCovered(w) && who in w.threads && w.threads[who].MayRecord? && x.stamp == w.threads[who].stamp
    requires w'.last == w.last && w'.threads == w.threads[who := Ended]
    requires var d := w.threads[who].page.id; w'.records == w.records[d := RecordsOf(w, d) + [x]]
    ensures AllCovered(w')
  {
    forall d | d in w'.last ensures Covered(w', d) {
      StaysCovered(w, w', d, who);
    }
  }

  /** A record that runs. */
  lemma RecordKeepsInv(w: World, who: nat, now: Time)
    requires Inv(w) && who in w.threads && w.threads[who].MayRecord?
    ensures Inv(Step(w, Runs(who, now)))
  {
    var t := w.threads[who];
    assert ThreadFits(t, w.data, w.writes);
    var x := Ran(Submission(WikiModel.SnapOf(t.page), t.sub, now), t.stamp);
    var s' := WikiModel.Record(w.data, t.page, t.sub, now);
    var w' := w.(data := s', threads := w.threads[who := Ended],
                 records := w.records[t.page.id := RecordsOf(w, t.page.id) + [x]]);
    assert Step(w, Runs(who, now)) == w';
    WikiModel.RecordEffect(w.data, t.page, t.sub, now);
    assert PagesFit(w') by { PagesStayFit(w, w'); }
    assert ThreadsFit(w'.threads, s', w.writes) by {
      ThreadsStayFit(w.threads, who, Ended, w.data, s', w.writes, w.writes);
    }
    assert HistoriesFit(w') by { RecordedHistoriesFit(w, w', t.page, x); }
    RecordCovered(w, w', who, x);
  }

  lemma StepKeepsInv(w: World, e: Event)
    requires Inv(w) && IdsAreNew(w, e)
    ensures Inv(Step(w, e))
  {
    if e.Arrives? && e.who !in w.threads {
      QuietKeepsInv(w, e.who, Begun(e.req), w.data);
      assert w.(data := w.data, threads := w.threads[e.who := Begun(e.req)]) == Step(w, e);
    } else if e.Runs? && e.who in w.threads {
      RunningKeepsInv(w, e.who, e.now);
    }
  }

  lemma StoringKeepsInv(w: World, who: nat, now: Time)
    requires Inv(w) && who in w.threads && w.threads[who].MayStore? && IdsAreNew(w, Runs(who, now))
    ensures Inv(Step(w, Runs(who, now)))
  {
    var t := w.threads[who];
    var o := Store(w.data, t.write, t.sub, now, |w.writes|);
    assert ThreadFits(t, w.data, w.writes);
    assert StoreOk(w.data, o, t.sub, |w.writes|) by {
      forall d | d in w.data.pages ensures w.data.pages[d].id == d {
        assert PageFits(w, d);
      }
      StoreShape(w.data, t.write, t.sub, now, |w.writes|);
    }
    if o.wrote.Some? {
      WriteKeepsInv(w, who, o.next, o.data, o.wrote.value);
    } else {
      QuietKeepsInv(w, who, o.next, o.data);
    }
  }

  /** Every call but a write and a record leaves pages and histories alone, and keeps what the thread holds. */
  lemma QuietShape(w: World, t: Thread, now: Time)
    requires PagesFit(w) && ThreadFits(t, w.data, w.writes) && !t.MayStore? && !t.MayRecord?
    ensures var o := Next(w.data, t, now, |w.writes|, w.last);
            && SameContent(w.data, o.data) && o.data.versions == w.data.versions && o.wrote.None?
            && ThreadFits(o.next, o.data, w.writes)
            && (forall d :: d in w.last && Holds(t, d, w.last[d]) ==> Holds(o.next, d, w.last[d]))
  {
    match t
    case Begun(req) => BeginShape(w.data, req);
    case MayCheck(req, wsId) => CheckShape(w.data, req, wsId);
    case MayReread(d, sub) => assert PageFits(w, d);
    case _ =>
  }

  lemma RunningKeepsInv(w: World, who: nat, now: Time)
    requires Inv(w) && who in w.threads && IdsAreNew(w, Runs(who, now))
    ensures Inv(Step(w, Runs(who, now)))
  {
    var t := w.threads[who];
    if t.MayRecord? {
      RecordKeepsInv(w, who, now);
    } else if t.MayStore? {
      StoringKeepsInv(w, who, now);
    } else {
      var o := Next(w.data, t, now, |w.writes|, w.last);
      assert ThreadFits(t, w.data, w.writes);
      QuietShape(w, t, now);
      QuietKeepsInv(w, who, o.next, o.data);
    }
  }

  // ---------- every interleaving ----------

  function LastStamp(recs: seq<Ran>): nat
    requires recs != []
  {
    recs[|recs| - 1].stamp
  }

  lemma {:induction false} RunKeepsInv(w: World, es: seq<Event>)
    requires Inv(w) && Possible(w, es)
    ensures Inv(Run(w, es))
    decreases |es|
  {
    if es != [] {
      StepKeepsInv(w, es[0]);
      RunKeepsInv(Step(w, es[0]), es[1..]);
    }
  }

  /**
   * In every interleaving a page's stored history is the window of the log of its records.  The
   * live page shows its last content write; the newest entry shows the write that the last record
   * carried.  The two agree if and only if that is the same write, or one with the same title, body and status.
   */
  lemma EveryInterleaving(w: World, es: seq<Event>, d: Id)
    requires Inv(w) && Possible(w, es)
    ensures Inv(Run(w, es))
    ensures var w' := Run(w, es);
            d in w'.data.pages ==>
              var vers, recs, live := VersionsOf(w'.data, d), RecordsOf(w', d), WikiModel.SnapOf(w'.data.pages[d]);
              && vers == Window(Log(d, Subs(recs)))
              && d in w'.last && w'.last[d] < |w'.writes| && w'.writes[w'.last[d]] == Written(d, live)
              && (forall i :: w'.last[d] < i < |w'.writes| ==> w'.writes[i].pageId != d)
              && (vers == [] <==> recs == [])
              && (recs != [] ==>
                    && LastStamp(recs) <= w'.last[d] && w'.writes[LastStamp(recs)] == Written(d, vers[|vers| - 1].snap)
                    && (vers[|vers| - 1].snap == live
                        <==> LastStamp(recs) == w'.last[d] || w'.writes[LastStamp(recs)] == w'.writes[w'.last[d]]))
  {
    RunKeepsInv(w, es);
    if d in Run(w, es).data.pages {
      NewestIsLastRecord(Run(w, es), d);
    }
  }

  lemma NewestIsLastRecord(w: World, d: Id)
    requires Inv(w) && d in w.data.pages
    ensures var vers, recs := VersionsOf(w.data, d), RecordsOf(w, d);
            && PageFits(w, d)
            && vers == Window(Log(d, Subs(recs))) && (vers == [] <==> recs == [])
            && (recs != [] ==>
                  && LastStamp(recs) < |w.writes| && LastStamp(recs) <= w.last[d]
                  && w.writes[LastStamp(recs)] == Written(d, vers[|vers| - 1].snap))
  {
    var recs := RecordsOf(w, d);
    assert PageFits(w, d) && HistoryFits(w, d);
    StoredIsWindow(d, Subs(recs));
    LogIsLog(d, Subs(recs));
    if recs != [] {
      assert recs[|recs| - 1].stamp < |w.writes|;
    }
  }

  /** Some thread has written the page, or is carrying it, and has not recorded it yet. */
  ghost predicate InFlight(w: World, d: Id) {
    exists who :: who in w.threads &&
      ((w.threads[who].MayRecord? && w.threads[who].page.id == d)
       || (w.threads[who].MayReread? && w.threads[who].pageId == d))
  }

  /** The page's records have run in the order of the writes they carry. */
  ghost predicate InOrder(recs: seq<Ran>) {
    forall i, j :: 0 <= i < j < |recs| ==> recs[i].stamp <= recs[j].stamp
  }

  /** Once no record of a page is outstanding, its newest entry is the live page unless records overtook one another. */
  lemma SettledInOrderAgrees(w: World, es: seq<Event>, d: Id)
    requires Inv(w) && Possible(w, es)
    requires var w' := Run(w, es); d in w'.data.pages && !InFlight(w', d) && InOrder(RecordsOf(w', d))
    ensures var w' := Run(w, es);
            var vers := VersionsOf(w'.data, d);
            vers != [] && vers[|vers| - 1].snap == WikiModel.SnapOf(w'.data.pages[d])
  {
    RunKeepsInv(w, es);
    var w' := Run(w, es);
    NewestIsLastRecord(w', d);
    assert Covered(w', d);
    var recs := RecordsOf(w', d);
    var i :| 0 <= i < |recs| && recs[i].stamp == w'.last[d];
    assert recs[i].stamp <= LastStamp(recs);
  }

  // ---------- records that overtake one another ----------

  lemma {:induction false} RunJoin(w: World, a: seq<Event>, b: seq<Event>)
    ensures Run(w, a + b) == Run(Run(w, a), b)
    ensures Possible(w, a) && Possible(Run(w, a), b) ==> Possible(w, a + b)
    decreases |a|
  {
    if a == [] {
      assert a + b == b;
    } else {
      RunJoin(Step(w, a[0]), a[1..], b);
      assert (a + b)[1..] == a[1..] + b && (a + b)[0] == a[0];
    }
  }

  lemma RunOne(w: World, e: Event, rest: seq<Event>)
    ensures Run(w, [e] + rest) == Run(Step(w, e), rest)
    ensures IdsAreNew(w, e) && Possible(Step(w, e), rest) ==> Possible(w, [e] + rest)
  {
    assert ([e] + rest)[1..] == rest;
  }

  function BodyChange(d: Id, body: string, version: int): Write {
    Change(d, None, Some(body), None, None, version)
  }

  /** A request to change a page's body arrives and passes its checks. */
  lemma ReadyRun(w: World, who: nat, sub: Id, d: Id, body: string, version: int) returns (es: seq<Event>)
    requires who !in w.threads && d in w.data.pages && ByteLen(body) <= WikiModel.MAX_PAGE_BODY
    requires WikiModel.RequireWrite(w.data, w.data.pages[d].workspaceId, sub) == None
    ensures Possible(w, es)
    ensures Run(w, es) == w.(threads := w.threads[who := MayStore(BodyChange(d, body, version), sub)])
  {
    var req := UpdateReq(sub, d, None, Some(body), None, None, version);
    var w1 := Step(w, Arrives(who, req));
    var w2 := Step(w1, Runs(who, 0));
    assert w2.threads[who] == MayCheck(req, w.data.pages[d].workspaceId);
    var w3 := Step(w2, Runs(who, 0));
    var goal := w.(threads := w.threads[who := MayStore(BodyChange(d, body, version), sub)]);
    assert w3 == goal by {
      assert w3.threads == goal.threads;
    }
    es := [Arrives(who, req)] + ([Runs(who, 0)] + ([Runs(who, 0)] + []));
    RunOne(w, Arrives(who, req), [Runs(who, 0)] + ([Runs(who, 0)] + []));
    RunOne(w1, Runs(who, 0), [Runs(who, 0)] + []);
    RunOne(w2, Runs(who, 0), []);
    assert Run(w3, []) == w3 && Possible(w3, []);
  }

  lemma WritingStep(w: World, who: nat, sub: Id, d: Id, body: string)
    requires PageFits(w, d) && who in w.threads
    requires w.threads[who] == MayStore(BodyChange(d, body, w.data.pages[d].version), sub)
    ensures var p := w.data.pages[d].(body := body, version := w.data.pages[d].version + 1, updatedAt := 0);
            var w' := Step(w, Runs(who, 0));
            && IdsAreNew(w, Runs(who, 0)) && w'.data == w.data.(pages := w.data.pages[d := p])
            && w'.threads == w.threads[who := MayRecord(p, sub, |w.writes|)]
  {
  }

  lemma RecordingStep(w: World, who: nat, p: Page, sub: Id, k: nat)
    requires who in w.threads && w.threads[who] == MayRecord(p, sub, k) && p.id in w.data.pages
    ensures var w' := Step(w, Runs(who, 0));
            && IdsAreNew(w, Runs(who, 0)) && w'.data.pages == w.data.pages && w'.threads == w.threads[who := Ended]
            && VersionsOf(w'.data, p.id)
                == Append(p.id, VersionsOf(w.data, p.id), Submission(WikiModel.SnapOf(p), sub, 0))
  {
    WikiModel.RecordEffect(w.data, p, sub, 0);
  }

  lemma NewestAppended(d: Id, vers: seq<PageVersion>, x: Submission)
    ensures var r := Append(d, vers, x); r != [] && r[|r| - 1].snap == x.snap
  {
  }

  /** The live page has the one text and its newest entry the other. */
  ghost predicate Disagrees(w: World, d: Id, newest: string, live: string) {
    var vers := VersionsOf(w.data, d);
    d in w.data.pages && w.data.pages[d].body == live && vers != [] && vers[|vers| - 1].snap.body == newest
  }

  lemma FourSteps(w: World, a: Event, b: Event, c: Event, e: Event) returns (es: seq<Event>)
    requires IdsAreNew(w, a) && IdsAreNew(Step(w, a), b) && IdsAreNew(Step(Step(w, a), b), c)
    requires IdsAreNew(Step(Step(Step(w, a), b), c), e)
    ensures Possible(w, es) && Run(w, es) == Step(Step(Step(Step(w, a), b), c), e)
  {
    var w1 := Step(w, a);
    var w2 := Step(w1, b);
    var w3 := Step(w2, c);
    var w4 := Step(w3, e);
    es := [a] + ([b] + ([c] + ([e] + [])));
    RunOne(w, a, [b] + ([c] + ([e] + [])));
    RunOne(w1, b, [c] + ([e] + []));
    RunOne(w2, c, [e] + []);
    RunOne(w3, e, []);
    assert Run(w4, []) == w4 && Possible(w4, []);
  }

  /** Two writes follow one another; the second writer records first. */
  lemma CrossingRun(w: World, a: nat, b: nat, sub: Id, d: Id, x: string, y: string) returns (es: seq<Event>)
    requires Inv(w) && a != b && a in w.threads && b in w.threads && d in w.data.pages
    requires w.threads[a] == MayStore(BodyChange(d, x, w.data.pages[d].version), sub)
    requires w.threads[b] == MayStore(BodyChange(d, y, w.data.pages[d].version + 1), sub)
    ensures Possible(w, es) && Disagrees(Run(w, es), d, x, y)
  {
    assert PageFits(w, d);
    var w1 := Step(w, Runs(a, 0));
    WritingStep(w, a, sub, d, x);
    var p := w1.data.pages[d];
    assert PageFits(w1, d) by {
      StepKeepsInv(w, Runs(a, 0));
    }
    var w2 := Step(w1, Runs(b, 0));
    WritingStep(w1, b, sub, d, y);
    var w3 := Step(w2, Runs(b, 0));
    RecordingStep(w2, b, w2.data.pages[d], sub, |w1.writes|);
    RecordingStep(w3, a, p, sub, |w.writes|);
    NewestAppended(d, VersionsOf(w3.data, d), Submission(WikiModel.SnapOf(p), sub, 0));
    es := FourSteps(w, Runs(a, 0), Runs(b, 0), Runs(b, 0), Runs(a, 0));
  }

  /**
   * From any reachable world, for any page and any two different texts: two requests of a writer
   * can both be accepted and recorded, and leave the first one's text newest and the second one's live.
   */
  lemma CrossedRecordsDisagree(w: World, a: nat, b: nat, sub: Id, d: Id, x: string, y: string) returns (es: seq<Event>)
    requires Inv(w) && a != b && a !in w.threads && b !in w.threads && d in w.data.pages && x != y
    requires WikiModel.RequireWrite(w.data, w.data.pages[d].workspaceId, sub) == None
    requires ByteLen(x) <= WikiModel.MAX_PAGE_BODY && ByteLen(y) <= WikiModel.MAX_PAGE_BODY
    ensures Possible(w, es) && Disagrees(Run(w, es), d, x, y)
  {
    var v := w.data.pages[d].version;
    var first := ReadyRun(w, a, sub, d, x, v);
    var w1 := Run(w, first);
    var second := ReadyRun(w1, b, sub, d, y, v + 1);
    var w2 := Run(w1, second);
    assert Inv(w2) by {
      RunKeepsInv(w, first);
      RunKeepsInv(w1, second);
    }
    var third := CrossingRun(w2, a, b, sub, d, x, y);
    JoinThree(w, first, second, third);
    es := first + (second + third);
  }

  lemma JoinThree(w: World, a: seq<Event>, b: seq<Event>, c: seq<Event>)
    requires Possible(w, a) && Possible(Run(w, a), b) && Possible(Run(Run(w, a), b), c)
    ensures Possible(w, a + (b + c)) && Run(w, a + (b + c)) == Run(Run(Run(w, a), b), c)
  {
    RunJoin(Run(w, a), b, c);
    RunJoin(w, a, b + c);
  }

  // ---------- a request on its own ----------

  /** Calls still to come, at most. */
  function Rank(t: Thread): nat {
    match t
    case Begun(req) => if req.RestoreReq? then 8 else 5
    case MayCheck(req, _) => if req.RestoreReq? then 7 else 4
    case MayFetch(_) => 6
    case MayStore(_, _) => 3
    case MayReread(_, _) => 2
    case MayRecord(_, _, _) => 1
    case Ended => 0
  }

  lemma NextLowersRank(s: State, t: Thread, now: Time, stamp: nat, last: map<Id, nat>)
    requires t != Ended
    ensures Rank(Next(s, t, now, stamp, last).next) < Rank(t)
  {
    match t
    case MayStore(write, sub) => if write.Make? {} else if write.Change? {} else if write.Sync? {}
    case MayCheck(req, _) => if req.UpdateReq? {} else if req.MarkReq? {}
    case Begun(req) => if req.CreateReq? {} else if req.SyncReq? {}
    case _ =>
  }

  /** A request carried through with nothing in between. */
  ghost function Finish(s: State, t: Thread, now: Time): State
    decreases Rank(t)
  {
    if t == Ended then s
    else
      var last := map d | d in s.pages :: 0;
      NextLowersRank(s, t, now, 0, last);
      var o := Next(s, t, now, 0, last);
      Finish(o.data, o.next, now)
  }

  lemma FinishStep(s: State, t: Thread, now: Time)
    requires t != Ended
    ensures var o := Next(s, t, now, 0, map d | d in s.pages :: 0); Finish(s, t, now) == Finish(o.data, o.next, now)
  {
  }

  lemma RecordAlone(s: State, p: Page, sub: Id, k: nat, now: Time)
    ensures Finish(s, MayRecord(p, sub, k), now) == WikiModel.Record(s, p, sub, now)
  {
    FinishStep(s, MayRecord(p, sub, k), now);
  }

  lemma StoreAlone(s: State, write: Write, sub: Id, now: Time)
    requires !write.Sync?
    ensures var o := Store(s, write, sub, now, 0);
            Finish(s, MayStore(write, sub), now)
            == (if o.next.MayRecord? then WikiModel.Record(o.data, o.next.page, sub, now) else o.data)
  {
    FinishStep(s, MayStore(write, sub), now);
    var o := Store(s, write, sub, now, 0);
    if o.next.MayRecord? {
      RecordAlone(o.data, o.next.page, sub, o.next.stamp, now);
    }
  }

  /** An update carried through alone is the update request. */
  lemma UpdateAlone(s: State, sub: Id, d: Id, title: Option<string>, body: Option<string>, status: Option<string>,
                    parent: Option<Id>, version: int, now: Time)
    ensures Finish(s, Begun(UpdateReq(sub, d, title, body, status, parent, version)), now)
         == WikiModel.UpdatePage(s, sub, d, title, body, status, parent, version, now).0
  {
    var req := UpdateReq(sub, d, title, body, status, parent, version);
    FinishStep(s, Begun(req), now);
    if d in s.pages {
      FinishStep(s, MayCheck(req, s.pages[d].workspaceId), now);
      var t := Check(s, req, s.pages[d].workspaceId);
      if t.MayStore? {
        StoreAlone(s, t.write, sub, now);
      }
    }
  }

  /** A creation carried through alone is the creation request. */
  lemma CreateAlone(s: State, sub: Id, wsId: Id, parentId: Id, title: string, body: string, status: string,
                    id: Id, collabId: Id, pos: int, now: Time)
    ensures Finish(s, Begun(CreateReq(sub, wsId, parentId, title, body, status, id, collabId, pos)), now)
         == WikiModel.CreatePage(s, sub, wsId, parentId, title, body, status, now, id, collabId, pos).0
  {
    var req := CreateReq(sub, wsId, parentId, title, body, status, id, collabId, pos);
    FinishStep(s, Begun(req), now);
    var t := Begin(s, req).next;
    if t.MayStore? {
      StoreAlone(s, t.write, sub, now);
    }
  }

  /** A snapshot carried through alone is the snapshot request. */
  lemma SyncAlone(s: State, validRoom: bool, room: Id, plaintext: string, editor: Id, now: Time)
    ensures Finish(s, Begun(SyncReq(validRoom, room, plaintext, editor)), now)
         == WikiModel.ApplySnapshot(s, validRoom, room, plaintext, editor, now).0
  {
    var req := SyncReq(validRoom, room, plaintext, editor);
    FinishStep(s, Begun(req), now);
    var t := Begin(s, req).next;
    if t.MayStore? {
      FinishStep(s, t, now);
      var o := Store(s, t.write, editor, now, 0);
      if o.next.MayReread? {
        FinishStep(o.data, o.next, now);
        RecordAlone(o.data, o.data.pages[t.write.target], editor, 0, now);
      }
    }
  }

  /** A restore carried through alone is the restore request. */
  lemma RestoreAlone(s: State, sub: Id, d: Id, number: int, version: int, now: Time)
    ensures Finish(s, Begun(RestoreReq(sub, d, number, version)), now)
         == WikiModel.RestorePageVersion(s, sub, d, number, version, now).0
  {
    var req := RestoreReq(sub, d, number, version);
    FinishStep(s, Begun(req), now);
    if d in s.pages {
      FinishStep(s, MayCheck(req, s.pages[d].workspaceId), now);
      if WikiModel.RequireWrite(s, s.pages[d].workspaceId, sub).None? {
        FinishStep(s, MayFetch(req), now);
        var v := PageStore.GetVersion(s, d, number);
        if v.Ok? {
          var x := v.value.snap;
          UpdateAlone(s, sub, d, Some(x.title), Some(x.body), if x.status != "" then Some(x.status) else None,
                      None, version, now);
        }
      }
    }
  }
}
