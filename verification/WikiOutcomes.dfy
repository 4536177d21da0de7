/** What each wiki request answers and changes, said without the functions that compute it. */
module WikiOutcomes {
  import opened Common
  import opened Forest
  import opened PageTree
  import opened PageHistory
  import opened Roles
  import opened PageModel
  import PageStore
  import WikiModel

  /** Owners and members write; guests and strangers do not. */
  predicate MayWrite(s: State, wsId: Id, sub: Id) {
    && wsId in s.members && sub in s.members[wsId]
    && (s.members[wsId][sub] == "owner" || s.members[wsId][sub] == "member")
  }

  lemma WritersAre(s: State, wsId: Id, sub: Id)
    ensures WikiModel.RequireWrite(s, wsId, sub) == None <==> MayWrite(s, wsId, sub)
  {
  }

  /** The parent can be had: none at all, or a page of the workspace that is not the page nor below it. */
  ghost predicate ParentFits(s: State, pageId: Id, wsId: Id, parentId: Id) {
    || parentId == ""
    || (&& parentId in s.pages && s.pages[parentId].workspaceId == wsId
        && parentId != pageId && !Below(ParentsOf(s.pages), parentId, pageId))
  }

  // ---------- the store call ----------

  /**
   * The optimistic lock: an update goes through exactly for a known page, its current lock version and a
   * fitting parent.  Any other version of the page hands back the stored page and changes nothing.
   */
  lemma UpdatePageOutcome(s: State, pageId: Id, title: Option<string>, body: Option<string>, status: Option<string>,
                          parentId: Option<Id>, version: int, now: Time)
    requires ForestInv(s)
    ensures var (s', r) := UpdatePage(s, pageId, title, body, status, parentId, version, now);
            && (r.Ok? <==>
                  && pageId in s.pages && s.pages[pageId].version == version
                  && (parentId.Some? ==> ParentFits(s, pageId, s.pages[pageId].workspaceId, parentId.value)))
            && (!r.Ok? ==> s' == s)
            && (pageId !in s.pages ==> r == Err(NotFound))
            && (pageId in s.pages && s.pages[pageId].version != version ==> r == Stale(s.pages[pageId]))
            && (r.Ok? ==>
                  var was := s.pages[pageId];
                  && s' == s.(pages := s.pages[pageId := r.value])
                  && r.value == was.(title := r.value.title, body := r.value.body, status := r.value.status,
                                     parentId := r.value.parentId, version := version + 1, updatedAt := now)
                  && r.value.title == (if title.Some? then title.value else was.title)
                  && r.value.body == (if body.Some? then body.value else was.body)
                  && r.value.status == (if status.Some? then status.value else was.status)
                  && r.value.parentId == (if parentId.Some? then parentId.value else was.parentId))
  {
    if pageId in s.pages && parentId.Some? {
      ParentCheckExact(s, pageId, s.pages[pageId].workspaceId, parentId.value);
    }
  }

  /** A page goes in exactly for a known workspace and a fitting parent, at lock version 1 and not archived. */
  lemma CreatePageOutcome(s: State, wsId: Id, parentId: Id, title: string, body: string, status: string,
                          now: Time, id: Id, collabId: Id, pos: int)
    requires ForestInv(s)
    ensures var (s', r) := CreatePage(s, wsId, parentId, title, body, status, now, id, collabId, pos);
            && (r.Ok? <==> wsId in s.members
                           && (parentId == "" || (parentId in s.pages && s.pages[parentId].workspaceId == wsId)))
            && (!r.Ok? ==> s' == s)
            && (r.Ok? ==>
                  && r.value == Page(id, wsId, parentId, title, body, status, pos, 1, collabId, now, now, None)
                  && s' == s.(pages := s.pages[id := r.value], collab := s.collab[collabId := id]))
  {
    ParentCheckExact(s, "", wsId, parentId);
  }

  /** Archiving marks, and unarchiving clears, the page and everything whose chain passes it, and nothing else. */
  lemma ArchivePageOutcome(s: State, pageId: Id, mark: Option<Time>, d: Id)
    requires d in s.pages
    ensures var (s', r) := ArchivePage(s, pageId, mark);
            && (r.Ok? <==> pageId in s.pages) && (!r.Ok? ==> s' == s && r == Err(NotFound))
            && s' == s.(pages := s'.pages) && s'.pages.Keys == s.pages.Keys
            && (r.Ok? && (d == pageId || Below(ParentsOf(s.pages), d, pageId)) ==>
                  s'.pages[d] == s.pages[d].(archivedAt := mark))
            && (r.Ok? && d != pageId && !Below(ParentsOf(s.pages), d, pageId) ==> s'.pages[d] == s.pages[d])
  {
    AtOrBelowIff(ParentsOf(s.pages), d, pageId);
  }

  // ---------- the requests ----------

  /** The texts a page may take: a title of 1 to 160 bytes, a body of at most 100000, one of two statuses. */
  predicate TextsFit(title: Option<string>, body: Option<string>, status: Option<string>) {
    && (title.Some? ==> title.value != "" && ByteLen(title.value) <= 160)
    && (body.Some? ==> ByteLen(body.value) <= 100000)
    && (status.Some? ==> status.value == "draft" || status.value == "published")
  }

  function Trim(title: Option<string>): Option<string> {
    if title.Some? then Some(TrimSpace(title.value)) else None
  }

  /**
   * An update request is accepted exactly from a writer of the page's workspace, with texts that fit,
   * at the current lock version, and with a parent that fits.  With the rest in order, a stale version
   * is answered with the stored page.
   */
  lemma UpdateAcceptedIff(s: State, sub: Id, pageId: Id, title: Option<string>, body: Option<string>,
                          status: Option<string>, parentId: Option<Id>, version: int, now: Time)
    requires ForestInv(s)
    ensures var (s', r) := WikiModel.UpdatePage(s, sub, pageId, title, body, status, parentId, version, now);
            && (r.Ok? <==>
                  && pageId in s.pages && MayWrite(s, s.pages[pageId].workspaceId, sub)
                  && TextsFit(Trim(title), body, status) && s.pages[pageId].version == version
                  && (parentId.Some? ==> ParentFits(s, pageId, s.pages[pageId].workspaceId, parentId.value)))
            && (!r.Ok? ==> s' == s)
            && (pageId in s.pages && s.pages[pageId].version != version ==> !r.Ok?)
            && (pageId in s.pages && MayWrite(s, s.pages[pageId].workspaceId, sub)
                && TextsFit(Trim(title), body, status) && s.pages[pageId].version != version ==>
                  r == Stale(s.pages[pageId]))
            && (r.Ok? ==>
                  && pageId in s'.pages && s'.pages == s.pages[pageId := r.value]
                  && r.value.version == version + 1 && r.value.updatedAt == now
                  && r.value.title == (if title.Some? then TrimSpace(title.value) else s.pages[pageId].title)
                  && r.value.body == (if body.Some? then body.value else s.pages[pageId].body)
                  && r.value.status == (if status.Some? then status.value else s.pages[pageId].status)
                  && r.value.parentId == (if parentId.Some? then parentId.value else s.pages[pageId].parentId))
  {
    if pageId in s.pages {
      WritersAre(s, s.pages[pageId].workspaceId, sub);
      UpdatePageOutcome(s, pageId, Trim(title), body, status, parentId, version, now);
      var r := WikiModel.UpdatePage(s, sub, pageId, title, body, status, parentId, version, now).1;
      if r.Ok? {
        assert PageOk(s, pageId);
        WikiModel.RecordEffect(UpdatePage(s, pageId, Trim(title), body, status, parentId, version, now).0,
                               r.value, sub, now);
      }
    }
  }

  /**
   * A creation request is accepted exactly from a writer, with texts that fit and a fitting parent; the page
   * starts as a draft unless told otherwise.
   */
  lemma CreateAcceptedIff(s: State, sub: Id, wsId: Id, parentId: Id, title: string, body: string, status: string,
                          now: Time, id: Id, collabId: Id, pos: int)
    requires ForestInv(s) && id != "" && id !in s.pages
    ensures var (s', r) :=
              WikiModel.CreatePage(s, sub, wsId, parentId, title, body, status, now, id, collabId, pos);
            var st := if status == "" then "draft" else status;
            && (r.Ok? <==>
                  && MayWrite(s, wsId, sub) && TextsFit(Some(title), Some(body), Some(st))
                  && (parentId == "" || (parentId in s.pages && s.pages[parentId].workspaceId == wsId)))
            && (!r.Ok? ==> s' == s)
            && (r.Ok? ==>
                  && r.value == Page(id, wsId, parentId, title, body, st, pos, 1, collabId, now, now, None)
                  && s'.pages == s.pages[id := r.value])
  {
    var st := if status == "" then "draft" else status;
    WritersAre(s, wsId, sub);
    CreatePageOutcome(s, wsId, parentId, title, body, st, now, id, collabId, pos);
    var r := WikiModel.CreatePage(s, sub, wsId, parentId, title, body, status, now, id, collabId, pos).1;
    if r.Ok? {
      WikiModel.RecordEffect(CreatePage(s, wsId, parentId, title, body, st, now, id, collabId, pos).0,
                             r.value, sub, now);
    }
  }

  /** A snapshot is taken exactly from a known room, if short enough; it replaces the body and not the lock version. */
  lemma SnapshotAcceptedIff(s: State, validRoom: bool, room: Id, plaintext: string, editor: Id, now: Time)
    ensures var (s', r) := WikiModel.ApplySnapshot(s, validRoom, room, plaintext, editor, now);
            && (r.Ok? <==> validRoom && ByteLen(plaintext) <= 100000 && room in s.collab && s.collab[room] in s.pages)
            && (!r.Ok? ==> s' == s)
            && (r.Ok? ==>
                  var d := s.collab[room];
                  s'.pages == s.pages[d := s.pages[d].(body := plaintext, updatedAt := now)])
  {
  }

  /** Only a writer restores, only a version that is kept, and only at the current lock version. */
  lemma RestoreNeeds(s: State, sub: Id, pageId: Id, number: int, lockVersion: int, now: Time)
    requires ForestInv(s)
    ensures var (s', r) := WikiModel.RestorePageVersion(s, sub, pageId, number, lockVersion, now);
            && (r.Ok? ==>
                  && pageId in s.pages && MayWrite(s, s.pages[pageId].workspaceId, sub)
                  && PageStore.GetVersion(s, pageId, number).Ok? && s.pages[pageId].version == lockVersion)
            && (!r.Ok? ==> s' == s)
  {
    if pageId in s.pages {
      WritersAre(s, s.pages[pageId].workspaceId, sub);
      var v := PageStore.GetVersion(s, pageId, number);
      if v.Ok? {
        var x := v.value.snap;
        UpdateAcceptedIff(s, sub, pageId, Some(x.title), Some(x.body), if x.status != "" then Some(x.status) else None,
                          None, lockVersion, now);
      }
    }
  }
}
