/**
 * Membership and invitation requests (apps/api/internal/service/workspace.go) as threads that
 * share the store: each makes its store calls one at a time, and others may run in between.
 */
module Membership {
  import opened Common
  import opened Roles
  import opened MemberCalls

  const MAX_INVITE_USES := 100
  const HOUR: int := 3_600_000_000_000
  const MAX_TTL_HOURS := 24 * 14

  // ---------- requests and threads ----------

  /** E-mail addresses are taken as already normalised; a token is the id of the invitation it opens. */
  datatype Request =
    | CreateWorkspaceReq(owner: Id, name: string, wsId: Id)
    | AddMemberReq(actor: Id, wsId: Id, target: Id, role: Role)
    | UpdateRoleReq(actor: Id, wsId: Id, target: Id, role: Role)
    | RemoveReq(actor: Id, wsId: Id, target: Id)
    | LeaveReq(actor: Id, wsId: Id)
    | InviteReq(actor: Id, wsId: Id, role: Role, email: string, maxUses: int, ttlHours: int, newId: Id)
    | ResendReq(actor: Id, wsId: Id, inviteId: Id, newId: Id)
    | RevokeReq(actor: Id, wsId: Id, inviteId: Id)
    | PolicyReq(actor: Id, wsId: Id, inviteId: Id, newRole: Option<Role>, newEmail: Option<string>,
                newMax: Option<int>, newTtl: Option<int>)
    | AcceptReq(actor: Id, email: string, token: Id)

  datatype Policy = Policy(role: Role, email: string, maxUses: int, expiresAt: Time)

  datatype Answer = Done | Failed(error: Error)

  /** Where a request stands; each state but `Ended` makes one more store call. */
  datatype Thread =
    | Begun(req: Request)
    | MayAdd(wsId: Id, target: Id, role: Role)
    | MayRead(wsId: Id, target: Id, change: Change)
    | HasRead(wsId: Id, target: Id, change: Change, wasOwner: bool)
    | HasCounted(wsId: Id, target: Id, change: Change)
    | MayInvite(invitation: Invitation)
    | MayResend(actor: Id, wsId: Id, inviteId: Id, newId: Id)
    | MayRevoke(wsId: Id, inviteId: Id)
    | MayList(policyReq: Request)
    | MaySet(wsId: Id, inviteId: Id, policy: Policy)
    | MayLookUp(actor: Id, inviteId: Id, room: Id)
    | MayAccept(actor: Id, inviteId: Id)
    | Ended(answer: Answer)

  /** What is to be done with a member. */
  datatype Change = NewRole(role: Role) | Removal

  function Fail(e: Error): Thread {
    Ended(Failed(e))
  }

  /** requireRole: the error it gives, if any. */
  function RoleError(d: Data, wsId: Id, sub: Id, need: Role): Option<Error> {
    match MemberRole(d, wsId, sub)
    case Err(e) => Some(e)
    case Stale(_) => None
    case Ok(role) => if RoleAtLeast(role, need) then None else Some(Forbidden)
  }

  // ---------- one store call ----------

  /** What a call leaves for the record: a new workspace, a newly joined member, an invitation's use limit. */
  datatype Trace = Nothing | Founded(wsId: Id, owner: Id) | Joined(inviteId: Id) | Limited(inviteId: Id, maxUses: int)

  datatype CallResult = CallResult(data: Data, next: Thread, trace: Trace)

  function Ending<T>(d: Data, r: Outcome<T>): CallResult {
    CallResult(d, if r.Err? then Fail(r.error) else Ended(Done), Nothing)
  }

  /** The first call of a request, and what the service checks around it. */
  function Begin(d: Data, req: Request, now: Time): CallResult {
    match req
    case CreateWorkspaceReq(owner, name, wsId) =>
      if name == "" then CallResult(d, Fail(Forbidden), Nothing)
      else CallResult(CreateWorkspace(d, wsId, owner), Ended(Done), Founded(wsId, owner))
    case AddMemberReq(actor, wsId, target, role) =>
      var e := RoleError(d, wsId, actor, ROLE_OWNER);
      var given := if role == "" then ROLE_MEMBER else role;
      CallResult(d, if e.Some? then Fail(e.value)
                  else if given == ROLE_OWNER then Fail(Forbidden)
                  else MayAdd(wsId, target, given), Nothing)
    case UpdateRoleReq(actor, wsId, target, role) =>
      var e := RoleError(d, wsId, actor, ROLE_OWNER);
      CallResult(d, if TrimSpace(target) == "" then Fail(Invalid)
                  else if e.Some? then Fail(e.value)
                  else if role != ROLE_MEMBER && role != ROLE_GUEST then Fail(Invalid)
                  else MayRead(wsId, target, NewRole(role)), Nothing)
    case RemoveReq(actor, wsId, target) =>
      var e := RoleError(d, wsId, actor, ROLE_OWNER);
      CallResult(d, if TrimSpace(target) == "" then Fail(Invalid)
                  else if e.Some? then Fail(e.value)
                  else if actor == target then Fail(Invalid)
                  else MayRead(wsId, target, Removal), Nothing)
    case LeaveReq(actor, wsId) =>
      var e := RoleError(d, wsId, actor, ROLE_GUEST);
      CallResult(d, if e.Some? then Fail(e.value) else MayRead(wsId, actor, Removal), Nothing)
    case InviteReq(actor, wsId, role, email, maxUses, ttlHours, newId) =>
      var e := RoleError(d, wsId, actor, ROLE_OWNER);
      var given := if role == "" then ROLE_MEMBER else role;
      var uses := if maxUses <= 0 then 1 else maxUses;
      var ttl := if ttlHours <= 0 then 72 else ttlHours;
      CallResult(d, if e.Some? then Fail(e.value)
                  else if given != ROLE_MEMBER && given != ROLE_GUEST then Fail(Invalid)
                  else if uses > MAX_INVITE_USES || ttl > MAX_TTL_HOURS then Fail(Invalid)
                  else MayInvite(Invitation(newId, wsId, given, email, uses, 0, now + ttl * HOUR, now, None)), Nothing)
    case ResendReq(actor, wsId, inviteId, newId) =>
      var e := RoleError(d, wsId, actor, ROLE_OWNER);
      CallResult(d, if TrimSpace(inviteId) == "" then Fail(Invalid)
                  else if e.Some? then Fail(e.value)
                  else MayResend(actor, wsId, inviteId, newId), Nothing)
    case RevokeReq(actor, wsId, inviteId) =>
      var e := RoleError(d, wsId, actor, ROLE_OWNER);
      CallResult(d, if TrimSpace(inviteId) == "" then Fail(Invalid)
                  else if e.Some? then Fail(e.value)
                  else MayRevoke(wsId, inviteId), Nothing)
    case PolicyReq(actor, wsId, inviteId, role, email, uses, ttl) =>
      var e := RoleError(d, wsId, actor, ROLE_OWNER);
      CallResult(d, if TrimSpace(inviteId) == "" then Fail(Invalid)
                  else if role.None? && email.None? && uses.None? && ttl.None? then Fail(Invalid)
                  else if e.Some? then Fail(e.value)
                  else MayList(req), Nothing)
    case AcceptReq(actor, email, token) =>
      CallResult(d, if TrimSpace(actor) == "" || TrimSpace(token) == "" then Fail(Invalid)
                  else if token !in d.invitations then Fail(NotFound)
                  else if d.invitations[token].invitedEmail != "" && email != d.invitations[token].invitedEmail
                    then Fail(Forbidden)
                  else MayLookUp(actor, token, d.invitations[token].workspaceId), Nothing)
  }

  /** The policy to be written, worked out from the invitation as it was listed. */
  function NextPolicy(base: Invitation, req: Request, now: Time): Thread
    requires req.PolicyReq?
  {
    var role := if req.newRole.None? then base.role
                else if req.newRole.value == "" then ROLE_MEMBER else req.newRole.value;
    var email := if req.newEmail.Some? then req.newEmail.value else base.invitedEmail;
    var uses := if req.newMax.Some? then (if req.newMax.value <= 0 then 1 else req.newMax.value) else base.maxUses;
    var ttl := if req.newTtl.Some? then (if req.newTtl.value <= 0 then 72 else req.newTtl.value) else 0;
    if req.newRole.Some? && role != ROLE_MEMBER && role != ROLE_GUEST then Fail(Invalid)
    else if req.newMax.Some? && uses > MAX_INVITE_USES then Fail(Invalid)
    else if uses < base.useCount then Fail(Invalid)
    else if ttl > MAX_TTL_HOURS then Fail(Invalid)
    else
      var expiry := if req.newTtl.Some? then now + ttl * HOUR else base.expiresAt;
      MaySet(req.wsId, req.inviteId, Policy(role, email, uses, expiry))
  }

  /** The lifetime a resent invitation gets, in whole hours. */
  function ResendTtl(base: Invitation): int {
    var life := base.expiresAt - base.createdAt;
    var hours := if life >= 0 then life / HOUR else 0;
    if hours <= 0 then 72 else if hours > MAX_TTL_HOURS then MAX_TTL_HOURS else hours
  }

  /** The write at the end of a role change, removal or leave. */
  function WriteMember(d: Data, wsId: Id, target: Id, change: Change): CallResult {
    match change
    case NewRole(role) =>
      var (d', r) := UpdateMemberRole(d, wsId, target, role);
      Ending(d', r)
    case Removal =>
      var (d', r) := RemoveMember(d, wsId, target);
      Ending(d', r)
  }

  /** The next store call of a thread. */
  function Next(d: Data, t: Thread, now: Time): CallResult {
    match t
    case Begun(req) => Begin(d, req, now)
    case MayAdd(wsId, target, role) =>
      var (d', r) := AddMember(d, wsId, target, role);
      Ending(d', r)
    case MayRead(wsId, target, change) =>
      var r := GetMember(d, wsId, target);
      CallResult(d, if r.Err? then Fail(r.error) else HasRead(wsId, target, change, r == Ok(ROLE_OWNER)), Nothing)
    case HasRead(wsId, target, change, wasOwner) =>
      if wasOwner then
        CallResult(d, if wsId !in d.members then Fail(NotFound)
                    else if |Owners(d, wsId)| <= 1 then Fail(Forbidden)
                    else HasCounted(wsId, target, change), Nothing)
      else WriteMember(d, wsId, target, change)
    case HasCounted(wsId, target, change) => WriteMember(d, wsId, target, change)
    case MayInvite(inv) =>
      var (d', r) := CreateInvitation(d, inv);
      if r.Err? then Ending(d', r) else CallResult(d', Ended(Done), Limited(inv.id, inv.maxUses))
    case MayResend(actor, wsId, inviteId, newId) =>
      if wsId !in d.members || inviteId !in d.invitations || d.invitations[inviteId].workspaceId != wsId
      then CallResult(d, Fail(NotFound), Nothing)
      else
        var base := d.invitations[inviteId];
        var again := InviteReq(actor, wsId, base.role, base.invitedEmail, base.maxUses, ResendTtl(base), newId);
        CallResult(d, Begun(again), Nothing)
    case MayRevoke(wsId, inviteId) =>
      var (d', r) := RevokeInvitation(d, wsId, inviteId, now);
      Ending(d', r)
    case MayList(req) =>
      if !req.PolicyReq? || req.wsId !in d.members || !Belongs(d.invitations, req.wsId, req.inviteId)
      then CallResult(d, Fail(NotFound), Nothing)
      else if d.invitations[req.inviteId].revokedAt.Some? then CallResult(d, Fail(Forbidden), Nothing)
      else CallResult(d, NextPolicy(d.invitations[req.inviteId], req, now), Nothing)
    case MaySet(wsId, inviteId, p) =>
      var (d', r) := UpdateInvitationPolicy(d, wsId, inviteId, p.role, p.email, p.maxUses, p.expiresAt);
      if r.Err? then Ending(d', r) else CallResult(d', Ended(Done), Limited(inviteId, p.maxUses))
    case MayLookUp(actor, inviteId, room) =>
      CallResult(d, if room !in d.members then Fail(NotFound) else MayAccept(actor, inviteId), Nothing)
    case MayAccept(actor, inviteId) =>
      var (d', r) := AcceptInvitation(d, inviteId, actor, now);
      if r.Err? then CallResult(d', Fail(if r.error == Forbidden then NotFound else r.error), Nothing)
      else CallResult(d', Ended(Done), if r.Ok? && r.value.joined then Joined(inviteId) else Nothing)
    case Ended(_) => CallResult(d, t, Nothing)
  }

  // ---------- a request on its own ----------

  /** Calls still to come, at most. */
  function Rank(t: Thread): nat {
    match t
    case Begun(req) => if req.ResendReq? then 6 else 4
    case MayResend(_, _, _, _) => 5
    case MayRead(_, _, _) => 3
    case HasRead(_, _, _, _) => 2
    case MayList(_) => 2
    case MayLookUp(_, _, _) => 2
    case Ended(_) => 0
    case _ => 1
  }

  lemma NextLowersRank(d: Data, t: Thread, now: Time)
    requires !t.Ended?
    ensures Rank(Next(d, t, now).next) < Rank(t)
  {
    match t
    case HasRead(wsId, target, change, wasOwner) =>
      if change.NewRole? {}
    case HasCounted(wsId, target, change) =>
      if change.NewRole? {}
    case _ =>
  }

  /** A request carried through with nothing in between. */
  function Finish(d: Data, t: Thread, now: Time): (Data, Answer)
    decreases Rank(t)
  {
    if t.Ended? then (d, t.answer)
    else
      var o := Next(d, t, now);
      NextLowersRank(d, t, now);
      Finish(o.data, o.next, now)
  }

  lemma FinishStep(d: Data, t: Thread, now: Time)
    requires !t.Ended?
    ensures Finish(d, t, now) == Finish(Next(d, t, now).data, Next(d, t, now).next, now)
  {
  }

  // ---------- the world ----------

  /** The store, the running requests, and what has happened: founders, joins, and the largest limits. */
  datatype World = World(data: Data, threads: map<nat, Thread>, founders: map<Id, Id>, joins: seq<Id>,
                         peaks: map<Id, int>)

  const START := World(EMPTY, map[], map[], [], map[])

  datatype Event = Arrives(who: nat, req: Request) | Runs(who: nat, now: Time)

  function Peak(peaks: map<Id, int>, id: Id): int {
    if id in peaks then peaks[id] else 0
  }

  function Recorded(w: World, t: Trace): World {
    match t
    case Nothing => w
    case Founded(wsId, owner) => w.(founders := w.founders[wsId := owner])
    case Joined(id) => w.(joins := w.joins + [id])
    case Limited(id, n) => w.(peaks := w.peaks[id := if n > Peak(w.peaks, id) then n else Peak(w.peaks, id)])
  }

  function Step(w: World, e: Event): World {
    match e
    case Arrives(who, req) => if who in w.threads then w else w.(threads := w.threads[who := Begun(req)])
    case Runs(who, now) =>
      if who !in w.threads then w
      else
        var o := Next(w.data, w.threads[who], now);
        Recorded(w.(data := o.data, threads := w.threads[who := o.next]), o.trace)
  }

  /** How often an invitation was accepted by someone who thereby became a member. */
  function JoinCount(joins: seq<Id>, id: Id): nat {
    multiset(joins)[id]
  }

  /** Ids drawn for new records are new when they are used. */
  predicate IdsAreNew(w: World, e: Event) {
    e.Runs? && e.who in w.threads ==>
      match w.threads[e.who]
      case Begun(CreateWorkspaceReq(_, _, wsId)) => wsId !in w.data.members
      case MayInvite(inv) => inv.id !in w.data.invitations && inv.id !in w.peaks
      case _ => true
  }

  predicate Possible(w: World, es: seq<Event>)
    decreases |es|
  {
    es == [] || (IdsAreNew(w, es[0]) && Possible(Step(w, es[0]), es[1..]))
  }

  function Run(w: World, es: seq<Event>): World
    decreases |es|
  {
    if es == [] then w else Run(Step(w, es[0]), es[1..])
  }

  // ---------- one owner ----------

  /** The founder of a workspace is its one owner. */
  ghost predicate OneOwner(d: Data, founders: map<Id, Id>) {
    && founders.Keys == d.members.Keys
    && forall ws {:trigger founders[ws]} :: ws in d.members ==> Owners(d, ws) == {founders[ws]}
  }

  predicate InvitableRole(role: Role) {
    role == ROLE_MEMBER || role == ROLE_GUEST
  }

  ghost predicate InvitationOk(inv: Invitation, id: Id, d: Data, joins: seq<Id>, peaks: map<Id, int>) {
    && inv.id == id && inv.workspaceId in d.members && InvitableRole(inv.role)
    && id in peaks && 1 <= inv.maxUses <= peaks[id] <= MAX_INVITE_USES
    && inv.useCount == JoinCount(joins, id) && inv.useCount <= peaks[id]
  }

  ghost predicate InvitationsOk(d: Data, joins: seq<Id>, peaks: map<Id, int>) {
    && peaks.Keys == d.invitations.Keys
    && (forall id {:trigger d.invitations[id]} :: id in d.invitations ==>
          InvitationOk(d.invitations[id], id, d, joins, peaks))
    && (forall id :: id in joins ==> id in d.invitations)
  }

  /** What a thread has established by its checks and reads, and nobody can take back. */
  ghost predicate ThreadOk(t: Thread, founders: map<Id, Id>) {
    match t
    case MayAdd(wsId, target, role) => role != ROLE_OWNER
    case MayRead(wsId, target, change) => ChangeOk(change)
    case HasRead(wsId, target, change, wasOwner) =>
      ChangeOk(change) && wsId in founders && (!wasOwner ==> target != founders[wsId])
    case HasCounted(_, _, _) => false
    case MayInvite(inv) => InvitableRole(inv.role) && 1 <= inv.maxUses <= MAX_INVITE_USES && inv.useCount == 0
    case MaySet(_, _, p) => InvitableRole(p.role) && 1 <= p.maxUses <= MAX_INVITE_USES
    case _ => true
  }

  predicate ChangeOk(c: Change) {
    c.NewRole? ==> InvitableRole(c.role)
  }

  ghost predicate Inv(w: World) {
    && OneOwner(w.data, w.founders)
    && InvitationsOk(w.data, w.joins, w.peaks)
    && ThreadsOk(w.threads, w.founders)
  }

  /** A change of one member other than the founder, to a role other than owner, keeps the one owner. */
  lemma SetMemberKeepsOwner(d: Data, founders: map<Id, Id>, wsId: Id, sub: Id, role: Role)
    requires OneOwner(d, founders) && wsId in d.members && sub != founders[wsId] && role != ROLE_OWNER
    ensures OneOwner(SetMember(d, wsId, sub, role), founders)
  {
    var d' := SetMember(d, wsId, sub, role);
    forall ws | ws in d'.members ensures Owners(d', ws) == {founders[ws]} {
      assert Owners(d, ws) == {founders[ws]};
      assert founders[ws] in Owners(d, ws);
      forall x ensures x in Owners(d', ws) <==> x == founders[ws] {
        assert x in Owners(d, ws) <==> x == founders[ws];
      }
    }
  }

  lemma RemoveKeepsOwner(d: Data, founders: map<Id, Id>, wsId: Id, sub: Id)
    requires OneOwner(d, founders) && wsId in d.members && sub != founders[wsId]
    ensures OneOwner(RemoveMember(d, wsId, sub).0, founders)
  {
    var d' := RemoveMember(d, wsId, sub).0;
    forall ws | ws in d'.members ensures Owners(d', ws) == {founders[ws]} {
      assert Owners(d, ws) == {founders[ws]};
      forall x ensures x in Owners(d', ws) <==> x == founders[ws] {
        assert x in Owners(d, ws) <==> x == founders[ws];
      }
    }
  }

  /** The founder is always a member and owns the workspace; nobody else does. */
  lemma FounderOwns(d: Data, founders: map<Id, Id>, wsId: Id, sub: Id)
    requires OneOwner(d, founders) && wsId in d.members
    ensures founders[wsId] in d.members[wsId] && d.members[wsId][founders[wsId]] == ROLE_OWNER
    ensures sub in d.members[wsId] ==> (d.members[wsId][sub] == ROLE_OWNER <==> sub == founders[wsId])
    ensures |Owners(d, wsId)| == 1
  {
    assert Owners(d, wsId) == {founders[wsId]};
    assert founders[wsId] in Owners(d, wsId);
    assert sub in Owners(d, wsId) <==> sub == founders[wsId];
  }

  lemma WriteMemberKeepsOwner(d: Data, founders: map<Id, Id>, wsId: Id, target: Id, change: Change)
    requires OneOwner(d, founders) && wsId in founders && target != founders[wsId] && ChangeOk(change)
    ensures OneOwner(WriteMember(d, wsId, target, change).data, founders)
    ensures WriteMember(d, wsId, target, change).data.invitations == d.invitations
    ensures WriteMember(d, wsId, target, change).data.members.Keys == d.members.Keys
    ensures WriteMember(d, wsId, target, change).next.Ended? && WriteMember(d, wsId, target, change).trace == Nothing
  {
    match change
    case NewRole(role) => SetMemberKeepsOwner(d, founders, wsId, target, role);
    case Removal => RemoveKeepsOwner(d, founders, wsId, target);
  }

  /** The store and the thread after a call that founds no workspace. */
  ghost predicate OwnerKept(d: Data, o: CallResult, founders: map<Id, Id>) {
    OneOwner(o.data, founders) && ThreadOk(o.next, founders) && d.members.Keys <= o.data.members.Keys
        && !o.trace.Founded?
  }

  lemma AddKeepsOwner(d: Data, t: Thread, now: Time, founders: map<Id, Id>)
    requires OneOwner(d, founders) && ThreadOk(t, founders) && t.MayAdd?
    ensures OwnerKept(d, Next(d, t, now), founders)
  {
    if t.wsId in d.members {
      FounderOwns(d, founders, t.wsId, t.target);
      if t.target !in d.members[t.wsId] {
        SetMemberKeepsOwner(d, founders, t.wsId, t.target, t.role);
      }
    }
  }

  lemma MemberChangeKeepsOwner(d: Data, t: Thread, now: Time, founders: map<Id, Id>)
    requires OneOwner(d, founders) && ThreadOk(t, founders) && (t.MayRead? || t.HasRead?)
    ensures OwnerKept(d, Next(d, t, now), founders)
  {
    if t.wsId in d.members {
      FounderOwns(d, founders, t.wsId, t.target);
    }
    if t.HasRead? && !t.wasOwner {
      WriteMemberKeepsOwner(d, founders, t.wsId, t.target, t.change);
    }
  }

  lemma SameMembersKeepOwner(d: Data, d': Data, founders: map<Id, Id>)
    requires OneOwner(d, founders) && d'.members == d.members
    ensures OneOwner(d', founders)
  {
    forall ws | ws in d'.members ensures Owners(d', ws) == {founders[ws]} {
      assert Owners(d, ws) == {founders[ws]};
    }
  }

  /** The policy worked out from a sound invitation is sound. */
  lemma ListedPolicyOk(d: Data, req: Request, now: Time, founders: map<Id, Id>, joins: seq<Id>, peaks: map<Id, int>)
    requires InvitationsOk(d, joins, peaks)
    ensures ThreadOk(Next(d, MayList(req), now).next, founders)
  {
    if req.PolicyReq? && req.inviteId in d.invitations {
      assert InvitationOk(d.invitations[req.inviteId], req.inviteId, d, joins, peaks);
    }
  }

  lemma InvitationCallsKeepOwner(d: Data, t: Thread, now: Time, founders: map<Id, Id>, joins: seq<Id>,
                                 peaks: map<Id, int>)
    requires OneOwner(d, founders) && InvitationsOk(d, joins, peaks) && ThreadOk(t, founders)
    requires t.MayInvite? || t.MayResend? || t.MayRevoke? || t.MayList? || t.MaySet? || t.MayLookUp? || t.Ended?
    ensures OwnerKept(d, Next(d, t, now), founders)
  {
    SameMembersKeepOwner(d, Next(d, t, now).data, founders);
    if t.MayList? {
      ListedPolicyOk(d, t.policyReq, now, founders, joins, peaks);
    }
  }

  lemma AcceptKeepsOwner(d: Data, inviteId: Id, actor: Id, now: Time, founders: map<Id, Id>, joins: seq<Id>,
                         peaks: map<Id, int>)
    requires OneOwner(d, founders) && InvitationsOk(d, joins, peaks)
    ensures OwnerKept(d, Next(d, MayAccept(actor, inviteId), now), founders)
  {
    var d' := AcceptInvitation(d, inviteId, actor, now).0;
    if d' != d {
      var inv := d.invitations[inviteId];
      assert InvitationOk(inv, inviteId, d, joins, peaks);
      FounderOwns(d, founders, inv.workspaceId, actor);
      SetMemberKeepsOwner(d, founders, inv.workspaceId, actor, inv.role);
      var set1 := SetMember(d, inv.workspaceId, actor, inv.role);
      forall ws | ws in d'.members ensures Owners(d', ws) == {founders[ws]} {
        assert Owners(set1, ws) == {founders[ws]};
      }
    }
  }

  /** The owner side of one call. */
  lemma CallKeepsOwner(d: Data, t: Thread, now: Time, founders: map<Id, Id>, joins: seq<Id>, peaks: map<Id, int>)
    requires OneOwner(d, founders) && InvitationsOk(d, joins, peaks) && ThreadOk(t, founders)
    requires t.Begun? && t.req.CreateWorkspaceReq? ==> t.req.wsId !in d.members
    ensures var o := Next(d, t, now);
            var founders' := if o.trace.Founded? then founders[o.trace.wsId := o.trace.owner] else founders;
            && OneOwner(o.data, founders') && ThreadOk(o.next, founders')
            && d.members.Keys <= o.data.members.Keys
  {
    if t.Begun? {
      BeginKeepsOwner(d, t.req, now, founders, joins, peaks);
    } else if t.MayAdd? {
      AddKeepsOwner(d, t, now, founders);
    } else if t.MayRead? || t.HasRead? {
      MemberChangeKeepsOwner(d, t, now, founders);
    } else if t.MayAccept? {
      AcceptKeepsOwner(d, t.inviteId, t.actor, now, founders, joins, peaks);
    } else {
      InvitationCallsKeepOwner(d, t, now, founders, joins, peaks);
    }
  }

  lemma BeginKeepsOwner(d: Data, req: Request, now: Time, founders: map<Id, Id>, joins: seq<Id>, peaks: map<Id, int>)
    requires OneOwner(d, founders) && InvitationsOk(d, joins, peaks)
    requires req.CreateWorkspaceReq? ==> req.wsId !in d.members
    ensures var o := Begin(d, req, now);
            var founders' := if o.trace.Founded? then founders[o.trace.wsId := o.trace.owner] else founders;
            && OneOwner(o.data, founders') && ThreadOk(o.next, founders')
            && d.members.Keys <= o.data.members.Keys
  {
    if req.CreateWorkspaceReq? && req.name != "" {
      var d' := CreateWorkspace(d, req.wsId, req.owner);
      forall ws | ws in d'.members ensures Owners(d', ws) == {founders[req.wsId := req.owner][ws]} {
        if ws != req.wsId {
          assert Owners(d, ws) == {founders[ws]};
          assert Owners(d', ws) == Owners(d, ws);
        }
      }
    }
  }

  // ---------- invitations ----------

  lemma AcceptKeepsInvitations(d: Data, inviteId: Id, actor: Id, now: Time, joins: seq<Id>, peaks: map<Id, int>)
    requires InvitationsOk(d, joins, peaks)
    ensures var o := Next(d, MayAccept(actor, inviteId), now);
            var joins' := if o.trace.Joined? then joins + [o.trace.inviteId] else joins;
            && InvitationsOk(o.data, joins', peaks)
            && !o.trace.Limited? && (o.trace.Joined? <==> o.data != d)
  {
    var d' := AcceptInvitation(d, inviteId, actor, now).0;
    if inviteId in d.invitations {
      var inv := d.invitations[inviteId];
      assert InvitationOk(inv, inviteId, d, joins, peaks);
      if !Spent(inv, now) && actor !in d.members[inv.workspaceId] {
        assert d'.invitations[inviteId].useCount == inv.useCount + 1;
        forall id | id in d'.invitations ensures InvitationOk(d'.invitations[id], id, d', joins + [inviteId], peaks) {
          assert InvitationOk(d.invitations[id], id, d, joins, peaks);
        }
      }
    }
  }

  lemma InviteKeepsInvitations(d: Data, inv: Invitation, now: Time, joins: seq<Id>, peaks: map<Id, int>)
    requires InvitationsOk(d, joins, peaks) && ThreadOk(MayInvite(inv), map[]) && inv.id !in d.invitations
        && inv.id !in peaks
    ensures var o := Next(d, MayInvite(inv), now);
            if o.trace.Limited?
              then o.trace == Limited(inv.id, inv.maxUses) && InvitationsOk(o.data, joins, peaks[inv.id := inv.maxUses])
            else o.data == d && o.trace == Nothing
  {
    var d' := CreateInvitation(d, inv).0;
    if inv.workspaceId in d.members {
      forall id | id in d'.invitations
        ensures InvitationOk(d'.invitations[id], id, d', joins, peaks[inv.id := inv.maxUses])
      {
        if id != inv.id {
          assert InvitationOk(d.invitations[id], id, d, joins, peaks);
        } else {
          assert id !in joins;
        }
      }
    }
  }

  lemma PolicyKeepsInvitations(d: Data, t: Thread, now: Time, joins: seq<Id>, peaks: map<Id, int>)
    requires InvitationsOk(d, joins, peaks) && t.MaySet? && ThreadOk(t, map[])
    ensures var o := Next(d, t, now);
            if o.trace.Limited? then
              && o.trace == Limited(t.inviteId, t.policy.maxUses)
              && InvitationsOk(o.data, joins, peaks[t.inviteId :=
                   if t.policy.maxUses > Peak(peaks, t.inviteId) then t.policy.maxUses else Peak(peaks, t.inviteId)])
            else o.data == d && o.trace == Nothing
  {
    var o := Next(d, t, now);
    if o.trace.Limited? {
      assert InvitationOk(d.invitations[t.inviteId], t.inviteId, d, joins, peaks);
      var peak := Peak(peaks, t.inviteId);
      var peaks' := peaks[t.inviteId := if t.policy.maxUses > peak then t.policy.maxUses else peak];
      forall id | id in o.data.invitations ensures InvitationOk(o.data.invitations[id], id, o.data, joins, peaks') {
        assert InvitationOk(d.invitations[id], id, d, joins, peaks);
      }
    }
  }

  lemma RevokeKeepsInvitations(d: Data, wsId: Id, inviteId: Id, now: Time, joins: seq<Id>, peaks: map<Id, int>)
    requires InvitationsOk(d, joins, peaks)
    ensures InvitationsOk(RevokeInvitation(d, wsId, inviteId, now).0, joins, peaks)
  {
    var d' := RevokeInvitation(d, wsId, inviteId, now).0;
    forall id | id in d'.invitations ensures InvitationOk(d'.invitations[id], id, d', joins, peaks) {
      assert InvitationOk(d.invitations[id], id, d, joins, peaks);
    }
  }

  /** Calls that leave the invitations as they are. */
  lemma OtherCallsKeepInvitations(d: Data, t: Thread, now: Time)
    requires !t.MayInvite? && !t.MaySet? && !t.MayRevoke? && !t.MayAccept?
    ensures Next(d, t, now).data.invitations == d.invitations
    ensures d.members.Keys <= Next(d, t, now).data.members.Keys
    ensures !Next(d, t, now).trace.Joined? && !Next(d, t, now).trace.Limited?
  {
    match t
    case HasRead(wsId, target, change, wasOwner) =>
      if change.NewRole? {}
    case HasCounted(wsId, target, change) =>
      if change.NewRole? {}
    case _ =>
  }

  /** The invitation side of one call. */
  lemma CallKeepsInvitations(w: World, t: Thread, now: Time)
    requires InvitationsOk(w.data, w.joins, w.peaks) && ThreadOk(t, w.founders)
    requires t.MayInvite? ==> t.invitation.id !in w.data.invitations && t.invitation.id !in w.peaks
    ensures var o := Next(w.data, t, now);
            var w' := Recorded(w.(data := o.data), o.trace);
            InvitationsOk(w'.data, w'.joins, w'.peaks)
  {
    if t.MayAccept? {
      AcceptKeepsInvitations(w.data, t.inviteId, t.actor, now, w.joins, w.peaks);
    } else if t.MayInvite? {
      InviteKeepsInvitations(w.data, t.invitation, now, w.joins, w.peaks);
    } else if t.MaySet? {
      PolicyKeepsInvitations(w.data, t, now, w.joins, w.peaks);
    } else if t.MayRevoke? {
      RevokeKeepsInvitations(w.data, t.wsId, t.inviteId, now, w.joins, w.peaks);
    } else {
      OtherCallsKeepInvitations(w.data, t, now);
    }
  }

  // ---------- every interleaving ----------

  lemma RecordedParts(w: World, o: CallResult, who: nat)
    ensures var w1 := Recorded(w.(data := o.data), o.trace);
            && Recorded(w.(data := o.data, threads := w.threads[who := o.next]), o.trace)
                == w1.(threads := w.threads[who := o.next])
            && w1.data == o.data && w1.threads == w.threads
            && w1.founders == (if o.trace.Founded? then w.founders[o.trace.wsId := o.trace.owner] else w.founders)
  {
  }

  ghost predicate ThreadsOk(threads: map<nat, Thread>, founders: map<Id, Id>) {
    forall who {:trigger threads[who]} :: who in threads ==> ThreadOk(threads[who], founders)
  }

  lemma OthersStayOk(threads: map<nat, Thread>, who: nat, t: Thread, founders: map<Id, Id>, founders': map<Id, Id>)
    requires ThreadsOk(threads, founders) && ThreadOk(t, founders')
    requires forall ws :: ws in founders ==> ws in founders' && founders'[ws] == founders[ws]
    ensures ThreadsOk(threads[who := t], founders')
  {
    var threads' := threads[who := t];
    forall k | k in threads' ensures ThreadOk(threads'[k], founders') {
      assert k != who ==> ThreadOk(threads[k], founders);
    }
  }

  lemma StepKeepsInv(w: World, e: Event)
    requires Inv(w) && IdsAreNew(w, e)
    ensures Inv(Step(w, e))
  {
    if e.Runs? && e.who in w.threads {
      var t := w.threads[e.who];
      var o := Next(w.data, t, e.now);
      assert ThreadOk(t, w.founders);
      RunningThreadKeepsInv(w, e.who, t, e.now);
    } else if e.Arrives? && e.who !in w.threads {
      OthersStayOk(w.threads, e.who, Begun(e.req), w.founders, w.founders);
    }
  }

  lemma RunningThreadKeepsInv(w: World, who: nat, t: Thread, now: Time)
    requires Inv(w) && who in w.threads && w.threads[who] == t && ThreadOk(t, w.founders)
    requires t.Begun? && t.req.CreateWorkspaceReq? ==> t.req.wsId !in w.data.members
    requires t.MayInvite? ==> t.invitation.id !in w.data.invitations && t.invitation.id !in w.peaks
    ensures Inv(Step(w, Runs(who, now)))
  {
    var o := Next(w.data, t, now);
    var w1 := Recorded(w.(data := o.data), o.trace);
    RecordedParts(w, o, who);
    assert OneOwner(w1.data, w1.founders) && ThreadOk(o.next, w1.founders) by {
      CallKeepsOwner(w.data, t, now, w.founders, w.joins, w.peaks);
    }
    assert InvitationsOk(w1.data, w1.joins, w1.peaks) by {
      CallKeepsInvitations(w, t, now);
    }
    FoundedNew(w.data, t, now);
    OthersStayOk(w.threads, who, o.next, w.founders, w1.founders);
  }

  lemma FoundedNew(d: Data, t: Thread, now: Time)
    requires t.Begun? && t.req.CreateWorkspaceReq? ==> t.req.wsId !in d.members
    ensures var o := Next(d, t, now); o.trace.Founded? ==> o.trace.wsId !in d.members
  {
  }

  /**
   * In every interleaving of requests each workspace has exactly one owner, its founder, and each
   * invitation's use count is the number of members who joined by it, never above its largest limit.
   */
  lemma {:induction false} EveryInterleaving(w: World, es: seq<Event>, ws: Id, id: Id)
    requires Inv(w) && Possible(w, es)
    ensures Inv(Run(w, es))
    ensures ws in Run(w, es).data.members ==>
              ws in Run(w, es).founders && Owners(Run(w, es).data, ws) == {Run(w, es).founders[ws]}
    ensures id in Run(w, es).data.invitations ==>
              var inv := Run(w, es).data.invitations[id];
              && inv.useCount == JoinCount(Run(w, es).joins, id)
              && id in Run(w, es).peaks && inv.useCount <= Run(w, es).peaks[id] <= 100
    decreases |es|
  {
    if es == [] {
      assert ws in w.data.members ==> Owners(w.data, ws) == {w.founders[ws]};
      assert id in w.data.invitations ==> InvitationOk(w.data.invitations[id], id, w.data, w.joins, w.peaks);
    } else {
      StepKeepsInv(w, es[0]);
      EveryInterleaving(Step(w, es[0]), es[1..], ws, id);
    }
  }

  lemma StartInv()
    ensures Inv(START) && SerialInv(START)
  {
  }

  /** A workspace's founder, once recorded, stays on record. */
  lemma {:induction false} FounderIsForever(w: World, es: seq<Event>, ws: Id)
    requires Inv(w) && Possible(w, es) && ws in w.founders
    ensures ws in Run(w, es).founders && Run(w, es).founders[ws] == w.founders[ws]
    decreases |es|
  {
    if es != [] {
      StepKeepsInv(w, es[0]);
      FounderKept(w, es[0], ws);
      FounderIsForever(Step(w, es[0]), es[1..], ws);
    }
  }

  lemma FounderKept(w: World, e: Event, ws: Id)
    requires Inv(w) && IdsAreNew(w, e) && ws in w.founders
    ensures ws in Step(w, e).founders && Step(w, e).founders[ws] == w.founders[ws]
  {
    if e.Runs? && e.who in w.threads {
      var t := w.threads[e.who];
      assert ThreadOk(t, w.founders);
      FoundedNew(w.data, t, e.now);
    }
  }

  // ---------- accepting ----------

  /**
   * In any world that interleaving can reach, an accept changes the store if and only if the
   * invitation is not revoked, not yet expired and has a use left, and the caller is not yet a
   * member; then the caller is one, with the invitation's role, and one use is counted.  Otherwise
   * nothing but the thread itself changes: a member is told the accept went through, and an
   * invitation that is not open is not found.
   */
  lemma AcceptChangesIff(w: World, who: nat, now: Time)
    requires Inv(w) && who in w.threads && w.threads[who].MayAccept? && w.threads[who].inviteId in w.data.invitations
    ensures var id, actor := w.threads[who].inviteId, w.threads[who].actor;
            var inv := w.data.invitations[id];
            var w' := Step(w, Runs(who, now));
            var isMember := RoleIn(w.data.members, inv.workspaceId, actor).Some?;
            var open := inv.revokedAt.None? && now < inv.expiresAt && inv.useCount < inv.maxUses;
            && (w'.data != w.data <==> open && !isMember)
            && (w'.data != w.data ==>
                  && OnlyMember(w.data.members, w'.data.members, inv.workspaceId, actor, Some(inv.role))
                  && OnlyInvitation(w.data.invitations, w'.data.invitations, id, inv.(useCount := inv.useCount + 1))
                  && w'.joins == w.joins + [id])
            && (w'.data == w.data ==>
                  w' == w.(threads := w.threads[who := if open then Ended(Done) else Fail(NotFound)]))
  {
    var t := w.threads[who];
    var inv := w.data.invitations[t.inviteId];
    assert InvitationOk(inv, t.inviteId, w.data, w.joins, w.peaks);
    AcceptEffect(w.data, t.inviteId, t.actor, now);
    if Spent(inv, now) || RoleIn(w.data.members, inv.workspaceId, t.actor).Some? {
      assert Step(w, Runs(who, now)).data == w.data;
    } else {
      assert RoleIn(Step(w, Runs(who, now)).data.members, inv.workspaceId, t.actor).Some?;
    }
  }

  lemma AcceptEffect(d: Data, id: Id, actor: Id, now: Time)
    requires id in d.invitations && d.invitations[id].id == id && d.invitations[id].workspaceId in d.members
    ensures var inv := d.invitations[id];
            var (d', r) := AcceptInvitation(d, id, actor, now);
            if Spent(inv, now) then d' == d && r == Err(Forbidden)
            else if RoleIn(d.members, inv.workspaceId, actor).Some? then d' == d && r.Ok? && !r.value.joined
            else && r.Ok? && r.value.joined
                 && OnlyMember(d.members, d'.members, inv.workspaceId, actor, Some(inv.role))
                 && OnlyInvitation(d.invitations, d'.invitations, id, inv.(useCount := inv.useCount + 1))
  {
  }

  /** A policy over a sound invitation keeps it sound, covers the uses seen, and changes only what was asked for. */
  lemma PolicyIsSound(base: Invitation, req: Request, now: Time)
    requires req.PolicyReq? && InvitableRole(base.role) && 1 <= base.maxUses <= MAX_INVITE_USES
    ensures var t := NextPolicy(base, req, now);
            t == Fail(Invalid) ||
            (&& t.MaySet? && t.wsId == req.wsId && t.inviteId == req.inviteId
             && InvitableRole(t.policy.role) && base.useCount <= t.policy.maxUses
                 && 1 <= t.policy.maxUses <= MAX_INVITE_USES
             && (req.newRole.None? ==> t.policy.role == base.role)
             && (req.newEmail.None? ==> t.policy.email == base.invitedEmail)
             && (req.newMax.None? ==> t.policy.maxUses == base.maxUses)
             && (if req.newTtl.None? then t.policy.expiresAt == base.expiresAt
                 else now < t.policy.expiresAt <= now + MAX_TTL_HOURS * HOUR))
  {
  }

  // ---------- revocation is final ----------

  lemma RevokedByCall(d: Data, t: Thread, now: Time, id: Id)
    requires id in d.invitations && d.invitations[id].id == id && d.invitations[id].revokedAt.Some?
    requires t.MayInvite? ==> t.invitation.id != id
    requires forall k :: k in d.invitations ==> d.invitations[k].id == k
    ensures var d' := Next(d, t, now).data; id in d'.invitations && d'.invitations[id] == d.invitations[id]
  {
    if !t.MayInvite? && !t.MaySet? && !t.MayRevoke? && !t.MayAccept? {
      OtherCallsKeepInvitations(d, t, now);
    }
  }

  /** Once revoked, an invitation is never used, changed or opened again, by any request in flight or to come. */
  lemma {:induction false} RevokedIsFinal(w: World, es: seq<Event>, id: Id)
    requires Inv(w) && Possible(w, es) && id in w.data.invitations && w.data.invitations[id].revokedAt.Some?
    ensures id in Run(w, es).data.invitations && Run(w, es).data.invitations[id] == w.data.invitations[id]
    ensures JoinCount(Run(w, es).joins, id) == JoinCount(w.joins, id)
    decreases |es|
  {
    EveryInterleaving(w, es, "", id);
    EveryInterleaving(w, [], "", id);
    if es != [] {
      StepKeepsInv(w, es[0]);
      RevokedByStep(w, es[0], id);
      RevokedIsFinal(Step(w, es[0]), es[1..], id);
    }
  }

  lemma RevokedByStep(w: World, e: Event, id: Id)
    requires Inv(w) && IdsAreNew(w, e) && id in w.data.invitations && w.data.invitations[id].revokedAt.Some?
    ensures id in Step(w, e).data.invitations && Step(w, e).data.invitations[id] == w.data.invitations[id]
  {
    if e.Runs? && e.who in w.threads {
      forall k | k in w.data.invitations ensures w.data.invitations[k].id == k {
        assert InvitationOk(w.data.invitations[k], k, w.data, w.joins, w.peaks);
      }
      RevokedByCall(w.data, w.threads[e.who], e.now, id);
      RecordedParts(w, Next(w.data, w.threads[e.who], e.now), e.who);
    }
  }

  // ---------- requests one after the other ----------

  /** No request arrives while another is under way. */
  predicate Serial(w: World, es: seq<Event>)
    decreases |es|
  {
    es == [] ||
    ((es[0].Arrives? ==> forall who :: who in w.threads ==> w.threads[who].Ended?)
     && Serial(Step(w, es[0]), es[1..]))
  }

  ghost predicate WithinLimit(d: Data) {
    forall id {:trigger d.invitations[id]} :: id in d.invitations ==>
        d.invitations[id].useCount <= d.invitations[id].maxUses
  }

  /** A policy about to be written allows the uses there have been. */
  ghost predicate PolicyFits(t: Thread, d: Data) {
    t.MaySet? && t.inviteId in d.invitations ==> d.invitations[t.inviteId].useCount <= t.policy.maxUses
  }

  ghost predicate SerialInv(w: World) {
    && WithinLimit(w.data)
    && (forall a, b {:trigger w.threads[a], w.threads[b]} ::
          a in w.threads && b in w.threads && !w.threads[a].Ended? && !w.threads[b].Ended? ==> a == b)
    && (forall a {:trigger w.threads[a]} :: a in w.threads ==> PolicyFits(w.threads[a], w.data))
  }

  /** A policy write that cuts the limit below the uses there have been. */
  predicate Undercuts(d: Data, t: Thread) {
    && t.MaySet? && t.inviteId in d.invitations
    && d.invitations[t.inviteId].workspaceId == t.wsId && d.invitations[t.inviteId].revokedAt.None?
    && t.policy.maxUses < d.invitations[t.inviteId].useCount
  }

  /** One call keeps every use count within its current limit if and only if it is no such write. */
  lemma CallWithinLimitIff(d: Data, t: Thread, now: Time)
    requires WithinLimit(d) && forall k :: k in d.invitations ==> d.invitations[k].id == k
    requires t.MayInvite? ==> t.invitation.useCount == 0 <= t.invitation.maxUses
    ensures WithinLimit(Next(d, t, now).data) <==> !Undercuts(d, t)
  {
    var d' := Next(d, t, now).data;
    if t.MaySet? {
      if Undercuts(d, t) {
        assert d'.invitations[t.inviteId].useCount > d'.invitations[t.inviteId].maxUses;
      }
    } else if !t.MayInvite? && !t.MayRevoke? && !t.MayAccept? {
      OtherCallsKeepInvitations(d, t, now);
    }
  }

  /** Only reading an invitation leads to a policy write, and the policy then covers the uses read. */
  lemma OnlyListingMakesPolicies(d: Data, t: Thread, now: Time)
    ensures var o := Next(d, t, now);
            o.next.MaySet? ==>
              && t.MayList? && o.data == d && o.next.inviteId in d.invitations
              && d.invitations[o.next.inviteId].useCount <= o.next.policy.maxUses
  {
    match t
    case HasRead(_, _, change, _) =>
      if change.NewRole? {}
    case HasCounted(_, _, change) =>
      if change.NewRole? {}
    case _ =>
  }

  lemma CallKeepsLimit(d: Data, t: Thread, now: Time)
    requires WithinLimit(d) && PolicyFits(t, d)
    requires forall k :: k in d.invitations ==> d.invitations[k].id == k
    requires t.MayInvite? ==> t.invitation.useCount == 0 <= t.invitation.maxUses
    ensures WithinLimit(Next(d, t, now).data) && PolicyFits(Next(d, t, now).next, Next(d, t, now).data)
  {
    var o := Next(d, t, now);
    OnlyListingMakesPolicies(d, t, now);
    assert PolicyFits(o.next, o.data);
    assert WithinLimit(o.data) by {
      CallWithinLimitIff(d, t, now);
    }
  }

  ghost predicate AlwaysWithinLimit(w: World, es: seq<Event>)
    decreases |es|
  {
    WithinLimit(w.data) && (es == [] || AlwaysWithinLimit(Step(w, es[0]), es[1..]))
  }

  predicate NeverUndercut(w: World, es: seq<Event>)
    decreases |es|
  {
    es == [] ||
    (!(es[0].Runs? && es[0].who in w.threads && Undercuts(w.data, w.threads[es[0].who]))
     && NeverUndercut(Step(w, es[0]), es[1..]))
  }

  /**
   * Along every interleaving, all use counts stay within their current limits at every point if
   * and only if no policy write on the way cuts a limit below the uses there have been by then.
   */
  lemma {:induction false} StaysWithinLimitIff(w: World, es: seq<Event>)
    requires Inv(w) && Possible(w, es) && WithinLimit(w.data)
    ensures AlwaysWithinLimit(w, es) <==> NeverUndercut(w, es)
    decreases |es|
  {
    if es != [] {
      StepKeepsInv(w, es[0]);
      StepWithinLimitIff(w, es[0]);
      if WithinLimit(Step(w, es[0]).data) {
        StaysWithinLimitIff(Step(w, es[0]), es[1..]);
      }
    }
  }

  lemma StepWithinLimitIff(w: World, e: Event)
    requires Inv(w) && WithinLimit(w.data)
    ensures WithinLimit(Step(w, e).data)
            <==> !(e.Runs? && e.who in w.threads && Undercuts(w.data, w.threads[e.who]))
  {
    if e.Runs? && e.who in w.threads {
      forall k | k in w.data.invitations ensures w.data.invitations[k].id == k {
        assert InvitationOk(w.data.invitations[k], k, w.data, w.joins, w.peaks);
      }
      assert ThreadOk(w.threads[e.who], w.founders);
      CallWithinLimitIff(w.data, w.threads[e.who], e.now);
      RecordedParts(w, Next(w.data, w.threads[e.who], e.now), e.who);
    }
  }

  lemma SerialStep(w: World, e: Event)
    requires Inv(w) && IdsAreNew(w, e) && SerialInv(w)
    requires e.Arrives? ==> forall who :: who in w.threads ==> w.threads[who].Ended?
    ensures SerialInv(Step(w, e))
  {
    if e.Runs? && e.who in w.threads {
      var t := w.threads[e.who];
      if t.Ended? {
        assert Step(w, e) == w.(threads := w.threads[e.who := t]);
      } else {
        forall k | k in w.data.invitations ensures w.data.invitations[k].id == k {
          assert InvitationOk(w.data.invitations[k], k, w.data, w.joins, w.peaks);
        }
        assert ThreadOk(t, w.founders) && PolicyFits(t, w.data);
        CallKeepsLimit(w.data, t, e.now);
        RecordedParts(w, Next(w.data, t, e.now), e.who);
      }
    }
  }

  /** When requests run one after the other, no invitation is used more often than its current limit. */
  lemma {:induction false} SerialRunsStayWithinLimit(w: World, es: seq<Event>, id: Id)
    requires Inv(w) && Possible(w, es) && Serial(w, es) && SerialInv(w)
    requires id in Run(w, es).data.invitations
    ensures Run(w, es).data.invitations[id].useCount <= Run(w, es).data.invitations[id].maxUses
    decreases |es|
  {
    if es != [] {
      StepKeepsInv(w, es[0]);
      SerialStep(w, es[0]);
      SerialRunsStayWithinLimit(Step(w, es[0]), es[1..], id);
    }
  }

  // ---------- and when they do not ----------

  const FOUNDING: seq<Event> := [Arrives(0, CreateWorkspaceReq("o", "n", "w")), Runs(0, 0)]

  const INVITING: seq<Event> := [Arrives(1, InviteReq("o", "w", ROLE_MEMBER, "", 2, 1, "i")), Runs(1, 0), Runs(1, 0)]

  function Joining(who: nat, sub: Id): seq<Event> {
    [Arrives(who, AcceptReq(sub, "", "i")), Runs(who, 0), Runs(who, 0), Runs(who, 0)]
  }

  /** A limit of 1 is worked out while there has been one use; it is not yet written. */
  const LOWERING: seq<Event> :=
    [Arrives(3, PolicyReq("o", "w", "i", None, None, Some(1), None)), Runs(3, 0), Runs(3, 0)]

  const WRITING: seq<Event> := [Runs(3, 0)]

  lemma {:induction false} RunJoin(w: World, a: seq<Event>, b: seq<Event>)
    ensures Run(w, a + b) == Run(Run(w, a), b)
    ensures Possible(w, a) && Possible(Run(w, a), b) ==> Possible(w, a + b)
    decreases |a|
  {
    if a == [] {
      assert a + b == b;
    } else {
      assert (a + b)[1..] == a[1..] + b && (a + b)[0] == a[0];
      RunJoin(Step(w, a[0]), a[1..], b);
    }
  }

  lemma RunOne(w: World, e: Event, rest: seq<Event>)
    ensures Run(w, [e] + rest) == Run(Step(w, e), rest)
    ensures IdsAreNew(w, e) && Possible(Step(w, e), rest) ==> Possible(w, [e] + rest)
  {
    assert ([e] + rest)[1..] == rest;
  }

  const THE_INVITATION := Invitation("i", "w", ROLE_MEMBER, "", 2, 0, HOUR, 0, None)

  const FOUNDED := World(Data(map["w" := map["o" := ROLE_OWNER]], map[]), map[0 := Ended(Done)],
                         map["w" := "o"], [], map[])

  const INVITED := World(Data(map["w" := map["o" := ROLE_OWNER]], map["i" := THE_INVITATION]),
                         map[0 := Ended(Done), 1 := Ended(Done)], map["w" := "o"], [], map["i" := 2])

  lemma FoundingRun()
    ensures Run(START, FOUNDING) == FOUNDED && Possible(START, FOUNDING)
  {
    var w1 := Step(START, FOUNDING[0]);
    assert FOUNDING == [FOUNDING[0]] + ([FOUNDING[1]] + []);
    RunOne(START, FOUNDING[0], [FOUNDING[1]] + []);
    RunOne(w1, FOUNDING[1], []);
    assert Step(w1, FOUNDING[1]) == FOUNDED;
  }

  lemma InvitingRun()
    ensures Run(FOUNDED, INVITING) == INVITED && Possible(FOUNDED, INVITING)
  {
    var w1 := Step(FOUNDED, INVITING[0]);
    var w2 := Step(w1, INVITING[1]);
    assert INVITING == [INVITING[0]] + ([INVITING[1]] + ([INVITING[2]] + []));
    RunOne(FOUNDED, INVITING[0], [INVITING[1]] + ([INVITING[2]] + []));
    RunOne(w1, INVITING[1], [INVITING[2]] + []);
    RunOne(w2, INVITING[2], []);
    assert w2.threads[1] == MayInvite(THE_INVITATION);
    assert Step(w2, INVITING[2]) == INVITED;
  }

  lemma ArrivalRun(w: World, who: nat, req: Request, rest: seq<Event>)
    requires who !in w.threads
    ensures var w' := w.(threads := w.threads[who := Begun(req)]);
            && Run(w, [Arrives(who, req)] + rest) == Run(w', rest)
            && (Possible(w', rest) ==> Possible(w, [Arrives(who, req)] + rest))
  {
    RunOne(w, Arrives(who, req), rest);
  }

  /** One call of a thread that has no id to draw. */
  lemma CallRun(w: World, who: nat, t: Thread, o: CallResult, rest: seq<Event>)
    requires !t.MayInvite? && !(t.Begun? && t.req.CreateWorkspaceReq?) && Next(w.data, t, 0) == o
    ensures var at := w.(threads := w.threads[who := t]);
            var w' := Recorded(w.(data := o.data, threads := w.threads[who := o.next]), o.trace);
            && Run(at, [Runs(who, 0)] + rest) == Run(w', rest)
            && (Possible(w', rest) ==> Possible(at, [Runs(who, 0)] + rest))
  {
    var at := w.(threads := w.threads[who := t]);
    assert at.threads[who := o.next] == w.threads[who := o.next];
    RunOne(at, Runs(who, 0), rest);
  }

  /** Three calls of one thread. */
  lemma ThreeRuns(w: World, who: nat, req: Request, t1: Thread, t2: Thread, o: CallResult)
    requires who !in w.threads && !req.CreateWorkspaceReq? && !t1.MayInvite? && !t2.MayInvite? && !t1.Begun?
        && !t2.Begun?
    requires Next(w.data, Begun(req), 0) == CallResult(w.data, t1, Nothing)
    requires Next(w.data, t1, 0) == CallResult(w.data, t2, Nothing)
    requires Next(w.data, t2, 0) == o
    ensures var es := [Arrives(who, req), Runs(who, 0), Runs(who, 0), Runs(who, 0)];
            Possible(w, es) && Run(w, es) == Recorded(w.(data := o.data, threads := w.threads[who := o.next]), o.trace)
  {
    var go := [Runs(who, 0)];
    var w4 := Recorded(w.(data := o.data, threads := w.threads[who := o.next]), o.trace);
    assert [Arrives(who, req), Runs(who, 0), Runs(who, 0), Runs(who, 0)]
        == [Arrives(who, req)] + (go + (go + (go + [])));
    ArrivalRun(w, who, req, go + (go + (go + [])));
    CallRun(w, who, Begun(req), CallResult(w.data, t1, Nothing), go + (go + []));
    CallRun(w, who, t1, CallResult(w.data, t2, Nothing), go + []);
    CallRun(w, who, t2, o, []);
    assert Run(w4, []) == w4 && Possible(w4, []);
  }

  /** A newcomer joins by the open invitation. */
  lemma JoiningRun(w: World, who: nat, sub: Id)
    requires who !in w.threads && |sub| == 1 && !IsSpace(sub[0])
    requires "i" in w.data.invitations && "w" in w.data.members && sub !in w.data.members["w"]
    requires var inv := w.data.invitations["i"];
             inv.id == "i" && inv.workspaceId == "w" && inv.invitedEmail == "" && !Spent(inv, 0)
    ensures Possible(w, Joining(who, sub))
    ensures Run(w, Joining(who, sub)) ==
            w.(data := AcceptInvitation(w.data, "i", sub, 0).0, threads := w.threads[who := Ended(Done)],
               joins := w.joins + ["i"])
  {
    ThreeRuns(w, who, AcceptReq(sub, "", "i"), MayLookUp(sub, "i", "w"), MayAccept(sub, "i"),
              CallResult(AcceptInvitation(w.data, "i", sub, 0).0, Ended(Done), Joined("i")));
  }

  const ONE_JOINED := World(Data(map["w" := map["o" := ROLE_OWNER, "a" := ROLE_MEMBER]],
                                 map["i" := THE_INVITATION.(useCount := 1)]),
                            map[0 := Ended(Done), 1 := Ended(Done), 2 := Ended(Done)],
                            map["w" := "o"], ["i"], map["i" := 2])

  const LOWERED := ONE_JOINED.(threads := ONE_JOINED.threads[3 := MaySet("w", "i", Policy(ROLE_MEMBER, "", 1, HOUR))])

  const BOTH_JOINED := World(Data(map["w" := map["o" := ROLE_OWNER, "a" := ROLE_MEMBER, "b" := ROLE_MEMBER]],
                                 map["i" := THE_INVITATION.(useCount := 2)]),
                            LOWERED.threads[4 := Ended(Done)], map["w" := "o"], ["i", "i"], map["i" := 2])

  lemma FirstAccept()
    ensures AcceptInvitation(INVITED.data, "i", "a", 0).0 == ONE_JOINED.data
  {
  }

  lemma SecondAccept()
    ensures AcceptInvitation(LOWERED.data, "i", "b", 0).0 == BOTH_JOINED.data
  {
  }

  lemma FirstJoins()
    ensures Run(INVITED, Joining(2, "a")) == ONE_JOINED && Possible(INVITED, Joining(2, "a"))
  {
    FirstAccept();
    JoiningRun(INVITED, 2, "a");
  }

  lemma SecondJoins()
    ensures Run(LOWERED, Joining(4, "b")) == BOTH_JOINED && Possible(LOWERED, Joining(4, "b"))
  {
    SecondAccept();
    JoiningRun(LOWERED, 4, "b");
  }

  lemma LoweringRun()
    ensures Run(ONE_JOINED, LOWERING) == LOWERED && Possible(ONE_JOINED, LOWERING)
  {
    var req := PolicyReq("o", "w", "i", None, None, Some(1), None);
    var set1 := MaySet("w", "i", Policy(ROLE_MEMBER, "", 1, HOUR));
    assert Next(ONE_JOINED.data, Begun(req), 0) == CallResult(ONE_JOINED.data, MayList(req), Nothing);
    assert Next(ONE_JOINED.data, MayList(req), 0) == CallResult(ONE_JOINED.data, set1, Nothing);
    var go := [Runs(3, 0)];
    assert LOWERING == [Arrives(3, req)] + (go + (go + []));
    ArrivalRun(ONE_JOINED, 3, req, go + (go + []));
    CallRun(ONE_JOINED, 3, Begun(req), CallResult(ONE_JOINED.data, MayList(req), Nothing), go + []);
    CallRun(ONE_JOINED, 3, MayList(req), CallResult(ONE_JOINED.data, set1, Nothing), []);
  }

  lemma WritingRun()
    ensures Possible(BOTH_JOINED, WRITING) && "i" in Run(BOTH_JOINED, WRITING).data.invitations
    ensures Run(BOTH_JOINED, WRITING).data.invitations["i"] == THE_INVITATION.(useCount := 2, maxUses := 1)
  {
    assert WRITING == [Runs(3, 0)] + [];
    RunOne(BOTH_JOINED, Runs(3, 0), []);
  }

  /**
   * Interleaved requests can leave an invitation used more often than its current limit allows:
   * the limit is checked against a count that another join has since raised.
   */
  lemma RaceExceedsLimit()
    ensures var es := FOUNDING + (INVITING + (Joining(2, "a") + (LOWERING + (Joining(4, "b") + WRITING))));
            && Possible(START, es) && "i" in Run(START, es).data.invitations
            && Run(START, es).data.invitations["i"].useCount == 2 && Run(START, es).data.invitations["i"].maxUses == 1
  {
    var last2 := Joining(4, "b") + WRITING;
    var last3 := LOWERING + last2;
    var last4 := Joining(2, "a") + last3;
    assert Run(LOWERED, last2) == Run(BOTH_JOINED, WRITING) && Possible(LOWERED, last2) by {
      SecondJoins();
      WritingRun();
      RunJoin(LOWERED, Joining(4, "b"), WRITING);
    }
    assert Run(ONE_JOINED, last3) == Run(LOWERED, last2) && Possible(ONE_JOINED, last3) by {
      LoweringRun();
      RunJoin(ONE_JOINED, LOWERING, last2);
    }
    assert Run(INVITED, last4) == Run(ONE_JOINED, last3) && Possible(INVITED, last4) by {
      FirstJoins();
      RunJoin(INVITED, Joining(2, "a"), last3);
    }
    assert Run(FOUNDED, INVITING + last4) == Run(INVITED, last4) && Possible(FOUNDED, INVITING + last4) by {
      InvitingRun();
      RunJoin(FOUNDED, INVITING, last4);
    }
    FoundingRun();
    RunJoin(START, FOUNDING, INVITING + last4);
    WritingRun();
  }
}
