/**
 * Who stands behind each change: along every interleaving of membership and invitation requests,
 * an entry changes only for a request whose caller was entitled to it when it was checked.
 */
module MemberRuns {
  import opened Common
  import opened MemberCalls
  import opened Membership
  import opened MemberOutcomes

  // ---------- points of a run ----------

  /** The world after the first `k` events, from the empty store. */
  function At(es: seq<Event>, k: nat): World
    requires k <= |es|
  {
    Run(START, es[..k])
  }

  /** One event leads from each point to the next, and ids drawn there are new. */
  lemma {:induction false} RunAt(w: World, es: seq<Event>, k: nat)
    requires k < |es|
    ensures Run(w, es[..k + 1]) == Step(Run(w, es[..k]), es[k])
    ensures Possible(w, es) ==> Possible(w, es[..k]) && IdsAreNew(Run(w, es[..k]), es[k])
    decreases k
  {
    if k == 0 {
      assert es[..1][1..] == [];
      assert Run(w, es[..1]) == Run(Step(w, es[0]), []);
    } else {
      assert es[..k + 1][1..] == es[1..][..k] && es[..k][1..] == es[1..][..k - 1];
      RunAt(Step(w, es[0]), es[1..], k - 1);
    }
  }

  /** Event `i` is the first call of a request of thread `who`: the one that checks it. */
  ghost predicate Checks(es: seq<Event>, i: nat, who: nat, req: Request) {
    && i < |es| && es[i].Runs? && es[i].who == who
    && who in At(es, i).threads && At(es, i).threads[who] == Begun(req)
  }

  // ---------- what a check entitles to ----------

  ghost predicate MayChangeMember(m: Tables, req: Request, wsId: Id, target: Id, change: Change) {
    match req
    case RemoveReq(actor, w, sub) =>
      w == wsId && sub == target && actor != target && Owns(m, wsId, actor) && change == Removal
    case LeaveReq(actor, w) => w == wsId && actor == target && change == Removal
    case UpdateRoleReq(actor, w, sub, role) =>
      && w == wsId && sub == target && Owns(m, wsId, actor) && change == NewRole(role)
      && (role == "member" || role == "guest")
    case _ => false
  }

  /** A request that was checked in store `d` can have brought its thread here. */
  ghost predicate Entitled(d: Data, req: Request, t: Thread) {
    match t
    case MayAdd(wsId, target, role) =>
      && req.AddMemberReq? && req.wsId == wsId && req.target == target && Owns(d.members, wsId, req.actor)
      && req.role != "owner" && role == Offered(req.role)
    case MayRead(wsId, target, change) => MayChangeMember(d.members, req, wsId, target, change)
    case HasRead(wsId, target, change, _) => MayChangeMember(d.members, req, wsId, target, change)
    case HasCounted(wsId, target, change) => MayChangeMember(d.members, req, wsId, target, change)
    case MayInvite(inv) =>
      && req.InviteReq? && Owns(d.members, req.wsId, req.actor) && Invites(req.role)
      && inv.id == req.newId && inv.workspaceId == req.wsId && inv.role == Offered(req.role)
      && inv.invitedEmail == req.email && inv.useCount == 0 && inv.revokedAt.None?
    case MayResend(actor, wsId, inviteId, newId) =>
      req == ResendReq(actor, wsId, inviteId, newId) && Owns(d.members, wsId, actor)
    case MayRevoke(wsId, inviteId) =>
      req.RevokeReq? && req.wsId == wsId && req.inviteId == inviteId && Owns(d.members, wsId, req.actor)
    case MayList(policyReq) => req == policyReq && req.PolicyReq? && Owns(d.members, req.wsId, req.actor)
    case MaySet(wsId, inviteId, _) =>
      req.PolicyReq? && req.wsId == wsId && req.inviteId == inviteId && Owns(d.members, wsId, req.actor)
    case MayLookUp(actor, inviteId, _) => MayJoin(d, req, actor, inviteId)
    case MayAccept(actor, inviteId) => MayJoin(d, req, actor, inviteId)
    case _ => true
  }

  ghost predicate MayJoin(d: Data, req: Request, actor: Id, inviteId: Id) {
    && req.AcceptReq? && req.actor == actor && req.token == inviteId
    && inviteId in d.invitations && Addressed(d.invitations[inviteId], req.email)
  }

  lemma CheckEntitles(d: Data, req: Request, now: Time)
    ensures Entitled(d, req, Begin(d, req, now).next)
  {
    match req
    case AddMemberReq(actor, wsId, _, _) => OwnersMay(d, wsId, actor);
    case UpdateRoleReq(actor, wsId, _, _) => OwnersMay(d, wsId, actor);
    case RemoveReq(actor, wsId, _) => OwnersMay(d, wsId, actor);
    case InviteReq(actor, wsId, _, _, _, _, _) => OwnersMay(d, wsId, actor);
    case ResendReq(actor, wsId, _, _) => OwnersMay(d, wsId, actor);
    case RevokeReq(actor, wsId, _) => OwnersMay(d, wsId, actor);
    case PolicyReq(actor, wsId, _, _, _, _, _) => OwnersMay(d, wsId, actor);
    case _ =>
  }

  lemma MemberCallsKeepEntitled(d0: Data, req: Request, d: Data, t: Thread, now: Time)
    requires Entitled(d0, req, t) && (t.MayAdd? || t.MayRead? || t.HasRead? || t.HasCounted?)
    ensures Entitled(d0, req, Next(d, t, now).next)
  {
    match t
    case HasRead(wsId, target, change, _) => WritingEnds(d, wsId, target, change);
    case HasCounted(wsId, target, change) => WritingEnds(d, wsId, target, change);
    case _ =>
  }

  lemma WritingEnds(d: Data, wsId: Id, target: Id, change: Change)
    ensures WriteMember(d, wsId, target, change).next.Ended?
  {
    if change.NewRole? {}
  }

  lemma InvitationCallsKeepEntitled(d0: Data, req: Request, d: Data, t: Thread, now: Time)
    requires Entitled(d0, req, t) && !t.Begun? && !t.MayAdd? && !t.MayRead? && !t.HasRead? && !t.HasCounted?
    ensures Entitled(d0, req, Next(d, t, now).next)
  {
  }

  lemma CallsKeepEntitled(d0: Data, req: Request, d: Data, t: Thread, now: Time)
    requires Entitled(d0, req, t) && !t.Begun?
    ensures Entitled(d0, req, Next(d, t, now).next)
  {
    if t.MayAdd? || t.MayRead? || t.HasRead? || t.HasCounted? {
      MemberCallsKeepEntitled(d0, req, d, t, now);
    } else {
      InvitationCallsKeepEntitled(d0, req, d, t, now);
    }
  }

  /** Every thread on its way is where a checked request of its own has brought it. */
  lemma {:induction false} EveryThreadIsEntitled(es: seq<Event>, k: nat, who: nat) returns (i: nat, req: Request)
    requires k <= |es| && who in At(es, k).threads
    requires !At(es, k).threads[who].Begun? && !At(es, k).threads[who].Ended?
    ensures i < k && Checks(es, i, who, req) && Entitled(At(es, i).data, req, At(es, k).threads[who])
    decreases k
  {
    if k == 0 {
      assert false;
    } else {
      RunAt(START, es, k - 1);
      var w, e := At(es, k - 1), es[k - 1];
      var t := w.threads[who];
      if e.Runs? && e.who == who {
        StepOf(w, who, e.now);
        if t.Begun? {
          i, req := k - 1, t.req;
          CheckEntitles(w.data, req, e.now);
        } else {
          i, req := EveryThreadIsEntitled(es, k - 1, who);
          CallsKeepEntitled(At(es, i).data, req, w.data, t, e.now);
        }
      } else {
        if e.Runs? && e.who in w.threads {
          StepOf(w, e.who, e.now);
        }
        i, req := EveryThreadIsEntitled(es, k - 1, who);
      }
    }
  }

  lemma StepOf(w: World, who: nat, now: Time)
    requires who in w.threads
    ensures var o := Next(w.data, w.threads[who], now);
            var w' := Step(w, Runs(who, now));
            && w'.data == o.data && w'.threads == w.threads[who := o.next]
            && w'.joins == (if o.trace.Joined? then w.joins + [o.trace.inviteId] else w.joins)
  {
    RecordedParts(w, Next(w.data, w.threads[who], now), who);
  }

  // ---------- members ----------

  /** The invitation can be used now: not revoked, not yet expired, and with a use left. */
  predicate Open(inv: Invitation, now: Time) {
    inv.revokedAt.None? && now < inv.expiresAt && inv.useCount < inv.maxUses
  }

  /** The calls that change an entry, and what they make of it. */
  lemma EntryChange(d: Data, t: Thread, now: Time, wsId: Id, sub: Id)
    requires RoleIn(Next(d, t, now).data.members, wsId, sub) != RoleIn(d.members, wsId, sub)
    requires t.Begun? && t.req.CreateWorkspaceReq? ==> t.req.wsId !in d.members
    ensures var had, has := RoleIn(d.members, wsId, sub), RoleIn(Next(d, t, now).data.members, wsId, sub);
            match t
            case Begun(req) =>
              req.CreateWorkspaceReq? && req.wsId == wsId && req.owner == sub && had == None && has == Some("owner")
            case MayAdd(w, target, role) => w == wsId && target == sub && had == None && has == Some(role)
            case HasRead(w, target, change, _) =>
              w == wsId && target == sub && had.Some? && has == (if change.Removal? then None else Some(change.role))
            case HasCounted(w, target, change) =>
              w == wsId && target == sub && had.Some? && has == (if change.Removal? then None else Some(change.role))
            case MayAccept(actor, id) =>
              && actor == sub && id in d.invitations && d.invitations[id].workspaceId == wsId
              && Open(d.invitations[id], now) && had == None && has == Some(d.invitations[id].role)
            case _ => false
  {
    if (t.HasRead? || t.HasCounted?) && RoleIn(d.members, t.wsId, t.target).Some? {
      WriteEffect(d, t.wsId, t.target, t.change);
    }
  }

  /**
   * The request stands behind the change of one entry at event `k`, and was checked at event `i`: a
   * founding; an addition or role change by someone who owned the workspace then; a removal by such an
   * owner; the member's own leave; or the newcomer's own accept, by an invitation for their address that
   * is open at `k`.
   */
  ghost predicate BehindEntry(es: seq<Event>, i: nat, k: nat, req: Request, wsId: Id, sub: Id)
    requires i <= k < |es| && es[k].Runs?
  {
    var m := At(es, i).data.members;
    var had, has := RoleIn(At(es, k).data.members, wsId, sub), RoleIn(At(es, k + 1).data.members, wsId, sub);
    match req
    case CreateWorkspaceReq(owner, _, w) => w == wsId && owner == sub && had == None && has == Some("owner")
    case AddMemberReq(actor, w, target, role) =>
      && w == wsId && target == sub && Owns(m, wsId, actor)
      && had == None && role != "owner" && has == Some(Offered(role))
    case UpdateRoleReq(actor, w, target, role) =>
      && w == wsId && target == sub && Owns(m, wsId, actor)
      && had.Some? && (role == "member" || role == "guest") && has == Some(role)
    case RemoveReq(actor, w, target) =>
      w == wsId && target == sub && actor != sub && Owns(m, wsId, actor) && had.Some? && has == None
    case LeaveReq(actor, w) => w == wsId && actor == sub && had.Some? && has == None
    case AcceptReq(actor, email, id) =>
      && actor == sub && id in At(es, i).data.invitations && Addressed(At(es, i).data.invitations[id], email)
      && id in At(es, k).data.invitations && Open(At(es, k).data.invitations[id], es[k].now)
      && At(es, k).data.invitations[id].workspaceId == wsId
      && had == None && has == Some(At(es, k).data.invitations[id].role)
    case _ => false
  }

  /** Along every interleaving, every change of a membership has a request behind it that was entitled to it. */
  lemma MemberChangesAreEntitled(es: seq<Event>, k: nat, wsId: Id, sub: Id) returns (i: nat, req: Request)
    requires Possible(START, es) && k < |es|
    requires RoleIn(At(es, k + 1).data.members, wsId, sub) != RoleIn(At(es, k).data.members, wsId, sub)
    ensures i <= k && es[k].Runs? && Checks(es, i, es[k].who, req) && BehindEntry(es, i, k, req, wsId, sub)
  {
    RunAt(START, es, k);
    var w, e := At(es, k), es[k];
    assert e.Runs? && e.who in w.threads;
    var t := w.threads[e.who];
    StepOf(w, e.who, e.now);
    EntryChange(w.data, t, e.now, wsId, sub);
    if t.Begun? {
      i, req := k, t.req;
    } else {
      i, req := EveryThreadIsEntitled(es, k, e.who);
    }
  }

  /** Whoever owns a workspace still owns it at every later point, so also when the change is written. */
  lemma {:induction false} OwnersStay(es: seq<Event>, i: nat, k: nat, wsId: Id, sub: Id)
    requires Possible(START, es) && i <= k <= |es| && Owns(At(es, i).data.members, wsId, sub)
    ensures Owns(At(es, k).data.members, wsId, sub)
    decreases k
  {
    if i < k {
      OwnersStay(es, i, k - 1, wsId, sub);
      RunAt(START, es, k - 1);
      assert es[..|es|] == es;
      if k < |es| {
        RunAt(START, es, k);
      }
      StartInv();
      EveryInterleaving(START, es[..k - 1], wsId, "");
      EveryInterleaving(START, es[..k], wsId, "");
      assert sub in Owners(At(es, k - 1).data, wsId);
      FounderKept(At(es, k - 1), es[k - 1], wsId);
      assert sub in Owners(At(es, k).data, wsId);
    }
  }

  // ---------- invitations ----------

  function Filed(m: map<Id, Invitation>, id: Id): Option<Invitation> {
    if id in m then Some(m[id]) else None
  }

  /** The calls that change an invitation, and what they make of it. */
  lemma InvitationChange(d: Data, t: Thread, now: Time, id: Id)
    requires forall k :: k in d.invitations ==> d.invitations[k].id == k
    requires Filed(Next(d, t, now).data.invitations, id) != Filed(d.invitations, id)
    ensures var had, has := Filed(d.invitations, id), Filed(Next(d, t, now).data.invitations, id);
            match t
            case MayInvite(inv) => inv.id == id && has == Some(inv)
            case MayRevoke(w, x) =>
              && x == id && Belongs(d.invitations, w, id) && had.value.revokedAt.None?
              && has == Some(had.value.(revokedAt := Some(now)))
            case MaySet(w, x, p) =>
              && x == id && Belongs(d.invitations, w, id) && had.value.revokedAt.None?
              && has == Some(had.value.(role := p.role, invitedEmail := p.email, maxUses := p.maxUses,
                                        expiresAt := p.expiresAt))
            case MayAccept(actor, x) =>
              && x == id && had.Some? && Open(had.value, now)
              && RoleIn(d.members, had.value.workspaceId, actor) == None
              && has == Some(had.value.(useCount := had.value.useCount + 1))
            case _ => false
  {
    if !t.MayInvite? && !t.MaySet? && !t.MayRevoke? && !t.MayAccept? {
      OtherCallsKeepInvitations(d, t, now);
    }
  }

  /**
   * The request stands behind the change of one invitation at event `k`, and was checked at event `i`: an
   * invitation of one's own workspace; a revocation or a new policy, of an open invitation, by someone who
   * owned its workspace then; or one more use by someone who joins by it, addressed to them and still open.
   */
  ghost predicate BehindInvitation(es: seq<Event>, i: nat, k: nat, req: Request, id: Id)
    requires i <= k < |es| && es[k].Runs?
  {
    var m := At(es, i).data.members;
    var had, has := Filed(At(es, k).data.invitations, id), Filed(At(es, k + 1).data.invitations, id);
    match req
    case InviteReq(actor, w, role, email, _, _, newId) =>
      && newId == id && Owns(m, w, actor) && had == None && has.Some? && has.value.workspaceId == w
      && Invites(role) && has.value.role == Offered(role) && has.value.invitedEmail == email
      && has.value.useCount == 0 && has.value.revokedAt == None
    case RevokeReq(actor, w, x) =>
      && x == id && Owns(m, w, actor) && had.Some? && had.value.workspaceId == w && had.value.revokedAt == None
      && has == Some(had.value.(revokedAt := Some(es[k].now)))
    case PolicyReq(actor, w, x, _, _, _, _) =>
      && x == id && Owns(m, w, actor) && had.Some? && had.value.workspaceId == w && had.value.revokedAt == None
      && has.Some?
      && has.value == had.value.(role := has.value.role, invitedEmail := has.value.invitedEmail,
                                 maxUses := has.value.maxUses, expiresAt := has.value.expiresAt)
    case AcceptReq(actor, email, x) =>
      && x == id && id in At(es, i).data.invitations && Addressed(At(es, i).data.invitations[id], email)
      && had.Some? && Open(had.value, es[k].now) && RoleIn(At(es, k).data.members, had.value.workspaceId, actor) == None
      && has == Some(had.value.(useCount := had.value.useCount + 1))
    case _ => false
  }

  /** Along every interleaving, every change of an invitation has a request behind it that was entitled to it. */
  lemma InvitationChangesAreEntitled(es: seq<Event>, k: nat, id: Id) returns (i: nat, req: Request)
    requires Possible(START, es) && k < |es|
    requires Filed(At(es, k + 1).data.invitations, id) != Filed(At(es, k).data.invitations, id)
    ensures i <= k && es[k].Runs? && Checks(es, i, es[k].who, req) && BehindInvitation(es, i, k, req, id)
  {
    RunAt(START, es, k);
    var w, e := At(es, k), es[k];
    assert e.Runs? && e.who in w.threads;
    var t := w.threads[e.who];
    StepOf(w, e.who, e.now);
    ReachableIds(es, k);
    InvitationChange(w.data, t, e.now, id);
    i, req := EveryThreadIsEntitled(es, k, e.who);
  }

  lemma ReachableIds(es: seq<Event>, k: nat)
    requires Possible(START, es) && k < |es|
    ensures var d := At(es, k).data; forall x :: x in d.invitations ==> d.invitations[x].id == x
  {
    RunAt(START, es, k);
    StartInv();
    var w := At(es, k);
    EveryInterleaving(START, es[..k], "", "");
    forall x | x in w.data.invitations ensures w.data.invitations[x].id == x {
      assert InvitationOk(w.data.invitations[x], x, w.data, w.joins, w.peaks);
    }
  }

  /** Along every interleaving, every join is by an invitation that is not revoked, expired or used up by then. */
  lemma JoinsAreInTime(es: seq<Event>, k: nat)
    requires k < |es| && At(es, k + 1).joins != At(es, k).joins
    ensures es[k].Runs? && es[k].who in At(es, k).threads && At(es, k).threads[es[k].who].MayAccept?
    ensures var id := At(es, k).threads[es[k].who].inviteId;
            && id in At(es, k).data.invitations && Open(At(es, k).data.invitations[id], es[k].now)
            && At(es, k + 1).joins == At(es, k).joins + [id]
  {
    RunAt(START, es, k);
    var w, e := At(es, k), es[k];
    assert e.Runs? && e.who in w.threads;
    StepOf(w, e.who, e.now);
    OnlyAcceptsJoin(w.data, w.threads[e.who], e.now);
  }

  lemma OnlyAcceptsJoin(d: Data, t: Thread, now: Time)
    requires Next(d, t, now).trace.Joined?
    ensures && t.MayAccept? && t.inviteId in d.invitations && Open(d.invitations[t.inviteId], now)
            && Next(d, t, now).trace.inviteId == t.inviteId
  {
    if !t.MayInvite? && !t.MaySet? && !t.MayRevoke? && !t.MayAccept? {
      OtherCallsKeepInvitations(d, t, now);
    }
  }
}
