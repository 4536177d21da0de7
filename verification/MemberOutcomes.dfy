/** What each membership and invitation request answers and changes, said without the functions that compute it. */
module MemberOutcomes {
  import opened Common
  import opened Roles
  import opened MemberCalls
  import opened Membership

  /** The subject owns the workspace. */
  predicate Owns(m: Tables, wsId: Id, sub: Id) {
    RoleIn(m, wsId, sub) == Some("owner")
  }

  /** What someone is told who asks for what only an owner may do. */
  function Refusal(m: Tables, wsId: Id): Answer {
    Failed(if wsId in m then Forbidden else NotFound)
  }

  lemma OwnersMay(d: Data, wsId: Id, actor: Id)
    ensures RoleError(d, wsId, actor, ROLE_OWNER) == None <==> Owns(d.members, wsId, actor)
    ensures !Owns(d.members, wsId, actor) ==>
              RoleError(d, wsId, actor, ROLE_OWNER) == Some(Refusal(d.members, wsId).error)
  {
  }

  // ---------- members ----------

  /** Somebody other than `sub` owns the workspace. */
  ghost predicate AnotherOwner(m: Tables, wsId: Id, sub: Id) {
    exists k {:trigger Owns(m, wsId, k)} :: k != sub && Owns(m, wsId, k)
  }

  lemma OwnersCounted(d: Data, wsId: Id, sub: Id)
    requires Owns(d.members, wsId, sub)
    ensures |Owners(d, wsId)| <= 1 <==> !AnotherOwner(d.members, wsId, sub)
  {
    var all := Owners(d, wsId);
    assert sub in all;
    if AnotherOwner(d.members, wsId, sub) {
      var k :| k != sub && Owns(d.members, wsId, k);
      assert {sub, k} <= all;
      assert |{sub, k}| == 2;
      SubsetSize({sub, k}, all);
    } else {
      forall k | k in all ensures k == sub {
        assert Owns(d.members, wsId, k);
      }
      assert all == {sub};
    }
  }

  lemma SubsetSize<T>(a: set<T>, b: set<T>)
    requires a <= b
    ensures |a| <= |b|
  {
    assert b == a + (b - a);
  }

  /** What the guard lets through: a change of a member that leaves the workspace an owner. */
  lemma GuardedChange(d: Data, wsId: Id, target: Id, change: Change, now: Time)
    ensures var (d', a) := Finish(d, MayRead(wsId, target, change), now);
            if RoleIn(d.members, wsId, target).None? then d' == d && a == Failed(NotFound)
            else if Owns(d.members, wsId, target) && !AnotherOwner(d.members, wsId, target)
              then d' == d && a == Failed(Forbidden)
            else
              && a == Done && d'.invitations == d.invitations
              && OnlyMember(d.members, d'.members, wsId, target, if change.Removal? then None else Some(change.role))
  {
    FinishStep(d, MayRead(wsId, target, change), now);
    if RoleIn(d.members, wsId, target).Some? {
      var owned := Owns(d.members, wsId, target);
      FinishStep(d, HasRead(wsId, target, change, owned), now);
      if owned {
        OwnersCounted(d, wsId, target);
        if AnotherOwner(d.members, wsId, target) {
          FinishStep(d, HasCounted(wsId, target, change), now);
        }
      }
      WriteEffect(d, wsId, target, change);
    }
  }

  lemma WriteEffect(d: Data, wsId: Id, target: Id, change: Change)
    requires RoleIn(d.members, wsId, target).Some?
    ensures var o := WriteMember(d, wsId, target, change);
            && o.next == Ended(Done) && o.data.invitations == d.invitations
            && OnlyMember(d.members, o.data.members, wsId, target,
                          if change.Removal? then None else Some(change.role))
  {
    match change
    case NewRole(role) =>
    case Removal =>
  }

  /** Only an owner removes, only someone else, and only that entry goes. */
  lemma RemoveOutcome(d: Data, actor: Id, wsId: Id, target: Id, now: Time)
    ensures var (d', a) := Finish(d, Begun(RemoveReq(actor, wsId, target)), now);
            && a == (if TrimSpace(target) == "" then Failed(Invalid)
                     else if !Owns(d.members, wsId, actor) then Refusal(d.members, wsId)
                     else if actor == target then Failed(Invalid)
                     else if RoleIn(d.members, wsId, target).None? then Failed(NotFound)
                     else Done)
            && (a == Done ==>
                  d'.invitations == d.invitations && OnlyMember(d.members, d'.members, wsId, target, None))
            && (a != Done ==> d' == d)
  {
    FinishStep(d, Begun(RemoveReq(actor, wsId, target)), now);
    OwnersMay(d, wsId, actor);
    GuardedChange(d, wsId, target, Removal, now);
  }

  /** Only an owner changes a role, only to member or guest, and not the last owner's. */
  lemma UpdateRoleOutcome(d: Data, actor: Id, wsId: Id, target: Id, role: Role, now: Time)
    ensures var (d', a) := Finish(d, Begun(UpdateRoleReq(actor, wsId, target, role)), now);
            && a == (if TrimSpace(target) == "" then Failed(Invalid)
                     else if !Owns(d.members, wsId, actor) then Refusal(d.members, wsId)
                     else if role != "member" && role != "guest" then Failed(Invalid)
                     else if RoleIn(d.members, wsId, target).None? then Failed(NotFound)
                     else if Owns(d.members, wsId, target) && !AnotherOwner(d.members, wsId, target)
                       then Failed(Forbidden)
                     else Done)
            && (a == Done ==>
                  d'.invitations == d.invitations && OnlyMember(d.members, d'.members, wsId, target, Some(role)))
            && (a != Done ==> d' == d)
  {
    FinishStep(d, Begun(UpdateRoleReq(actor, wsId, target, role)), now);
    OwnersMay(d, wsId, actor);
    GuardedChange(d, wsId, target, NewRole(role), now);
  }

  /** Leaving takes out the one who leaves and nobody else; the last owner stays. */
  lemma LeaveOutcome(d: Data, actor: Id, wsId: Id, now: Time)
    ensures var (d', a) := Finish(d, Begun(LeaveReq(actor, wsId)), now);
            && a == (if RoleIn(d.members, wsId, actor).None? then Refusal(d.members, wsId)
                     else if Owns(d.members, wsId, actor) && !AnotherOwner(d.members, wsId, actor)
                       then Failed(Forbidden)
                     else Done)
            && (a == Done ==>
                  d'.invitations == d.invitations && OnlyMember(d.members, d'.members, wsId, actor, None))
            && (a != Done ==> d' == d)
  {
    FinishStep(d, Begun(LeaveReq(actor, wsId)), now);
    GuardedChange(d, wsId, actor, Removal, now);
  }

  /** Only an owner adds, never as owner, and only someone who is no member yet. */
  lemma AddOutcome(d: Data, actor: Id, wsId: Id, target: Id, role: Role, now: Time)
    ensures var (d', a) := Finish(d, Begun(AddMemberReq(actor, wsId, target, role)), now);
            && a == (if !Owns(d.members, wsId, actor) then Refusal(d.members, wsId)
                     else if role == "owner" then Failed(Forbidden)
                     else if RoleIn(d.members, wsId, target).Some? then Failed(Conflict)
                     else Done)
            && (a == Done ==>
                  && d'.invitations == d.invitations
                  && OnlyMember(d.members, d'.members, wsId, target, Some(if role == "" then "member" else role)))
            && (a != Done ==> d' == d)
  {
    FinishStep(d, Begun(AddMemberReq(actor, wsId, target, role)), now);
    OwnersMay(d, wsId, actor);
    if Owns(d.members, wsId, actor) && role != "owner" {
      FinishStep(d, MayAdd(wsId, target, if role == "" then "member" else role), now);
    }
  }

  /** A workspace needs a name; its founder owns it and is alone in it. */
  lemma FoundingOutcome(d: Data, owner: Id, name: string, wsId: Id, now: Time)
    requires wsId !in d.members
    ensures var (d', a) := Finish(d, Begun(CreateWorkspaceReq(owner, name, wsId)), now);
            && a == (if name == "" then Failed(Forbidden) else Done)
            && (a == Done ==>
                  && d'.invitations == d.invitations && OnlyWorkspace(d.members, d'.members, wsId, owner)
                  && Owns(d'.members, wsId, owner))
            && (a != Done ==> d' == d)
  {
    FinishStep(d, Begun(CreateWorkspaceReq(owner, name, wsId)), now);
  }

  // ---------- invitations ----------

  /** The role an invitation is to give, when `role` was asked for: member unless told otherwise. */
  function Offered(role: Role): Role {
    if role == "" then "member" else role
  }

  predicate Invites(role: Role) {
    role == "" || role == "member" || role == "guest"
  }

  /** How many hours an invitation is to last: three days unless told otherwise. */
  function Lasting(hours: int): int {
    if hours <= 0 then 72 else hours
  }

  /** Only an owner invites, for member or guest, at most 100 uses and 336 hours; one new invitation is filed. */
  lemma InviteOutcome(d: Data, actor: Id, wsId: Id, role: Role, email: string, maxUses: int, ttlHours: int,
                      newId: Id, now: Time)
    ensures var (d', a) := Finish(d, Begun(InviteReq(actor, wsId, role, email, maxUses, ttlHours, newId)), now);
            && a == (if !Owns(d.members, wsId, actor) then Refusal(d.members, wsId)
                     else if !Invites(role) || maxUses > 100 || ttlHours > 336 then Failed(Invalid)
                     else Done)
            && (a == Done ==>
                  && d'.members == d.members
                  && OnlyInvitation(d.invitations, d'.invitations, newId,
                       Invitation(newId, wsId, Offered(role), email, if maxUses <= 0 then 1 else maxUses, 0,
                                  now + Lasting(ttlHours) * 3_600_000_000_000, now, None)))
            && (a != Done ==> d' == d)
  {
    FinishStep(d, Begun(InviteReq(actor, wsId, role, email, maxUses, ttlHours, newId)), now);
    OwnersMay(d, wsId, actor);
    var t := Begin(d, InviteReq(actor, wsId, role, email, maxUses, ttlHours, newId), now).next;
    if t.MayInvite? {
      FinishStep(d, t, now);
    }
  }

  /** The lifetime of the first one in whole hours; three days if that is none, two weeks if it is more. */
  ghost predicate LastsLike(base: Invitation, hours: int) {
    var life := base.expiresAt - base.createdAt;
    if life < 3_600_000_000_000 then hours == 72
    else if life >= 336 * 3_600_000_000_000 then hours == 336
    else hours * 3_600_000_000_000 <= life < (hours + 1) * 3_600_000_000_000
  }

  lemma ResentLifetime(base: Invitation)
    ensures LastsLike(base, ResendTtl(base)) && 0 < ResendTtl(base) <= 336
  {
  }

  /** Only an owner sends an invitation of the workspace again: for the same role, address and number of uses. */
  lemma ResendOutcome(d: Data, actor: Id, wsId: Id, inviteId: Id, newId: Id, now: Time) returns (hours: int)
    requires inviteId in d.invitations ==>
               var base := d.invitations[inviteId];
               InvitableRole(base.role) && 1 <= base.maxUses <= 100
    ensures var (d', a) := Finish(d, Begun(ResendReq(actor, wsId, inviteId, newId)), now);
            && a == (if TrimSpace(inviteId) == "" then Failed(Invalid)
                     else if !Owns(d.members, wsId, actor) then Refusal(d.members, wsId)
                     else if !Belongs(d.invitations, wsId, inviteId) then Failed(NotFound)
                     else Done)
            && (a == Done ==>
                  var base := d.invitations[inviteId];
                  && d'.members == d.members && LastsLike(base, hours)
                  && OnlyInvitation(d.invitations, d'.invitations, newId,
                       Invitation(newId, wsId, base.role, base.invitedEmail, base.maxUses, 0,
                                  now + hours * 3_600_000_000_000, now, None)))
            && (a != Done ==> d' == d)
  {
    hours := 0;
    FinishStep(d, Begun(ResendReq(actor, wsId, inviteId, newId)), now);
    OwnersMay(d, wsId, actor);
    FinishStep(d, MayResend(actor, wsId, inviteId, newId), now);
    if Belongs(d.invitations, wsId, inviteId) {
      var base := d.invitations[inviteId];
      hours := ResendTtl(base);
      ResentLifetime(base);
      InviteOutcome(d, actor, wsId, base.role, base.invitedEmail, base.maxUses, hours, newId, now);
    }
  }

  /** Only an owner revokes an invitation of the workspace; one revoked before stays as it is. */
  lemma RevokeOutcome(d: Data, actor: Id, wsId: Id, inviteId: Id, now: Time)
    ensures var (d', a) := Finish(d, Begun(RevokeReq(actor, wsId, inviteId)), now);
            && a == (if TrimSpace(inviteId) == "" then Failed(Invalid)
                     else if !Owns(d.members, wsId, actor) then Refusal(d.members, wsId)
                     else if !Belongs(d.invitations, wsId, inviteId) then Failed(NotFound)
                     else Done)
            && (a == Done ==>
                  var inv := d.invitations[inviteId];
                  if inv.revokedAt.Some? then d' == d
                  else && d'.members == d.members
                       && OnlyInvitation(d.invitations, d'.invitations, inviteId, inv.(revokedAt := Some(now))))
            && (a != Done ==> d' == d)
  {
    FinishStep(d, Begun(RevokeReq(actor, wsId, inviteId)), now);
    OwnersMay(d, wsId, actor);
    FinishStep(d, MayRevoke(wsId, inviteId), now);
  }

  /** An update of an open invitation can be had: role, uses and lifetime in range, and the uses so far covered. */
  predicate PolicyFitsRules(base: Invitation, role: Option<Role>, uses: Option<int>, ttl: Option<int>) {
    && (role.Some? ==> Invites(role.value))
    && (uses.Some? ==> uses.value <= 100)
    && (ttl.Some? ==> ttl.value <= 336)
    && base.useCount <= (if uses.None? then base.maxUses else if uses.value <= 0 then 1 else uses.value)
  }

  /** What was asked for is new, and everything else as it was. */
  predicate Revised(base: Invitation, inv: Invitation, role: Option<Role>, email: Option<string>, uses: Option<int>,
                    ttl: Option<int>, now: Time)
  {
    && inv == base.(role := inv.role, invitedEmail := inv.invitedEmail, maxUses := inv.maxUses,
                    expiresAt := inv.expiresAt)
    && inv.role == (if role.None? then base.role else Offered(role.value))
    && inv.invitedEmail == (if email.None? then base.invitedEmail else email.value)
    && inv.maxUses == (if uses.None? then base.maxUses else if uses.value <= 0 then 1 else uses.value)
    && inv.expiresAt == (if ttl.None? then base.expiresAt else now + Lasting(ttl.value) * 3_600_000_000_000)
  }

  lemma NextPolicyMeans(base: Invitation, req: Request, now: Time)
    requires req.PolicyReq?
    ensures var t := NextPolicy(base, req, now);
            if !PolicyFitsRules(base, req.newRole, req.newMax, req.newTtl) then t == Fail(Invalid)
            else && t.MaySet? && t.wsId == req.wsId && t.inviteId == req.inviteId
                 && Revised(base, base.(role := t.policy.role, invitedEmail := t.policy.email,
                                        maxUses := t.policy.maxUses, expiresAt := t.policy.expiresAt),
                            req.newRole, req.newEmail, req.newMax, req.newTtl, now)
  {
  }

  /** The update once the caller is known to own the workspace. */
  lemma ListedPolicyOutcome(d: Data, req: Request, now: Time)
    requires req.PolicyReq? && req.wsId in d.members && Belongs(d.invitations, req.wsId, req.inviteId)
    requires d.invitations[req.inviteId].revokedAt.None?
    ensures var (d', a) := Finish(d, MayList(req), now);
            var base := d.invitations[req.inviteId];
            if !PolicyFitsRules(base, req.newRole, req.newMax, req.newTtl) then d' == d && a == Failed(Invalid)
            else && a == Done && d'.members == d.members && req.inviteId in d'.invitations
                 && Revised(base, d'.invitations[req.inviteId], req.newRole, req.newEmail, req.newMax, req.newTtl, now)
                 && OnlyInvitation(d.invitations, d'.invitations, req.inviteId, d'.invitations[req.inviteId])
  {
    var base := d.invitations[req.inviteId];
    FinishStep(d, MayList(req), now);
    NextPolicyMeans(base, req, now);
    var t := NextPolicy(base, req, now);
    if t.MaySet? {
      FinishStep(d, t, now);
    }
  }

  /** Only an owner changes the policy of an invitation, only an open one's, and only what was asked for changes. */
  lemma PolicyOutcome(d: Data, actor: Id, wsId: Id, inviteId: Id, role: Option<Role>, email: Option<string>,
                      uses: Option<int>, ttl: Option<int>, now: Time)
    ensures var (d', a) := Finish(d, Begun(PolicyReq(actor, wsId, inviteId, role, email, uses, ttl)), now);
            && a == (if TrimSpace(inviteId) == "" then Failed(Invalid)
                     else if role.None? && email.None? && uses.None? && ttl.None? then Failed(Invalid)
                     else if !Owns(d.members, wsId, actor) then Refusal(d.members, wsId)
                     else if !Belongs(d.invitations, wsId, inviteId) then Failed(NotFound)
                     else if d.invitations[inviteId].revokedAt.Some? then Failed(Forbidden)
                     else if !PolicyFitsRules(d.invitations[inviteId], role, uses, ttl) then Failed(Invalid)
                     else Done)
            && (a == Done ==>
                  && d'.members == d.members && inviteId in d'.invitations
                  && Revised(d.invitations[inviteId], d'.invitations[inviteId], role, email, uses, ttl, now)
                  && OnlyInvitation(d.invitations, d'.invitations, inviteId, d'.invitations[inviteId]))
            && (a != Done ==> d' == d)
  {
    var req := PolicyReq(actor, wsId, inviteId, role, email, uses, ttl);
    FinishStep(d, Begun(req), now);
    OwnersMay(d, wsId, actor);
    if Owns(d.members, wsId, actor) {
      if Belongs(d.invitations, wsId, inviteId) && d.invitations[inviteId].revokedAt.None? {
        ListedPolicyOutcome(d, req, now);
      } else {
        FinishStep(d, MayList(req), now);
      }
    }
  }

  /** The store refuses an invitation that is revoked, that has reached its expiry, or that has no use left. */
  lemma ClosedIsRefused(d: Data, inviteId: Id, sub: Id, now: Time)
    requires inviteId in d.invitations
    ensures var inv := d.invitations[inviteId];
            inv.revokedAt.Some? || inv.expiresAt <= now || inv.maxUses <= inv.useCount ==>
              AcceptInvitation(d, inviteId, sub, now) == (d, Err(Forbidden))
  {
  }

  /** The invitation is for this address, or for anyone. */
  predicate Addressed(inv: Invitation, email: string) {
    inv.invitedEmail == "" || inv.invitedEmail == email
  }

  /**
   * An accept goes through exactly with an invitation that is addressed to the caller, not revoked, not
   * yet expired and not used up.  A newcomer gets the invitation's role and one use is counted; a member
   * keeps the role they have and nothing changes.
   */
  lemma AcceptOutcome(d: Data, actor: Id, email: string, token: Id, now: Time)
    requires token in d.invitations ==> d.invitations[token].id == token
    ensures var (d', a) := Finish(d, Begun(AcceptReq(actor, email, token)), now);
            && (a == Done <==>
                  && TrimSpace(actor) != "" && TrimSpace(token) != "" && token in d.invitations
                  && Addressed(d.invitations[token], email) && d.invitations[token].workspaceId in d.members
                  && d.invitations[token].revokedAt.None? && now < d.invitations[token].expiresAt
                  && d.invitations[token].useCount < d.invitations[token].maxUses)
            && (a != Done ==>
                  && d' == d
                  && a == Failed(if TrimSpace(actor) == "" || TrimSpace(token) == "" then Invalid
                                 else if token in d.invitations && !Addressed(d.invitations[token], email)
                                   then Forbidden
                                 else NotFound))
            && (a == Done ==>
                  var inv := d.invitations[token];
                  if RoleIn(d.members, inv.workspaceId, actor).Some? then d' == d
                  else && OnlyMember(d.members, d'.members, inv.workspaceId, actor, Some(inv.role))
                       && OnlyInvitation(d.invitations, d'.invitations, token,
                                         inv.(useCount := inv.useCount + 1)))
  {
    FinishStep(d, Begun(AcceptReq(actor, email, token)), now);
    if token in d.invitations {
      var inv := d.invitations[token];
      FinishStep(d, MayLookUp(actor, token, inv.workspaceId), now);
      FinishStep(d, MayAccept(actor, token), now);
      ClosedIsRefused(d, token, actor, now);
      if inv.workspaceId in d.members {
        AcceptEffect(d, token, actor, now);
      }
    }
  }
}
