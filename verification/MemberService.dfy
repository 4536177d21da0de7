/** Membership and invitation requests as the service carries them out: checks, then store calls. */
module MemberService {
  import opened Common
  import opened Roles
  import opened MemberCalls
  import opened Membership
  import MemberStore

  function AnswerOf<T>(r: Outcome<T>): Answer {
    if r.Err? then Failed(r.error) else Done
  }

  class Service {
    const store: MemberStore.Store

    constructor (st: MemberStore.Store)
      ensures store == st
    {
      store := st;
    }

    method CreateWorkspace(owner: Id, name: string, wsId: Id, now: Time) returns (r: Outcome<()>)
      requires wsId !in store.members
      modifies store
      ensures (store.State(), AnswerOf(r))
          == Finish(old(store.State()), Begun(CreateWorkspaceReq(owner, name, wsId)), now)
    {
      FinishStep(store.State(), Begun(CreateWorkspaceReq(owner, name, wsId)), now);
      if name == "" {
        return Err(Forbidden);
      }
      ghost var before := store.members;
      store.CreateWorkspace(wsId, owner);
      OnlyWorkspaceIs(before, store.members, wsId, owner);
      r := Ok(());
    }

    // ----- members -----

    method AddMember(actor: Id, wsId: Id, target: Id, role: Role, now: Time) returns (r: Outcome<Role>)
      modifies store
      ensures (store.State(), AnswerOf(r))
          == Finish(old(store.State()), Begun(AddMemberReq(actor, wsId, target, role)), now)
      ensures r.Ok? ==> r.value == if role == "" then ROLE_MEMBER else role
    {
      FinishStep(store.State(), Begun(AddMemberReq(actor, wsId, target, role)), now);
      var e := RoleError(store.State(), wsId, actor, ROLE_OWNER);
      if e.Some? {
        return Err(e.value);
      }
      var given := role;
      if given == "" {
        given := ROLE_MEMBER;
      }
      if given == ROLE_OWNER {
        return Err(Forbidden);
      }
      FinishStep(store.State(), MayAdd(wsId, target, given), now);
      ghost var before := store.members;
      r := store.AddMember(wsId, target, given);
      if r.Ok? {
        OnlyMemberIs(before, store.members, wsId, target, Some(given));
      }
    }

    /** How many of the listed members are owners. */
    method CountOwners(wsId: Id) returns (r: Outcome<nat>)
      ensures r == if wsId in store.members then Ok(|Owners(store.State(), wsId)|) else Err(NotFound)
    {
      if wsId !in store.members {
        return Err(NotFound);
      }
      var n := 0;
      var rest := store.members[wsId].Keys;
      ghost var counted: set<Id> := {};
      while rest != {}
        invariant rest <= store.members[wsId].Keys
        invariant counted == set sub | sub in store.members[wsId] && sub !in rest
            && store.members[wsId][sub] == ROLE_OWNER
        invariant n == |counted|
        decreases rest
      {
        var sub :| sub in rest;
        rest := rest - {sub};
        if store.members[wsId][sub] == ROLE_OWNER {
          counted := counted + {sub};
          n := n + 1;
        }
      }
      assert counted == Owners(store.State(), wsId);
      r := Ok(n);
    }

    /** The guard that keeps the last owner: read the target and, if it owns, count the owners. */
    method MayChange(wsId: Id, target: Id, change: Change, now: Time) returns (e: Option<Error>)
      ensures var st := store.State();
              if e.Some? then Finish(st, MayRead(wsId, target, change), now) == (st, Failed(e.value))
              else
                var o := WriteMember(st, wsId, target, change);
                Finish(st, MayRead(wsId, target, change), now) == Finish(o.data, o.next, now)
    {
      var member := GetMember(store.State(), wsId, target);
      FinishStep(store.State(), MayRead(wsId, target, change), now);
      if member.Err? {
        return Some(member.error);
      }
      var wasOwner := member == Ok(ROLE_OWNER);
      FinishStep(store.State(), HasRead(wsId, target, change, wasOwner), now);
      if wasOwner {
        var owners := CountOwners(wsId);
        if owners.Err? {
          assert false;
        }
        if owners.value <= 1 {
          return Some(Forbidden);
        }
        FinishStep(store.State(), HasCounted(wsId, target, change), now);
      }
      e := None;
    }

    method UpdateMemberRole(actor: Id, wsId: Id, target: Id, role: Role, now: Time) returns (r: Outcome<Role>)
      modifies store
      ensures (store.State(), AnswerOf(r))
          == Finish(old(store.State()), Begun(UpdateRoleReq(actor, wsId, target, role)), now)
      ensures r.Ok? ==> r.value == role
    {
      FinishStep(store.State(), Begun(UpdateRoleReq(actor, wsId, target, role)), now);
      if TrimSpace(target) == "" {
        return Err(Invalid);
      }
      var e := RoleError(store.State(), wsId, actor, ROLE_OWNER);
      if e.Some? {
        return Err(e.value);
      }
      if role != ROLE_MEMBER && role != ROLE_GUEST {
        return Err(Invalid);
      }
      e := MayChange(wsId, target, NewRole(role), now);
      if e.Some? {
        return Err(e.value);
      }
      ghost var before := store.members;
      r := store.UpdateMemberRole(wsId, target, role);
      if r.Ok? {
        OnlyMemberIs(before, store.members, wsId, target, Some(role));
      }
    }

    method RemoveMember(actor: Id, wsId: Id, target: Id, now: Time) returns (r: Outcome<()>)
      modifies store
      ensures (store.State(), AnswerOf(r)) == Finish(old(store.State()), Begun(RemoveReq(actor, wsId, target)), now)
    {
      FinishStep(store.State(), Begun(RemoveReq(actor, wsId, target)), now);
      if TrimSpace(target) == "" {
        return Err(Invalid);
      }
      var e := RoleError(store.State(), wsId, actor, ROLE_OWNER);
      if e.Some? {
        return Err(e.value);
      }
      if actor == target {
        return Err(Invalid);
      }
      e := MayChange(wsId, target, Removal, now);
      if e.Some? {
        return Err(e.value);
      }
      ghost var before := store.members;
      r := store.RemoveMember(wsId, target);
      if r.Ok? {
        OnlyMemberIs(before, store.members, wsId, target, None);
      }
    }

    method LeaveWorkspace(sub: Id, wsId: Id, now: Time) returns (r: Outcome<()>)
      modifies store
      ensures (store.State(), AnswerOf(r)) == Finish(old(store.State()), Begun(LeaveReq(sub, wsId)), now)
    {
      FinishStep(store.State(), Begun(LeaveReq(sub, wsId)), now);
      var e := RoleError(store.State(), wsId, sub, ROLE_GUEST);
      if e.Some? {
        return Err(e.value);
      }
      e := MayChange(wsId, sub, Removal, now);
      if e.Some? {
        return Err(e.value);
      }
      ghost var before := store.members;
      r := store.RemoveMember(wsId, sub);
      if r.Ok? {
        OnlyMemberIs(before, store.members, wsId, sub, None);
      }
    }

    // ----- invitations -----

    method CreateInvitation(actor: Id, wsId: Id, role: Role, email: string, maxUses: int, ttlHours: int, newId: Id,
                            now: Time)
      returns (r: Outcome<Invitation>)
      modifies store
      ensures (store.State(), AnswerOf(r)) ==
              Finish(old(store.State()), Begun(InviteReq(actor, wsId, role, email, maxUses, ttlHours, newId)), now)
      ensures r.Ok? ==> newId in store.invitations && r.value == store.invitations[newId]
    {
      FinishStep(store.State(), Begun(InviteReq(actor, wsId, role, email, maxUses, ttlHours, newId)), now);
      var e := RoleError(store.State(), wsId, actor, ROLE_OWNER);
      if e.Some? {
        return Err(e.value);
      }
      var given, uses, ttl := role, maxUses, ttlHours;
      if given == "" {
        given := ROLE_MEMBER;
      }
      if given != ROLE_MEMBER && given != ROLE_GUEST {
        return Err(Invalid);
      }
      if uses <= 0 {
        uses := 1;
      }
      if uses > MAX_INVITE_USES {
        return Err(Invalid);
      }
      if ttl <= 0 {
        ttl := 72;
      }
      if ttl > MAX_TTL_HOURS {
        return Err(Invalid);
      }
      var inv := Invitation(newId, wsId, given, email, uses, 0, now + ttl * HOUR, now, None);
      FinishStep(store.State(), MayInvite(inv), now);
      ghost var before := store.invitations;
      r := store.CreateInvitation(inv);
      if r.Ok? {
        OnlyInvitationIs(before, store.invitations, newId, inv);
      }
    }

    method ResendInvitation(actor: Id, wsId: Id, inviteId: Id, newId: Id, now: Time) returns (r: Outcome<Invitation>)
      modifies store
      ensures (store.State(), AnswerOf(r))
          == Finish(old(store.State()), Begun(ResendReq(actor, wsId, inviteId, newId)), now)
    {
      FinishStep(store.State(), Begun(ResendReq(actor, wsId, inviteId, newId)), now);
      if TrimSpace(inviteId) == "" {
        return Err(Invalid);
      }
      var e := RoleError(store.State(), wsId, actor, ROLE_OWNER);
      if e.Some? {
        return Err(e.value);
      }
      FinishStep(store.State(), MayResend(actor, wsId, inviteId, newId), now);
      if wsId !in store.members || inviteId !in store.invitations || store.invitations[inviteId].workspaceId != wsId {
        return Err(NotFound);
      }
      var base := store.invitations[inviteId];
      r := CreateInvitation(actor, wsId, base.role, base.invitedEmail, base.maxUses, ResendTtl(base), newId, now);
    }

    method RevokeInvitation(actor: Id, wsId: Id, inviteId: Id, now: Time) returns (r: Outcome<Invitation>)
      modifies store
      ensures (store.State(), AnswerOf(r)) == Finish(old(store.State()), Begun(RevokeReq(actor, wsId, inviteId)), now)
      ensures r.Ok? ==>
          inviteId in store.invitations && r.value == store.invitations[inviteId] && r.value.revokedAt.Some?
    {
      FinishStep(store.State(), Begun(RevokeReq(actor, wsId, inviteId)), now);
      if TrimSpace(inviteId) == "" {
        return Err(Invalid);
      }
      var e := RoleError(store.State(), wsId, actor, ROLE_OWNER);
      if e.Some? {
        return Err(e.value);
      }
      FinishStep(store.State(), MayRevoke(wsId, inviteId), now);
      ghost var before := store.invitations;
      r := store.RevokeInvitation(wsId, inviteId, now);
      if r.Ok? && before[inviteId].revokedAt.None? {
        OnlyInvitationIs(before, store.invitations, inviteId, r.value);
      }
    }

    method UpdateInvitationPolicy(actor: Id, wsId: Id, inviteId: Id, role: Option<Role>, email: Option<string>,
                                  maxUses: Option<int>, ttlHours: Option<int>, now: Time)
      returns (r: Outcome<Invitation>)
      modifies store
      ensures (store.State(), AnswerOf(r)) ==
              Finish(old(store.State()), Begun(PolicyReq(actor, wsId, inviteId, role, email, maxUses, ttlHours)), now)
      ensures r.Ok? ==> inviteId in store.invitations && r.value == store.invitations[inviteId]
    {
      ghost var req := PolicyReq(actor, wsId, inviteId, role, email, maxUses, ttlHours);
      FinishStep(store.State(), Begun(req), now);
      if TrimSpace(inviteId) == "" {
        return Err(Invalid);
      }
      if role.None? && email.None? && maxUses.None? && ttlHours.None? {
        return Err(Invalid);
      }
      var e := RoleError(store.State(), wsId, actor, ROLE_OWNER);
      if e.Some? {
        return Err(e.value);
      }
      FinishStep(store.State(), MayList(req), now);
      if wsId !in store.members || inviteId !in store.invitations || store.invitations[inviteId].workspaceId != wsId {
        return Err(NotFound);
      }
      var base := store.invitations[inviteId];
      if base.revokedAt.Some? {
        return Err(Forbidden);
      }
      var p := PolicyFrom(base, role, email, maxUses, ttlHours, now);
      if p.None? {
        return Err(Invalid);
      }
      FinishStep(store.State(), MaySet(wsId, inviteId, p.value), now);
      ghost var before := store.invitations;
      r := store.UpdateInvitationPolicy(wsId, inviteId, p.value.role, p.value.email, p.value.maxUses,
                                        p.value.expiresAt);
      if r.Ok? {
        OnlyInvitationIs(before, store.invitations, inviteId, r.value);
      }
    }

    /** What the update would make of the invitation as it was listed; nothing if it asks for too much. */
    method PolicyFrom(base: Invitation, role: Option<Role>, email: Option<string>, maxUses: Option<int>,
                      ttlHours: Option<int>,
                      now: Time) returns (p: Option<Policy>)
      ensures forall actor, wsId, inviteId ::
                NextPolicy(base, PolicyReq(actor, wsId, inviteId, role, email, maxUses, ttlHours), now)
                == if p.None? then Fail(Invalid) else MaySet(wsId, inviteId, p.value)
    {
      var next := Policy(base.role, base.invitedEmail, base.maxUses, base.expiresAt);
      if role.Some? {
        next := next.(role := role.value);
        if next.role == "" {
          next := next.(role := ROLE_MEMBER);
        }
        if next.role != ROLE_MEMBER && next.role != ROLE_GUEST {
          return None;
        }
      }
      if email.Some? {
        next := next.(email := email.value);
      }
      if maxUses.Some? {
        next := next.(maxUses := if maxUses.value <= 0 then 1 else maxUses.value);
        if next.maxUses > MAX_INVITE_USES {
          return None;
        }
      }
      if next.maxUses < base.useCount {
        return None;
      }
      if ttlHours.Some? {
        var ttl := if ttlHours.value <= 0 then 72 else ttlHours.value;
        if ttl > MAX_TTL_HOURS {
          return None;
        }
        next := next.(expiresAt := now + ttl * HOUR);
      }
      p := Some(next);
    }

    method AcceptInvitation(sub: Id, email: string, token: Id, now: Time) returns (r: Outcome<Acceptance>)
      modifies store
      ensures (store.State(), AnswerOf(r)) == Finish(old(store.State()), Begun(AcceptReq(sub, email, token)), now)
      ensures r.Ok? ==> r.value.joined == (store.State() != old(store.State()))
    {
      FinishStep(store.State(), Begun(AcceptReq(sub, email, token)), now);
      if TrimSpace(sub) == "" || TrimSpace(token) == "" {
        return Err(Invalid);
      }
      if token !in store.invitations {
        return Err(NotFound);
      }
      var inv := store.invitations[token];
      if inv.invitedEmail != "" && email != inv.invitedEmail {
        return Err(Forbidden);
      }
      FinishStep(store.State(), MayLookUp(sub, token, inv.workspaceId), now);
      if inv.workspaceId !in store.members {
        return Err(NotFound);
      }
      FinishStep(store.State(), MayAccept(sub, token), now);
      ghost var before := store.State();
      r := store.AcceptInvitation(token, sub, now);
      if r.Ok? && r.value.joined {
        OnlyMemberIs(before.members, store.members, inv.workspaceId, sub, Some(inv.role));
        OnlyInvitationIs(before.invitations, store.invitations, inv.id, r.value.invitation);
      }
      if r == Err(Forbidden) {
        r := Err(NotFound);
      }
    }
  }
}
