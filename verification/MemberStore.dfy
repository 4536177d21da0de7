/** The in-memory store's members and invitations, changed in place by each call. */
module MemberStore {
  import opened Common
  import opened Roles
  import opened MemberCalls

  class Store {
    var members: map<Id, map<Id, Role>>
    var invitations: map<Id, Invitation>

    function State(): Data
      reads this
    {
      Data(members, invitations)
    }

    constructor ()
      ensures State() == EMPTY
    {
      members, invitations := map[], map[];
    }

    method CreateWorkspace(wsId: Id, owner: Id)
      requires wsId !in members
      modifies this`members
      ensures OnlyWorkspace(old(members), members, wsId, owner)
    {
      if wsId !in members {
        members := members[wsId := map[]];
      }
      members := members[wsId := members[wsId][owner := ROLE_OWNER]];
    }

    method AddMember(wsId: Id, sub: Id, role: Role) returns (r: Outcome<Role>)
      modifies this`members
      ensures r.Ok? <==> wsId in old(members) && RoleIn(old(members), wsId, sub).None?
      ensures r.Ok? ==> r.value == role && OnlyMember(old(members), members, wsId, sub, Some(role))
      ensures !r.Ok? ==> members == old(members) && r == Err(if wsId in members then Conflict else NotFound)
    {
      if wsId !in members {
        return Err(NotFound);
      }
      if sub in members[wsId] {
        return Err(Conflict);
      }
      members := members[wsId := members[wsId][sub := role]];
      r := Ok(role);
    }

    method UpdateMemberRole(wsId: Id, sub: Id, role: Role) returns (r: Outcome<Role>)
      modifies this`members
      ensures r.Ok? <==> RoleIn(old(members), wsId, sub).Some?
      ensures r.Ok? ==> r.value == role && OnlyMember(old(members), members, wsId, sub, Some(role))
      ensures !r.Ok? ==> members == old(members) && r == Err(NotFound)
    {
      if wsId !in members {
        return Err(NotFound);
      }
      if sub !in members[wsId] {
        return Err(NotFound);
      }
      members := members[wsId := members[wsId][sub := role]];
      r := Ok(role);
    }

    method RemoveMember(wsId: Id, sub: Id) returns (r: Outcome<()>)
      modifies this`members
      ensures r.Ok? <==> RoleIn(old(members), wsId, sub).Some?
      ensures r.Ok? ==> OnlyMember(old(members), members, wsId, sub, None)
      ensures !r.Ok? ==> members == old(members) && r == Err(NotFound)
    {
      if wsId !in members {
        return Err(NotFound);
      }
      if sub !in members[wsId] {
        return Err(NotFound);
      }
      members := members[wsId := members[wsId] - {sub}];
      r := Ok(());
    }

    method CreateInvitation(inv: Invitation) returns (r: Outcome<Invitation>)
      modifies this`invitations
      ensures r.Ok? <==> inv.workspaceId in members
      ensures r.Ok? ==> r.value == inv && OnlyInvitation(old(invitations), invitations, inv.id, inv)
      ensures !r.Ok? ==> invitations == old(invitations) && r == Err(NotFound)
    {
      if inv.workspaceId !in members {
        return Err(NotFound);
      }
      invitations := invitations[inv.id := inv];
      r := Ok(inv);
    }

    method UpdateInvitationPolicy(wsId: Id, inviteId: Id, role: Role, email: string, maxUses: int, expiresAt: Time)
      returns (r: Outcome<Invitation>)
      modifies this`invitations
      ensures r.Ok? <==> Belongs(old(invitations), wsId, inviteId) && old(invitations)[inviteId].revokedAt.None?
      ensures r.Ok? ==>
                && OnlyInvitation(old(invitations), invitations, inviteId, r.value)
                && r.value == old(invitations)[inviteId].(role := role, invitedEmail := email, maxUses := maxUses,
                                                          expiresAt := expiresAt)
      ensures !r.Ok? ==>
                && invitations == old(invitations)
                && r == Err(if Belongs(invitations, wsId, inviteId) then Forbidden else NotFound)
    {
      if inviteId !in invitations || invitations[inviteId].workspaceId != wsId {
        return Err(NotFound);
      }
      var inv := invitations[inviteId];
      if inv.revokedAt.Some? {
        return Err(Forbidden);
      }
      inv := inv.(role := role);
      inv := inv.(invitedEmail := email);
      inv := inv.(maxUses := maxUses);
      inv := inv.(expiresAt := expiresAt);
      invitations := invitations[inviteId := inv];
      r := Ok(inv);
    }

    method RevokeInvitation(wsId: Id, inviteId: Id, now: Time) returns (r: Outcome<Invitation>)
      modifies this`invitations
      ensures r.Ok? <==> Belongs(old(invitations), wsId, inviteId)
      ensures r.Ok? ==>
                if old(invitations)[inviteId].revokedAt.Some?
                then invitations == old(invitations) && r.value == invitations[inviteId]
                else && OnlyInvitation(old(invitations), invitations, inviteId, r.value)
                     && r.value == old(invitations)[inviteId].(revokedAt := Some(now))
      ensures !r.Ok? ==> invitations == old(invitations) && r == Err(NotFound)
    {
      if inviteId !in invitations || invitations[inviteId].workspaceId != wsId {
        return Err(NotFound);
      }
      var inv := invitations[inviteId];
      if inv.revokedAt.Some? {
        return Ok(inv);
      }
      inv := inv.(revokedAt := Some(now));
      invitations := invitations[inviteId := inv];
      r := Ok(inv);
    }

    method AcceptInvitation(inviteId: Id, sub: Id, now: Time) returns (r: Outcome<Acceptance>)
      modifies this
      // accepted: known, not revoked, before its expiry, with a use left, and its workspace is there
      ensures r.Ok? <==>
                && inviteId in old(invitations) && old(invitations)[inviteId].revokedAt.None?
                && now < old(invitations)[inviteId].expiresAt
                && old(invitations)[inviteId].useCount < old(invitations)[inviteId].maxUses
                && old(invitations)[inviteId].workspaceId in old(members)
      ensures r.Ok? ==> (r.value.joined <==> RoleIn(old(members), r.value.invitation.workspaceId, sub).None?)
      // a newcomer gets the invitation's role, and one use is counted
      ensures r.Ok? && r.value.joined ==>
                var inv := old(invitations)[inviteId];
                && r.value == Acceptance(inv.(useCount := inv.useCount + 1), inv.role, true)
                && OnlyMember(old(members), members, inv.workspaceId, sub, Some(inv.role))
                && OnlyInvitation(old(invitations), invitations, inv.id, r.value.invitation)
      // a member keeps the role they have, and nothing is counted
      ensures r.Ok? && !r.value.joined ==>
                && r.value.invitation == old(invitations)[inviteId]
                && RoleIn(members, r.value.invitation.workspaceId, sub) == Some(r.value.role)
      ensures !(r.Ok? && r.value.joined) ==> State() == old(State())
      ensures inviteId !in old(invitations) ==> r == Err(NotFound)
      ensures inviteId in old(invitations) ==>
                var inv := old(invitations)[inviteId];
                (r == Err(Forbidden) <==> inv.revokedAt.Some? || inv.expiresAt <= now || inv.useCount >= inv.maxUses)
      ensures inviteId in old(invitations) && !r.Ok? && r != Err(Forbidden) ==>
                r == Err(NotFound) && old(invitations)[inviteId].workspaceId !in old(members)
    {
      if inviteId !in invitations {
        return Err(NotFound);
      }
      var inv := invitations[inviteId];
      if inv.revokedAt.Some? || !(now < inv.expiresAt) || inv.useCount >= inv.maxUses {
        return Err(Forbidden);
      }
      if inv.workspaceId !in members {
        return Err(NotFound);
      }
      var table := members[inv.workspaceId];
      if sub in table {
        return Ok(Acceptance(inv, table[sub], false));
      }
      members := members[inv.workspaceId := table[sub := inv.role]];
      inv := inv.(useCount := inv.useCount + 1);
      invitations := invitations[inv.id := inv];
      r := Ok(Acceptance(inv, inv.role, true));
    }
  }
}
