/** What the store's membership and invitation calls do, each one atomic step. */
module MemberCalls {
  import opened Common
  import opened Roles

  datatype Invitation = Invitation(id: Id, workspaceId: Id, role: Role, invitedEmail: string, maxUses: int,
                                   useCount: int, expiresAt: Time, createdAt: Time, revokedAt: Option<Time>)

  /** A workspace exists when it has a member table; a member is its role. */
  datatype Data = Data(members: map<Id, map<Id, Role>>, invitations: map<Id, Invitation>)

  const EMPTY := Data(map[], map[])

  /** What a successful accept answers. */
  datatype Acceptance = Acceptance(invitation: Invitation, role: Role, joined: bool)

  // ---------- what the calls do ----------

  function CreateWorkspace(d: Data, wsId: Id, owner: Id): Data {
    d.(members := d.members[wsId := map[owner := ROLE_OWNER]])
  }

  function MemberRole(d: Data, wsId: Id, sub: Id): Outcome<Role> {
    if wsId !in d.members then Err(NotFound)
    else if sub !in d.members[wsId] then Err(Forbidden)
    else Ok(d.members[wsId][sub])
  }

  function GetMember(d: Data, wsId: Id, sub: Id): Outcome<Role> {
    if wsId !in d.members || sub !in d.members[wsId] then Err(NotFound) else Ok(d.members[wsId][sub])
  }

  /** The owners among the listed members. */
  function Owners(d: Data, wsId: Id): set<Id>
    requires wsId in d.members
  {
    set sub | sub in d.members[wsId] && d.members[wsId][sub] == ROLE_OWNER
  }

  function SetMember(d: Data, wsId: Id, sub: Id, role: Role): Data
    requires wsId in d.members
  {
    d.(members := d.members[wsId := d.members[wsId][sub := role]])
  }

  function AddMember(d: Data, wsId: Id, sub: Id, role: Role): (Data, Outcome<Role>) {
    if wsId !in d.members then (d, Err(NotFound))
    else if sub in d.members[wsId] then (d, Err(Conflict))
    else (SetMember(d, wsId, sub, role), Ok(role))
  }

  function UpdateMemberRole(d: Data, wsId: Id, sub: Id, role: Role): (Data, Outcome<Role>) {
    if wsId !in d.members || sub !in d.members[wsId] then (d, Err(NotFound))
    else (SetMember(d, wsId, sub, role), Ok(role))
  }

  function RemoveMember(d: Data, wsId: Id, sub: Id): (Data, Outcome<()>) {
    if wsId !in d.members || sub !in d.members[wsId] then (d, Err(NotFound))
    else (d.(members := d.members[wsId := d.members[wsId] - {sub}]), Ok(()))
  }

  function CreateInvitation(d: Data, inv: Invitation): (Data, Outcome<Invitation>) {
    if inv.workspaceId !in d.members then (d, Err(NotFound))
    else (d.(invitations := d.invitations[inv.id := inv]), Ok(inv))
  }

  function UpdateInvitationPolicy(d: Data, wsId: Id, inviteId: Id, role: Role, email: string, maxUses: int,
                                  expiresAt: Time)
    : (Data, Outcome<Invitation>)
  {
    if inviteId !in d.invitations || d.invitations[inviteId].workspaceId != wsId then (d, Err(NotFound))
    else if d.invitations[inviteId].revokedAt.Some? then (d, Err(Forbidden))
    else
      var inv := d.invitations[inviteId].(role := role, invitedEmail := email, maxUses := maxUses,
                                          expiresAt := expiresAt);
      (d.(invitations := d.invitations[inviteId := inv]), Ok(inv))
  }

  function RevokeInvitation(d: Data, wsId: Id, inviteId: Id, now: Time): (Data, Outcome<Invitation>) {
    if inviteId !in d.invitations || d.invitations[inviteId].workspaceId != wsId then (d, Err(NotFound))
    else if d.invitations[inviteId].revokedAt.Some? then (d, Ok(d.invitations[inviteId]))
    else
      var inv := d.invitations[inviteId].(revokedAt := Some(now));
      (d.(invitations := d.invitations[inviteId := inv]), Ok(inv))
  }

  predicate Spent(inv: Invitation, now: Time) {
    inv.revokedAt.Some? || !(now < inv.expiresAt) || inv.useCount >= inv.maxUses
  }

  function AcceptInvitation(d: Data, inviteId: Id, sub: Id, now: Time): (Data, Outcome<Acceptance>) {
    if inviteId !in d.invitations then (d, Err(NotFound))
    else
      var inv := d.invitations[inviteId];
      if Spent(inv, now) then (d, Err(Forbidden))
      else if inv.workspaceId !in d.members then (d, Err(NotFound))
      else if sub in d.members[inv.workspaceId] then (d, Ok(Acceptance(inv, d.members[inv.workspaceId][sub], false)))
      else
        var used := inv.(useCount := inv.useCount + 1);
        (SetMember(d, inv.workspaceId, sub, inv.role).(invitations := d.invitations[inv.id := used]),
         Ok(Acceptance(used, inv.role, true)))
  }

  // ---------- which entry changes ----------

  type Tables = map<Id, map<Id, Role>>

  /** The role someone has in a workspace, if any. */
  function RoleIn(m: Tables, wsId: Id, sub: Id): Option<Role> {
    if wsId in m && sub in m[wsId] then Some(m[wsId][sub]) else None
  }

  /** One entry becomes `v` (`None` for no member); every other entry is as it was. */
  ghost predicate OnlyMember(m: Tables, m': Tables, wsId: Id, sub: Id, v: Option<Role>) {
    && m'.Keys == m.Keys && RoleIn(m', wsId, sub) == v
    && forall w, k {:trigger RoleIn(m', w, k)} :: w != wsId || k != sub ==> RoleIn(m', w, k) == RoleIn(m, w, k)
  }

  /** One invitation becomes `inv`; every other one is as it was. */
  ghost predicate OnlyInvitation(m: map<Id, Invitation>, m': map<Id, Invitation>, id: Id, inv: Invitation) {
    && m'.Keys == m.Keys + {id} && m'[id] == inv
    && forall k :: k in m && k != id ==> m'[k] == m[k]
  }

  /** A change of one entry is known from what it makes of that entry. */
  lemma OnlyMemberIs(m: Tables, m': Tables, wsId: Id, sub: Id, v: Option<Role>)
    requires OnlyMember(m, m', wsId, sub, v) && wsId in m
    ensures m' == m[wsId := if v.Some? then m[wsId][sub := v.value] else m[wsId] - {sub}]
  {
    forall w | w in m
      ensures m'[w] == if w != wsId then m[w] else if v.Some? then m[w][sub := v.value] else m[w] - {sub}
    {
      forall k ensures RoleIn(m', w, k) == if w == wsId && k == sub then v else RoleIn(m, w, k) {
      }
      assert forall k :: k in m'[w] <==> RoleIn(m', w, k).Some?;
    }
  }

  /** One more workspace, with its founder as owner and nobody else in it. */
  ghost predicate OnlyWorkspace(m: Tables, m': Tables, wsId: Id, owner: Id) {
    && m'.Keys == m.Keys + {wsId}
    && (forall k :: RoleIn(m', wsId, k) == if k == owner then Some(ROLE_OWNER) else None)
    && forall w, k {:trigger RoleIn(m', w, k)} :: w != wsId ==> RoleIn(m', w, k) == RoleIn(m, w, k)
  }

  lemma OnlyWorkspaceIs(m: Tables, m': Tables, wsId: Id, owner: Id)
    requires OnlyWorkspace(m, m', wsId, owner) && wsId !in m
    ensures m' == m[wsId := map[owner := ROLE_OWNER]]
  {
    forall w | w in m' ensures m'[w] == if w != wsId then m[w] else map[owner := ROLE_OWNER] {
      assert forall k :: k in m'[w] <==> RoleIn(m', w, k).Some?;
      assert w != wsId ==> forall k :: k in m[w] <==> RoleIn(m, w, k).Some?;
    }
  }

  lemma OnlyInvitationIs(m: map<Id, Invitation>, m': map<Id, Invitation>, id: Id, inv: Invitation)
    requires OnlyInvitation(m, m', id, inv)
    ensures m' == m[id := inv]
  {
  }

  /** The invitation is one of the workspace's. */
  predicate Belongs(invitations: map<Id, Invitation>, wsId: Id, inviteId: Id) {
    inviteId in invitations && invitations[inviteId].workspaceId == wsId
  }

  // ---------- the relational form of an accept ----------

  /** Rows of members and invitations; the members table has one row per workspace and subject. */
  datatype Rows = Rows(members: map<(Id, Id), Role>, invitations: map<Id, Invitation>)

  /** The member rows of the existing workspaces are the member tables. */
  ghost predicate SameData(rows: Rows, d: Data) {
    && rows.invitations == d.invitations
    && (forall w, sub :: (w, sub) in rows.members <==> w in d.members && sub in d.members[w])
    && (forall w, sub :: (w, sub) in rows.members ==> rows.members[(w, sub)] == d.members[w][sub])
  }

  /** The transaction: lock the invitation row, INSERT ... ON CONFLICT DO NOTHING, count the use if a row went in. */
  method AcceptInvitationTx(rows: Rows, inviteId: Id, sub: Id, now: Time) returns (rows': Rows, r: Outcome<Acceptance>)
    requires forall k :: k in rows.invitations ==> rows.invitations[k].id == k
    // accepted: known, not revoked, before its expiry and with a use left
    ensures r.Ok? <==>
              && inviteId in rows.invitations && rows.invitations[inviteId].revokedAt.None?
              && now < rows.invitations[inviteId].expiresAt
              && rows.invitations[inviteId].useCount < rows.invitations[inviteId].maxUses
    ensures !r.Ok? ==> rows' == rows && r == Err(if inviteId in rows.invitations then Forbidden else NotFound)
    // a row goes in, with the invitation's role, and one use is counted, exactly for a newcomer
    ensures r.Ok? ==>
              var inv := rows.invitations[inviteId];
              if (inv.workspaceId, sub) in rows.members
              then rows' == rows && r.value == Acceptance(inv, rows.members[(inv.workspaceId, sub)], false)
              else
                var used := inv.(useCount := inv.useCount + 1);
                && r.value == Acceptance(used, inv.role, true)
                && rows' == Rows(rows.members[(inv.workspaceId, sub) := inv.role], rows.invitations[inviteId := used])
    // the in-memory call, on every store that the rows represent
    ensures forall d ::
              SameData(rows, d) && (inviteId in d.invitations ==> d.invitations[inviteId].workspaceId in d.members) ==>
                && SameData(rows', AcceptInvitation(d, inviteId, sub, now).0)
                && r == AcceptInvitation(d, inviteId, sub, now).1
  {
    rows' := rows;
    if inviteId !in rows.invitations {
      return rows, Err(NotFound);
    }
    var inv := rows.invitations[inviteId];
    if inv.revokedAt.Some? || !(now < inv.expiresAt) || inv.useCount >= inv.maxUses {
      return rows, Err(Forbidden);
    }
    var role := inv.role;
    var joined := (inv.workspaceId, sub) !in rows.members;
    if joined {
      rows' := rows'.(members := rows'.members[(inv.workspaceId, sub) := role]);
      inv := inv.(useCount := inv.useCount + 1);
      rows' := rows'.(invitations := rows'.invitations[inv.id := inv]);
    } else {
      role := rows.members[(inv.workspaceId, sub)];
    }
    r := Ok(Acceptance(inv, role, joined));
    forall d | SameData(rows, d) && (inviteId in d.invitations ==> d.invitations[inviteId].workspaceId in d.members)
      ensures SameData(rows', AcceptInvitation(d, inviteId, sub, now).0)
          && r == AcceptInvitation(d, inviteId, sub, now).1
    {
      assert (inv.workspaceId, sub) in rows.members
          <==> inv.workspaceId in d.members && sub in d.members[inv.workspaceId];
    }
  }
}
