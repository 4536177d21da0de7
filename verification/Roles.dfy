/** Roles of apps/api/internal/domain/domain.go. */
module Roles {
  /** A role is free text; three values are known. */
  type Role = string

  const ROLE_OWNER: Role := "owner"
  const ROLE_MEMBER: Role := "member"
  const ROLE_GUEST: Role := "guest"

  /** An unknown role ranks with guests, as a missing map entry reads as zero. */
  function RoleRank(r: Role): nat {
    if r == ROLE_OWNER then 2 else if r == ROLE_MEMBER then 1 else 0
  }

  predicate RoleAtLeast(have: Role, need: Role) {
    RoleRank(have) >= RoleRank(need)
  }
}
