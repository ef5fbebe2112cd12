/** The role lattice of a server and the permission table every service
    consults (backend/src/common/permissions.ts). */
module Permissions {

  /** Server roles, named as the database enum names them. */
  datatype Role = MEMBER | MOD | ADMIN | OWNER

  datatype Permission =
    | MANAGE_SERVER
    | MANAGE_ROLES
    | MANAGE_CHANNELS
    | KICK_MEMBERS
    | BAN_MEMBERS
    | VIEW_CHANNEL
    | SEND_MESSAGES

  /** `ROLE_PRIORITY`. */
  function Priority(r: Role): (p: nat)
    ensures p <= 3
    ensures p == 0 <==> r == MEMBER
    ensures p == 3 <==> r == OWNER
  {
    match r
    case MEMBER => 0
    case MOD => 1
    case ADMIN => 2
    case OWNER => 3
  }

  /** `ROLE_PERMISSIONS`, in the order the table lists them. */
  function RolePermissions(r: Role): (ps: seq<Permission>)
    ensures forall i, j :: 0 <= i < j < |ps| ==> ps[i] != ps[j]
    ensures |ps| >= 2 && ps[|ps| - 2] == VIEW_CHANNEL && ps[|ps| - 1] == SEND_MESSAGES
  {
    match r
    case OWNER =>
      [MANAGE_SERVER, MANAGE_ROLES, MANAGE_CHANNELS, KICK_MEMBERS, BAN_MEMBERS, VIEW_CHANNEL, SEND_MESSAGES]
    case ADMIN =>
      [MANAGE_SERVER, MANAGE_ROLES, MANAGE_CHANNELS, KICK_MEMBERS, BAN_MEMBERS, VIEW_CHANNEL, SEND_MESSAGES]
    case MOD => [MANAGE_CHANNELS, KICK_MEMBERS, BAN_MEMBERS, VIEW_CHANNEL, SEND_MESSAGES]
    case MEMBER => [VIEW_CHANNEL, SEND_MESSAGES]
  }

  predicate HasAtLeastRole(role: Role, minRole: Role)
    ensures minRole == MEMBER ==> HasAtLeastRole(role, minRole)
    ensures role == OWNER ==> HasAtLeastRole(role, minRole)
    ensures role == minRole ==> HasAtLeastRole(role, minRole)
  {
    Priority(role) >= Priority(minRole)
  }

  predicate RoleHasPermission(role: Role, permission: Permission)
    ensures permission == VIEW_CHANNEL || permission == SEND_MESSAGES ==> RoleHasPermission(role, permission)
    ensures role == MEMBER && RoleHasPermission(role, permission) ==>
      permission == VIEW_CHANNEL || permission == SEND_MESSAGES
  {
    permission in RolePermissions(role)
  }

  predicate IsHigherRole(actor: Role, target: Role)
    ensures IsHigherRole(actor, target) ==> actor != target && actor != MEMBER && target != OWNER
  {
    Priority(actor) > Priority(target)
  }

  /** The priorities form the strict chain MEMBER < MOD < ADMIN < OWNER, and
      distinct roles have distinct priorities. */
  lemma PriorityChain()
    ensures Priority(MEMBER) < Priority(MOD) < Priority(ADMIN) < Priority(OWNER)
    ensures forall a: Role, b: Role :: Priority(a) == Priority(b) ==> a == b
  {
  }

  /** `HasAtLeastRole` is a total order: reflexive, antisymmetric,
      transitive and total, with MEMBER at the bottom and OWNER at the top. */
  lemma AtLeastIsTotalOrder()
    ensures forall a: Role :: HasAtLeastRole(a, a)
    ensures forall a: Role, b: Role :: HasAtLeastRole(a, b) && HasAtLeastRole(b, a) ==> a == b
    ensures forall a: Role, b: Role, c: Role ::
      HasAtLeastRole(a, b) && HasAtLeastRole(b, c) ==> HasAtLeastRole(a, c)
    ensures forall a: Role, b: Role :: HasAtLeastRole(a, b) || HasAtLeastRole(b, a)
    ensures forall a: Role :: HasAtLeastRole(a, MEMBER) && HasAtLeastRole(OWNER, a)
  {
  }

  /** `IsHigherRole` is the strict part of `HasAtLeastRole`, hence
      irreflexive and asymmetric. */
  lemma HigherIsStrictAtLeast(a: Role, b: Role)
    ensures IsHigherRole(a, b) <==> HasAtLeastRole(a, b) && a != b
    ensures !IsHigherRole(a, a)
    ensures IsHigherRole(a, b) ==> !IsHigherRole(b, a)
    ensures !IsHigherRole(a, OWNER)
  {
  }

  /** Permission sets grow with the role: MEMBER within MOD within ADMIN,
      and ADMIN and OWNER hold the same permissions. */
  lemma PermissionsMonotone(p: Permission)
    ensures RoleHasPermission(MEMBER, p) ==> RoleHasPermission(MOD, p)
    ensures RoleHasPermission(MOD, p) ==> RoleHasPermission(ADMIN, p)
    ensures RoleHasPermission(ADMIN, p) <==> RoleHasPermission(OWNER, p)
  {
  }

  /** For any two roles, the higher one holds every permission of the lower. */
  lemma {:induction false} PermissionUpward(low: Role, high: Role, p: Permission)
    requires HasAtLeastRole(high, low)
    requires RoleHasPermission(low, p)
    ensures RoleHasPermission(high, p)
  {
    PermissionsMonotone(p);
    match low
    case MEMBER =>
    case MOD =>
    case ADMIN =>
    case OWNER =>
  }

  /** Every role may view channels and send messages. */
  lemma EveryRoleViewsAndSends(r: Role)
    ensures RoleHasPermission(r, VIEW_CHANNEL) && RoleHasPermission(r, SEND_MESSAGES)
  {
  }

  /** Managing the server and managing roles is reserved to ADMIN and OWNER;
      the moderation permissions start at MOD. */
  lemma AdministrativePermissions(r: Role)
    ensures RoleHasPermission(r, MANAGE_SERVER) <==> r == ADMIN || r == OWNER
    ensures RoleHasPermission(r, MANAGE_ROLES) <==> r == ADMIN || r == OWNER
    ensures RoleHasPermission(r, MANAGE_CHANNELS) <==> HasAtLeastRole(r, MOD)
    ensures RoleHasPermission(r, KICK_MEMBERS) <==> HasAtLeastRole(r, MOD)
    ensures RoleHasPermission(r, BAN_MEMBERS) <==> HasAtLeastRole(r, MOD)
  {
  }
}
