/** portal/roles.py: the four roles, their permissions and the comparisons built on them. */
module Roles {
  import opened Wrappers

  /** The four role names; `Other` is any string that is none of them. */
  datatype Role = Admin | EventOwner | RoomCoordinator | Interpreter | Other(name: string)

  datatype Permission =
    | ManagePlatform | ViewAllEvents | CreateEvents
    | EditEvent | ManageEventTeam | ManageEventKeys
    | UseMissionControl | ControlFloorTranscription | BoothSetActive
    | BoothGoLive | BoothChatSend | BoothView

  const INTERPRETER_PERMISSIONS: set<Permission> := {BoothGoLive, BoothChatSend, BoothView}
  const COORDINATOR_PERMISSIONS: set<Permission> :=
    INTERPRETER_PERMISSIONS + {UseMissionControl, ControlFloorTranscription, BoothSetActive}
  const OWNER_PERMISSIONS: set<Permission> := COORDINATOR_PERMISSIONS + {EditEvent, ManageEventTeam, ManageEventKeys}
  const ALL_PERMISSIONS: set<Permission> := OWNER_PERMISSIONS + {ManagePlatform, ViewAllEvents, CreateEvents}

  predicate Known(role: Role) { !role.Other? }

  /** ROLE_PERMISSIONS.get(role, frozenset()): unknown names are granted nothing. */
  function RolePermissions(role: Role): set<Permission> {
    match role
    case Admin => ALL_PERMISSIONS
    case EventOwner => OWNER_PERMISSIONS
    case RoomCoordinator => COORDINATOR_PERMISSIONS
    case Interpreter => INTERPRETER_PERMISSIONS
    case Other(_) => {}
  }

  /** ROLE_RANK.get(role, unknown). */
  function Rank(role: Role, unknown: nat): nat {
    match role
    case Admin => 4
    case EventOwner => 3
    case RoomCoordinator => 2
    case Interpreter => 1
    case Other(_) => unknown
  }

  predicate CanGoLive(role: Role) { BoothGoLive in RolePermissions(role) }

  predicate CanSetActive(role: Role) { BoothSetActive in RolePermissions(role) }

  function IsAtLeast(granted: Option<Role>, requested: Role): bool {
    granted.Some? && Known(granted.value) && Rank(granted.value, 0) >= Rank(requested, 5)
  }

  /** Who may do what in a booth: all four roles go live, all but interpreters reassign the slot, and unknown
      names do neither. */
  lemma BoothRights(role: Role)
    ensures CanGoLive(role) <==> role in {Admin, EventOwner, RoomCoordinator, Interpreter}
    ensures CanSetActive(role) <==> role in {Admin, EventOwner, RoomCoordinator}
  {
  }

  /** Every permission some role of the sequence carries, stated without an order of evaluation. */
  ghost predicate Carries(roles: seq<Role>, p: Permission) {
    exists i :: 0 <= i < |roles| && p in RolePermissions(roles[i])
  }

  method PermissionsFor(roles: seq<Role>) returns (combined: set<Permission>)
    ensures forall p :: p in combined <==> Carries(roles, p)
  {
    combined := {};
    for i := 0 to |roles|
      invariant forall p :: p in combined <==> Carries(roles[..i], p)
    {
      combined := combined + RolePermissions(roles[i]);
      assert roles[..i + 1][i] == roles[i];
      assert forall j :: 0 <= j < i ==> roles[..i + 1][j] == roles[..i][j];
    }
    assert roles[..|roles|] == roles;
  }

  /** max(known, key=ROLE_RANK): the first role of greatest rank, None when every name is unknown. */
  function HighestRole(roles: seq<Role>): Option<Role> {
    if roles == [] then None
    else
      var rest := HighestRole(roles[1..]);
      if !Known(roles[0]) then rest
      else if rest.Some? && Rank(rest.value, 0) > Rank(roles[0], 0) then rest
      else Some(roles[0])
  }

  lemma {:induction false} HighestRoleIsGreatest(roles: seq<Role>)
    ensures HighestRole(roles).None? <==> forall i :: 0 <= i < |roles| ==> !Known(roles[i])
    ensures HighestRole(roles).Some? ==>
              && HighestRole(roles).value in roles
              && Known(HighestRole(roles).value)
              && forall i :: 0 <= i < |roles| ==> Rank(roles[i], 0) <= Rank(HighestRole(roles).value, 0)
  {
    if roles != [] {
      HighestRoleIsGreatest(roles[1..]);
      assert forall i :: 0 < i < |roles| ==> roles[i] == roles[1..][i - 1];
    }
  }

  /** The combined permissions of any roles, known or not, are those of the highest one alone. */
  lemma CombinedIsHighest(roles: seq<Role>, combined: set<Permission>)
    requires forall p :: p in combined <==> Carries(roles, p)
    ensures combined == match HighestRole(roles) case None => {} case Some(r) => RolePermissions(r)
  {
    HighestRoleIsGreatest(roles);
    match HighestRole(roles)
    case None =>
      assert forall p :: !Carries(roles, p);
    case Some(r) =>
      var k :| 0 <= k < |roles| && roles[k] == r;
      forall i, p | 0 <= i < |roles| && p in RolePermissions(roles[i])
        ensures p in RolePermissions(r)
      {
        assert Rank(roles[i], 0) <= Rank(r, 0);
      }
      assert forall p :: p in RolePermissions(r) ==> p in RolePermissions(roles[k]) && Carries(roles, p);
  }

  /** Rank comparison decides permission containment exactly, for known and unknown names alike. */
  lemma AtLeastIsContainment(granted: Option<Role>, requested: Role)
    ensures IsAtLeast(granted, requested) <==>
            && granted.Some? && Known(granted.value) && Known(requested)
            && RolePermissions(requested) <= RolePermissions(granted.value)
  {
    if granted.Some? && Known(granted.value) && Known(requested) {
      var g := RolePermissions(granted.value);
      assert ManagePlatform in g <==> granted.value == Admin;
      assert EditEvent in g <==> Rank(granted.value, 0) >= 3;
      assert BoothSetActive in g <==> Rank(granted.value, 0) >= 2;
      assert ManagePlatform in RolePermissions(requested) <==> requested == Admin;
      assert EditEvent in RolePermissions(requested) <==> Rank(requested, 0) >= 3;
      assert BoothSetActive in RolePermissions(requested) <==> Rank(requested, 0) >= 2;
    }
  }
}
