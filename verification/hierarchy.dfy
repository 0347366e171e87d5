/** The role hierarchy told from the roles people hold: superadmin over admin over manager
    over every other role, without ranks or numbers. */
module Hierarchy {
  import opened Common
  import opened Roles

  predicate Holds(d: Directory, u: nat, name: string)
    requires u in d.users
  {
    exists g :: g in d.users[u].groups && g in d.groups && d.groups[g].name == name
  }

  predicate HoldsSome(d: Directory, u: nat)
    requires u in d.users
  {
    exists g :: g in d.users[u].groups && g in d.groups
  }

  predicate OnTop(d: Directory, u: nat)
    requires u in d.users
  {
    d.users[u].superuser || Holds(d, u, "superadmin")
  }

  lemma RanksInOrder(name: string)
    ensures RoleRank("superadmin") > RoleRank("admin") > RoleRank("manager")
    ensures name != "superadmin" && name != "admin" && name != "manager" ==> 0 < RoleRank(name) < RoleRank("manager")
  {
  }

  function Ranks(d: Directory, u: nat): set<nat>
    requires u in d.users
  {
    set name | name in GroupNames(d, d.users[u].groups) :: RoleRank(name)
  }

  lemma NamesHeld(d: Directory, u: nat, name: string)
    requires u in d.users
    ensures name in GroupNames(d, d.users[u].groups) <==> Holds(d, u, name)
  {
  }

  lemma RankHeld(d: Directory, u: nat, name: string)
    requires u in d.users && name in ROLE_RANKS
    ensures RoleRank(name) in Ranks(d, u) <==> Holds(d, u, name)
  {
    NamesHeld(d, u, name);
    if RoleRank(name) in Ranks(d, u) {
      var other :| other in GroupNames(d, d.users[u].groups) && RoleRank(other) == RoleRank(name);
      RanksInOrder(other);
    }
  }

  lemma RanksListed(d: Directory, u: nat, rank: nat)
    requires u in d.users && rank in Ranks(d, u)
    ensures rank in {RoleRank("superadmin"), RoleRank("admin"), RoleRank("manager")} || 0 < rank < RoleRank("manager")
  {
    var name :| name in GroupNames(d, d.users[u].groups) && RoleRank(name) == rank;
    RanksInOrder(name);
  }

  lemma SomeRank(d: Directory, u: nat)
    requires u in d.users
    ensures Ranks(d, u) != {} <==> HoldsSome(d, u)
  {
    if g :| g in d.users[u].groups && g in d.groups {
      assert d.groups[g].name in GroupNames(d, d.users[u].groups);
      assert RoleRank(d.groups[g].name) in Ranks(d, u);
    }
    if rank :| rank in Ranks(d, u) {
      var name :| name in GroupNames(d, d.users[u].groups) && RoleRank(name) == rank;
      NamesHeld(d, u, name);
    }
  }

  /** A user's rank is decided by the highest of the three named roles they hold. */
  lemma RankByRoles(d: Directory, u: nat)
    requires u in d.users
    ensures UserRank(d, u) == RoleRank("superadmin") <==> OnTop(d, u)
    ensures UserRank(d, u) == RoleRank("admin") <==> !OnTop(d, u) && Holds(d, u, "admin")
    ensures UserRank(d, u) == RoleRank("manager") <==> !OnTop(d, u) && !Holds(d, u, "admin") && Holds(d, u, "manager")
    ensures UserRank(d, u) == 0 <==> !d.users[u].superuser && !HoldsSome(d, u)
    ensures UserRank(d, u) in {RoleRank("superadmin"), RoleRank("admin"), RoleRank("manager")} ||
            UserRank(d, u) < RoleRank("manager")
  {
    RankHeld(d, u, "superadmin");
    RankHeld(d, u, "admin");
    RankHeld(d, u, "manager");
    SomeRank(d, u);
    RanksInOrder("");
    if !d.users[u].superuser && Ranks(d, u) != {} {
      RanksListed(d, u, UserRank(d, u));
    }
  }

  lemma LowRank(name: string)
    ensures name != "superadmin" && name != "admin" && name != "manager" ==> RoleRank(name) == RoleRank("")
  {
  }

  lemma LowestRank(d: Directory, u: nat)
    requires u in d.users && 0 < UserRank(d, u) < RoleRank("manager")
    ensures UserRank(d, u) == RoleRank("")
  {
    var name :| name in GroupNames(d, d.users[u].groups) && RoleRank(name) == UserRank(d, u);
    LowRank(name);
  }

  // ---- The guards ----

  /** Whose business a role is: the top's always, an admin's below admin, a manager's below
      manager, and nobody else's. */
  predicate MayHandle(d: Directory, u: nat, name: string)
    requires u in d.users
  {
    || OnTop(d, u)
    || (Holds(d, u, "admin") && name != "superadmin" && name != "admin")
    || (Holds(d, u, "manager") && name != "superadmin" && name != "admin" && name != "manager")
  }

  lemma HandledIff(d: Directory, u: nat, name: string)
    requires u in d.users
    ensures RankAllows(UserRank(d, u), RoleRank(name)) <==> MayHandle(d, u, name)
  {
    RankByRoles(d, u);
    RanksInOrder(name);
    LowRank(name);
    if 0 < UserRank(d, u) < RoleRank("manager") {
      LowestRank(d, u);
    }
  }

  lemma CreateRoleIff(d: Directory, actor: nat, name: string)
    requires actor in d.users
    ensures CanCreateRole(d, actor, name) == (if MayHandle(d, actor, name) then Allowed else PermissionDenied)
  {
    HandledIff(d, actor, name);
  }

  /** The protected role is refused to everybody, before anything else is asked. */
  lemma ManageRoleIff(d: Directory, actor: nat, name: string, newName: Option<string>)
    requires actor in d.users
    ensures CanManageRole(d, actor, name, newName) == ServiceError <==> name == "superadmin"
    ensures CanManageRole(d, actor, name, newName) == Allowed <==>
            && name != "superadmin" && MayHandle(d, actor, name)
            && (newName.Some? ==> MayHandle(d, actor, newName.value))
  {
    HandledIff(d, actor, name);
    if newName.Some? {
      HandledIff(d, actor, newName.value);
    }
  }

  /** Every role given or taken must be the actor's business. */
  lemma AssignIff(d: Directory, actor: nat, before: set<string>, after: set<string>)
    requires actor in d.users
    ensures CanAssign(d, actor, before, after) ==
            if forall name :: (name in before) != (name in after) ==> MayHandle(d, actor, name)
            then Allowed else PermissionDenied
  {
    forall name ensures RankAllows(UserRank(d, actor), RoleRank(name)) <==> MayHandle(d, actor, name) {
      HandledIff(d, actor, name);
    }
    assert forall name :: name in (before - after) + (after - before) <==> (name in before) != (name in after);
  }

  predicate HasPermission(d: Directory, u: nat, p: string)
    requires u in d.users
  {
    || d.users[u].superuser || p in d.users[u].direct
    || exists g :: g in d.users[u].groups && g in d.groups && p in d.groups[g].permissions
  }

  /** Only a permission that is being added must be held. */
  lemma GrantIff(d: Directory, actor: nat, before: set<string>, after: set<string>)
    requires actor in d.users
    ensures CanGrant(d, actor, before, after) ==
            if forall p <- after :: p in before || HasPermission(d, actor, p) then Allowed else PermissionDenied
  {
    forall p ensures d.users[actor].superuser || p in AllPermissions(d, actor) <==> HasPermission(d, actor, p) {
    }
    if forall p <- after :: p in before || HasPermission(d, actor, p) {
      forall p | p in after - before ensures d.users[actor].superuser || p in AllPermissions(d, actor) {
        assert HasPermission(d, actor, p);
      }
    } else {
      var p :| p in after && p !in before && !HasPermission(d, actor, p);
      assert p in after - before && p !in AllPermissions(d, actor);
    }
  }

  /** Somebody above: the top stands above everybody, even each other; an admin above who is
      neither; a manager above who is none of the three; and who has a role at all above who
      has none. */
  predicate Outranks(d: Directory, u: nat, v: nat)
    requires u in d.users && v in d.users
  {
    || OnTop(d, u)
    || (!OnTop(d, v) && !Holds(d, v, "admin") &&
        (Holds(d, u, "admin") || (!Holds(d, v, "manager") && (Holds(d, u, "manager") || (HoldsSome(d, u) && !HoldsSome(d, v))))))
  }

  lemma OutranksIff(d: Directory, u: nat, v: nat)
    requires u in d.users && v in d.users
    ensures RankAllows(UserRank(d, u), UserRank(d, v)) <==> Outranks(d, u, v)
  {
    RankByRoles(d, u);
    RankByRoles(d, v);
    RanksInOrder("");
    if 0 < UserRank(d, u) < RoleRank("manager") {
      LowestRank(d, u);
    }
    if 0 < UserRank(d, v) < RoleRank("manager") {
      LowestRank(d, v);
    }
  }

  lemma ManageUserIff(d: Directory, actor: nat, target: nat)
    requires actor in d.users && target in d.users
    ensures CanManageUser(d, actor, target) ==
            if actor == target || Outranks(d, actor, target) then Allowed else PermissionDenied
  {
    OutranksIff(d, actor, target);
  }

  /** A role above one's own is not shown; one's own is. */
  predicate Shown(d: Directory, u: nat, name: string)
    requires u in d.users
  {
    || OnTop(d, u)
    || (name != "superadmin" && (Holds(d, u, "admin") || (name != "admin" && (Holds(d, u, "manager") || name != "manager"))))
  }

  lemma ShownIff(d: Directory, u: nat, name: string)
    requires u in d.users
    ensures name !in HiddenRoleNames(d, u) <==> Shown(d, u, name)
    ensures MayHandle(d, u, name) ==> Shown(d, u, name)
  {
    RankByRoles(d, u);
    RanksInOrder(name);
  }

  // ---- The requests ----

  /** The roles that bear one of the names. */
  ghost function RolesNamed(d: Directory, names: set<string>): set<nat> {
    set g | g in d.groups && d.groups[g].name in names
  }

  ghost predicate MayReplaceRoles(d: Directory, actor: nat, target: nat, now: set<nat>)
    requires actor in d.users && target in d.users
  {
    && (actor == target || Outranks(d, actor, target))
    && forall g <- d.groups :: (g in d.users[target].groups) != (g in now) ==> MayHandle(d, actor, d.groups[g].name)
  }

  lemma NameHeldIff(d: Directory, ids: set<nat>, g: nat)
    requires WellFormed(d) && g in d.groups
    ensures d.groups[g].name in GroupNames(d, ids) <==> g in ids
  {
    NameMembership(d, ids, g);
  }

  /** Guarding the names that change is guarding the roles that change. */
  lemma AssignRolesIff(d: Directory, actor: nat, before: set<nat>, after: set<nat>)
    requires WellFormed(d) && actor in d.users
    ensures CanAssign(d, actor, GroupNames(d, before), GroupNames(d, after)) == Allowed <==>
            forall g <- d.groups :: (g in before) != (g in after) ==> MayHandle(d, actor, d.groups[g].name)
  {
    var names, names' := GroupNames(d, before), GroupNames(d, after);
    AssignIff(d, actor, names, names');
    forall g | g in d.groups
      ensures (d.groups[g].name in names) != (d.groups[g].name in names') <==> (g in before) != (g in after)
    {
      NameHeldIff(d, before, g);
      NameHeldIff(d, after, g);
    }
    forall name | (name in names) != (name in names') ensures exists g :: g in d.groups && d.groups[g].name == name {
    }
  }

  /** Replacing a user's roles by name. */
  lemma SetRolesDoes(d: Directory, a: nat, target: nat, names: set<string>)
    requires WellFormed(d) && a in d.users && target in d.users
    ensures var now := RolesNamed(d, names);
            var known := forall name <- names :: Shown(d, a, name) && exists g :: g in now && d.groups[g].name == name;
            Step(d, SetRoles(a, target, names)) ==
            if known && MayReplaceRoles(d, a, target, now)
            then d.(users := d.users[target := d.users[target].(groups := now)]) else d
  {
    var now := RolesNamed(d, names);
    var found := Visible(d, a, names);
    ManageUserIff(d, a, target);
    forall name ensures name !in HiddenRoleNames(d, a) <==> Shown(d, a, name) {
      ShownIff(d, a, name);
    }
    if forall name <- names :: Shown(d, a, name) && exists g :: g in now && d.groups[g].name == name {
      assert found == now;
      forall name | name in names ensures name in GroupNames(d, found) {
        var g :| g in now && d.groups[g].name == name;
        assert g in found;
      }
      AssignRolesIff(d, a, d.users[target].groups, found);
    } else {
      var name :| name in names && !(Shown(d, a, name) && exists g :: g in now && d.groups[g].name == name);
      assert name !in GroupNames(d, found);
      assert name in names - GroupNames(d, found);
    }
  }

  /** Replacing a user's roles by id. */
  lemma UpdateUserDoes(d: Directory, a: nat, target: nat, groups: set<nat>)
    requires WellFormed(d) && a in d.users && target in d.users && groups <= d.groups.Keys
    ensures Step(d, UpdateUser(a, target, groups)) ==
            if MayReplaceRoles(d, a, target, groups)
            then d.(users := d.users[target := d.users[target].(groups := groups)]) else d
  {
    ManageUserIff(d, a, target);
    AssignRolesIff(d, a, d.users[target].groups, groups);
  }

  /** A new account starts with one role, which must be its creator's business. */
  lemma CreateUserDoes(d: Directory, a: nat, user: nat, group: nat)
    requires a in d.users && user !in d.users && group in d.groups
    ensures Step(d, CreateUser(a, user, group)) ==
            if MayHandle(d, a, d.groups[group].name)
            then Directory(d.users[user := User(false, {group}, {})], d.groups) else d
  {
    AssignIff(d, a, {}, {d.groups[group].name});
  }

  predicate NameTaken(d: Directory, name: string, except: nat) {
    exists g :: g in d.groups && g != except && d.groups[g].name == name
  }

  predicate MayGive(d: Directory, a: nat, before: set<string>, after: set<string>)
    requires a in d.users
  {
    forall p <- after :: p in before || HasPermission(d, a, p)
  }

  /** A new role: a free name below one's own, and no permission beyond one's own. */
  lemma CreateRoleDoes(d: Directory, a: nat, group: nat, name: string, permissions: set<string>)
    requires a in d.users && group !in d.groups
    ensures Step(d, CreateRole(a, group, name, permissions)) ==
            if !NameTaken(d, name, group) && MayHandle(d, a, name) && MayGive(d, a, {}, permissions)
            then Directory(d.users, d.groups[group := Group(name, permissions)]) else d
  {
    CreateRoleIff(d, a, name);
    ShownIff(d, a, name);
    GrantIff(d, a, {}, permissions);
  }

  /** Editing a role: never the protected one, both names below one's own, the new name
      free, and no permission added beyond one's own. */
  lemma UpdateRoleDoes(d: Directory, a: nat, group: nat, newName: Option<string>, newPermissions: Option<set<string>>)
    requires a in d.users && group in d.groups
    ensures var before := d.groups[group];
            var name := if newName.Some? then newName.value else before.name;
            var permissions := if newPermissions.Some? then newPermissions.value else before.permissions;
            Step(d, UpdateRole(a, group, newName, newPermissions)) ==
            if && before.name != "superadmin" && MayHandle(d, a, before.name) && MayHandle(d, a, name)
               && (newName.Some? ==> !NameTaken(d, name, group)) && MayGive(d, a, before.permissions, permissions)
            then Directory(d.users, d.groups[group := Group(name, permissions)]) else d
  {
    var before := d.groups[group];
    ManageRoleIff(d, a, before.name, newName);
    ShownIff(d, a, before.name);
    if newName.Some? {
      ShownIff(d, a, newName.value);
    }
    if newPermissions.Some? {
      GrantIff(d, a, before.permissions, newPermissions.value);
    }
  }

  /** Deleting a role takes it from everybody and changes nothing else. */
  lemma DeleteRoleDoes(d: Directory, a: nat, group: nat)
    requires a in d.users && group in d.groups
    ensures var t := Step(d, DeleteRole(a, group));
            if d.groups[group].name != "superadmin" && MayHandle(d, a, d.groups[group].name) then
              && t.groups == d.groups - {group} && t.users.Keys == d.users.Keys
              && forall u <- d.users :: t.users[u] == d.users[u].(groups := d.users[u].groups - {group})
            else t == d
  {
    ManageRoleIff(d, a, d.groups[group].name, None);
    ShownIff(d, a, d.groups[group].name);
  }
}
