/** The role hierarchy: who may assign, create, edit and delete which role. */
module Roles {
  import opened Common

  const BASE_RANK := 10
  const TOP_RANK := 100

  /** A user holds groups by their id, so a rename keeps its members. */
  datatype User = User(superuser: bool, groups: set<nat>, direct: set<string>)

  datatype Group = Group(name: string, permissions: set<string>)

  datatype Directory = Directory(users: map<nat, User>, groups: map<nat, Group>)

  datatype Verdict = Allowed | ServiceError | PermissionDenied

  const ROLE_RANKS: map<string, nat> := map["superadmin" := TOP_RANK, "admin" := 90, "manager" := 50]

  const PROTECTED_ROLES: set<string> := {"superadmin"}

  function RoleRank(name: string): (rank: nat)
    ensures rank <= TOP_RANK
  {
    if name in ROLE_RANKS then ROLE_RANKS[name] else BASE_RANK
  }

  /** The largest of a set of ranks, 0 when there are none. */
  function Highest(ranks: set<nat>): (rank: nat)
    ensures ranks == {} ==> rank == 0
    ensures ranks != {} ==> rank in ranks
    ensures forall k <- ranks :: k <= rank
  {
    if ranks == {} then 0
    else
      HighestExists(ranks);
      var k :| k in ranks && forall j <- ranks :: j <= k;
      k
  }

  lemma {:induction false} HighestExists(ranks: set<nat>)
    requires ranks != {}
    ensures exists k :: k in ranks && forall j <- ranks :: j <= k
  {
    var k :| k in ranks;
    var rest := ranks - {k};
    if rest == {} {
      assert forall j <- ranks :: j !in rest;
    } else {
      HighestExists(rest);
      var m :| m in rest && forall j <- rest :: j <= m;
      var top := if k <= m then m else k;
      assert forall j <- ranks :: j == k || j in rest;
      assert top in ranks && forall j <- ranks :: j <= top;
    }
  }

  function GroupNames(d: Directory, ids: set<nat>): set<string> {
    set g | g in ids && g in d.groups :: d.groups[g].name
  }

  function UserRank(d: Directory, u: nat): nat
    requires u in d.users
  {
    if d.users[u].superuser then TOP_RANK
    else Highest(set name | name in GroupNames(d, d.users[u].groups) :: RoleRank(name))
  }

  predicate RankAllows(actorRank: nat, rank: nat) {
    actorRank == TOP_RANK || actorRank > rank
  }

  function HiddenRoleNames(d: Directory, actor: nat): set<string>
    requires actor in d.users
  {
    if UserRank(d, actor) == TOP_RANK then {}
    else set name | name in ROLE_RANKS.Keys && ROLE_RANKS[name] > UserRank(d, actor)
  }

  /** Everything a user who is not a superuser may do. */
  function AllPermissions(d: Directory, u: nat): set<string>
    requires u in d.users
  {
    d.users[u].direct + set g, p | g in d.users[u].groups && g in d.groups && p in d.groups[g].permissions :: p
  }

  // ---- The guards ----

  function CanAssign(d: Directory, actor: nat, before: set<string>, after: set<string>): Verdict
    requires actor in d.users
  {
    if forall name <- (before - after) + (after - before) :: RankAllows(UserRank(d, actor), RoleRank(name))
    then Allowed else PermissionDenied
  }

  function CanCreateRole(d: Directory, actor: nat, name: string): Verdict
    requires actor in d.users
  {
    if RankAllows(UserRank(d, actor), RoleRank(name)) then Allowed else PermissionDenied
  }

  function CanManageRole(d: Directory, actor: nat, name: string, newName: Option<string>): Verdict
    requires actor in d.users
  {
    if name in PROTECTED_ROLES then ServiceError
    else if CanCreateRole(d, actor, name) != Allowed then PermissionDenied
    else if newName.Some? then CanCreateRole(d, actor, newName.value) else Allowed
  }

  function CanGrant(d: Directory, actor: nat, before: set<string>, after: set<string>): Verdict
    requires actor in d.users
  {
    if d.users[actor].superuser || after - before <= AllPermissions(d, actor) then Allowed
    else PermissionDenied
  }

  function CanManageUser(d: Directory, actor: nat, target: nat): Verdict
    requires actor in d.users && target in d.users
  {
    if actor == target || RankAllows(UserRank(d, actor), UserRank(d, target)) then Allowed
    else PermissionDenied
  }

  /** The groups a list of names selects, as the actor may see them. */
  function Visible(d: Directory, actor: nat, names: set<string>): set<nat>
    requires actor in d.users
  {
    set g | g in d.groups && d.groups[g].name in names && d.groups[g].name !in HiddenRoleNames(d, actor)
  }

  /** A name that no role bears, or that the actor is not shown. */
  predicate Unknown(d: Directory, actor: nat, name: string)
    requires actor in d.users
  {
    name in HiddenRoleNames(d, actor) || forall g <- d.groups :: d.groups[g].name != name
  }

  // ---- The service that replaces a user's roles ----

  class Accounts {
    var users: map<nat, User>
    var groups: map<nat, Group>

    ghost function State(): Directory
      reads this
    {
      Directory(users, groups)
    }

    /** Replace a user's roles. A name the actor may not see counts as unknown. */
    method SyncUserRoles(actor: nat, target: nat, names: set<string>) returns (verdict: Verdict)
      requires actor in users && target in users
      modifies this`users
      ensures verdict == ServiceError <==> exists name <- names :: Unknown(old(State()), actor, name)
      ensures target in users
      ensures verdict == Allowed ==>
                && GroupNames(State(), users[target].groups) == names
                && users == old(users)[target := old(users)[target].(groups := users[target].groups)]
                && forall name :: (name in names) != (name in GroupNames(old(State()), old(users)[target].groups)) ==>
                     RankAllows(UserRank(old(State()), actor), RoleRank(name))
      ensures verdict != Allowed ==> users == old(users)
      ensures (verdict, State()) == Synced(old(State()), actor, target, names)
    {
      var d := Directory(users, groups);
      var found := Visible(d, actor, names);
      var missing := names - GroupNames(d, found);
      forall name | name in names ensures name in missing <==> Unknown(d, actor, name) {
        if !Unknown(d, actor, name) {
          var g :| g in groups && groups[g].name == name;
          assert g in found;
        }
      }
      if missing != {} {
        ghost var name :| name in missing;
        assert Unknown(d, actor, name);
        return ServiceError;
      }
      assert GroupNames(d, found) == names;
      verdict := CanAssign(d, actor, GroupNames(d, users[target].groups), GroupNames(d, found));
      if verdict == Allowed {
        users := users[target := users[target].(groups := found)];
      }
    }
  }

  function Synced(d: Directory, actor: nat, target: nat, names: set<string>): (Verdict, Directory)
    requires actor in d.users && target in d.users
  {
    var found := Visible(d, actor, names);
    if names - GroupNames(d, found) != {} then (ServiceError, d)
    else
      var verdict := CanAssign(d, actor, GroupNames(d, d.users[target].groups), GroupNames(d, found));
      (verdict, if verdict == Allowed then d.(users := d.users[target := d.users[target].(groups := found)]) else d)
  }

  // ---- Runs ----

  datatype Event =
    | SetRoles(actor: nat, target: nat, names: set<string>)
    | UpdateUser(actor: nat, target: nat, groups: set<nat>)
    | CreateUser(actor: nat, user: nat, group: nat)
    | CreateRole(actor: nat, group: nat, name: string, permissions: set<string>)
    | UpdateRole(actor: nat, group: nat, newName: Option<string>, newPermissions: Option<set<string>>)
    | DeleteRole(actor: nat, group: nat)

  predicate NameFree(d: Directory, actor: nat, name: string, except: set<nat>)
    requires actor in d.users
  {
    name !in HiddenRoleNames(d, actor) && forall g <- d.groups :: g in except || d.groups[g].name != name
  }

  function Without(d: Directory, group: nat): Directory {
    Directory(map u | u in d.users :: d.users[u].(groups := d.users[u].groups - {group}), d.groups - {group})
  }

  /** One request; a refused request changes nothing. */
  function Step(d: Directory, e: Event): Directory {
    if e.actor !in d.users then d
    else match e
      case SetRoles(a, target, names) =>
        if target in d.users && CanManageUser(d, a, target) == Allowed then Synced(d, a, target, names).1 else d
      case UpdateUser(a, target, groups) =>
        if target in d.users && groups <= d.groups.Keys && CanManageUser(d, a, target) == Allowed &&
           CanAssign(d, a, GroupNames(d, d.users[target].groups), GroupNames(d, groups)) == Allowed
        then d.(users := d.users[target := d.users[target].(groups := groups)]) else d
      case CreateUser(a, user, group) =>
        if user !in d.users && group in d.groups && CanAssign(d, a, {}, {d.groups[group].name}) == Allowed
        then d.(users := d.users[user := User(false, {group}, {})]) else d
      case CreateRole(a, group, name, permissions) =>
        if group !in d.groups && NameFree(d, a, name, {}) && CanCreateRole(d, a, name) == Allowed &&
           CanGrant(d, a, {}, permissions) == Allowed
        then d.(groups := d.groups[group := Group(name, permissions)]) else d
      case UpdateRole(a, group, newName, newPermissions) =>
        if group in d.groups && d.groups[group].name !in HiddenRoleNames(d, a) &&
           (newName.Some? ==> NameFree(d, a, newName.value, {group})) &&
           CanManageRole(d, a, d.groups[group].name, newName) == Allowed &&
           (newPermissions.Some? ==> CanGrant(d, a, d.groups[group].permissions, newPermissions.value) == Allowed)
        then
          var before := d.groups[group];
          d.(groups := d.groups[group := Group(
                                  if newName.Some? then newName.value else before.name,
                                  if newPermissions.Some? then newPermissions.value else before.permissions)])
        else d
      case DeleteRole(a, group) =>
        if group in d.groups && d.groups[group].name !in HiddenRoleNames(d, a) &&
           CanManageRole(d, a, d.groups[group].name, None) == Allowed
        then Without(d, group) else d
  }

  function Run(d: Directory, run: seq<Event>): Directory
    decreases |run|
  {
    if run == [] then d else Run(Step(d, run[0]), run[1..])
  }

  /** Role names are unique, and members hold roles that exist. */
  ghost predicate WellFormed(d: Directory) {
    && (forall g, h :: g in d.groups && h in d.groups && g != h ==> d.groups[g].name != d.groups[h].name)
    && (forall u <- d.users :: d.users[u].groups <= d.groups.Keys)
  }

  predicate RanksAtLeast(d: Directory, g: nat, r: nat)
    requires g in d.groups
  {
    RoleRank(d.groups[g].name) >= r
  }

  /** The roles a user holds that rank at least r. */
  ghost function HighRoles(d: Directory, u: nat, r: nat): set<nat>
    requires u in d.users
  {
    set g | g in d.users[u].groups && g in d.groups && RanksAtLeast(d, g, r)
  }

  /** The users who outrank r. */
  ghost function Superiors(d: Directory, r: nat): set<nat> {
    set u | u in d.users && UserRank(d, u) > r
  }

  /** Every permission within reach of ranks up to r: held by such a role, or granted
      directly to somebody other than a superior. */
  ghost function Reach(d: Directory, r: nat, superiors: set<nat>): set<string> {
    (set g, p | g in d.groups && RoleRank(d.groups[g].name) <= r && p in d.groups[g].permissions :: p) +
    (set u, p | u in d.users && u !in superiors && p in d.users[u].direct :: p)
  }

  /** A user keeps their account, direct permissions and roles ranked at least r. */
  ghost predicate UserKept(d0: Directory, d: Directory, r: nat, u: nat)
    requires u in d0.users
  {
    && u in d.users && d.users[u].superuser == d0.users[u].superuser
    && d.users[u].direct == d0.users[u].direct
    && HighRoles(d, u, r) == HighRoles(d0, u, r)
  }

  ghost predicate UsersKept(d0: Directory, d: Directory, r: nat) {
    forall u <- d0.users :: UserKept(d0, d, r, u)
  }

  /** Users created since hold nothing of rank r, nor permissions of their own. */
  ghost predicate NewcomersLow(d0: Directory, d: Directory, r: nat) {
    forall u <- d.users :: u !in d0.users ==>
      !d.users[u].superuser && d.users[u].direct == {} && HighRoles(d, u, r) == {}
  }

  /** The roles ranked at least r are the same ones, with the same contents. */
  ghost predicate RolesKept(d0: Directory, d: Directory, r: nat) {
    && (forall g <- d0.groups :: RanksAtLeast(d0, g, r) ==> g in d.groups && d.groups[g] == d0.groups[g])
    && (forall g <- d.groups :: RanksAtLeast(d, g, r) ==> g in d0.groups && d.groups[g] == d0.groups[g])
  }

  /** What a run by others than the superiors cannot have changed since `d0`. */
  ghost predicate Confined(d0: Directory, d: Directory, r: nat, sup: set<nat>) {
    && WellFormed(d) && UsersKept(d0, d, r) && NewcomersLow(d0, d, r) && RolesKept(d0, d, r)
    && Reach(d, r, sup) <= Reach(d0, r, sup)
  }

  /** A change that keeps users, roles and reach keeps what was confined. */
  lemma StayConfined(d0: Directory, d: Directory, d': Directory, r: nat, sup: set<nat>)
    requires Confined(d0, d, r, sup) && WellFormed(d') && d'.users.Keys == d.users.Keys
    requires UsersKept(d, d', r) && RolesKept(d, d', r) && Reach(d', r, sup) <= Reach(d, r, sup)
    ensures Confined(d0, d', r, sup)
  {
    forall u | u in d0.users ensures UserKept(d0, d', r, u) {
      assert UserKept(d0, d, r, u) && UserKept(d, d', r, u);
    }
    forall u | u in d'.users && u !in d0.users
      ensures !d'.users[u].superuser && d'.users[u].direct == {} && HighRoles(d', u, r) == {}
    {
      assert UserKept(d, d', r, u);
    }
  }

  lemma RankAtMost(d: Directory, u: nat, r: nat)
    requires u in d.users && !d.users[u].superuser
    ensures UserRank(d, u) <= r <==>
            forall g <- d.users[u].groups :: g in d.groups ==> RoleRank(d.groups[g].name) <= r
  {
    var names := GroupNames(d, d.users[u].groups);
    var ranks := set name | name in names :: RoleRank(name);
    if UserRank(d, u) <= r {
      forall g | g in d.users[u].groups && g in d.groups ensures RoleRank(d.groups[g].name) <= r {
        assert d.groups[g].name in names;
        assert RoleRank(d.groups[g].name) in ranks;
      }
    }
  }

  /** Anybody but an initial superior still ranks at most r. */
  lemma ActorsStayLow(d0: Directory, d: Directory, r: nat, sup: set<nat>, u: nat)
    requires WellFormed(d0) && Confined(d0, d, r, sup) && r < TOP_RANK && u in d.users && sup == Superiors(d0, r) && u !in sup
    ensures UserRank(d, u) <= r && !d.users[u].superuser
    ensures AllPermissions(d, u) <= Reach(d, r, sup)
  {
    if u in d0.users {
      RankAtMost(d0, u, r);
      forall g | g in d.users[u].groups ensures RoleRank(d.groups[g].name) <= r {
        if RoleRank(d.groups[g].name) >= r {
          assert g in HighRoles(d, u, r);
          assert g in HighRoles(d0, u, r);
        }
      }
    } else {
      forall g | g in d.users[u].groups ensures RoleRank(d.groups[g].name) <= r {
        assert g !in HighRoles(d, u, r);
      }
    }
    RankAtMost(d, u, r);
  }

  lemma NameMembership(d: Directory, ids: set<nat>, g: nat)
    requires WellFormed(d) && g in d.groups
    ensures d.groups[g].name in GroupNames(d, ids) <==> g in ids
  {
    if d.groups[g].name in GroupNames(d, ids) {
      var h :| h in ids && h in d.groups && d.groups[h].name == d.groups[g].name;
    }
  }

  /** Whether two sets of roles differ only below r. */
  ghost predicate DifferBelow(d: Directory, r: nat, before: set<nat>, after: set<nat>) {
    forall g <- d.groups :: RanksAtLeast(d, g, r) ==> (g in before <==> g in after)
  }

  /** An assignment the guard allows to an actor of rank at most r differs only below r. */
  lemma AllowedDiffersBelow(d: Directory, r: nat, actor: nat, before: set<nat>, after: set<nat>)
    requires WellFormed(d) && actor in d.users && UserRank(d, actor) <= r < TOP_RANK
    requires CanAssign(d, actor, GroupNames(d, before), GroupNames(d, after)) == Allowed
    ensures DifferBelow(d, r, before, after)
  {
    forall g | g in d.groups && RanksAtLeast(d, g, r) ensures g in before <==> g in after {
      NameMembership(d, before, g);
      NameMembership(d, after, g);
      var name := d.groups[g].name;
      assert !RankAllows(UserRank(d, actor), RoleRank(name));
    }
  }

  lemma SameHighRoles(d: Directory, d': Directory, u: nat, r: nat)
    requires d'.groups == d.groups && u in d.users && u in d'.users
    requires DifferBelow(d, r, d.users[u].groups, d'.users[u].groups)
    ensures HighRoles(d', u, r) == HighRoles(d, u, r)
  {
  }

  lemma SameReach(d: Directory, d': Directory, r: nat, superiors: set<nat>)
    requires d'.groups == d.groups && d'.users.Keys == d.users.Keys
    requires forall u <- d.users :: d'.users[u].direct == d.users[u].direct
    ensures Reach(d', r, superiors) == Reach(d, r, superiors)
  {
  }

  lemma MembershipConfined(d0: Directory, d: Directory, r: nat, sup: set<nat>, target: nat, ids: set<nat>)
    requires Confined(d0, d, r, sup) && target in d.users && ids <= d.groups.Keys
    requires DifferBelow(d, r, d.users[target].groups, ids)
    ensures Confined(d0, d.(users := d.users[target := d.users[target].(groups := ids)]), r, sup)
  {
    var d' := d.(users := d.users[target := d.users[target].(groups := ids)]);
    SameReach(d, d', r, sup);
    forall u | u in d.users ensures UserKept(d, d', r, u) {
      SameHighRoles(d, d', u, r);
    }
    StayConfined(d0, d, d', r, sup);
  }

  lemma NewUserReach(d: Directory, d': Directory, r: nat, sup: set<nat>, user: nat)
    requires d'.groups == d.groups && user !in d.users && d'.users.Keys == d.users.Keys + {user}
    requires d'.users[user].direct == {} && forall u <- d.users :: d'.users[u] == d.users[u]
    ensures Reach(d', r, sup) == Reach(d, r, sup)
  {
  }

  lemma NewUserConfined(d0: Directory, d: Directory, r: nat, sup: set<nat>, user: nat, group: nat)
    requires Confined(d0, d, r, sup) && user !in d.users && group in d.groups && RoleRank(d.groups[group].name) < r
    ensures Confined(d0, d.(users := d.users[user := User(false, {group}, {})]), r, sup)
  {
    var d' := d.(users := d.users[user := User(false, {group}, {})]);
    NewUserReach(d, d', r, sup, user);
    forall u | u in d.users ensures HighRoles(d', u, r) == HighRoles(d, u, r) {
      SameHighRoles(d, d', u, r);
    }
    forall u | u in d0.users ensures UserKept(d0, d', r, u) {
      assert UserKept(d0, d, r, u);
    }
    assert HighRoles(d', user, r) == {};
  }

  lemma RoleWriteWellFormed(d: Directory, group: nat, now: Group)
    requires WellFormed(d) && forall g <- d.groups :: g == group || d.groups[g].name != now.name
    ensures WellFormed(d.(groups := d.groups[group := now]))
  {
  }

  /** Writing a role below r, with permissions already within reach. */
  lemma RoleWriteConfined(d0: Directory, d: Directory, r: nat, sup: set<nat>, group: nat, now: Group)
    requires Confined(d0, d, r, sup) && RoleRank(now.name) < r
    requires group in d.groups ==> RoleRank(d.groups[group].name) < r
    requires group !in d.groups ==> forall u <- d.users :: group !in d.users[u].groups
    requires forall g <- d.groups :: g == group || d.groups[g].name != now.name
    requires now.permissions <= Reach(d, r, sup)
    ensures Confined(d0, d.(groups := d.groups[group := now]), r, sup)
  {
    var d' := d.(groups := d.groups[group := now]);
    RoleWriteWellFormed(d, group, now);
    forall u | u in d.users ensures UserKept(d, d', r, u) {
      SameHighRolesAround(d, d', u, r, group);
    }
    RoleWriteReach(d, r, sup, group, now);
    StayConfined(d0, d, d', r, sup);
  }

  lemma RoleWriteReach(d: Directory, r: nat, sup: set<nat>, group: nat, now: Group)
    requires now.permissions <= Reach(d, r, sup)
    ensures Reach(d.(groups := d.groups[group := now]), r, sup) <= Reach(d, r, sup)
  {
    var d' := d.(groups := d.groups[group := now]);
    forall p | p in Reach(d', r, sup) ensures p in Reach(d, r, sup) {
      if g :| g in d'.groups && RoleRank(d'.groups[g].name) <= r && p in d'.groups[g].permissions {
        assert g == group || (g in d.groups && d.groups[g] == d'.groups[g]);
      }
    }
  }

  /** A user's high roles do not see a role that ranks below r before and after. */
  lemma SameHighRolesAround(d: Directory, d': Directory, u: nat, r: nat, group: nat)
    requires u in d.users && u in d'.users && d'.users[u].groups - {group} == d.users[u].groups - {group}
    requires forall g :: g != group ==> (g in d.groups <==> g in d'.groups)
    requires forall g :: g != group && g in d.groups ==> d'.groups[g] == d.groups[g]
    requires group in d.groups ==> !RanksAtLeast(d, group, r)
    requires group in d'.groups ==> !RanksAtLeast(d', group, r)
    ensures HighRoles(d', u, r) == HighRoles(d, u, r)
  {
    forall g | g != group ensures g in d'.users[u].groups <==> g in d.users[u].groups {
      assert g in d'.users[u].groups - {group} <==> g in d.users[u].groups - {group};
    }
  }

  lemma RoleDeletionReach(d: Directory, r: nat, sup: set<nat>, group: nat)
    ensures Reach(Without(d, group), r, sup) <= Reach(d, r, sup)
  {
    var d' := Without(d, group);
    forall p | p in Reach(d', r, sup) ensures p in Reach(d, r, sup) {
      if g :| g in d'.groups && RoleRank(d'.groups[g].name) <= r && p in d'.groups[g].permissions {
        assert g in d.groups && d.groups[g] == d'.groups[g];
      } else {
        var u :| u in d'.users && u !in sup && p in d'.users[u].direct;
        assert u in d.users && d.users[u].direct == d'.users[u].direct;
      }
    }
  }

  lemma RoleDeletionConfined(d0: Directory, d: Directory, r: nat, sup: set<nat>, group: nat)
    requires Confined(d0, d, r, sup) && group in d.groups && RoleRank(d.groups[group].name) < r
    ensures Confined(d0, Without(d, group), r, sup)
  {
    var d' := Without(d, group);
    forall u | u in d.users ensures UserKept(d, d', r, u) {
      SameHighRolesAround(d, d', u, r, group);
    }
    RoleDeletionReach(d, r, sup, group);
    StayConfined(d0, d, d', r, sup);
  }

  lemma RoleCreationConfined(d0: Directory, d: Directory, r: nat, sup: set<nat>, e: Event)
    requires Confined(d0, d, r, sup) && r < TOP_RANK && e.actor in d.users && e.CreateRole?
    requires UserRank(d, e.actor) <= r && AllPermissions(d, e.actor) <= Reach(d, r, sup) && Step(d, e) != d
    ensures Confined(d0, Step(d, e), r, sup)
  {
    RoleWriteConfined(d0, d, r, sup, e.group, Group(e.name, e.permissions));
  }

  lemma RoleUpdateConfined(d0: Directory, d: Directory, r: nat, sup: set<nat>, e: Event)
    requires Confined(d0, d, r, sup) && r < TOP_RANK && e.actor in d.users && e.UpdateRole?
    requires UserRank(d, e.actor) <= r && AllPermissions(d, e.actor) <= Reach(d, r, sup) && Step(d, e) != d
    ensures Confined(d0, Step(d, e), r, sup)
  {
    var now := Step(d, e).groups[e.group];
    assert d.groups[e.group].permissions <= Reach(d, r, sup);
    RoleWriteConfined(d0, d, r, sup, e.group, now);
  }

  lemma RoleEventConfined(d0: Directory, d: Directory, r: nat, sup: set<nat>, e: Event)
    requires Confined(d0, d, r, sup) && r < TOP_RANK && e.actor in d.users
    requires UserRank(d, e.actor) <= r && !d.users[e.actor].superuser
    requires AllPermissions(d, e.actor) <= Reach(d, r, sup)
    requires e.CreateRole? || e.UpdateRole? || e.DeleteRole?
    ensures Confined(d0, Step(d, e), r, sup)
  {
    if Step(d, e) != d {
      if e.CreateRole? {
        RoleCreationConfined(d0, d, r, sup, e);
      } else if e.UpdateRole? {
        RoleUpdateConfined(d0, d, r, sup, e);
      } else {
        RoleDeletionConfined(d0, d, r, sup, e.group);
      }
    }
  }

  lemma UserEventConfined(d0: Directory, d: Directory, r: nat, sup: set<nat>, e: Event)
    requires Confined(d0, d, r, sup) && r < TOP_RANK && e.actor in d.users
    requires UserRank(d, e.actor) <= r
    requires e.SetRoles? || e.UpdateUser? || e.CreateUser?
    ensures Confined(d0, Step(d, e), r, sup)
  {
    if Step(d, e) != d {
      match e
      case SetRoles(a, target, names) =>
        var found := Visible(d, a, names);
        AllowedDiffersBelow(d, r, a, d.users[target].groups, found);
        MembershipConfined(d0, d, r, sup, target, found);
      case UpdateUser(a, target, groups) =>
        AllowedDiffersBelow(d, r, a, d.users[target].groups, groups);
        MembershipConfined(d0, d, r, sup, target, groups);
      case CreateUser(a, user, group) =>
        assert d.groups[group].name in {d.groups[group].name};
        NewUserConfined(d0, d, r, sup, user, group);
    }
  }

  lemma StepConfined(d0: Directory, d: Directory, r: nat, sup: set<nat>, e: Event)
    requires WellFormed(d0) && Confined(d0, d, r, sup) && r < TOP_RANK && sup == Superiors(d0, r) && e.actor !in sup
    ensures Confined(d0, Step(d, e), r, sup)
  {
    if e.actor in d.users {
      ActorsStayLow(d0, d, r, sup, e.actor);
      if e.SetRoles? || e.UpdateUser? || e.CreateUser? {
        UserEventConfined(d0, d, r, sup, e);
      } else {
        RoleEventConfined(d0, d, r, sup, e);
      }
    }
  }

  lemma {:induction false} RunConfined(d0: Directory, d: Directory, r: nat, sup: set<nat>, run: seq<Event>)
    requires WellFormed(d0) && Confined(d0, d, r, sup) && r < TOP_RANK && sup == Superiors(d0, r)
    requires forall e <- run :: e.actor !in sup
    ensures Confined(d0, Run(d, run), r, sup)
    decreases |run|
  {
    if run != [] {
      StepConfined(d0, d, r, sup, run[0]);
      RunConfined(d0, Step(d, run[0]), r, sup, run[1..]);
    }
  }

  /** Nobody who outranks r acts. */
  lemma ActorsBelow(d: Directory, r: nat, run: seq<Event>)
    requires forall e <- run :: e.actor in d.users ==> UserRank(d, e.actor) <= r
    ensures forall e <- run :: e.actor !in Superiors(d, r)
  {
  }

  /** No escalation: in any run by users who start at rank at most r, or are created along
      the way, every user keeps exactly the roles ranked r or above, no new user gets one,
      and roles up to r and the users holding them gain no permission from outside. */
  lemma NoEscalation(d: Directory, r: nat, run: seq<Event>)
    requires WellFormed(d) && r < TOP_RANK
    requires forall e <- run :: e.actor in d.users ==> UserRank(d, e.actor) <= r
    ensures var t := Run(d, run);
            && (forall u <- d.users :: u in t.users && HighRoles(t, u, r) == HighRoles(d, u, r))
            && (forall u <- t.users :: u !in d.users ==> HighRoles(t, u, r) == {} && !t.users[u].superuser)
            && (forall u <- t.users :: (u in d.users ==> UserRank(d, u) <= r) ==>
                  UserRank(t, u) <= r && AllPermissions(t, u) <= Reach(d, r, Superiors(d, r)))
            && (forall g <- d.groups :: RanksAtLeast(d, g, r) ==> g in t.groups && t.groups[g] == d.groups[g])
  {
    ActorsBelow(d, r, run);
    RunConfined(d, d, r, Superiors(d, r), run);
    var t := Run(d, run);
    forall u | u in t.users && (u in d.users ==> UserRank(d, u) <= r)
      ensures UserRank(t, u) <= r && AllPermissions(t, u) <= Reach(d, r, Superiors(d, r))
    {
      ActorsStayLow(d, t, r, Superiors(d, r), u);
    }
  }

  /** Every permission that any role or direct grant carries. */
  ghost function AllGranted(d: Directory): set<string> {
    (set g, p | g in d.groups && p in d.groups[g].permissions :: p) +
    (set u, p | u in d.users && p in d.users[u].direct :: p)
  }

  /** The union of permissions over all roles and direct grants never grows. */
  lemma PermissionsNeverGrow(d: Directory, r: nat, run: seq<Event>)
    requires WellFormed(d) && r < TOP_RANK
    requires forall e <- run :: e.actor in d.users ==> UserRank(d, e.actor) <= r
    ensures AllGranted(Run(d, run)) <= AllGranted(d)
  {
    ActorsBelow(d, r, run);
    RunConfined(d, d, r, Superiors(d, r), run);
    var t, sup := Run(d, run), Superiors(d, r);
    assert Reach(d, r, sup) <= AllGranted(d);
    forall p | p in AllGranted(t) ensures p in AllGranted(d) {
      if g, q :| g in t.groups && q in t.groups[g].permissions && q == p {
        if RanksAtLeast(t, g, r) {
          assert g in d.groups && p in d.groups[g].permissions;
        } else {
          assert p in Reach(t, r, sup);
        }
      } else {
        var u :| u in t.users && p in t.users[u].direct;
        assert u in d.users && p in d.users[u].direct;
      }
    }
  }
}
