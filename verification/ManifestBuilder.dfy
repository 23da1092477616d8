/** The fluent builder of management_manifest.go, and that it can build every manifest that has distinct
    keys and no network section: replaying a manifest as builder calls gives the manifest back. */
module ManifestBuilder {
  import opened Wrappers
  import opened Keys
  import opened ManifestTypes
  import opened ManifestValidation
  import NetworkManifest

  const NO_NETWORK := NetworkManifest.NetworkSpec(None, [], [])
  const EMPTY_MANIFEST := Manifest([], [], [], [], [], [], NO_NETWORK)

  datatype Call =
    | Resource(key: string, name: string, resourceType: string)
    | ChildResource(key: string, name: string, resourceType: string, parentKey: string)
    | Scope(resourceKey: string, scope: ScopeSpec)
    | ResourceMetadata(resourceKey: string, metadata: map<string, string>)
    | Permission(permission: PermissionSpec)
    | Role(key: string, name: string, description: string)
    | GlobalRole(key: string, name: string, description: string)
    | Grant(roleKey: string, grant: GrantSpec)
    | Group(key: string, name: string, description: string, roleKeys: seq<string>)
    | GroupRole(groupKey: string, binding: RoleBinding)
    | User(key: string, username: string, email: string, initialPassword: string)
    | UserRole(userKey: string, binding: RoleBinding)
    | AddToGroup(userKey: string, groupKey: string)
    | ServiceAccount(key: string, name: string, description: string)
    | ServiceAccountRole(accountKey: string, binding: RoleBinding)

  /** problems are the calls that named something not declared yet. */
  datatype Builder = Builder(manifest: Manifest, problems: seq<Call>)

  const NEW_BUILDER := Builder(EMPTY_MANIFEST, [])

  function FirstIndex<A>(s: seq<A>, p: A -> bool): (i: nat)
    ensures i <= |s| && (i < |s| ==> p(s[i])) && forall j | 0 <= j < i :: !p(s[j])
  {
    if s == [] then 0 else if p(s[0]) then 0 else 1 + FirstIndex(s[1..], p)
  }

  /** The first element that satisfies p, changed by f; nothing when there is none. */
  function ChangeFirst<A>(s: seq<A>, p: A -> bool, f: A -> A): Option<seq<A>> {
    var i := FirstIndex(s, p);
    if i < |s| then Some(s[i := f(s[i])]) else None
  }

  function ResourceNamed(key: string): ResourceSpec -> bool { (r: ResourceSpec) => r.key == key }

  function RoleNamed(key: string): RoleSpec -> bool { (r: RoleSpec) => r.key == key }

  function GroupNamed(key: string): GroupSpec -> bool { (g: GroupSpec) => g.key == key }

  function UserNamed(key: string): UserSpec -> bool { (u: UserSpec) => u.key == key }

  function AccountNamed(key: string): ServiceAccountSpec -> bool { (a: ServiceAccountSpec) => a.key == key }

  function WithScope(scope: ScopeSpec): ResourceSpec -> ResourceSpec {
    (r: ResourceSpec) => r.(scopes := r.scopes + [scope])
  }

  function WithMetadata(metadata: map<string, string>): ResourceSpec -> ResourceSpec {
    (r: ResourceSpec) => r.(metadata := Some(metadata))
  }

  function WithGrant(grant: GrantSpec): RoleSpec -> RoleSpec {
    (r: RoleSpec) => r.(grants := r.grants + [grant])
  }

  function GroupWith(binding: RoleBinding): GroupSpec -> GroupSpec {
    (g: GroupSpec) => g.(roles := g.roles + [binding])
  }

  function UserWith(binding: RoleBinding): UserSpec -> UserSpec {
    (u: UserSpec) => u.(roles := u.roles + [binding])
  }

  function UserIn(group: string): UserSpec -> UserSpec {
    (u: UserSpec) => u.(groups := u.groups + [group])
  }

  function AccountWith(binding: RoleBinding): ServiceAccountSpec -> ServiceAccountSpec {
    (a: ServiceAccountSpec) => a.(roles := a.roles + [binding])
  }

  function Plain(roleKeys: seq<string>): seq<RoleBinding> {
    seq(|roleKeys|, i requires 0 <= i < |roleKeys| => RoleBinding(roleKeys[i], "", false))
  }

  /** What one call makes of the builder: a declaration is appended, a refinement changes the first
      declaration of its key, or is recorded as a problem. */
  function After(b: Builder, call: Call): Builder {
    var m := b.manifest;
    match call
    case Resource(key, name, resourceType) =>
      b.(manifest := m.(resources := m.resources + [ResourceSpec(key, name, resourceType, "", [], None)]))
    case ChildResource(key, name, resourceType, parentKey) =>
      b.(manifest := m.(resources := m.resources + [ResourceSpec(key, name, resourceType, parentKey, [], None)]))
    case Permission(permission) => b.(manifest := m.(permissions := m.permissions + [permission]))
    case Role(key, name, description) =>
      b.(manifest := m.(roles := m.roles + [RoleSpec(key, name, description, false, [])]))
    case GlobalRole(key, name, description) =>
      b.(manifest := m.(roles := m.roles + [RoleSpec(key, name, description, true, [])]))
    case Group(key, name, description, roleKeys) =>
      b.(manifest := m.(groups := m.groups + [GroupSpec(key, name, description, Plain(roleKeys))]))
    case User(key, username, email, initialPassword) =>
      b.(manifest := m.(users := m.users + [UserSpec(key, username, email, initialPassword, [], [])]))
    case ServiceAccount(key, name, description) =>
      b.(manifest := m.(serviceAccounts := m.serviceAccounts + [ServiceAccountSpec(key, name, description, [])]))
    case Scope(key, scope) => Resources(b, call, ChangeFirst(m.resources, ResourceNamed(key), WithScope(scope)))
    case ResourceMetadata(key, metadata) =>
      Resources(b, call, ChangeFirst(m.resources, ResourceNamed(key), WithMetadata(metadata)))
    case Grant(key, grant) => Roles(b, call, ChangeFirst(m.roles, RoleNamed(key), WithGrant(grant)))
    case GroupRole(key, binding) => Groups(b, call, ChangeFirst(m.groups, GroupNamed(key), GroupWith(binding)))
    case UserRole(key, binding) => Users(b, call, ChangeFirst(m.users, UserNamed(key), UserWith(binding)))
    case AddToGroup(key, group) => Users(b, call, ChangeFirst(m.users, UserNamed(key), UserIn(group)))
    case ServiceAccountRole(key, binding) =>
      Accounts(b, call, ChangeFirst(m.serviceAccounts, AccountNamed(key), AccountWith(binding)))
  }

  function Undeclared(b: Builder, call: Call): Builder {
    b.(problems := b.problems + [call])
  }

  function Resources(b: Builder, call: Call, changed: Option<seq<ResourceSpec>>): Builder {
    if changed.None? then Undeclared(b, call) else b.(manifest := b.manifest.(resources := changed.value))
  }

  function Roles(b: Builder, call: Call, changed: Option<seq<RoleSpec>>): Builder {
    if changed.None? then Undeclared(b, call) else b.(manifest := b.manifest.(roles := changed.value))
  }

  function Groups(b: Builder, call: Call, changed: Option<seq<GroupSpec>>): Builder {
    if changed.None? then Undeclared(b, call) else b.(manifest := b.manifest.(groups := changed.value))
  }

  function Users(b: Builder, call: Call, changed: Option<seq<UserSpec>>): Builder {
    if changed.None? then Undeclared(b, call) else b.(manifest := b.manifest.(users := changed.value))
  }

  function Accounts(b: Builder, call: Call, changed: Option<seq<ServiceAccountSpec>>): Builder {
    if changed.None? then Undeclared(b, call) else b.(manifest := b.manifest.(serviceAccounts := changed.value))
  }

  function Calls(b: Builder, calls: seq<Call>): Builder
    decreases |calls|
  {
    if calls == [] then b else Calls(After(b, calls[0]), calls[1..])
  }

  lemma {:induction false} CallsAppend(b: Builder, first: seq<Call>, rest: seq<Call>)
    ensures Calls(b, first + rest) == Calls(Calls(b, first), rest)
    decreases |first|
  {
    if first == [] {
      assert first + rest == rest;
    } else {
      assert (first + rest)[1..] == first[1..] + rest;
      CallsAppend(After(b, first[0]), first[1..], rest);
    }
  }

  /** Only the last element can be the first of its key when no earlier one has it. */
  lemma ChangeLast<A>(s: seq<A>, x: A, p: A -> bool, f: A -> A)
    requires p(x) && forall y | y in s :: !p(y)
    ensures ChangeFirst(s + [x], p, f) == Some(s + [f(x)])
  {
    assert forall j | 0 <= j < |s| :: s[j] in s && (s + [x])[j] == s[j];
    assert (s + [x])[|s|] == x && FirstIndex(s + [x], p) == |s|;
    assert (s + [x])[|s| := f(x)] == s + [f(x)];
  }

  // ----- a manifest as builder calls ----------------------------------------------------------

  function ScopeCalls(key: string, scopes: seq<ScopeSpec>): seq<Call> {
    seq(|scopes|, i requires 0 <= i < |scopes| => Scope(key, scopes[i]))
  }

  function ResourceCalls(r: ResourceSpec): seq<Call> {
    [if r.parent == "" then Resource(r.key, r.name, r.resourceType)
     else ChildResource(r.key, r.name, r.resourceType, r.parent)]
    + (if r.metadata.Some? then [ResourceMetadata(r.key, r.metadata.value)] else [])
    + ScopeCalls(r.key, r.scopes)
  }

  function GrantCalls(key: string, grants: seq<GrantSpec>): seq<Call> {
    seq(|grants|, i requires 0 <= i < |grants| => Grant(key, grants[i]))
  }

  function RoleCalls(r: RoleSpec): seq<Call> {
    [if r.isGlobal then GlobalRole(r.key, r.name, r.description) else Role(r.key, r.name, r.description)]
    + GrantCalls(r.key, r.grants)
  }

  function GroupRoleCalls(key: string, roles: seq<RoleBinding>): seq<Call> {
    seq(|roles|, i requires 0 <= i < |roles| => GroupRole(key, roles[i]))
  }

  function AccountRoleCalls(key: string, roles: seq<RoleBinding>): seq<Call> {
    seq(|roles|, i requires 0 <= i < |roles| => ServiceAccountRole(key, roles[i]))
  }

  function GroupCalls(g: GroupSpec): seq<Call> {
    [Group(g.key, g.name, g.description, [])] + GroupRoleCalls(g.key, g.roles)
  }

  function UserRoleCalls(key: string, roles: seq<RoleBinding>): seq<Call> {
    seq(|roles|, i requires 0 <= i < |roles| => UserRole(key, roles[i]))
  }

  function MembershipCalls(key: string, groups: seq<string>): seq<Call> {
    seq(|groups|, i requires 0 <= i < |groups| => AddToGroup(key, groups[i]))
  }

  function UserCalls(u: UserSpec): seq<Call> {
    [User(u.key, u.username, u.email, u.initialPassword)] + UserRoleCalls(u.key, u.roles) +
        MembershipCalls(u.key, u.groups)
  }

  function AccountCalls(a: ServiceAccountSpec): seq<Call> {
    [ServiceAccount(a.key, a.name, a.description)] + AccountRoleCalls(a.key, a.roles)
  }

  function AllResourceCalls(s: seq<ResourceSpec>): seq<Call> {
    if s == [] then [] else AllResourceCalls(s[..|s| - 1]) + ResourceCalls(s[|s| - 1])
  }

  function AllPermissionCalls(s: seq<PermissionSpec>): seq<Call> {
    if s == [] then [] else AllPermissionCalls(s[..|s| - 1]) + [Permission(s[|s| - 1])]
  }

  function AllRoleCalls(s: seq<RoleSpec>): seq<Call> {
    if s == [] then [] else AllRoleCalls(s[..|s| - 1]) + RoleCalls(s[|s| - 1])
  }

  function AllGroupCalls(s: seq<GroupSpec>): seq<Call> {
    if s == [] then [] else AllGroupCalls(s[..|s| - 1]) + GroupCalls(s[|s| - 1])
  }

  function AllUserCalls(s: seq<UserSpec>): seq<Call> {
    if s == [] then [] else AllUserCalls(s[..|s| - 1]) + UserCalls(s[|s| - 1])
  }

  function AllAccountCalls(s: seq<ServiceAccountSpec>): seq<Call> {
    if s == [] then [] else AllAccountCalls(s[..|s| - 1]) + AccountCalls(s[|s| - 1])
  }

  /** Every declaration before the calls that refine it, kind by kind. */
  function Replay(m: Manifest): seq<Call> {
    AllResourceCalls(m.resources) + AllPermissionCalls(m.permissions) + AllRoleCalls(m.roles)
    + AllGroupCalls(m.groups) + AllUserCalls(m.users) + AllAccountCalls(m.serviceAccounts)
  }

  // ----- one declaration with its refinements -------------------------------------------------

  lemma {:induction false} ScopesBuilt(b: Builder, before: seq<ResourceSpec>, e: ResourceSpec, scopes: seq<ScopeSpec>)
    requires b.manifest.resources == before + [e] && forall x | x in before :: x.key != e.key
    ensures Calls(b, ScopeCalls(e.key, scopes)) ==
            b.(manifest := b.manifest.(resources := before + [e.(scopes := e.scopes + scopes)]))
    decreases |scopes|
  {
    if scopes == [] {
      assert e.scopes + scopes == e.scopes && e.(scopes := e.scopes) == e;
    } else {
      var calls := ScopeCalls(e.key, scopes);
      var next := e.(scopes := e.scopes + [scopes[0]]);
      ChangeLast(before, e, ResourceNamed(e.key), WithScope(scopes[0]));
      assert After(b, calls[0]) == b.(manifest := b.manifest.(resources := before + [next]));
      assert calls[1..] == ScopeCalls(e.key, scopes[1..]);
      ScopesBuilt(After(b, calls[0]), before, next, scopes[1..]);
      assert next.scopes + scopes[1..] == e.scopes + scopes;
    }
  }

  lemma {:induction false} GrantsBuilt(b: Builder, before: seq<RoleSpec>, e: RoleSpec, grants: seq<GrantSpec>)
    requires b.manifest.roles == before + [e] && forall x | x in before :: x.key != e.key
    ensures Calls(b, GrantCalls(e.key, grants)) ==
            b.(manifest := b.manifest.(roles := before + [e.(grants := e.grants + grants)]))
    decreases |grants|
  {
    if grants == [] {
      assert e.grants + grants == e.grants && e.(grants := e.grants) == e;
    } else {
      var calls := GrantCalls(e.key, grants);
      var next := e.(grants := e.grants + [grants[0]]);
      ChangeLast(before, e, RoleNamed(e.key), WithGrant(grants[0]));
      assert After(b, calls[0]) == b.(manifest := b.manifest.(roles := before + [next]));
      assert calls[1..] == GrantCalls(e.key, grants[1..]);
      GrantsBuilt(After(b, calls[0]), before, next, grants[1..]);
      assert next.grants + grants[1..] == e.grants + grants;
    }
  }

  lemma {:induction false} GroupRolesBuilt(b: Builder, before: seq<GroupSpec>, e: GroupSpec, roles: seq<RoleBinding>)
    requires b.manifest.groups == before + [e] && forall x | x in before :: x.key != e.key
    ensures Calls(b, GroupRoleCalls(e.key, roles)) ==
            b.(manifest := b.manifest.(groups := before + [e.(roles := e.roles + roles)]))
    decreases |roles|
  {
    if roles == [] {
      assert e.roles + roles == e.roles && e.(roles := e.roles) == e;
    } else {
      var calls := GroupRoleCalls(e.key, roles);
      var next := e.(roles := e.roles + [roles[0]]);
      ChangeLast(before, e, GroupNamed(e.key), GroupWith(roles[0]));
      assert After(b, calls[0]) == b.(manifest := b.manifest.(groups := before + [next]));
      assert calls[1..] == GroupRoleCalls(e.key, roles[1..]);
      GroupRolesBuilt(After(b, calls[0]), before, next, roles[1..]);
      assert next.roles + roles[1..] == e.roles + roles;
    }
  }

  lemma {:induction false} UserRolesBuilt(b: Builder, before: seq<UserSpec>, e: UserSpec, roles: seq<RoleBinding>)
    requires b.manifest.users == before + [e] && forall x | x in before :: x.key != e.key
    ensures Calls(b, UserRoleCalls(e.key, roles)) ==
            b.(manifest := b.manifest.(users := before + [e.(roles := e.roles + roles)]))
    decreases |roles|
  {
    if roles == [] {
      assert e.roles + roles == e.roles && e.(roles := e.roles) == e;
    } else {
      var calls := UserRoleCalls(e.key, roles);
      var next := e.(roles := e.roles + [roles[0]]);
      ChangeLast(before, e, UserNamed(e.key), UserWith(roles[0]));
      assert After(b, calls[0]) == b.(manifest := b.manifest.(users := before + [next]));
      assert calls[1..] == UserRoleCalls(e.key, roles[1..]);
      UserRolesBuilt(After(b, calls[0]), before, next, roles[1..]);
      assert next.roles + roles[1..] == e.roles + roles;
    }
  }

  lemma {:induction false} MembershipsBuilt(b: Builder, before: seq<UserSpec>, e: UserSpec, groups: seq<string>)
    requires b.manifest.users == before + [e] && forall x | x in before :: x.key != e.key
    ensures Calls(b, MembershipCalls(e.key, groups)) ==
            b.(manifest := b.manifest.(users := before + [e.(groups := e.groups + groups)]))
    decreases |groups|
  {
    if groups == [] {
      assert e.groups + groups == e.groups && e.(groups := e.groups) == e;
    } else {
      var calls := MembershipCalls(e.key, groups);
      var next := e.(groups := e.groups + [groups[0]]);
      ChangeLast(before, e, UserNamed(e.key), UserIn(groups[0]));
      assert After(b, calls[0]) == b.(manifest := b.manifest.(users := before + [next]));
      assert calls[1..] == MembershipCalls(e.key, groups[1..]);
      MembershipsBuilt(After(b, calls[0]), before, next, groups[1..]);
      assert next.groups + groups[1..] == e.groups + groups;
    }
  }

  lemma {:induction false} AccountRolesBuilt(b: Builder, before: seq<ServiceAccountSpec>, e: ServiceAccountSpec,
                                             roles: seq<RoleBinding>)
    requires b.manifest.serviceAccounts == before + [e] && forall x | x in before :: x.key != e.key
    ensures Calls(b, AccountRoleCalls(e.key, roles)) ==
            b.(manifest := b.manifest.(serviceAccounts := before + [e.(roles := e.roles + roles)]))
    decreases |roles|
  {
    if roles == [] {
      assert e.roles + roles == e.roles && e.(roles := e.roles) == e;
    } else {
      var calls := AccountRoleCalls(e.key, roles);
      var next := e.(roles := e.roles + [roles[0]]);
      ChangeLast(before, e, AccountNamed(e.key), AccountWith(roles[0]));
      assert After(b, calls[0]) == b.(manifest := b.manifest.(serviceAccounts := before + [next]));
      assert calls[1..] == AccountRoleCalls(e.key, roles[1..]);
      AccountRolesBuilt(After(b, calls[0]), before, next, roles[1..]);
      assert next.roles + roles[1..] == e.roles + roles;
    }
  }

  // ----- whole lists --------------------------------------------------------------------------

  /** No earlier element has the key of the last one. */
  lemma LastIsFresh<A>(s: seq<A>, keys: seq<string>, key: A -> string)
    requires s != [] && |keys| == |s| && Distinct(keys) && forall i | 0 <= i < |s| :: keys[i] == key(s[i])
    ensures Distinct(keys[..|s| - 1])
    ensures forall x | x in s[..|s| - 1] :: key(x) != key(s[|s| - 1])
  {
    forall x | x in s[..|s| - 1] ensures key(x) != key(s[|s| - 1]) {
      var i :| 0 <= i < |s| - 1 && s[i] == x;
      assert keys[i] != keys[|s| - 1];
    }
  }

  /** The calls of one resource append it, when no earlier resource has its key. */
  lemma ResourceBuilt(b: Builder, r: ResourceSpec)
    requires forall x | x in b.manifest.resources :: x.key != r.key
    ensures Calls(b, ResourceCalls(r)) == b.(manifest := b.manifest.(resources := b.manifest.resources + [r]))
  {
    var before := b.manifest.resources;
    var calls := ResourceCalls(r);
    var bare := ResourceSpec(r.key, r.name, r.resourceType, r.parent, [], None);
    var one := After(b, calls[0]);
    assert one == b.(manifest := b.manifest.(resources := before + [bare]));
    assert calls[..1] == [calls[0]];
    if r.metadata.Some? {
      ChangeLast(before, bare, ResourceNamed(r.key), WithMetadata(r.metadata.value));
      var two := After(one, calls[1]);
      assert two == b.(manifest := b.manifest.(resources := before + [bare.(metadata := r.metadata)]));
      assert calls[1..][1..] == ScopeCalls(r.key, r.scopes);
      ScopesBuilt(two, before, bare.(metadata := r.metadata), r.scopes);
    } else {
      assert calls[1..] == ScopeCalls(r.key, r.scopes);
      ScopesBuilt(one, before, bare, r.scopes);
    }
    assert [] + r.scopes == r.scopes;
  }

  lemma RoleBuilt(b: Builder, r: RoleSpec)
    requires forall x | x in b.manifest.roles :: x.key != r.key
    ensures Calls(b, RoleCalls(r)) == b.(manifest := b.manifest.(roles := b.manifest.roles + [r]))
  {
    var calls := RoleCalls(r);
    assert calls[1..] == GrantCalls(r.key, r.grants) && [] + r.grants == r.grants;
    GrantsBuilt(After(b, calls[0]), b.manifest.roles, r.(grants := []), r.grants);
  }

  lemma GroupBuilt(b: Builder, g: GroupSpec)
    requires forall x | x in b.manifest.groups :: x.key != g.key
    ensures Calls(b, GroupCalls(g)) == b.(manifest := b.manifest.(groups := b.manifest.groups + [g]))
  {
    var calls := GroupCalls(g);
    assert calls[1..] == GroupRoleCalls(g.key, g.roles) && [] + g.roles == g.roles && Plain([]) == [];
    GroupRolesBuilt(After(b, calls[0]), b.manifest.groups, g.(roles := []), g.roles);
  }

  lemma UserBuilt(b: Builder, u: UserSpec)
    requires forall x | x in b.manifest.users :: x.key != u.key
    ensures Calls(b, UserCalls(u)) == b.(manifest := b.manifest.(users := b.manifest.users + [u]))
  {
    var calls := UserCalls(u);
    var before := b.manifest.users;
    var one := After(b, calls[0]);
    assert calls[1..] == UserRoleCalls(u.key, u.roles) + MembershipCalls(u.key, u.groups);
    UserRolesBuilt(one, before, u.(roles := [], groups := []), u.roles);
    var two := Calls(one, UserRoleCalls(u.key, u.roles));
    assert [] + u.roles == u.roles && [] + u.groups == u.groups;
    MembershipsBuilt(two, before, u.(groups := []), u.groups);
    CallsAppend(one, UserRoleCalls(u.key, u.roles), MembershipCalls(u.key, u.groups));
  }

  lemma AccountBuilt(b: Builder, a: ServiceAccountSpec)
    requires forall x | x in b.manifest.serviceAccounts :: x.key != a.key
    ensures Calls(b, AccountCalls(a)) ==
            b.(manifest := b.manifest.(serviceAccounts := b.manifest.serviceAccounts + [a]))
  {
    var calls := AccountCalls(a);
    assert calls[1..] == AccountRoleCalls(a.key, a.roles) && [] + a.roles == a.roles;
    AccountRolesBuilt(After(b, calls[0]), b.manifest.serviceAccounts, a.(roles := []), a.roles);
  }

  lemma {:induction false} ResourcesBuilt(b: Builder, s: seq<ResourceSpec>)
    requires b.manifest.resources == [] && Distinct(ResourceKeys(s))
    ensures Calls(b, AllResourceCalls(s)) == b.(manifest := b.manifest.(resources := s))
  {
    if s != [] {
      var init, last := s[..|s| - 1], s[|s| - 1];
      LastIsFresh(s, ResourceKeys(s), (e: ResourceSpec) => e.key);
      assert ResourceKeys(s)[..|s| - 1] == ResourceKeys(init);
      ResourcesBuilt(b, init);
      ResourceBuilt(Calls(b, AllResourceCalls(init)), last);
      CallsAppend(b, AllResourceCalls(init), ResourceCalls(last));
      assert s == init + [last];
    }
  }

  lemma {:induction false} RolesBuilt(b: Builder, s: seq<RoleSpec>)
    requires b.manifest.roles == [] && Distinct(RoleKeys(s))
    ensures Calls(b, AllRoleCalls(s)) == b.(manifest := b.manifest.(roles := s))
  {
    if s != [] {
      var init, last := s[..|s| - 1], s[|s| - 1];
      LastIsFresh(s, RoleKeys(s), (e: RoleSpec) => e.key);
      assert RoleKeys(s)[..|s| - 1] == RoleKeys(init);
      RolesBuilt(b, init);
      RoleBuilt(Calls(b, AllRoleCalls(init)), last);
      CallsAppend(b, AllRoleCalls(init), RoleCalls(last));
      assert s == init + [last];
    }
  }

  lemma {:induction false} GroupsBuilt(b: Builder, s: seq<GroupSpec>)
    requires b.manifest.groups == [] && Distinct(GroupKeys(s))
    ensures Calls(b, AllGroupCalls(s)) == b.(manifest := b.manifest.(groups := s))
  {
    if s != [] {
      var init, last := s[..|s| - 1], s[|s| - 1];
      LastIsFresh(s, GroupKeys(s), (e: GroupSpec) => e.key);
      assert GroupKeys(s)[..|s| - 1] == GroupKeys(init);
      GroupsBuilt(b, init);
      GroupBuilt(Calls(b, AllGroupCalls(init)), last);
      CallsAppend(b, AllGroupCalls(init), GroupCalls(last));
      assert s == init + [last];
    }
  }

  lemma {:induction false} UsersBuilt(b: Builder, s: seq<UserSpec>)
    requires b.manifest.users == [] && Distinct(UserKeys(s))
    ensures Calls(b, AllUserCalls(s)) == b.(manifest := b.manifest.(users := s))
  {
    if s != [] {
      var init, last := s[..|s| - 1], s[|s| - 1];
      LastIsFresh(s, UserKeys(s), (e: UserSpec) => e.key);
      assert UserKeys(s)[..|s| - 1] == UserKeys(init);
      UsersBuilt(b, init);
      UserBuilt(Calls(b, AllUserCalls(init)), last);
      CallsAppend(b, AllUserCalls(init), UserCalls(last));
      assert s == init + [last];
    }
  }

  lemma {:induction false} AccountsBuilt(b: Builder, s: seq<ServiceAccountSpec>)
    requires b.manifest.serviceAccounts == [] && Distinct(ServiceAccountKeys(s))
    ensures Calls(b, AllAccountCalls(s)) == b.(manifest := b.manifest.(serviceAccounts := s))
  {
    if s != [] {
      var init, last := s[..|s| - 1], s[|s| - 1];
      LastIsFresh(s, ServiceAccountKeys(s), (e: ServiceAccountSpec) => e.key);
      assert ServiceAccountKeys(s)[..|s| - 1] == ServiceAccountKeys(init);
      AccountsBuilt(b, init);
      AccountBuilt(Calls(b, AllAccountCalls(init)), last);
      CallsAppend(b, AllAccountCalls(init), AccountCalls(last));
      assert s == init + [last];
    }
  }

  lemma {:induction false} PermissionsBuilt(b: Builder, s: seq<PermissionSpec>)
    requires b.manifest.permissions == []
    ensures Calls(b, AllPermissionCalls(s)) == b.(manifest := b.manifest.(permissions := s))
  {
    if s != [] {
      var init, last := s[..|s| - 1], s[|s| - 1];
      PermissionsBuilt(b, init);
      CallsAppend(b, AllPermissionCalls(init), [Permission(last)]);
      assert [Permission(last)][1..] == [] && s == init + [last];
    }
  }

  /** The keys the builder finds its declarations by. */
  predicate BuilderKeysDistinct(m: Manifest) {
    && Distinct(ResourceKeys(m.resources)) && Distinct(RoleKeys(m.roles)) && Distinct(GroupKeys(m.groups))
    && Distinct(UserKeys(m.users)) && Distinct(ServiceAccountKeys(m.serviceAccounts))
  }

  /** Builder fidelity: the calls of any manifest with distinct keys and no network section rebuild exactly
      that manifest, with no recorded problem. */
  lemma ReplayRebuilds(m: Manifest)
    requires BuilderKeysDistinct(m) && m.network == NO_NETWORK
    ensures Calls(NEW_BUILDER, Replay(m)) == Builder(m, [])
  {
    var r, p, o := AllResourceCalls(m.resources), AllPermissionCalls(m.permissions), AllRoleCalls(m.roles);
    var g, u, a := AllGroupCalls(m.groups), AllUserCalls(m.users), AllAccountCalls(m.serviceAccounts);
    CallsAppend(NEW_BUILDER, r + p + o + g + u, a);
    CallsAppend(NEW_BUILDER, r + p + o + g, u);
    CallsAppend(NEW_BUILDER, r + p + o, g);
    CallsAppend(NEW_BUILDER, r + p, o);
    CallsAppend(NEW_BUILDER, r, p);
    ResourcesBuilt(NEW_BUILDER, m.resources);
    var one := Calls(NEW_BUILDER, r);
    PermissionsBuilt(one, m.permissions);
    var two := Calls(one, p);
    RolesBuilt(two, m.roles);
    var three := Calls(two, o);
    GroupsBuilt(three, m.groups);
    var four := Calls(three, g);
    UsersBuilt(four, m.users);
    var five := Calls(four, u);
    AccountsBuilt(five, m.serviceAccounts);
  }

  // ----- which calls go wrong -----------------------------------------------------------------

  /** The call declares what the other one refines. */
  predicate DeclaresFor(d: Call, call: Call) {
    match call
    case Scope(key, _) => (d.Resource? || d.ChildResource?) && d.key == key
    case ResourceMetadata(key, _) => (d.Resource? || d.ChildResource?) && d.key == key
    case Grant(key, _) => (d.Role? || d.GlobalRole?) && d.key == key
    case GroupRole(key, _) => d.Group? && d.key == key
    case UserRole(key, _) => d.User? && d.key == key
    case AddToGroup(key, _) => d.User? && d.key == key
    case ServiceAccountRole(key, _) => d.ServiceAccount? && d.key == key
    case _ => false
  }

  predicate Refines(call: Call) {
    || call.Scope? || call.ResourceMetadata? || call.Grant? || call.GroupRole? || call.UserRole? || call.AddToGroup?
    || call.ServiceAccountRole?
  }

  /** The manifest has what the call refines. */
  predicate HasFor(m: Manifest, call: Call) {
    match call
    case Scope(key, _) => exists r | r in m.resources :: r.key == key
    case ResourceMetadata(key, _) => exists r | r in m.resources :: r.key == key
    case Grant(key, _) => exists r | r in m.roles :: r.key == key
    case GroupRole(key, _) => exists g | g in m.groups :: g.key == key
    case UserRole(key, _) => exists u | u in m.users :: u.key == key
    case AddToGroup(key, _) => exists u | u in m.users :: u.key == key
    case ServiceAccountRole(key, _) => exists a | a in m.serviceAccounts :: a.key == key
    case _ => false
  }

  /** Changing an element in a way that keeps its key keeps the keys of the list. */
  lemma ChangeKeepsKeys<A>(s: seq<A>, p: A -> bool, f: A -> A, key: A -> string, k: string)
    requires ChangeFirst(s, p, f).Some? && forall x :: key(f(x)) == key(x)
    ensures (exists x | x in ChangeFirst(s, p, f).value :: key(x) == k) <==> exists x | x in s :: key(x) == k
  {
    var i, t := FirstIndex(s, p), ChangeFirst(s, p, f).value;
    assert forall j | 0 <= j < |s| :: key(t[j]) == key(s[j]);
    if x :| x in t && key(x) == k {
      var j :| 0 <= j < |t| && t[j] == x;
      assert s[j] in s;
    }
    if x :| x in s && key(x) == k {
      var j :| 0 <= j < |s| && s[j] == x;
      assert t[j] in t;
    }
  }

  lemma FindsWhatIsThere<A>(s: seq<A>, p: A -> bool, f: A -> A)
    ensures ChangeFirst(s, p, f).Some? <==> exists x | x in s :: p(x)
  {
    if FirstIndex(s, p) < |s| {
      assert s[FirstIndex(s, p)] in s;
    }
  }

  /** What is recorded of one call: the call itself, if it refines what is not there. */
  lemma RecordsOne(b: Builder, call: Call)
    ensures After(b, call).problems == b.problems + if Refines(call) && !HasFor(b.manifest, call) then [call] else []
  {
    var m := b.manifest;
    assert b.problems + [] == b.problems;
    match call
    case Scope(key, scope) => FindsWhatIsThere(m.resources, ResourceNamed(key), WithScope(scope));
    case ResourceMetadata(key, metadata) => FindsWhatIsThere(m.resources, ResourceNamed(key), WithMetadata(metadata));
    case Grant(key, grant) => FindsWhatIsThere(m.roles, RoleNamed(key), WithGrant(grant));
    case GroupRole(key, binding) => FindsWhatIsThere(m.groups, GroupNamed(key), GroupWith(binding));
    case UserRole(key, binding) => FindsWhatIsThere(m.users, UserNamed(key), UserWith(binding));
    case AddToGroup(key, group) => FindsWhatIsThere(m.users, UserNamed(key), UserIn(group));
    case ServiceAccountRole(key, binding) =>
      FindsWhatIsThere(m.serviceAccounts, AccountNamed(key), AccountWith(binding));
    case _ =>
  }

  /** A call adds what it declares to what is there, and takes nothing away. */
  lemma DeclaresOne(b: Builder, d: Call, call: Call)
    requires Refines(call)
    ensures HasFor(After(b, d).manifest, call) <==> HasFor(b.manifest, call) || DeclaresFor(d, call)
  {
    if Refines(d) {
      RefiningKeepsKeys(b, d, call);
    } else {
      DeclaringAddsItsKey(b, d, call);
    }
  }

  lemma DeclaringAddsItsKey(b: Builder, d: Call, call: Call)
    requires Refines(call) && !Refines(d)
    ensures HasFor(After(b, d).manifest, call) <==> HasFor(b.manifest, call) || DeclaresFor(d, call)
  {
  }

  lemma RefiningKeepsKeys(b: Builder, d: Call, call: Call)
    requires Refines(call) && Refines(d)
    ensures HasFor(After(b, d).manifest, call) <==> HasFor(b.manifest, call)
  {
    if d.UserRole? || d.AddToGroup? || d.ServiceAccountRole? {
      RefiningAMemberKeepsKeys(b, d, call);
    } else if After(b, d).manifest != b.manifest {
      var m := b.manifest;
      match d
      case Scope(key, scope) => ResourcesKeepKeys(m.resources, key, WithScope(scope), call);
      case ResourceMetadata(key, metadata) => ResourcesKeepKeys(m.resources, key, WithMetadata(metadata), call);
      case Grant(key, grant) => RolesKeepKeys(m.roles, key, WithGrant(grant), call);
      case GroupRole(key, binding) => GroupsKeepKeys(m.groups, key, GroupWith(binding), call);
    }
  }

  lemma RefiningAMemberKeepsKeys(b: Builder, d: Call, call: Call)
    requires Refines(call) && (d.UserRole? || d.AddToGroup? || d.ServiceAccountRole?)
    ensures HasFor(After(b, d).manifest, call) <==> HasFor(b.manifest, call)
  {
    var m := b.manifest;
    if After(b, d).manifest != m {
      match d
      case UserRole(key, binding) => UsersKeepKeys(m.users, key, UserWith(binding), call);
      case AddToGroup(key, group) => UsersKeepKeys(m.users, key, UserIn(group), call);
      case ServiceAccountRole(key, binding) => AccountsKeepKeys(m.serviceAccounts, key, AccountWith(binding), call);
    }
  }

  lemma RolesKeepKeys(s: seq<RoleSpec>, key: string, f: RoleSpec -> RoleSpec, call: Call)
    requires ChangeFirst(s, RoleNamed(key), f).Some? && forall x :: f(x).key == x.key
    ensures var t := ChangeFirst(s, RoleNamed(key), f).value;
            call.Grant? ==>
              ((exists x | x in t :: x.key == call.roleKey) <==> exists x | x in s :: x.key == call.roleKey)
  {
    if call.Grant? {
      ChangeKeepsKeys(s, RoleNamed(key), f, (r: RoleSpec) => r.key, call.roleKey);
    }
  }

  lemma GroupsKeepKeys(s: seq<GroupSpec>, key: string, f: GroupSpec -> GroupSpec, call: Call)
    requires ChangeFirst(s, GroupNamed(key), f).Some? && forall x :: f(x).key == x.key
    ensures var t := ChangeFirst(s, GroupNamed(key), f).value;
            call.GroupRole? ==>
              ((exists x | x in t :: x.key == call.groupKey) <==> exists x | x in s :: x.key == call.groupKey)
  {
    if call.GroupRole? {
      ChangeKeepsKeys(s, GroupNamed(key), f, (g: GroupSpec) => g.key, call.groupKey);
    }
  }

  lemma AccountsKeepKeys(s: seq<ServiceAccountSpec>, key: string, f: ServiceAccountSpec -> ServiceAccountSpec,
                         call: Call)
    requires ChangeFirst(s, AccountNamed(key), f).Some? && forall x :: f(x).key == x.key
    ensures var t := ChangeFirst(s, AccountNamed(key), f).value;
            call.ServiceAccountRole? ==>
              ((exists x | x in t :: x.key == call.accountKey) <==> exists x | x in s :: x.key == call.accountKey)
  {
    if call.ServiceAccountRole? {
      ChangeKeepsKeys(s, AccountNamed(key), f, (a: ServiceAccountSpec) => a.key, call.accountKey);
    }
  }

  lemma ResourcesKeepKeys(s: seq<ResourceSpec>, key: string, f: ResourceSpec -> ResourceSpec, call: Call)
    requires ChangeFirst(s, ResourceNamed(key), f).Some? && forall x :: f(x).key == x.key
    ensures var t := ChangeFirst(s, ResourceNamed(key), f).value;
            call.Scope? || call.ResourceMetadata? ==>
              ((exists x | x in t :: x.key == call.resourceKey) <==> exists x | x in s :: x.key == call.resourceKey)
  {
    if call.Scope? || call.ResourceMetadata? {
      ChangeKeepsKeys(s, ResourceNamed(key), f, (r: ResourceSpec) => r.key, call.resourceKey);
    }
  }

  lemma UsersKeepKeys(s: seq<UserSpec>, key: string, f: UserSpec -> UserSpec, call: Call)
    requires ChangeFirst(s, UserNamed(key), f).Some? && forall x :: f(x).key == x.key
    ensures var t := ChangeFirst(s, UserNamed(key), f).value;
            call.UserRole? || call.AddToGroup? ==>
              ((exists x | x in t :: x.key == call.userKey) <==> exists x | x in s :: x.key == call.userKey)
  {
    if call.UserRole? || call.AddToGroup? {
      ChangeKeepsKeys(s, UserNamed(key), f, (u: UserSpec) => u.key, call.userKey);
    }
  }

  lemma CallsOneMore(b: Builder, calls: seq<Call>, k: nat)
    requires k < |calls|
    ensures Calls(b, calls[..k + 1]) == After(Calls(b, calls[..k]), calls[k])
  {
    assert calls[..k + 1] == calls[..k] + [calls[k]] && [calls[k]][1..] == [];
    CallsAppend(b, calls[..k], [calls[k]]);
    assert Calls(Calls(b, calls[..k]), [calls[k]]) == Calls(After(Calls(b, calls[..k]), calls[k]), []);
  }

  predicate DeclaredBefore(calls: seq<Call>, call: Call, k: nat) {
    exists j | 0 <= j < k && j < |calls| :: DeclaresFor(calls[j], call)
  }

  lemma DeclaredOneMore(calls: seq<Call>, call: Call, k: nat)
    requires k < |calls|
    ensures DeclaredBefore(calls, call, k + 1) <==> DeclaredBefore(calls, call, k) || DeclaresFor(calls[k], call)
  {
  }

  /** A builder some calls have led to, one call on. */
  lemma HasOneMore(b: Builder, b': Builder, calls: seq<Call>, call: Call, k: nat)
    requires k < |calls| && b' == After(b, calls[k]) && Refines(call)
    requires HasFor(b.manifest, call) <==> DeclaredBefore(calls, call, k)
    ensures HasFor(b'.manifest, call) <==> DeclaredBefore(calls, call, k + 1)
  {
    DeclaresOne(b, calls[k], call);
    DeclaredOneMore(calls, call, k);
  }

  lemma {:induction false} HasWhatWasDeclared(calls: seq<Call>, call: Call, k: nat)
    requires Refines(call) && k <= |calls|
    ensures HasFor(Calls(NEW_BUILDER, calls[..k]).manifest, call) <==> DeclaredBefore(calls, call, k)
  {
    if k == 0 {
      assert calls[..0] == [];
    } else {
      HasWhatWasDeclared(calls, call, k - 1);
      CallsOneMore(NEW_BUILDER, calls, k - 1);
      HasOneMore(Calls(NEW_BUILDER, calls[..k - 1]), Calls(NEW_BUILDER, calls[..k]), calls, call, k - 1);
    }
  }

  /** Of the first k calls, those that refine what no call before them declared, in their order. */
  function Unmet(calls: seq<Call>, k: nat): seq<Call>
    requires k <= |calls|
  {
    if k == 0 then []
    else
      Unmet(calls, k - 1)
      + if Refines(calls[k - 1]) && !DeclaredBefore(calls, calls[k - 1], k - 1) then [calls[k - 1]] else []
  }

  lemma RecordsOneMore(b: Builder, b': Builder, calls: seq<Call>, k: nat)
    requires k < |calls| && b' == After(b, calls[k]) && b.problems == Unmet(calls, k)
    requires Refines(calls[k]) ==> (HasFor(b.manifest, calls[k]) <==> DeclaredBefore(calls, calls[k], k))
    ensures b'.problems == Unmet(calls, k + 1)
  {
    RecordsOne(b, calls[k]);
  }

  lemma {:induction false} ProblemsAreUnmet(calls: seq<Call>, k: nat)
    requires k <= |calls|
    ensures Calls(NEW_BUILDER, calls[..k]).problems == Unmet(calls, k)
  {
    if k == 0 {
      assert calls[..0] == [];
    } else {
      ProblemsAreUnmet(calls, k - 1);
      CallsOneMore(NEW_BUILDER, calls, k - 1);
      if Refines(calls[k - 1]) {
        HasWhatWasDeclared(calls, calls[k - 1], k - 1);
      }
      RecordsOneMore(Calls(NEW_BUILDER, calls[..k - 1]), Calls(NEW_BUILDER, calls[..k]), calls, k - 1);
    }
  }

  lemma {:induction false} AllMet(calls: seq<Call>, k: nat)
    requires k <= |calls|
    ensures Unmet(calls, k) == [] <==>
            forall i | 0 <= i < k && Refines(calls[i]) :: DeclaredBefore(calls, calls[i], i)
  {
    if k > 0 {
      AllMet(calls, k - 1);
    }
  }

  /** On every run of calls the builder records, in order, the calls that refine what none before them declared; so
      there is nothing to record exactly when every refinement follows its declaration. */
  lemma RecordsWhatIsUndeclared(calls: seq<Call>)
    ensures Calls(NEW_BUILDER, calls).problems == Unmet(calls, |calls|)
    ensures Calls(NEW_BUILDER, calls).problems == [] <==>
            forall k | 0 <= k < |calls| && Refines(calls[k]) :: DeclaredBefore(calls, calls[k], k)
  {
    ProblemsAreUnmet(calls, |calls|);
    AllMet(calls, |calls|);
    assert calls[..|calls|] == calls;
  }

  /** A group with role keys is the group without, and then each role bound to it by itself, at no resource and
      inherited. */
  lemma GroupBindsEachRole(b: Builder, key: string, name: string, description: string, roleKeys: seq<string>)
    requires forall g | g in b.manifest.groups :: g.key != key
    ensures var bindings :=
              seq(|roleKeys|, i requires 0 <= i < |roleKeys| => GroupRole(key, RoleBinding(roleKeys[i], "", false)));
            After(b, Group(key, name, description, roleKeys)) ==
            Calls(After(b, Group(key, name, description, [])), bindings)
  {
    var before, bare := b.manifest.groups, GroupSpec(key, name, description, []);
    var bindings := seq(|roleKeys|, i requires 0 <= i < |roleKeys| => RoleBinding(roleKeys[i], "", false));
    assert Plain([]) == [] && [] + bindings == bindings;
    GroupRolesBuilt(After(b, Group(key, name, description, [])), before, bare, bindings);
    assert GroupRoleCalls(key, bindings) ==
           seq(|roleKeys|, i requires 0 <= i < |roleKeys| => GroupRole(key, RoleBinding(roleKeys[i], "", false)));
    assert Plain(roleKeys) == bindings;
  }

  // ----- the code's form ----------------------------------------------------------------------

  /** The search every refining call makes: the first element of its key. */
  method IndexWhere<A>(s: seq<A>, p: A -> bool) returns (i: nat)
    ensures i == FirstIndex(s, p)
  {
    i := 0;
    while i < |s|
      invariant i <= |s| && forall j | 0 <= j < i :: !p(s[j])
    {
      if p(s[i]) {
        return;
      }
      i := i + 1;
    }
  }

  class FluentBuilder {
    var manifest: Manifest
    var problems: seq<Call>

    constructor ()
      ensures View() == NEW_BUILDER
    {
      manifest, problems := EMPTY_MANIFEST, [];
    }

    function View(): Builder
      reads this
    {
      Builder(manifest, problems)
    }

    method AddResource(key: string, name: string, resourceType: string)
      modifies this
      ensures View() == After(old(View()), Resource(key, name, resourceType))
    {
      manifest := manifest.(resources := manifest.resources + [ResourceSpec(key, name, resourceType, "", [], None)]);
    }

    method AddChildResource(key: string, name: string, resourceType: string, parentKey: string)
      modifies this
      ensures View() == After(old(View()), ChildResource(key, name, resourceType, parentKey))
    {
      manifest := manifest.(
        resources := manifest.resources + [ResourceSpec(key, name, resourceType, parentKey, [], None)]);
    }

    method AddScope(resourceKey: string, scope: ScopeSpec)
      modifies this
      ensures View() == After(old(View()), Scope(resourceKey, scope))
    {
      var i := IndexWhere(manifest.resources, ResourceNamed(resourceKey));
      if i < |manifest.resources| {
        manifest := manifest.(resources := manifest.resources[i := WithScope(scope)(manifest.resources[i])]);
      } else {
        problems := problems + [Scope(resourceKey, scope)];
      }
    }

    method SetResourceMetadata(resourceKey: string, metadata: map<string, string>)
      modifies this
      ensures View() == After(old(View()), ResourceMetadata(resourceKey, metadata))
    {
      var i := IndexWhere(manifest.resources, ResourceNamed(resourceKey));
      if i < |manifest.resources| {
        manifest := manifest.(resources := manifest.resources[i := WithMetadata(metadata)(manifest.resources[i])]);
      } else {
        problems := problems + [ResourceMetadata(resourceKey, metadata)];
      }
    }

    method AddPermission(permission: PermissionSpec)
      modifies this
      ensures View() == After(old(View()), Permission(permission))
    {
      manifest := manifest.(permissions := manifest.permissions + [permission]);
    }

    method AddRole(key: string, name: string, description: string)
      modifies this
      ensures View() == After(old(View()), Role(key, name, description))
    {
      manifest := manifest.(roles := manifest.roles + [RoleSpec(key, name, description, false, [])]);
    }

    method AddGlobalRole(key: string, name: string, description: string)
      modifies this
      ensures View() == After(old(View()), GlobalRole(key, name, description))
    {
      manifest := manifest.(roles := manifest.roles + [RoleSpec(key, name, description, true, [])]);
    }

    method AddGrant(roleKey: string, grant: GrantSpec)
      modifies this
      ensures View() == After(old(View()), Grant(roleKey, grant))
    {
      var i := IndexWhere(manifest.roles, RoleNamed(roleKey));
      if i < |manifest.roles| {
        manifest := manifest.(roles := manifest.roles[i := WithGrant(grant)(manifest.roles[i])]);
      } else {
        problems := problems + [Grant(roleKey, grant)];
      }
    }

    method AddGroup(key: string, name: string, description: string, roleKeys: seq<string>)
      modifies this
      ensures View() == After(old(View()), Group(key, name, description, roleKeys))
    {
      var bindings: seq<RoleBinding> := [];
      for i := 0 to |roleKeys|
        invariant bindings == Plain(roleKeys[..i])
        invariant View() == old(View())
      {
        bindings := bindings + [RoleBinding(roleKeys[i], "", false)];
      }
      assert roleKeys[..|roleKeys|] == roleKeys;
      manifest := manifest.(groups := manifest.groups + [GroupSpec(key, name, description, bindings)]);
    }

    method AddGroupRole(groupKey: string, binding: RoleBinding)
      modifies this
      ensures View() == After(old(View()), GroupRole(groupKey, binding))
    {
      var i := IndexWhere(manifest.groups, GroupNamed(groupKey));
      if i < |manifest.groups| {
        manifest := manifest.(groups := manifest.groups[i := GroupWith(binding)(manifest.groups[i])]);
      } else {
        problems := problems + [GroupRole(groupKey, binding)];
      }
    }

    method AddUser(key: string, username: string, email: string, initialPassword: string)
      modifies this
      ensures View() == After(old(View()), User(key, username, email, initialPassword))
    {
      manifest := manifest.(users := manifest.users + [UserSpec(key, username, email, initialPassword, [], [])]);
    }

    method AddUserRole(userKey: string, binding: RoleBinding)
      modifies this
      ensures View() == After(old(View()), UserRole(userKey, binding))
    {
      var i := IndexWhere(manifest.users, UserNamed(userKey));
      if i < |manifest.users| {
        manifest := manifest.(users := manifest.users[i := UserWith(binding)(manifest.users[i])]);
      } else {
        problems := problems + [UserRole(userKey, binding)];
      }
    }

    method AddUserToGroup(userKey: string, groupKey: string)
      modifies this
      ensures View() == After(old(View()), AddToGroup(userKey, groupKey))
    {
      var i := IndexWhere(manifest.users, UserNamed(userKey));
      if i < |manifest.users| {
        manifest := manifest.(users := manifest.users[i := UserIn(groupKey)(manifest.users[i])]);
      } else {
        problems := problems + [AddToGroup(userKey, groupKey)];
      }
    }

    method AddServiceAccount(key: string, name: string, description: string)
      modifies this
      ensures View() == After(old(View()), ServiceAccount(key, name, description))
    {
      manifest := manifest.(
        serviceAccounts := manifest.serviceAccounts + [ServiceAccountSpec(key, name, description, [])]);
    }

    method AddServiceAccountRole(accountKey: string, binding: RoleBinding)
      modifies this
      ensures View() == After(old(View()), ServiceAccountRole(accountKey, binding))
    {
      var i := IndexWhere(manifest.serviceAccounts, AccountNamed(accountKey));
      if i < |manifest.serviceAccounts| {
        manifest := manifest.(
          serviceAccounts := manifest.serviceAccounts[i := AccountWith(binding)(manifest.serviceAccounts[i])]);
      } else {
        problems := problems + [ServiceAccountRole(accountKey, binding)];
      }
    }

    /** The manifest when no call named something undeclared and the literal form validates. */
    method Build() returns (built: Option<Manifest>)
      ensures built.Some? <==> problems == [] && WellFormed(manifest)
      ensures built.Some? ==> built.value == manifest
    {
      if problems != [] {
        return None;
      }
      var found := ValidateManifest(manifest);
      if found != [] {
        return None;
      }
      return Some(manifest);
    }

    /** Any of the calls, by its method. */
    method Make(call: Call)
      modifies this
      ensures View() == After(old(View()), call)
    {
      match call
      case Resource(key, name, resourceType) => AddResource(key, name, resourceType);
      case ChildResource(key, name, resourceType, parentKey) => AddChildResource(key, name, resourceType, parentKey);
      case Scope(resourceKey, scope) => AddScope(resourceKey, scope);
      case ResourceMetadata(resourceKey, metadata) => SetResourceMetadata(resourceKey, metadata);
      case Permission(permission) => AddPermission(permission);
      case Role(key, name, description) => AddRole(key, name, description);
      case GlobalRole(key, name, description) => AddGlobalRole(key, name, description);
      case Grant(roleKey, grant) => AddGrant(roleKey, grant);
      case Group(key, name, description, roleKeys) => AddGroup(key, name, description, roleKeys);
      case GroupRole(groupKey, binding) => AddGroupRole(groupKey, binding);
      case User(key, username, email, initialPassword) => AddUser(key, username, email, initialPassword);
      case UserRole(userKey, binding) => AddUserRole(userKey, binding);
      case AddToGroup(userKey, groupKey) => AddUserToGroup(userKey, groupKey);
      case ServiceAccount(key, name, description) => AddServiceAccount(key, name, description);
      case ServiceAccountRole(accountKey, binding) => AddServiceAccountRole(accountKey, binding);
    }
  }

  /** Builder fidelity, on the builder itself: made by its calls and built, a manifest comes back exactly when
      its literal form is well formed. */
  method BuildByCalls(m: Manifest) returns (built: Option<Manifest>)
    requires BuilderKeysDistinct(m) && m.network == NO_NETWORK
    ensures built == if WellFormed(m) then Some(m) else None
  {
    var builder := new FluentBuilder();
    var calls := Replay(m);
    assert calls[0..] == calls;
    for i := 0 to |calls|
      invariant Calls(builder.View(), calls[i..]) == Calls(NEW_BUILDER, calls)
    {
      assert calls[i..][1..] == calls[i + 1..];
      builder.Make(calls[i]);
    }
    ReplayRebuilds(m);
    built := builder.Build();
  }
}
