/** validateManifest (management_manifest.go): what a manifest must be to be reconciled at all, and that every
    problem of it is reported, not just the first. */
module ManifestValidation {
  import opened Keys
  import opened ManifestTypes
  import NetworkManifest
  import opened TopologicalOrder

  datatype Kind = OfResource | OfScope | OfPermission | OfRole | OfGroup | OfUser | OfServiceAccount

  datatype Problem =
    | DuplicateKey(kind: Kind, key: string)
    | InNetwork(problem: NetworkManifest.NetworkProblem)
    | UndeclaredParent(resource: string, parent: string)
    | UndeclaredPermission(role: string, permission: string)
    | UndeclaredScope(role: string, scope: string)
    | UndeclaredRole(kind: Kind, subject: string, role: string)
    | UndeclaredResource(kind: Kind, subject: string, role: string, resource: string)
    | NonInheritedGlobalRole(kind: Kind, subject: string, role: string)
    | RoleBoundTwice(kind: Kind, subject: string, role: string)
    | UndeclaredGroup(user: string, group: string)
    | ParentCycle(through: string)

  // ----- what a manifest declares -------------------------------------------------------------

  function KeysOfScopes(scopes: seq<ScopeSpec>): seq<string> {
    seq(|scopes|, i requires 0 <= i < |scopes| => scopes[i].key)
  }

  function ScopeKeys(resources: seq<ResourceSpec>): seq<string> {
    if resources == [] then []
    else ScopeKeys(resources[..|resources| - 1]) + KeysOfScopes(resources[|resources| - 1].scopes)
  }

  function PermissionKeys(permissions: seq<PermissionSpec>): seq<string> {
    seq(|permissions|, i requires 0 <= i < |permissions| => permissions[i].key)
  }

  function RoleKeys(roles: seq<RoleSpec>): seq<string> {
    seq(|roles|, i requires 0 <= i < |roles| => roles[i].key)
  }

  function GroupKeys(groups: seq<GroupSpec>): seq<string> {
    seq(|groups|, i requires 0 <= i < |groups| => groups[i].key)
  }

  function UserKeys(users: seq<UserSpec>): seq<string> {
    seq(|users|, i requires 0 <= i < |users| => users[i].key)
  }

  function ServiceAccountKeys(accounts: seq<ServiceAccountSpec>): seq<string> {
    seq(|accounts|, i requires 0 <= i < |accounts| => accounts[i].key)
  }

  predicate IsGlobal(roles: seq<RoleSpec>, key: string) {
    exists i | 0 <= i < |roles| :: roles[i].key == key && roles[i].isGlobal
  }

  function BoundRoles(bindings: seq<RoleBinding>): seq<string> {
    seq(|bindings|, i requires 0 <= i < |bindings| => bindings[i].role)
  }

  // ----- well-formedness ----------------------------------------------------------------------

  predicate BindingSound(m: Manifest, b: RoleBinding) {
    && b.role in RoleKeys(m.roles)
    && (b.resource != "" ==> b.resource in ResourceKeys(m.resources))
    && !(b.noInherit && b.resource != "" && IsGlobal(m.roles, b.role))
  }

  /** A subject's bindings: declared roles and resources, no non-inheriting binding of a global role at a
      resource, and no role twice whatever resource each names. */
  predicate BindingsSound(m: Manifest, bindings: seq<RoleBinding>) {
    Distinct(BoundRoles(bindings)) && forall b | b in bindings :: BindingSound(m, b)
  }

  predicate GrantSound(m: Manifest, g: GrantSpec) {
    g.permission in PermissionKeys(m.permissions) && forall s | s in g.scopes :: s in ScopeKeys(m.resources)
  }

  predicate RoleSound(m: Manifest, r: RoleSpec) {
    forall g | g in r.grants :: GrantSound(m, g)
  }

  predicate ParentSound(m: Manifest, r: ResourceSpec) {
    r.parent != "" ==> r.parent in ResourceKeys(m.resources)
  }

  predicate UserSound(m: Manifest, u: UserSpec) {
    BindingsSound(m, u.roles) && forall g | g in u.groups :: g in GroupKeys(m.groups)
  }

  predicate KeysDistinct(m: Manifest) {
    && Distinct(ResourceKeys(m.resources)) && Distinct(ScopeKeys(m.resources))
    && Distinct(PermissionKeys(m.permissions))
    && Distinct(RoleKeys(m.roles)) && Distinct(GroupKeys(m.groups)) && Distinct(UserKeys(m.users))
    && Distinct(ServiceAccountKeys(m.serviceAccounts))
  }

  /** A manifest that can be reconciled: distinct keys per kind, every reference declared, sound bindings,
      an acyclic resource hierarchy and a valid network section. */
  ghost predicate WellFormed(m: Manifest) {
    && KeysDistinct(m)
    && NetworkManifest.ValidNetwork(m.network)
    && (forall r | r in m.resources :: ParentSound(m, r))
    && (forall r | r in m.roles :: RoleSound(m, r))
    && (forall g | g in m.groups :: BindingsSound(m, g.roles))
    && (forall u | u in m.users :: UserSound(m, u))
    && (forall a | a in m.serviceAccounts :: BindingsSound(m, a.roles))
    && Acyclic(Parents(m.resources))
  }

  // ----- what ails a manifest -----------------------------------------------------------------

  function KeysOf(m: Manifest, kind: Kind): seq<string> {
    match kind
    case OfResource => ResourceKeys(m.resources)
    case OfScope => ScopeKeys(m.resources)
    case OfPermission => PermissionKeys(m.permissions)
    case OfRole => RoleKeys(m.roles)
    case OfGroup => GroupKeys(m.groups)
    case OfUser => UserKeys(m.users)
    case OfServiceAccount => ServiceAccountKeys(m.serviceAccounts)
  }

  ghost predicate KeyAils(m: Manifest, p: Problem) {
    p.DuplicateKey? && Repeated(KeysOf(m, p.kind), p.key)
  }

  ghost predicate NetworkAils(m: Manifest, p: Problem) {
    p.InNetwork? && p.problem in NetworkManifest.NetworkProblems(m.network)
  }

  ghost predicate ResourceAils(m: Manifest, r: ResourceSpec, p: Problem) {
    p == UndeclaredParent(r.key, r.parent) && r.parent != "" && r.parent !in ResourceKeys(m.resources)
  }

  ghost predicate GrantAils(m: Manifest, role: string, g: GrantSpec, p: Problem) {
    || (p == UndeclaredPermission(role, g.permission) && g.permission !in PermissionKeys(m.permissions))
    || (p.UndeclaredScope? && p.role == role && p.scope in g.scopes && p.scope !in ScopeKeys(m.resources))
  }

  ghost predicate RoleAils(m: Manifest, r: RoleSpec, p: Problem) {
    exists g | g in r.grants :: GrantAils(m, r.key, g, p)
  }

  ghost predicate BindingAils(m: Manifest, kind: Kind, subject: string, b: RoleBinding, p: Problem) {
    || (p == UndeclaredRole(kind, subject, b.role) && b.role !in RoleKeys(m.roles))
    || (p == UndeclaredResource(kind, subject, b.role, b.resource)
        && b.resource != "" && b.resource !in ResourceKeys(m.resources))
    || (p == NonInheritedGlobalRole(kind, subject, b.role)
        && b.noInherit && b.resource != "" && IsGlobal(m.roles, b.role))
  }

  ghost predicate SubjectAils(m: Manifest, kind: Kind, subject: string, bindings: seq<RoleBinding>, p: Problem) {
    || (exists b | b in bindings :: BindingAils(m, kind, subject, b, p))
    || (p.RoleBoundTwice? && p.kind == kind && p.subject == subject && Repeated(BoundRoles(bindings), p.role))
  }

  ghost predicate UserAils(m: Manifest, u: UserSpec, p: Problem) {
    || SubjectAils(m, OfUser, u.key, u.roles, p)
    || (p.UndeclaredGroup? && p.user == u.key && p.group in u.groups && p.group !in GroupKeys(m.groups))
  }

  ghost predicate HierarchyAils(m: Manifest, p: Problem) {
    p.ParentCycle? && OnCycle(Parents(m.resources), p.through)
  }

  /** Everything there is to say against a manifest apart from its hierarchy. */
  ghost predicate SpecsAil(m: Manifest, p: Problem) {
    || KeyAils(m, p) || NetworkAils(m, p)
    || (exists r | r in m.resources :: ResourceAils(m, r, p))
    || (exists r | r in m.roles :: RoleAils(m, r, p))
    || (exists g | g in m.groups :: SubjectAils(m, OfGroup, g.key, g.roles, p))
    || (exists u | u in m.users :: UserAils(m, u, p))
    || (exists a | a in m.serviceAccounts :: SubjectAils(m, OfServiceAccount, a.key, a.roles, p))
  }

  ghost predicate Ails(m: Manifest, p: Problem) {
    SpecsAil(m, p) || HierarchyAils(m, p)
  }

  lemma DistinctMeansNoneRepeated(keys: seq<string>)
    ensures Distinct(keys) <==> forall key :: !Repeated(keys, key)
  {
    if !Distinct(keys) {
      var i, j :| 0 <= i < j < |keys| && keys[i] == keys[j];
      assert Repeated(keys, keys[i]);
    }
  }

  lemma NothingAilsKeys(m: Manifest)
    ensures KeysDistinct(m) <==> forall p :: !KeyAils(m, p)
  {
    forall kind ensures Distinct(KeysOf(m, kind)) <==> forall key :: !KeyAils(m, DuplicateKey(kind, key)) {
      DistinctMeansNoneRepeated(KeysOf(m, kind));
      assert forall key :: KeyAils(m, DuplicateKey(kind, key)) <==> Repeated(KeysOf(m, kind), key);
    }
    if KeysDistinct(m) {
      forall p: Problem | p.DuplicateKey? ensures !KeyAils(m, p) {
        assert Distinct(KeysOf(m, p.kind));
      }
    } else {
      var kind :| !Distinct(KeysOf(m, kind));
    }
  }

  lemma NothingAilsNetwork(m: Manifest)
    ensures NetworkManifest.ValidNetwork(m.network) <==> forall p :: !NetworkAils(m, p)
  {
    var problems := NetworkManifest.NetworkProblems(m.network);
    NetworkManifest.NoNetworkProblems(m.network);
    if problems != [] {
      assert NetworkAils(m, InNetwork(problems[0]));
    }
  }

  lemma NothingAilsResource(m: Manifest, r: ResourceSpec)
    ensures ParentSound(m, r) <==> forall p :: !ResourceAils(m, r, p)
  {
    if !ParentSound(m, r) {
      assert ResourceAils(m, r, UndeclaredParent(r.key, r.parent));
    }
  }

  lemma NothingAilsRole(m: Manifest, r: RoleSpec)
    ensures RoleSound(m, r) <==> forall p :: !RoleAils(m, r, p)
  {
    if !RoleSound(m, r) {
      var g :| g in r.grants && !GrantSound(m, g);
      if g.permission !in PermissionKeys(m.permissions) {
        assert GrantAils(m, r.key, g, UndeclaredPermission(r.key, g.permission));
        assert RoleAils(m, r, UndeclaredPermission(r.key, g.permission));
      } else {
        var s :| s in g.scopes && s !in ScopeKeys(m.resources);
        assert GrantAils(m, r.key, g, UndeclaredScope(r.key, s));
        assert RoleAils(m, r, UndeclaredScope(r.key, s));
      }
    }
  }

  lemma NothingAilsBinding(m: Manifest, kind: Kind, subject: string, b: RoleBinding)
    ensures BindingSound(m, b) <==> forall p :: !BindingAils(m, kind, subject, b, p)
  {
    if !BindingSound(m, b) {
      assert BindingAils(m, kind, subject, b, UndeclaredRole(kind, subject, b.role))
          || BindingAils(m, kind, subject, b, UndeclaredResource(kind, subject, b.role, b.resource))
          || BindingAils(m, kind, subject, b, NonInheritedGlobalRole(kind, subject, b.role));
    }
  }

  lemma NothingAilsSubject(m: Manifest, kind: Kind, subject: string, bindings: seq<RoleBinding>)
    ensures BindingsSound(m, bindings) <==> forall p :: !SubjectAils(m, kind, subject, bindings, p)
  {
    var roles := BoundRoles(bindings);
    DistinctMeansNoneRepeated(roles);
    forall b | b in bindings ensures BindingSound(m, b) <==> forall p :: !BindingAils(m, kind, subject, b, p) {
      NothingAilsBinding(m, kind, subject, b);
    }
    if !Distinct(roles) {
      var role :| Repeated(roles, role);
      assert SubjectAils(m, kind, subject, bindings, RoleBoundTwice(kind, subject, role));
    }
    if b :| b in bindings && !BindingSound(m, b) {
      var p :| BindingAils(m, kind, subject, b, p);
      assert SubjectAils(m, kind, subject, bindings, p);
    }
  }

  lemma NothingAilsUser(m: Manifest, u: UserSpec)
    ensures UserSound(m, u) <==> forall p :: !UserAils(m, u, p)
  {
    NothingAilsSubject(m, OfUser, u.key, u.roles);
    if !BindingsSound(m, u.roles) {
      var p :| SubjectAils(m, OfUser, u.key, u.roles, p);
      assert UserAils(m, u, p);
    } else if !UserSound(m, u) {
      var g :| g in u.groups && g !in GroupKeys(m.groups);
      assert UserAils(m, u, UndeclaredGroup(u.key, g));
    }
  }

  /** A manifest is well formed exactly when nothing ails it. */
  lemma NothingAilsTheWellFormed(m: Manifest)
    ensures WellFormed(m) <==> forall p :: !Ails(m, p)
  {
    NothingAilsKeys(m);
    NothingAilsNetwork(m);
    forall r | r in m.resources ensures ParentSound(m, r) <==> forall p :: !ResourceAils(m, r, p) {
      NothingAilsResource(m, r);
    }
    forall r | r in m.roles ensures RoleSound(m, r) <==> forall p :: !RoleAils(m, r, p) {
      NothingAilsRole(m, r);
    }
    forall g | g in m.groups ensures BindingsSound(m, g.roles) <==>
        forall p :: !SubjectAils(m, OfGroup, g.key, g.roles, p) {
      NothingAilsSubject(m, OfGroup, g.key, g.roles);
    }
    forall u | u in m.users ensures UserSound(m, u) <==> forall p :: !UserAils(m, u, p) {
      NothingAilsUser(m, u);
    }
    forall a | a in m.serviceAccounts
      ensures BindingsSound(m, a.roles) <==> forall p :: !SubjectAils(m, OfServiceAccount, a.key, a.roles, p)
    {
      NothingAilsSubject(m, OfServiceAccount, a.key, a.roles);
    }
    assert Acyclic(Parents(m.resources)) <==> forall p :: !HierarchyAils(m, p) by {
      if key :| OnCycle(Parents(m.resources), key) {
        assert HierarchyAils(m, ParentCycle(key));
      }
    }
    if !WellFormed(m) {
      SomethingAilsTheIllFormed(m);
    }
  }

  lemma SomethingAilsTheIllFormed(m: Manifest)
    requires !WellFormed(m)
    requires KeysDistinct(m) <==> forall p :: !KeyAils(m, p)
    requires NetworkManifest.ValidNetwork(m.network) <==> forall p :: !NetworkAils(m, p)
    requires forall r | r in m.resources :: ParentSound(m, r) <==> forall p :: !ResourceAils(m, r, p)
    requires forall r | r in m.roles :: RoleSound(m, r) <==> forall p :: !RoleAils(m, r, p)
    requires forall g | g in m.groups :: BindingsSound(m, g.roles) <==>
             forall p :: !SubjectAils(m, OfGroup, g.key, g.roles, p)
    requires forall u | u in m.users :: UserSound(m, u) <==> forall p :: !UserAils(m, u, p)
    requires forall a | a in m.serviceAccounts ::
               BindingsSound(m, a.roles) <==> forall p :: !SubjectAils(m, OfServiceAccount, a.key, a.roles, p)
    requires Acyclic(Parents(m.resources)) <==> forall p :: !HierarchyAils(m, p)
    ensures exists p :: Ails(m, p)
  {
    var p: Problem;
    if !KeysDistinct(m) {
      p :| KeyAils(m, p);
    } else if !NetworkManifest.ValidNetwork(m.network) {
      p :| NetworkAils(m, p);
    } else if r :| r in m.resources && !ParentSound(m, r) {
      p :| ResourceAils(m, r, p);
    } else if r :| r in m.roles && !RoleSound(m, r) {
      p :| RoleAils(m, r, p);
    } else if g :| g in m.groups && !BindingsSound(m, g.roles) {
      p :| SubjectAils(m, OfGroup, g.key, g.roles, p);
    } else if u :| u in m.users && !UserSound(m, u) {
      p :| UserAils(m, u, p);
    } else if a :| a in m.serviceAccounts && !BindingsSound(m, a.roles) {
      p :| SubjectAils(m, OfServiceAccount, a.key, a.roles, p);
    } else {
      p :| HierarchyAils(m, p);
    }
    assert Ails(m, p);
  }

  // ----- the checks ---------------------------------------------------------------------------

  /** The lookup tables the checks share. */
  datatype Declared = Declared(resources: map<string, bool>, scopes: map<string, bool>, permissions: map<string, bool>,
                               roles: map<string, bool>, groups: map<string, bool>, globalRoles: map<string, bool>)

  ghost predicate Tables(m: Manifest, d: Declared) {
    && (forall k :: k in d.resources <==> k in ResourceKeys(m.resources))
    && (forall k :: k in d.scopes <==> k in ScopeKeys(m.resources))
    && (forall k :: k in d.permissions <==> k in PermissionKeys(m.permissions))
    && (forall k :: k in d.roles <==> k in RoleKeys(m.roles))
    && (forall k :: k in d.groups <==> k in GroupKeys(m.groups))
    && (forall k :: k in d.globalRoles <==> IsGlobal(m.roles, k))
  }

  /** The resource and scope keys, as lists and as tables. */
  method GatherResources(resources: seq<ResourceSpec>)
    returns (keys: seq<string>, scopes: seq<string>, declared: map<string, bool>, declaredScopes: map<string, bool>)
    ensures keys == ResourceKeys(resources) && scopes == ScopeKeys(resources)
    ensures forall k :: k in declared <==> k in keys
    ensures forall k :: k in declaredScopes <==> k in scopes
  {
    keys, scopes, declared, declaredScopes := [], [], map[], map[];
    for i := 0 to |resources|
      invariant keys == ResourceKeys(resources[..i]) && scopes == ScopeKeys(resources[..i])
      invariant forall k :: k in declared <==> k in keys
      invariant forall k :: k in declaredScopes <==> k in scopes
    {
      var r := resources[i];
      assert resources[..i + 1][..i] == resources[..i];
      declared := declared[r.key := true];
      keys := keys + [r.key];
      ghost var before := scopes;
      for j := 0 to |r.scopes|
        invariant scopes == before + KeysOfScopes(r.scopes[..j])
        invariant forall k :: k in declaredScopes <==> k in scopes
      {
        declaredScopes := declaredScopes[r.scopes[j].key := true];
        scopes := scopes + [r.scopes[j].key];
      }
      assert r.scopes[..|r.scopes|] == r.scopes;
    }
    assert resources[..|resources|] == resources;
  }

  method GatherPermissions(permissions: seq<PermissionSpec>) returns (keys: seq<string>, declared: map<string, bool>)
    ensures keys == PermissionKeys(permissions)
    ensures forall k :: k in declared <==> k in keys
  {
    keys, declared := [], map[];
    for i := 0 to |permissions|
      invariant keys == PermissionKeys(permissions[..i])
      invariant forall k :: k in declared <==> k in keys
    {
      declared := declared[permissions[i].key := true];
      keys := keys + [permissions[i].key];
    }
    assert permissions[..|permissions|] == permissions;
  }

  method GatherRoles(roles: seq<RoleSpec>)
    returns (keys: seq<string>, declared: map<string, bool>, globalRoles: map<string, bool>)
    ensures keys == RoleKeys(roles)
    ensures forall k :: k in declared <==> k in keys
    ensures forall k :: k in globalRoles <==> IsGlobal(roles, k)
  {
    keys, declared, globalRoles := [], map[], map[];
    for i := 0 to |roles|
      invariant keys == RoleKeys(roles[..i])
      invariant forall k :: k in declared <==> k in keys
      invariant forall k :: k in globalRoles <==> exists j | 0 <= j < i :: roles[j].key == k && roles[j].isGlobal
    {
      declared := declared[roles[i].key := true];
      keys := keys + [roles[i].key];
      if roles[i].isGlobal {
        globalRoles := globalRoles[roles[i].key := true];
      }
    }
    assert roles[..|roles|] == roles;
  }

  method GatherGroups(groups: seq<GroupSpec>) returns (keys: seq<string>, declared: map<string, bool>)
    ensures keys == GroupKeys(groups)
    ensures forall k :: k in declared <==> k in keys
  {
    keys, declared := [], map[];
    for i := 0 to |groups|
      invariant keys == GroupKeys(groups[..i])
      invariant forall k :: k in declared <==> k in keys
    {
      declared := declared[groups[i].key := true];
      keys := keys + [groups[i].key];
    }
    assert groups[..|groups|] == groups;
  }

  method GatherUsers(users: seq<UserSpec>) returns (keys: seq<string>)
    ensures keys == UserKeys(users)
  {
    keys := [];
    for i := 0 to |users|
      invariant keys == UserKeys(users[..i])
    {
      keys := keys + [users[i].key];
    }
    assert users[..|users|] == users;
  }

  method GatherServiceAccounts(accounts: seq<ServiceAccountSpec>) returns (keys: seq<string>)
    ensures keys == ServiceAccountKeys(accounts)
  {
    keys := [];
    for i := 0 to |accounts|
      invariant keys == ServiceAccountKeys(accounts[..i])
    {
      keys := keys + [accounts[i].key];
    }
    assert accounts[..|accounts|] == accounts;
  }

  method DuplicatesOf(m: Manifest, kind: Kind, keys: seq<string>) returns (problems: seq<Problem>)
    requires keys == KeysOf(m, kind)
    ensures forall p :: p in problems <==> KeyAils(m, p) && p.kind == kind
  {
    var repeats := DuplicateKeys(keys);
    problems := seq(|repeats|, i requires 0 <= i < |repeats| => DuplicateKey(kind, repeats[i]));
    forall p ensures p in problems <==> KeyAils(m, p) && p.kind == kind {
      if p.DuplicateKey? {
        RepeatsAreRepeated(keys, p.key);
        if p.kind == kind && p.key in repeats {
          var i :| 0 <= i < |repeats| && repeats[i] == p.key;
          assert problems[i] == p;
        }
      }
    }
  }

  method CheckNetwork(m: Manifest) returns (problems: seq<Problem>)
    ensures forall p :: p in problems <==> NetworkAils(m, p)
  {
    var network := NetworkManifest.ValidateNetwork(m.network);
    problems := seq(|network|, i requires 0 <= i < |network| => InNetwork(network[i]));
    forall p | NetworkAils(m, p) ensures p in problems {
      var i :| 0 <= i < |network| && network[i] == p.problem;
      assert problems[i] == p;
    }
  }

  method CheckParents(m: Manifest, d: Declared) returns (problems: seq<Problem>)
    requires Tables(m, d)
    ensures forall p :: p in problems <==> exists r | r in m.resources :: ResourceAils(m, r, p)
  {
    problems := [];
    for i := 0 to |m.resources|
      invariant forall p :: p in problems <==> exists r | r in m.resources[..i] :: ResourceAils(m, r, p)
    {
      var r := m.resources[i];
      assert m.resources[..i + 1] == m.resources[..i] + [r];
      ghost var before := problems;
      if r.parent != "" && r.parent !in d.resources {
        problems := problems + [UndeclaredParent(r.key, r.parent)];
      }
      assert forall p :: p in problems <==> p in before || ResourceAils(m, r, p);
    }
    assert m.resources[..|m.resources|] == m.resources;
  }

  method CheckGrant(m: Manifest, d: Declared, role: string, g: GrantSpec) returns (problems: seq<Problem>)
    requires Tables(m, d)
    ensures forall p :: p in problems <==> GrantAils(m, role, g, p)
  {
    problems := [];
    if g.permission !in d.permissions {
      problems := [UndeclaredPermission(role, g.permission)];
    }
    ghost var first := problems;
    for i := 0 to |g.scopes|
      invariant forall p :: p in problems <==>
                  p in first ||
                      (p.UndeclaredScope? && p.role == role && p.scope in g.scopes[..i] && p.scope !in d.scopes)
    {
      assert g.scopes[..i + 1] == g.scopes[..i] + [g.scopes[i]];
      if g.scopes[i] !in d.scopes {
        problems := problems + [UndeclaredScope(role, g.scopes[i])];
      }
    }
    assert g.scopes[..|g.scopes|] == g.scopes;
  }

  method CheckRole(m: Manifest, d: Declared, r: RoleSpec) returns (problems: seq<Problem>)
    requires Tables(m, d)
    ensures forall p :: p in problems <==> RoleAils(m, r, p)
  {
    problems := [];
    for i := 0 to |r.grants|
      invariant forall p :: p in problems <==> exists g | g in r.grants[..i] :: GrantAils(m, r.key, g, p)
    {
      assert r.grants[..i + 1] == r.grants[..i] + [r.grants[i]];
      var more := CheckGrant(m, d, r.key, r.grants[i]);
      problems := problems + more;
    }
    assert r.grants[..|r.grants|] == r.grants;
  }

  method CheckRoles(m: Manifest, d: Declared) returns (problems: seq<Problem>)
    requires Tables(m, d)
    ensures forall p :: p in problems <==> exists r | r in m.roles :: RoleAils(m, r, p)
  {
    problems := [];
    for i := 0 to |m.roles|
      invariant forall p :: p in problems <==> exists r | r in m.roles[..i] :: RoleAils(m, r, p)
    {
      assert m.roles[..i + 1] == m.roles[..i] + [m.roles[i]];
      var more := CheckRole(m, d, m.roles[i]);
      problems := problems + more;
    }
    assert m.roles[..|m.roles|] == m.roles;
  }

  /** One binding by itself. */
  method CheckBinding(m: Manifest, d: Declared, kind: Kind, subject: string, b: RoleBinding)
    returns (problems: seq<Problem>)
    requires Tables(m, d)
    ensures forall p :: p in problems <==> BindingAils(m, kind, subject, b, p)
  {
    problems := [];
    if b.role !in d.roles {
      problems := problems + [UndeclaredRole(kind, subject, b.role)];
    }
    if b.resource != "" && b.resource !in d.resources {
      problems := problems + [UndeclaredResource(kind, subject, b.role, b.resource)];
    }
    if b.noInherit && b.resource != "" && b.role in d.globalRoles {
      problems := problems + [NonInheritedGlobalRole(kind, subject, b.role)];
    }
  }

  lemma SubjectOneMore(m: Manifest, kind: Kind, subject: string, bindings: seq<RoleBinding>, i: nat, p: Problem)
    requires i < |bindings|
    ensures SubjectAils(m, kind, subject, bindings[..i + 1], p) <==>
            || SubjectAils(m, kind, subject, bindings[..i], p) || BindingAils(m, kind, subject, bindings[i], p)
            || (p == RoleBoundTwice(kind, subject, bindings[i].role) && bindings[i].role in BoundRoles(bindings[..i]))
  {
    var b := bindings[i];
    assert bindings[..i + 1] == bindings[..i] + [b];
    assert BoundRoles(bindings[..i + 1]) == BoundRoles(bindings[..i]) + [b.role];
    if p.RoleBoundTwice? {
      RepeatedOneMore(BoundRoles(bindings[..i]), b.role, p.role);
    }
  }

  /** validateRoleBindings, for one subject. */
  method CheckBindings(m: Manifest, d: Declared, kind: Kind, subject: string, bindings: seq<RoleBinding>)
    returns (problems: seq<Problem>)
    requires Tables(m, d)
    ensures forall p :: p in problems <==> SubjectAils(m, kind, subject, bindings, p)
  {
    problems := [];
    var seenRole: map<string, bool> := map[];
    for i := 0 to |bindings|
      invariant forall k :: k in seenRole <==> k in BoundRoles(bindings[..i])
      invariant forall p :: p in problems <==> SubjectAils(m, kind, subject, bindings[..i], p)
    {
      var b := bindings[i];
      ghost var before := problems;
      assert BoundRoles(bindings[..i + 1]) == BoundRoles(bindings[..i]) + [b.role];
      var more := CheckBinding(m, d, kind, subject, b);
      problems := problems + more;
      if b.role in seenRole {
        problems := problems + [RoleBoundTwice(kind, subject, b.role)];
      }
      seenRole := seenRole[b.role := true];
      forall p ensures p in problems <==> SubjectAils(m, kind, subject, bindings[..i + 1], p) {
        SubjectOneMore(m, kind, subject, bindings, i, p);
      }
    }
    assert bindings[..|bindings|] == bindings;
  }

  method CheckGroups(m: Manifest, d: Declared) returns (problems: seq<Problem>)
    requires Tables(m, d)
    ensures forall p :: p in problems <==> exists g | g in m.groups :: SubjectAils(m, OfGroup, g.key, g.roles, p)
  {
    problems := [];
    for i := 0 to |m.groups|
      invariant forall p :: p in problems <==>
                  exists g | g in m.groups[..i] :: SubjectAils(m, OfGroup, g.key, g.roles, p)
    {
      assert m.groups[..i + 1] == m.groups[..i] + [m.groups[i]];
      var more := CheckBindings(m, d, OfGroup, m.groups[i].key, m.groups[i].roles);
      problems := problems + more;
    }
    assert m.groups[..|m.groups|] == m.groups;
  }

  method CheckUser(m: Manifest, d: Declared, u: UserSpec) returns (problems: seq<Problem>)
    requires Tables(m, d)
    ensures forall p :: p in problems <==> UserAils(m, u, p)
  {
    problems := CheckBindings(m, d, OfUser, u.key, u.roles);
    ghost var first := problems;
    for i := 0 to |u.groups|
      invariant forall p :: p in problems <==>
                  p in first ||
                      (p.UndeclaredGroup? && p.user == u.key && p.group in u.groups[..i] && p.group !in d.groups)
    {
      assert u.groups[..i + 1] == u.groups[..i] + [u.groups[i]];
      if u.groups[i] !in d.groups {
        problems := problems + [UndeclaredGroup(u.key, u.groups[i])];
      }
    }
    assert u.groups[..|u.groups|] == u.groups;
  }

  method CheckUsers(m: Manifest, d: Declared) returns (problems: seq<Problem>)
    requires Tables(m, d)
    ensures forall p :: p in problems <==> exists u | u in m.users :: UserAils(m, u, p)
  {
    problems := [];
    for i := 0 to |m.users|
      invariant forall p :: p in problems <==> exists u | u in m.users[..i] :: UserAils(m, u, p)
    {
      assert m.users[..i + 1] == m.users[..i] + [m.users[i]];
      var more := CheckUser(m, d, m.users[i]);
      problems := problems + more;
    }
    assert m.users[..|m.users|] == m.users;
  }

  method CheckServiceAccounts(m: Manifest, d: Declared) returns (problems: seq<Problem>)
    requires Tables(m, d)
    ensures forall p :: p in problems <==>
              exists a | a in m.serviceAccounts :: SubjectAils(m, OfServiceAccount, a.key, a.roles, p)
  {
    problems := [];
    for i := 0 to |m.serviceAccounts|
      invariant forall p :: p in problems <==>
                  exists a | a in m.serviceAccounts[..i] :: SubjectAils(m, OfServiceAccount, a.key, a.roles, p)
    {
      var a := m.serviceAccounts[i];
      assert m.serviceAccounts[..i + 1] == m.serviceAccounts[..i] + [a];
      var more := CheckBindings(m, d, OfServiceAccount, a.key, a.roles);
      problems := problems + more;
    }
    assert m.serviceAccounts[..|m.serviceAccounts|] == m.serviceAccounts;
  }

  /** The key lists and tables, and the seven duplicate checks in the code's order. */
  method CheckKeys(m: Manifest) returns (problems: seq<Problem>, d: Declared)
    ensures Tables(m, d)
    ensures forall p :: p in problems <==> KeyAils(m, p)
  {
    var resourceKeys, scopeKeys, resources, scopes := GatherResources(m.resources);
    var permissionKeys, permissions := GatherPermissions(m.permissions);
    var roleKeys, roles, globalRoles := GatherRoles(m.roles);
    var groupKeys, groups := GatherGroups(m.groups);
    var userKeys := GatherUsers(m.users);
    var accountKeys := GatherServiceAccounts(m.serviceAccounts);
    d := Declared(resources, scopes, permissions, roles, groups, globalRoles);

    problems := DuplicatesOf(m, OfResource, resourceKeys);
    var more := DuplicatesOf(m, OfScope, scopeKeys);
    problems := problems + more;
    more := DuplicatesOf(m, OfPermission, permissionKeys);
    problems := problems + more;
    more := DuplicatesOf(m, OfRole, roleKeys);
    problems := problems + more;
    more := DuplicatesOf(m, OfGroup, groupKeys);
    problems := problems + more;
    more := DuplicatesOf(m, OfUser, userKeys);
    problems := problems + more;
    more := DuplicatesOf(m, OfServiceAccount, accountKeys);
    problems := problems + more;
  }

  method CheckSpecs(m: Manifest) returns (problems: seq<Problem>)
    ensures forall p :: p in problems <==> SpecsAil(m, p)
  {
    var d;
    problems, d := CheckKeys(m);
    var network := CheckNetwork(m);
    var parents := CheckParents(m, d);
    var roles := CheckRoles(m, d);
    var groups := CheckGroups(m, d);
    var users := CheckUsers(m, d);
    var accounts := CheckServiceAccounts(m, d);
    problems := problems + network + parents + roles + groups + users + accounts;
  }

  /** validateManifest: what is reported ails the manifest, everything that ails it is reported (of a cycle
      one resource on it), and nothing is reported exactly when the manifest is well formed. */
  method ValidateManifest(m: Manifest) returns (problems: seq<Problem>)
    ensures forall p | p in problems :: Ails(m, p)
    ensures forall p | SpecsAil(m, p) :: p in problems
    ensures (exists p | p in problems :: HierarchyAils(m, p)) <==> !Acyclic(Parents(m.resources))
    ensures problems == [] <==> WellFormed(m)
  {
    problems := CheckSpecs(m);
    var order := Order(m.resources);
    if order.Err? {
      problems := problems + [ParentCycle(order.error)];
      assert HierarchyAils(m, problems[|problems| - 1]);
    }
    NothingAilsTheWellFormed(m);
    assert problems != [] ==> Ails(m, problems[0]);
  }
}
