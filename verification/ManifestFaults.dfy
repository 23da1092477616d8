/** What validateManifest (management_manifest.go) reports, in words of the manifest alone: each problem by the
    specs that are at fault. */
module ManifestFaults {
  import opened Wrappers
  import opened Keys
  import opened NetworkServer
  import opened NetworkManifest
  import opened ManifestTypes
  import opened TopologicalOrder
  import opened ManifestValidation

  // ----- the network section ------------------------------------------------------------------

  predicate SameNaturalKey(a: SegmentSpec, b: SegmentSpec) {
    a.site == b.site && a.kind == b.kind && a.name == b.name
  }

  /** Segment j shares its natural key with an earlier one, of which i is the first. */
  predicate SharesWith(specs: seq<SegmentSpec>, i: nat, j: nat) {
    && i < j < |specs| && SameNaturalKey(specs[i], specs[j])
    && forall k | 0 <= k < i :: !SameNaturalKey(specs[k], specs[j])
  }

  predicate StatesTwice(spec: SegmentSpec, filterId: string) {
    spec.filterIds.Some? && exists i, j | 0 <= i < j < |spec.filterIds.value| ::
      spec.filterIds.value[i] == filterId && spec.filterIds.value[j] == filterId
  }

  ghost predicate NetworkFault(n: NetworkSpec, p: NetworkProblem) {
    match p
    case SharedNaturalKey(first, second) =>
      exists i: nat, j: nat :: SharesWith(n.segments, i, j) && n.segments[i].key == first && n.segments[j].key == second
    case RepeatedFilterId(segment, filterId) =>
      exists s | s in n.segments :: s.key == segment && StatesTwice(s, filterId)
    case DuplicateSegmentKey(key) =>
      exists i, j | 0 <= i < j < |n.segments| :: n.segments[i].key == key && n.segments[j].key == key
    case DanglingProfile(segment) =>
      (exists p | p in n.profiles :: p.segment == segment) && forall s | s in n.segments :: s.key != segment
    case RepeatedProfile(segment) =>
      && (exists i, j | 0 <= i < j < |n.profiles| ::
            n.profiles[i].segment == segment && n.profiles[j].segment == segment)
      && exists s | s in n.segments :: s.key == segment
  }

  lemma {:induction false} FirstHolderIsFirst(specs: seq<SegmentSpec>, key: NaturalKey) returns (i: nat)
    requires FirstHolder(specs, key).Some?
    ensures i < |specs| && specs[i].Key() == key && FirstHolder(specs, key) == Some(specs[i].key)
    ensures forall k | 0 <= k < i :: specs[k].Key() != key
  {
    var init := specs[..|specs| - 1];
    FirstHolderExists(init, key);
    if FirstHolder(init, key).Some? {
      i := FirstHolderIsFirst(init, key);
    } else {
      i := |init|;
      forall k | 0 <= k < i ensures specs[k].Key() != key {
        assert NaturalKeys(init)[k] == specs[k].Key();
      }
    }
  }

  /** What the segment loop says of segment j. */
  ghost predicate SegmentSays(specs: seq<SegmentSpec>, j: nat, p: NetworkProblem)
    requires j < |specs|
  {
    || (exists i: nat :: SharesWith(specs, i, j) && p == SharedNaturalKey(specs[i].key, specs[j].key))
    || (p.RepeatedFilterId? && p.segment == specs[j].key && StatesTwice(specs[j], p.filterId))
  }

  lemma HolderSays(specs: seq<SegmentSpec>, n: nat, p: NetworkProblem)
    requires n + 1 == |specs|
    ensures var holder := FirstHolder(specs[..n], specs[n].Key());
            holder.Some? && p == SharedNaturalKey(holder.value, specs[n].key) <==>
            exists i: nat :: SharesWith(specs, i, n) && p == SharedNaturalKey(specs[i].key, specs[n].key)
  {
    var init, key := specs[..n], specs[n].Key();
    FirstHolderExists(init, key);
    assert forall k | 0 <= k < n :: NaturalKeys(init)[k] == specs[k].Key();
    if FirstHolder(init, key).Some? {
      var i := FirstHolderIsFirst(init, key);
      assert SharesWith(specs, i, n);
      if k: nat :| SharesWith(specs, k, n) && p == SharedNaturalKey(specs[k].key, specs[n].key) {
        assert init[k].Key() == key && SameNaturalKey(specs[i], specs[n]);
        assert i == k;
      }
    }
  }

  lemma FilterSays(spec: SegmentSpec, p: NetworkProblem)
    ensures p in FilterProblems(spec.key, Repeats(spec.filterIds.GetOr([]))) <==>
            p.RepeatedFilterId? && p.segment == spec.key && StatesTwice(spec, p.filterId)
  {
    var repeats := Repeats(spec.filterIds.GetOr([]));
    if p.RepeatedFilterId? {
      RepeatsAreRepeated(spec.filterIds.GetOr([]), p.filterId);
      if p.segment == spec.key && p.filterId in repeats {
        var i :| 0 <= i < |repeats| && repeats[i] == p.filterId;
        assert FilterProblems(spec.key, repeats)[i] == p;
      }
    }
  }

  ghost predicate SomeSegmentSays(specs: seq<SegmentSpec>, p: NetworkProblem) {
    exists j: nat :: j < |specs| && SegmentSays(specs, j, p)
  }

  /** A segment is judged against those before it. */
  lemma SaysAlone(specs: seq<SegmentSpec>, n: nat, j: nat, p: NetworkProblem)
    requires j < n <= |specs|
    ensures SegmentSays(specs[..n], j, p) <==> SegmentSays(specs, j, p)
  {
    var init := specs[..n];
    forall i: nat ensures SharesWith(init, i, j) <==> SharesWith(specs, i, j) {
      assert i < j ==> init[i] == specs[i] && forall k | 0 <= k < i :: init[k] == specs[k];
    }
  }

  lemma SaysOneMore(specs: seq<SegmentSpec>, n: nat, p: NetworkProblem)
    requires n + 1 == |specs|
    ensures SomeSegmentSays(specs, p) <==> SomeSegmentSays(specs[..n], p) || SegmentSays(specs, n, p)
  {
    if j: nat :| j < n && SegmentSays(specs[..n], j, p) {
      SaysAlone(specs, n, j, p);
    }
    if j: nat :| j < |specs| && SegmentSays(specs, j, p) && j != n {
      SaysAlone(specs, n, j, p);
    }
  }

  lemma {:induction false} SegmentsSay(specs: seq<SegmentSpec>, p: NetworkProblem)
    ensures p in SegmentProblems(specs) <==> SomeSegmentSays(specs, p)
  {
    if specs != [] {
      var n := |specs| - 1;
      SegmentsSay(specs[..n], p);
      HolderSays(specs, n, p);
      FilterSays(specs[n], p);
      SaysOneMore(specs, n, p);
    }
  }

  lemma {:induction false} ProfilesSay(declared: seq<string>, profiles: seq<string>, p: NetworkProblem)
    ensures p in ProfileProblems(declared, profiles) <==>
            || (p.DanglingProfile? && p.segment in profiles && p.segment !in declared)
            || (p.RepeatedProfile? && Repeated(profiles, p.segment) && p.segment in declared)
  {
    if profiles != [] {
      var init, last := profiles[..|profiles| - 1], profiles[|profiles| - 1];
      ProfilesSay(declared, init, p);
      assert profiles == init + [last];
      if p.RepeatedProfile? {
        RepeatedOneMore(init, last, p.segment);
      }
    }
  }

  lemma KeysSay(keys: seq<string>, p: NetworkProblem)
    ensures p in KeyProblems(Repeats(keys)) <==> p.DuplicateSegmentKey? && Repeated(keys, p.key)
  {
    if p.DuplicateSegmentKey? {
      RepeatsAreRepeated(keys, p.key);
      if p.key in Repeats(keys) {
        var i :| 0 <= i < |Repeats(keys)| && Repeats(keys)[i] == p.key;
        assert KeyProblems(Repeats(keys))[i] == p;
      }
    }
  }

  lemma SegmentsSayFaults(n: NetworkSpec, p: NetworkProblem)
    requires p.SharedNaturalKey? || p.RepeatedFilterId?
    ensures SomeSegmentSays(n.segments, p) <==> NetworkFault(n, p)
  {
    if j: nat :| j < |n.segments| && SegmentSays(n.segments, j, p) {
      assert n.segments[j] in n.segments;
    }
    if NetworkFault(n, p) {
      if p.SharedNaturalKey? {
        var i: nat, j: nat :|
          SharesWith(n.segments, i, j) && n.segments[i].key == p.first && n.segments[j].key == p.second;
        assert SegmentSays(n.segments, j, p);
      } else {
        var s :| s in n.segments && s.key == p.segment && StatesTwice(s, p.filterId);
        var j: nat :| j < |n.segments| && n.segments[j] == s;
        assert SegmentSays(n.segments, j, p);
      }
    }
  }

  lemma KeyIsDeclared(specs: seq<SegmentSpec>, key: string)
    ensures key in SpecKeys(specs) <==> exists s | s in specs :: s.key == key
  {
    if key in SpecKeys(specs) {
      var i :| 0 <= i < |specs| && SpecKeys(specs)[i] == key;
      assert specs[i] in specs;
    }
    if s :| s in specs && s.key == key {
      var i :| 0 <= i < |specs| && specs[i] == s;
      assert SpecKeys(specs)[i] == key;
    }
  }

  lemma ProfileIsStated(profiles: seq<ProfileSpec>, segment: string)
    ensures segment in ProfileKeys(profiles) <==> exists p | p in profiles :: p.segment == segment
  {
    if segment in ProfileKeys(profiles) {
      var i :| 0 <= i < |profiles| && ProfileKeys(profiles)[i] == segment;
      assert profiles[i] in profiles;
    }
    if p :| p in profiles && p.segment == segment {
      var i :| 0 <= i < |profiles| && profiles[i] == p;
      assert ProfileKeys(profiles)[i] == segment;
    }
  }

  lemma ProfileIsStatedTwice(profiles: seq<ProfileSpec>, segment: string)
    ensures Repeated(ProfileKeys(profiles), segment) <==>
            exists i, j | 0 <= i < j < |profiles| :: profiles[i].segment == segment && profiles[j].segment == segment
  {
    if i, j :| 0 <= i < j < |profiles| && profiles[i].segment == segment && profiles[j].segment == segment {
      assert ProfileKeys(profiles)[i] == segment && ProfileKeys(profiles)[j] == segment;
    }
  }

  lemma KeyIsDeclaredTwice(specs: seq<SegmentSpec>, key: string)
    ensures Repeated(SpecKeys(specs), key) <==>
            exists i, j | 0 <= i < j < |specs| :: specs[i].key == key && specs[j].key == key
  {
    if i, j :| 0 <= i < j < |specs| && specs[i].key == key && specs[j].key == key {
      assert SpecKeys(specs)[i] == key && SpecKeys(specs)[j] == key;
    }
  }

  /** validateNetwork reports exactly what is at fault. */
  lemma NetworkProblemsAreFaults(n: NetworkSpec, p: NetworkProblem)
    ensures p in NetworkProblems(n) <==> NetworkFault(n, p)
  {
    SegmentsSay(n.segments, p);
    KeysSay(SpecKeys(n.segments), p);
    ProfilesSay(SpecKeys(n.segments), ProfileKeys(n.profiles), p);
    match p
    case SharedNaturalKey(_, _) => SegmentsSayFaults(n, p);
    case RepeatedFilterId(_, _) => SegmentsSayFaults(n, p);
    case DuplicateSegmentKey(key) => KeyIsDeclaredTwice(n.segments, key);
    case DanglingProfile(segment) =>
      KeyIsDeclared(n.segments, segment);
      ProfileIsStated(n.profiles, segment);
    case RepeatedProfile(segment) =>
      KeyIsDeclared(n.segments, segment);
      ProfileIsStatedTwice(n.profiles, segment);
  }

  // ----- the other sections -------------------------------------------------------------------

  predicate DeclaresScope(r: ResourceSpec, key: string) {
    exists s | s in r.scopes :: s.key == key
  }

  /** The scope at place a of resource i and the one at place b of resource j are two scopes of this key. */
  predicate TwoScopes(resources: seq<ResourceSpec>, i: nat, a: nat, j: nat, b: nat, key: string) {
    && i < |resources| && j < |resources| && a < |resources[i].scopes| && b < |resources[j].scopes|
    && (i < j || (i == j && a < b))
    && resources[i].scopes[a].key == key && resources[j].scopes[b].key == key
  }

  ghost predicate DeclaredTwice(m: Manifest, kind: Kind, key: string) {
    match kind
    case OfResource =>
      exists i, j | 0 <= i < j < |m.resources| :: m.resources[i].key == key && m.resources[j].key == key
    case OfScope => exists i: nat, a: nat, j: nat, b: nat :: TwoScopes(m.resources, i, a, j, b, key)
    case OfPermission =>
      exists i, j | 0 <= i < j < |m.permissions| :: m.permissions[i].key == key && m.permissions[j].key == key
    case OfRole => exists i, j | 0 <= i < j < |m.roles| :: m.roles[i].key == key && m.roles[j].key == key
    case OfGroup => exists i, j | 0 <= i < j < |m.groups| :: m.groups[i].key == key && m.groups[j].key == key
    case OfUser => exists i, j | 0 <= i < j < |m.users| :: m.users[i].key == key && m.users[j].key == key
    case OfServiceAccount =>
      exists i, j | 0 <= i < j < |m.serviceAccounts| ::
        m.serviceAccounts[i].key == key && m.serviceAccounts[j].key == key
  }

  /** A subject of this kind and key has these bindings. */
  predicate IsSubject(m: Manifest, kind: Kind, key: string, bindings: seq<RoleBinding>) {
    || (kind == OfGroup && exists g | g in m.groups :: g.key == key && g.roles == bindings)
    || (kind == OfUser && exists u | u in m.users :: u.key == key && u.roles == bindings)
    || (kind == OfServiceAccount && exists a | a in m.serviceAccounts :: a.key == key && a.roles == bindings)
  }

  ghost predicate Binds(m: Manifest, kind: Kind, key: string, b: RoleBinding) {
    exists bindings :: IsSubject(m, kind, key, bindings) && b in bindings
  }

  predicate BindsTwice(bindings: seq<RoleBinding>, role: string) {
    exists i, j | 0 <= i < j < |bindings| :: bindings[i].role == role && bindings[j].role == role
  }

  predicate Grants(m: Manifest, role: string, g: GrantSpec) {
    exists r | r in m.roles :: r.key == role && g in r.grants
  }

  predicate HasResource(m: Manifest, key: string) {
    exists r | r in m.resources :: r.key == key
  }

  predicate HasRole(m: Manifest, key: string) {
    exists r | r in m.roles :: r.key == key
  }

  ghost predicate Fault(m: Manifest, p: Problem) {
    match p
    case DuplicateKey(kind, key) => DeclaredTwice(m, kind, key)
    case InNetwork(problem) => NetworkFault(m.network, problem)
    case UndeclaredParent(resource, parent) =>
      && (exists r | r in m.resources :: r.key == resource && r.parent == parent) && parent != ""
      && !HasResource(m, parent)
    case UndeclaredPermission(role, permission) =>
      && (exists g :: Grants(m, role, g) && g.permission == permission)
      && forall q | q in m.permissions :: q.key != permission
    case UndeclaredScope(role, scope) =>
      (exists g :: Grants(m, role, g) && scope in g.scopes) && forall r | r in m.resources :: !DeclaresScope(r, scope)
    case UndeclaredRole(kind, subject, role) =>
      (exists b :: Binds(m, kind, subject, b) && b.role == role) && !HasRole(m, role)
    case UndeclaredResource(kind, subject, role, resource) =>
      && (exists b :: Binds(m, kind, subject, b) && b.role == role && b.resource == resource) && resource != ""
      && !HasResource(m, resource)
    case NonInheritedGlobalRole(kind, subject, role) =>
      && (exists b :: Binds(m, kind, subject, b) && b.role == role && b.resource != "" && b.noInherit)
      && exists r | r in m.roles :: r.key == role && r.isGlobal
    case RoleBoundTwice(kind, subject, role) =>
      exists bindings :: IsSubject(m, kind, subject, bindings) && BindsTwice(bindings, role)
    case UndeclaredGroup(user, group) =>
      (exists u | u in m.users :: u.key == user && group in u.groups) && forall g | g in m.groups :: g.key != group
    case ParentCycle(through) => RingThrough(m.resources, through)
  }

  // ----- keys and references ------------------------------------------------------------------

  lemma ResourceIsDeclared(m: Manifest, key: string)
    ensures key in ResourceKeys(m.resources) <==> HasResource(m, key)
  {
    if key in ResourceKeys(m.resources) {
      var i :| 0 <= i < |m.resources| && ResourceKeys(m.resources)[i] == key;
      assert m.resources[i] in m.resources;
    }
    if r :| r in m.resources && r.key == key {
      var i :| 0 <= i < |m.resources| && m.resources[i] == r;
      assert ResourceKeys(m.resources)[i] == key;
    }
  }

  lemma PermissionIsDeclared(m: Manifest, key: string)
    ensures key in PermissionKeys(m.permissions) <==> exists q | q in m.permissions :: q.key == key
  {
    if key in PermissionKeys(m.permissions) {
      var i :| 0 <= i < |m.permissions| && PermissionKeys(m.permissions)[i] == key;
      assert m.permissions[i] in m.permissions;
    }
    if q :| q in m.permissions && q.key == key {
      var i :| 0 <= i < |m.permissions| && m.permissions[i] == q;
      assert PermissionKeys(m.permissions)[i] == key;
    }
  }

  lemma RoleIsDeclared(m: Manifest, key: string)
    ensures key in RoleKeys(m.roles) <==> HasRole(m, key)
  {
    if key in RoleKeys(m.roles) {
      var i :| 0 <= i < |m.roles| && RoleKeys(m.roles)[i] == key;
      assert m.roles[i] in m.roles;
    }
    if r :| r in m.roles && r.key == key {
      var i :| 0 <= i < |m.roles| && m.roles[i] == r;
      assert RoleKeys(m.roles)[i] == key;
    }
  }

  lemma GroupIsDeclared(m: Manifest, key: string)
    ensures key in GroupKeys(m.groups) <==> exists g | g in m.groups :: g.key == key
  {
    if key in GroupKeys(m.groups) {
      var i :| 0 <= i < |m.groups| && GroupKeys(m.groups)[i] == key;
      assert m.groups[i] in m.groups;
    }
    if g :| g in m.groups && g.key == key {
      var i :| 0 <= i < |m.groups| && m.groups[i] == g;
      assert GroupKeys(m.groups)[i] == key;
    }
  }

  lemma GlobalIsDeclared(m: Manifest, key: string)
    ensures IsGlobal(m.roles, key) <==> exists r | r in m.roles :: r.key == key && r.isGlobal
  {
    if i :| 0 <= i < |m.roles| && m.roles[i].key == key && m.roles[i].isGlobal {
      assert m.roles[i] in m.roles;
    }
  }

  lemma OwnScopes(r: ResourceSpec, key: string)
    ensures key in KeysOfScopes(r.scopes) <==> DeclaresScope(r, key)
    ensures Repeated(KeysOfScopes(r.scopes), key) <==> ScopeTwice(r, key)
  {
    assert forall i | 0 <= i < |r.scopes| :: KeysOfScopes(r.scopes)[i] == r.scopes[i].key && r.scopes[i] in r.scopes;
  }

  lemma {:induction false} ScopeIsDeclared(resources: seq<ResourceSpec>, key: string)
    ensures key in ScopeKeys(resources) <==> SomeDeclares(resources, key)
  {
    if resources != [] {
      var init, last := resources[..|resources| - 1], resources[|resources| - 1];
      ScopeIsDeclared(init, key);
      OwnScopes(last, key);
      assert resources == init + [last];
    }
  }

  /** How keys repeat in two lists, one after the other. */
  lemma RepeatedInBoth(a: seq<string>, b: seq<string>, key: string)
    ensures Repeated(a + b, key) <==> Repeated(a, key) || Repeated(b, key) || (key in a && key in b)
  {
    var both := a + b;
    if Repeated(both, key) {
      var i, j :| 0 <= i < j < |both| && both[i] == key && both[j] == key;
      if j < |a| {
        assert a[i] == key && a[j] == key;
      } else if i >= |a| {
        assert b[i - |a|] == key && b[j - |a|] == key;
      }
    }
    if Repeated(a, key) {
      var i, j :| 0 <= i < j < |a| && a[i] == key && a[j] == key;
      assert both[i] == key && both[j] == key;
    }
    if Repeated(b, key) {
      var i, j :| 0 <= i < j < |b| && b[i] == key && b[j] == key;
      assert both[|a| + i] == key && both[|a| + j] == key;
    }
    if key in a && key in b {
      var i :| 0 <= i < |a| && a[i] == key;
      var j :| 0 <= j < |b| && b[j] == key;
      assert both[i] == key && both[|a| + j] == key;
    }
  }

  ghost predicate SomeTwoScopes(resources: seq<ResourceSpec>, key: string) {
    exists i: nat, a: nat, j: nat, b: nat :: TwoScopes(resources, i, a, j, b, key)
  }

  predicate ScopeTwice(r: ResourceSpec, key: string) {
    exists a, b | 0 <= a < b < |r.scopes| :: r.scopes[a].key == key && r.scopes[b].key == key
  }

  predicate SomeDeclares(resources: seq<ResourceSpec>, key: string) {
    exists r | r in resources :: DeclaresScope(r, key)
  }

  /** Two scopes of one key are both the last resource's, or both earlier ones', or one of each. */
  lemma WhereTwoScopesAre(resources: seq<ResourceSpec>, n: nat, key: string)
    requires n + 1 == |resources| && SomeTwoScopes(resources, key)
    ensures || SomeTwoScopes(resources[..n], key) || ScopeTwice(resources[n], key)
            || (DeclaresScope(resources[n], key) && SomeDeclares(resources[..n], key))
  {
    var init := resources[..n];
    var i: nat, a: nat, j: nat, b: nat :| TwoScopes(resources, i, a, j, b, key);
    assert resources[i].scopes[a] in resources[i].scopes && resources[j].scopes[b] in resources[j].scopes;
    if j < n {
      assert TwoScopes(init, i, a, j, b, key);
    } else if i < n {
      assert init[i] in init && DeclaresScope(init[i], key);
    }
  }

  lemma TwoScopesOneMore(resources: seq<ResourceSpec>, n: nat, key: string)
    requires n + 1 == |resources|
    ensures SomeTwoScopes(resources, key) <==>
            || SomeTwoScopes(resources[..n], key) || ScopeTwice(resources[n], key)
            || (DeclaresScope(resources[n], key) && SomeDeclares(resources[..n], key))
  {
    var init, last := resources[..n], resources[n];
    if SomeTwoScopes(resources, key) {
      WhereTwoScopesAre(resources, n, key);
    } else if i: nat, a: nat, j: nat, b: nat :| TwoScopes(init, i, a, j, b, key) {
      assert TwoScopes(resources, i, a, j, b, key);
    } else if ScopeTwice(last, key) {
      var a, b :| 0 <= a < b < |last.scopes| && last.scopes[a].key == key && last.scopes[b].key == key;
      assert TwoScopes(resources, n, a, n, b, key);
    } else if r :| r in init && DeclaresScope(r, key) && DeclaresScope(last, key) {
      var i: nat :| i < |init| && init[i] == r;
      var a: nat :| a < |r.scopes| && r.scopes[a].key == key;
      var b: nat :| b < |last.scopes| && last.scopes[b].key == key;
      assert TwoScopes(resources, i, a, n, b, key);
    }
  }

  lemma {:induction false} ScopesRepeat(resources: seq<ResourceSpec>, key: string)
    ensures Repeated(ScopeKeys(resources), key) <==> SomeTwoScopes(resources, key)
  {
    if resources != [] {
      var init, last := resources[..|resources| - 1], resources[|resources| - 1];
      ScopesRepeat(init, key);
      ScopeIsDeclared(init, key);
      OwnScopes(last, key);
      RepeatedInBoth(ScopeKeys(init), KeysOfScopes(last.scopes), key);
      TwoScopesOneMore(resources, |init|, key);
    }
  }

  lemma KeyFault(m: Manifest, kind: Kind, key: string)
    ensures Repeated(KeysOf(m, kind), key) <==> DeclaredTwice(m, kind, key)
  {
    match kind
    case OfResource =>
      assert forall i | 0 <= i < |m.resources| :: ResourceKeys(m.resources)[i] == m.resources[i].key;
    case OfScope => ScopesRepeat(m.resources, key);
    case OfPermission =>
      assert forall i | 0 <= i < |m.permissions| :: PermissionKeys(m.permissions)[i] == m.permissions[i].key;
    case OfRole => assert forall i | 0 <= i < |m.roles| :: RoleKeys(m.roles)[i] == m.roles[i].key;
    case OfGroup => assert forall i | 0 <= i < |m.groups| :: GroupKeys(m.groups)[i] == m.groups[i].key;
    case OfUser => assert forall i | 0 <= i < |m.users| :: UserKeys(m.users)[i] == m.users[i].key;
    case OfServiceAccount =>
      assert forall i | 0 <= i < |m.serviceAccounts| ::
        ServiceAccountKeys(m.serviceAccounts)[i] == m.serviceAccounts[i].key;
  }

  // ----- one problem at a time ----------------------------------------------------------------

  /** What is said of a subject's bindings, wherever they stand. */
  predicate OfBindings(p: Problem) {
    p.UndeclaredRole? || p.UndeclaredResource? || p.NonInheritedGlobalRole? || p.RoleBoundTwice?
  }

  ghost predicate SomeSubjectAils(m: Manifest, p: Problem)
    requires OfBindings(p)
  {
    exists bindings :: IsSubject(m, p.kind, p.subject, bindings) && SubjectAils(m, p.kind, p.subject, bindings, p)
  }

  lemma SubjectsAil(m: Manifest, p: Problem)
    requires OfBindings(p)
    ensures Ails(m, p) <==> SomeSubjectAils(m, p)
  {
    if g :| g in m.groups && SubjectAils(m, OfGroup, g.key, g.roles, p) {
      assert IsSubject(m, OfGroup, g.key, g.roles);
    }
    if u :| u in m.users && UserAils(m, u, p) {
      assert IsSubject(m, OfUser, u.key, u.roles);
    }
    if a :| a in m.serviceAccounts && SubjectAils(m, OfServiceAccount, a.key, a.roles, p) {
      assert IsSubject(m, OfServiceAccount, a.key, a.roles);
    }
    if SomeSubjectAils(m, p) {
      SubjectIsChecked(m, p);
    }
  }

  lemma SubjectIsChecked(m: Manifest, p: Problem)
    requires OfBindings(p) && SomeSubjectAils(m, p)
    ensures SpecsAil(m, p)
  {
    var bindings :| IsSubject(m, p.kind, p.subject, bindings) && SubjectAils(m, p.kind, p.subject, bindings, p);
    match p.kind
    case OfGroup =>
      var g :| g in m.groups && g.key == p.subject && g.roles == bindings;
      assert SubjectAils(m, OfGroup, g.key, g.roles, p);
    case OfUser =>
      var u :| u in m.users && u.key == p.subject && u.roles == bindings;
      assert UserAils(m, u, p);
    case OfServiceAccount =>
      var a :| a in m.serviceAccounts && a.key == p.subject && a.roles == bindings;
      assert SubjectAils(m, OfServiceAccount, a.key, a.roles, p);
  }

  lemma BindingFault(m: Manifest, p: Problem)
    requires OfBindings(p) && !p.RoleBoundTwice?
    ensures SomeSubjectAils(m, p) <==> Fault(m, p)
  {
    RoleIsDeclared(m, p.role);
    GlobalIsDeclared(m, p.role);
    if p.UndeclaredResource? {
      ResourceIsDeclared(m, p.resource);
    }
    if SomeSubjectAils(m, p) {
      var bindings :| IsSubject(m, p.kind, p.subject, bindings) && SubjectAils(m, p.kind, p.subject, bindings, p);
      var b :| b in bindings && BindingAils(m, p.kind, p.subject, b, p);
      assert Binds(m, p.kind, p.subject, b);
    }
    if Fault(m, p) {
      var b :| Binds(m, p.kind, p.subject, b) && BindingAils(m, p.kind, p.subject, b, p);
      var bindings :| IsSubject(m, p.kind, p.subject, bindings) && b in bindings;
      assert SubjectAils(m, p.kind, p.subject, bindings, p);
    }
  }

  lemma TwiceFault(m: Manifest, p: Problem)
    requires p.RoleBoundTwice?
    ensures SomeSubjectAils(m, p) <==> Fault(m, p)
  {
    forall bindings: seq<RoleBinding> ensures Repeated(BoundRoles(bindings), p.role) <==> BindsTwice(bindings, p.role) {
      assert forall i | 0 <= i < |bindings| :: BoundRoles(bindings)[i] == bindings[i].role;
    }
  }

  lemma GrantFault(m: Manifest, p: Problem)
    requires p.UndeclaredPermission? || p.UndeclaredScope?
    ensures (exists r | r in m.roles :: RoleAils(m, r, p)) <==> Fault(m, p)
  {
    if p.UndeclaredPermission? {
      PermissionIsDeclared(m, p.permission);
    } else {
      ScopeIsDeclared(m.resources, p.scope);
    }
    if r :| r in m.roles && RoleAils(m, r, p) {
      var g :| g in r.grants && GrantAils(m, r.key, g, p);
      assert Grants(m, p.role, g);
    }
    if Fault(m, p) {
      var g :| Grants(m, p.role, g) && GrantAils(m, p.role, g, p);
      var r :| r in m.roles && r.key == p.role && g in r.grants;
      assert RoleAils(m, r, p);
    }
  }

  lemma KeyOrNetworkFault(m: Manifest, p: Problem)
    requires p.DuplicateKey? || p.InNetwork?
    ensures Ails(m, p) <==> Fault(m, p)
  {
    if p.DuplicateKey? {
      KeyFault(m, p.kind, p.key);
    } else {
      NetworkProblemsAreFaults(m.network, p.problem);
    }
  }

  lemma ReferenceFault(m: Manifest, p: Problem)
    requires p.UndeclaredParent? || p.UndeclaredGroup?
    ensures Ails(m, p) <==> Fault(m, p)
  {
    if p.UndeclaredParent? {
      ResourceIsDeclared(m, p.parent);
    } else {
      GroupIsDeclared(m, p.group);
    }
  }

  lemma SubjectFault(m: Manifest, p: Problem)
    requires OfBindings(p)
    ensures Ails(m, p) <==> Fault(m, p)
  {
    SubjectsAil(m, p);
    if p.RoleBoundTwice? {
      TwiceFault(m, p);
    } else {
      BindingFault(m, p);
    }
  }

  lemma RoleFault(m: Manifest, p: Problem)
    requires p.UndeclaredPermission? || p.UndeclaredScope?
    ensures Ails(m, p) <==> Fault(m, p)
  {
    GrantFault(m, p);
  }

  /** What ails a manifest is what is at fault in it: every problem names the specs it is about. */
  lemma AilsIsFault(m: Manifest, p: Problem)
    ensures Ails(m, p) <==> Fault(m, p)
  {
    if p.DuplicateKey? || p.InNetwork? {
      KeyOrNetworkFault(m, p);
    } else if p.UndeclaredParent? || p.UndeclaredGroup? {
      ReferenceFault(m, p);
    } else if OfBindings(p) {
      SubjectFault(m, p);
    } else if p.ParentCycle? {
      CycleIsARing(m.resources, p.through);
    } else {
      RoleFault(m, p);
    }
  }

  /** A manifest is well formed exactly when nothing in it is at fault. */
  lemma WellFormedIsFaultless(m: Manifest)
    ensures ManifestValidation.WellFormed(m) <==> forall p :: !Fault(m, p)
  {
    NothingAilsTheWellFormed(m);
    forall p ensures Ails(m, p) <==> Fault(m, p) {
      AilsIsFault(m, p);
    }
  }
}
