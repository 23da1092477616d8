/** Planning the `network` section: what is read, the drift predicates and planNetwork of
    management_manifest_network.go. */
module NetworkPlan {
  import opened Wrappers
  import opened Nullables
  import opened NetworkServer
  import opened NetworkManifest

  // ----- what a plan reads --------------------------------------------------------------------

  datatype NetworkSnapshot = NetworkSnapshot(policy: Option<Policy>, segments: seq<Segment>,
                                             profiles: seq<ProfileRead>)

  /** rows are the server's segments, in whatever order it lists them. */
  ghost predicate ListsSegments(rows: seq<Segment>, s: Server) {
    && (forall r | r in rows :: r.id in s.segments && s.segments[r.id] == r)
    && (forall id | id in s.segments :: s.segments[id] in rows)
  }

  /** listed are the server's profiles as it returns them, in whatever order it lists them. */
  ghost predicate ListsProfiles(listed: seq<ProfileRead>, s: Server) {
    && (forall r | r in listed :: r.segmentId in s.profiles && r == Effective(s.profiles[r.segmentId], s.policy.cap))
    && (forall id | id in s.profiles :: Effective(s.profiles[id], s.policy.cap) in listed)
  }

  /** readNetwork: the policy when one is stated, the segments when there is a segment or a profile,
      the profiles when there is a profile; each read may meet a later state than the one before. */
  ghost predicate Reads(n: NetworkSpec, atPolicy: Server, atSegments: Server, atProfiles: Server,
                        snap: NetworkSnapshot) {
    && snap.policy == (if n.policy.Some? then Some(atPolicy.policy) else None)
    && (if n.segments != [] || n.profiles != [] then ListsSegments(snap.segments, atSegments) else snap.segments == [])
    && (if n.profiles != [] then ListsProfiles(snap.profiles, atProfiles) else snap.profiles == [])
  }

  ghost predicate ReadsAll(s: Server, snap: NetworkSnapshot) {
    && snap.policy == Some(s.policy)
    && ListsSegments(snap.segments, s)
    && ListsProfiles(snap.profiles, s)
  }

  /** The first listed segment with this natural key. */
  function FindSegment(rows: seq<Segment>, key: NaturalKey): Option<Segment> {
    if rows == [] then None
    else if rows[0].Key() == key then Some(rows[0])
    else FindSegment(rows[1..], key)
  }

  /** The first listed profile of this segment. */
  function FindProfile(listed: seq<ProfileRead>, id: Id): Option<ProfileRead> {
    if listed == [] then None
    else if listed[0].segmentId == id then Some(listed[0])
    else FindProfile(listed[1..], id)
  }

  lemma {:induction false} FindSegmentFinds(rows: seq<Segment>, key: NaturalKey)
    ensures FindSegment(rows, key).Some? ==>
              FindSegment(rows, key).value in rows && FindSegment(rows, key).value.Key() == key
    ensures FindSegment(rows, key).None? ==> forall r | r in rows :: r.Key() != key
  {
    if rows != [] {
      FindSegmentFinds(rows[1..], key);
    }
  }

  /** Of several listed rows with this natural key the first is found. */
  lemma {:induction false} FirstSegmentIsFound(rows: seq<Segment>, spec: SegmentSpec, i: nat)
    requires i < |rows|
    requires rows[i].site == spec.site && rows[i].kind == spec.kind && rows[i].name == spec.name
    requires forall j | 0 <= j < i ::
               !(rows[j].site == spec.site && rows[j].kind == spec.kind && rows[j].name == spec.name)
    ensures FindSegment(rows, spec.Key()) == Some(rows[i])
  {
    if i > 0 {
      FirstSegmentIsFound(rows[1..], spec, i - 1);
    }
  }

  /** Of several listed profiles of this segment the first is found. */
  lemma {:induction false} FirstProfileIsFound(listed: seq<ProfileRead>, id: Id, i: nat)
    requires i < |listed| && listed[i].segmentId == id
    requires forall j | 0 <= j < i :: listed[j].segmentId != id
    ensures FindProfile(listed, id) == Some(listed[i])
  {
    if i > 0 {
      FirstProfileIsFound(listed[1..], id, i - 1);
    }
  }

  lemma {:induction false} FindProfileFinds(listed: seq<ProfileRead>, id: Id)
    ensures FindProfile(listed, id).Some? ==>
              FindProfile(listed, id).value in listed && FindProfile(listed, id).value.segmentId == id
    ensures FindProfile(listed, id).None? ==> forall r | r in listed :: r.segmentId != id
  {
    if listed != [] {
      FindProfileFinds(listed[1..], id);
    }
  }

  // ----- drift --------------------------------------------------------------------------------

  predicate SameNames(a: seq<string>, b: seq<string>) {
    (forall x | x in a :: x in b) && (forall x | x in b :: x in a)
  }

  lemma SameNamesAreOneSet(a: seq<string>, b: seq<string>)
    ensures SameNames(a, b) <==> (set x | x in a) == (set x | x in b)
  {
    var left, right := set x | x in a, set x | x in b;
    if left == right {
      assert forall x | x in a :: x in left;
      assert forall x | x in b :: x in right;
    }
  }

  /** sameSet: the same strings, ignoring order and repeats. */
  method SameSet(a: seq<string>, b: seq<string>) returns (same: bool)
    ensures same <==> SameNames(a, b)
    ensures same <==> (set x | x in a) == (set x | x in b)
  {
    var ma, mb := In(a), In(b);
    assert ma.Keys == (set x | x in a) && mb.Keys == (set x | x in b);
    SameNamesAreOneSet(a, b);
    if |ma.Keys| != |mb.Keys| {
      return false;
    }
    var left := ma.Keys;
    while left != {}
      invariant left <= ma.Keys
      invariant forall s | s in ma.Keys && s !in left :: s in mb
      decreases left
    {
      var s :| s in left;
      if s !in mb {
        return false;
      }
      left := left - {s};
    }
    SubsetOfSameSize(ma.Keys, mb.Keys);
    return true;
  }

  function In(list: seq<string>): (m: map<string, bool>)
    ensures forall s :: s in m <==> s in list
    ensures forall s | s in m :: m[s]
  {
    map s | s in list :: true
  }

  lemma {:induction false} SubsetOfSameSize<T>(a: set<T>, b: set<T>)
    requires a <= b && |a| == |b|
    ensures a == b
  {
    assert |b - a| == |b| - |a|;
  }

  predicate SegmentDrifted(spec: SegmentSpec, read: Segment) {
    || spec.vlanId != read.vlanId
    || NullableDiffers(spec.rank, read.rank)
    || (spec.filterIds.Some? && !SameNames(spec.filterIds.value, read.filterIds))
    || (spec.enabled.Some? && spec.enabled.value != read.enabled)
  }

  predicate ProfileDrifted(spec: ProfileSpec, read: ProfileRead) {
    || spec.sessionTimeout != read.sessionTimeout
    || (spec.terminationAction.Some? && spec.terminationAction.value != read.terminationAction)
    || NullableDiffers(spec.idleTimeout, read.idleTimeout)
    || NullableDiffers(spec.filterId, read.filterId)
    || NullableDiffers(spec.serviceType, read.serviceType)
  }

  predicate KnownTerminationAction(a: string) {
    a == TERMINATION_DEFAULT || a == TERMINATION_RADIUS_REQUEST
  }

  datatype PlanRefusal =
    | UnknownTerminationAction(segment: string, value: string)
    | UnknownServiceType(segment: string, value: string)

  /** refuseUnknownProfileEnum: a value this SDK does not know is never carried into a replacement. */
  function RefuseUnknownProfileEnum(segment: string, spec: ProfileSpec, read: ProfileRead): Option<PlanRefusal> {
    if spec.terminationAction.None? && !KnownTerminationAction(read.terminationAction) then
      Some(UnknownTerminationAction(segment, read.terminationAction))
    else if spec.serviceType.Absent? && read.serviceType.Some? && read.serviceType.value != SERVICE_FRAMED_USER then
      Some(UnknownServiceType(segment, read.serviceType.value))
    else None
  }

  // ----- steps --------------------------------------------------------------------------------

  datatype Change = ChangeCreate | ChangeUpdate | ChangeNone

  datatype Target = TargetPolicy | TargetSegment | TargetProfile

  datatype PlannedAction = PlannedAction(change: Change, target: Target, key: string)

  /** A step carries manifest keys and the read its write is built from. */
  datatype Step =
    | Noop
    | PolicyUpdate(policy: PolicySpec, policyRead: Policy)
    | SegmentCreate(segment: SegmentSpec)
    | SegmentUpdate(segment: SegmentSpec, segmentRead: Segment)
    | ProfileCreate(profile: ProfileSpec)
    | ProfileUpdate(profile: ProfileSpec, profileRead: ProfileRead)

  datatype PlannedStep = PlannedStep(action: PlannedAction, step: Step)

  const POLICY_KEY := "network.policy"

  /** The key -> id and key -> version tables planning fills and execution updates. */
  datatype Table = Table(ids: map<string, Id>, versions: map<string, int>) {
    function Put(key: string, id: Id, version: int): Table {
      Table(ids[key := id], versions[key := version])
    }
  }

  function PlanPolicy(n: NetworkSpec, snap: NetworkSnapshot): seq<PlannedStep> {
    if n.policy.None? || snap.policy.None? then []
    else if snap.policy.value.cap != n.policy.value.cap then
      [PlannedStep(PlannedAction(ChangeUpdate, TargetPolicy, POLICY_KEY),
                   PolicyUpdate(n.policy.value, snap.policy.value))]
    else [PlannedStep(PlannedAction(ChangeNone, TargetPolicy, POLICY_KEY), Noop)]
  }

  function PlanSegment(spec: SegmentSpec, rows: seq<Segment>): PlannedStep {
    match FindSegment(rows, spec.Key())
    case None => PlannedStep(PlannedAction(ChangeCreate, TargetSegment, spec.key), SegmentCreate(spec))
    case Some(row) =>
      if SegmentDrifted(spec, row)
      then PlannedStep(PlannedAction(ChangeUpdate, TargetSegment, spec.key), SegmentUpdate(spec, row))
      else PlannedStep(PlannedAction(ChangeNone, TargetSegment, spec.key), Noop)
  }

  function PlanSegments(specs: seq<SegmentSpec>, rows: seq<Segment>): seq<PlannedStep> {
    seq(|specs|, i requires 0 <= i < |specs| => PlanSegment(specs[i], rows))
  }

  /** The ids and versions the read already holds, on top of what the table had. */
  function FillTable(base: Table, specs: seq<SegmentSpec>, rows: seq<Segment>): Table {
    if specs == [] then base
    else
      var table := FillTable(base, specs[..|specs| - 1], rows);
      var last := specs[|specs| - 1];
      match FindSegment(rows, last.Key())
      case None => table
      case Some(row) => table.Put(last.key, row.id, row.version)
  }

  function ProfilesByKey(profiles: seq<ProfileSpec>): map<string, ProfileSpec> {
    if profiles == [] then map[]
    else
      var last := profiles[|profiles| - 1];
      ProfilesByKey(profiles[..|profiles| - 1])[last.segment := last]
  }

  /** The profile a read holds for this segment key, if its segment is already known. */
  function ExistingProfile(key: string, table: Table, listed: seq<ProfileRead>): Option<ProfileRead> {
    if key in table.ids then FindProfile(listed, table.ids[key]) else None
  }

  function PlanProfile(spec: ProfileSpec, key: string,
                       existing: Option<ProfileRead>): Result<PlannedStep, PlanRefusal> {
    match existing
    case None => Ok(PlannedStep(PlannedAction(ChangeCreate, TargetProfile, key), ProfileCreate(spec)))
    case Some(read) =>
      if !ProfileDrifted(spec, read) then Ok(PlannedStep(PlannedAction(ChangeNone, TargetProfile, key), Noop))
      else if RefuseUnknownProfileEnum(key, spec, read).Some? then Err(RefuseUnknownProfileEnum(key, spec, read).value)
      else Ok(PlannedStep(PlannedAction(ChangeUpdate, TargetProfile, key), ProfileUpdate(spec, read)))
  }

  function PlanProfiles(specs: seq<SegmentSpec>, profiles: map<string, ProfileSpec>, table: Table,
                        listed: seq<ProfileRead>): Result<seq<PlannedStep>, PlanRefusal> {
    if specs == [] then Ok([])
    else
      var rest := PlanProfiles(specs[1..], profiles, table, listed);
      var key := specs[0].key;
      if key !in profiles then rest
      else
        match PlanProfile(profiles[key], key, ExistingProfile(key, table, listed))
        case Err(e) => Err(e)
        case Ok(step) => Ahead([step], rest)
  }

  function Ahead(steps: seq<PlannedStep>,
                 rest: Result<seq<PlannedStep>, PlanRefusal>): Result<seq<PlannedStep>, PlanRefusal> {
    if rest.Err? then rest else Ok(steps + rest.value)
  }

  lemma AheadAssociates(a: seq<PlannedStep>, b: seq<PlannedStep>, rest: Result<seq<PlannedStep>, PlanRefusal>)
    ensures Ahead(a, Ahead(b, rest)) == Ahead(a + b, rest)
    ensures Ahead([], rest) == rest
  {
    if rest.Ok? {
      assert a + (b + rest.value) == (a + b) + rest.value;
      assert [] + rest.value == rest.value;
    }
  }

  datatype Planned = Planned(steps: seq<PlannedStep>, table: Table)

  function PlanNetwork(n: NetworkSpec, snap: NetworkSnapshot, base: Table): Result<Planned, PlanRefusal> {
    if n.IsEmpty() then Ok(Planned([], base))
    else
      var table := FillTable(base, n.segments, snap.segments);
      match PlanProfiles(n.segments, ProfilesByKey(n.profiles), table, snap.profiles)
      case Err(e) => Err(e)
      case Ok(steps) =>
        Ok(Planned(PlanPolicy(n, snap) + PlanSegments(n.segments, snap.segments) + steps, table))
  }

  const EMPTY_TABLE := Table(map[], map[])

  /** The plan a fresh Plan or Apply computes: the tables start empty. */
  function PlanOf(n: NetworkSpec, snap: NetworkSnapshot): Result<Planned, PlanRefusal> {
    PlanNetwork(n, snap, EMPTY_TABLE)
  }

  predicate IsConverged(steps: seq<PlannedStep>) {
    forall p | p in steps :: p.action.change == ChangeNone
  }

  // ----- planNetwork as the code runs it ------------------------------------------------------

  class Resolved {
    var networkSegments: map<string, Id>
    var networkSegmentVersions: map<string, int>

    constructor ()
      ensures View() == EMPTY_TABLE
    {
      networkSegments, networkSegmentVersions := map[], map[];
    }

    function View(): Table
      reads this
    {
      Table(networkSegments, networkSegmentVersions)
    }
  }

  method FindExisting(rows: seq<Segment>, spec: SegmentSpec) returns (existing: Option<Segment>)
    ensures existing == FindSegment(rows, spec.Key())
  {
    for i := 0 to |rows|
      invariant FindSegment(rows, spec.Key()) == FindSegment(rows[i..], spec.Key())
    {
      assert rows[i..][1..] == rows[i + 1..];
      if rows[i].site == spec.site && rows[i].kind == spec.kind && rows[i].name == spec.name {
        return Some(rows[i]);
      }
    }
    return None;
  }

  method FindExistingProfile(listed: seq<ProfileRead>, id: Id) returns (existing: Option<ProfileRead>)
    ensures existing == FindProfile(listed, id)
  {
    for i := 0 to |listed|
      invariant FindProfile(listed, id) == FindProfile(listed[i..], id)
    {
      assert listed[i..][1..] == listed[i + 1..];
      if listed[i].segmentId == id {
        return Some(listed[i]);
      }
    }
    return None;
  }

  method PlanSegmentSteps(specs: seq<SegmentSpec>, rows: seq<Segment>, res: Resolved) returns (steps: seq<PlannedStep>)
    modifies res
    ensures steps == PlanSegments(specs, rows)
    ensures res.View() == FillTable(old(res.View()), specs, rows)
  {
    steps := [];
    for i := 0 to |specs|
      invariant steps == PlanSegments(specs[..i], rows)
      invariant res.View() == FillTable(old(res.View()), specs[..i], rows)
    {
      var spec := specs[i];
      assert specs[..i + 1][..i] == specs[..i];
      var existing := FindExisting(rows, spec);
      if existing == None {
        steps := steps + [PlannedStep(PlannedAction(ChangeCreate, TargetSegment, spec.key), SegmentCreate(spec))];
        continue;
      }
      var row := existing.value;
      res.networkSegments := res.networkSegments[spec.key := row.id];
      res.networkSegmentVersions := res.networkSegmentVersions[spec.key := row.version];
      var drifted := NetworkSegmentDrifted(spec, row);
      if drifted {
        steps := steps + [PlannedStep(PlannedAction(ChangeUpdate, TargetSegment, spec.key), SegmentUpdate(spec, row))];
      } else {
        steps := steps + [PlannedStep(PlannedAction(ChangeNone, TargetSegment, spec.key), Noop)];
      }
    }
    assert specs[..|specs|] == specs;
  }

  /** networkSegmentDrifted, with sameSet's loop. */
  method NetworkSegmentDrifted(spec: SegmentSpec, read: Segment) returns (drifted: bool)
    ensures drifted <==> SegmentDrifted(spec, read)
  {
    if spec.vlanId != read.vlanId {
      return true;
    }
    if NullableDiffers(spec.rank, read.rank) {
      return true;
    }
    if spec.filterIds.Some? {
      var same := SameSet(spec.filterIds.value, read.filterIds);
      if !same {
        return true;
      }
    }
    if spec.enabled.Some? && spec.enabled.value != read.enabled {
      return true;
    }
    return false;
  }

  method PlanProfileSteps(n: NetworkSpec, listed: seq<ProfileRead>, res: Resolved)
    returns (steps: seq<PlannedStep>, refusal: Option<PlanRefusal>)
    ensures PlanProfiles(n.segments, ProfilesByKey(n.profiles), res.View(), listed) ==
            if refusal.Some? then Err(refusal.value) else Ok(steps)
  {
    var profiles: map<string, ProfileSpec> := map[];
    for i := 0 to |n.profiles|
      invariant profiles == ProfilesByKey(n.profiles[..i])
    {
      assert n.profiles[..i + 1][..i] == n.profiles[..i];
      profiles := profiles[n.profiles[i].segment := n.profiles[i]];
    }
    assert n.profiles[..|n.profiles|] == n.profiles;

    ghost var whole := PlanProfiles(n.segments, profiles, res.View(), listed);
    steps, refusal := [], None;
    assert n.segments[0..] == n.segments;
    AheadAssociates([], [], whole);
    for i := 0 to |n.segments|
      invariant refusal == None
      invariant whole == Ahead(steps, PlanProfiles(n.segments[i..], profiles, res.View(), listed))
    {
      var seg := n.segments[i];
      assert n.segments[i..][1..] == n.segments[i + 1..];
      ghost var rest := PlanProfiles(n.segments[i + 1..], profiles, res.View(), listed);
      ghost var ahead := steps;
      if seg.key !in profiles {
        continue;
      }
      var spec := profiles[seg.key];
      var existing := None;
      if seg.key in res.networkSegments {
        existing := FindExistingProfile(listed, res.networkSegments[seg.key]);
      }
      if existing == None {
        steps := steps + [PlannedStep(PlannedAction(ChangeCreate, TargetProfile, seg.key), ProfileCreate(spec))];
        AheadAssociates(ahead, steps[|ahead|..], rest);
        continue;
      }
      var read := existing.value;
      if ProfileDrifted(spec, read) {
        refusal := RefuseUnknownProfileEnum(seg.key, spec, read);
        if refusal.Some? {
          return;
        }
        steps := steps + [PlannedStep(PlannedAction(ChangeUpdate, TargetProfile, seg.key), ProfileUpdate(spec, read))];
      } else {
        steps := steps + [PlannedStep(PlannedAction(ChangeNone, TargetProfile, seg.key), Noop)];
      }
      AheadAssociates(ahead, steps[|ahead|..], rest);
    }
    assert n.segments[|n.segments|..] == [] && steps + [] == steps;
  }

  /** planNetwork: the policy, then the segments, then the profiles in their segments' order. */
  method RunPlanNetwork(n: NetworkSpec, snap: NetworkSnapshot, res: Resolved)
    returns (steps: seq<PlannedStep>, refusal: Option<PlanRefusal>)
    modifies res
    ensures PlanNetwork(n, snap, old(res.View())) ==
            if refusal.Some? then Err(refusal.value) else Ok(Planned(steps, res.View()))
  {
    steps, refusal := [], None;
    if n.IsEmpty() {
      return;
    }
    if n.policy.Some? && snap.policy.Some? {
      if snap.policy.value.cap != n.policy.value.cap {
        steps := [PlannedStep(PlannedAction(ChangeUpdate, TargetPolicy, POLICY_KEY),
                              PolicyUpdate(n.policy.value, snap.policy.value))];
      } else {
        steps := [PlannedStep(PlannedAction(ChangeNone, TargetPolicy, POLICY_KEY), Noop)];
      }
    }
    var segmentSteps := PlanSegmentSteps(n.segments, snap.segments, res);
    var profileSteps;
    profileSteps, refusal := PlanProfileSteps(n, snap.profiles, res);
    steps := steps + segmentSteps + profileSteps;
  }
}
