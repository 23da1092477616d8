/** What a caller of Plan and Apply may rely on, beyond convergence. */
module NetworkGuarantees {
  import opened Wrappers
  import opened Nullables
  import opened Keys
  import opened NetworkServer
  import opened NetworkManifest
  import opened NetworkPlan
  import opened NetworkApply
  import opened NetworkRun
  import opened NetworkConvergence

  // ----- versions -----------------------------------------------------------------------------

  /** With no other writer, no write of an Apply is stale, names a row that is not there or makes one
      that is: the server's own rules can only object to a value. */
  lemma QuietWritesAreNeverStale(n: NetworkSpec, s: Server, snap: NetworkSnapshot, planned: Planned,
                                 sent: seq<Exchange>, tape: Tape)
    requires Quiet(tape) && WellFormed(s) && ValidNetwork(n) && Reads(n, s, s, s, snap)
    requires PlanOf(n, snap) == Ok(planned)
    ensures var all := ApplyPlan(planned, Net(s, sent), tape).net.sent;
            && |sent| <= |all| && all[..|sent|] == sent
            && forall i | |sent| <= i < |all| ::
                 Current(all[i]) && Judge(all[i].before, all[i].write) in {None, Some(AboveCap), Some(BadValue)}
  {
    QuietApply(n, s, snap, planned, sent, tape);
    var all := ApplyPlan(planned, Net(s, sent), tape).net.sent;
    forall i | |sent| <= i < |all|
      ensures Current(all[i]) && Judge(all[i].before, all[i].write) in {None, Some(AboveCap), Some(BadValue)}
    {
      CurrentIsJudgedByValue(all[i]);
    }
  }

  /** The server can object to a current write only for a value. */
  lemma CurrentIsJudgedByValue(x: Exchange)
    requires Current(x)
    ensures Judge(x.before, x.write) in {None, Some(AboveCap), Some(BadValue)}
  {
  }

  // ----- rows ---------------------------------------------------------------------------------

  /** A replacement is a merge: after a complete Apply each stated segment's row is the read row with the
      stated members replaced (null clears, absent keeps), or the row a create defaults, and each stated
      profile likewise; the rows the manifest does not name are as they were. */
  lemma ReplacementIsMerge(n: NetworkSpec, s: Server, snap: NetworkSnapshot, planned: Planned, sent: seq<Exchange>,
                           tape: Tape)
    requires Quiet(tape) && WellFormed(s) && ValidNetwork(n) && Reads(n, s, s, s, snap)
    requires PlanOf(n, snap) == Ok(planned) && !ApplyPlan(planned, Net(s, sent), tape).stopped
    ensures var t := ApplyPlan(planned, Net(s, sent), tape).net.server;
            && Untouched(n, s, t)
            && (n.policy.Some? ==> t.policy == SettledPolicy(n.policy.value, s.policy))
            && forall seg | seg in n.segments :: RowsMerged(n, s, snap, t, seg)
  {
    QuietApply(n, s, snap, planned, sent, tape);
    var run := ApplyPlan(planned, Net(s, sent), tape);
    forall seg | seg in n.segments ensures RowsMerged(n, s, snap, run.net.server, seg) {
      assert SegmentDone(seg, snap.segments, run);
      var id := run.table.ids[seg.key];
      if seg.key in ProfilesByKey(n.profiles) && FoundProfile(seg, snap).Some? {
        ProfileReadBefore(n, s, snap, seg);
      }
      assert RowsMergedAt(n, s, snap, run.net.server, seg, id);
    }
  }

  ghost predicate RowsMerged(n: NetworkSpec, s: Server, snap: NetworkSnapshot, t: Server, seg: SegmentSpec) {
    exists id :: RowsMergedAt(n, s, snap, t, seg, id)
  }

  ghost predicate RowsMergedAt(n: NetworkSpec, s: Server, snap: NetworkSnapshot, t: Server, seg: SegmentSpec, id: Id) {
    var found := FindSegment(snap.segments, seg.Key());
    && id in t.segments && t.segments[id] == SettledSegment(seg, found, id)
    && (found.Some? ==> id == found.value.id)
    && (seg.key in ProfilesByKey(n.profiles) ==>
          var spec, profile := ProfilesByKey(n.profiles)[seg.key], FoundProfile(seg, snap);
          && id in t.profiles
          && (profile.Some? ==> id in s.profiles)
          && t.profiles[id] ==
             SettledProfile(spec, profile, if profile.Some? then s.profiles[id] else t.profiles[id], id))
  }

  // ----- drift --------------------------------------------------------------------------------

  /** The same segment, with Filter-Ids compared as a set. */
  predicate SameSegment(a: Segment, b: Segment) {
    a.(filterIds := b.filterIds) == b && (set f | f in a.filterIds) == (set f | f in b.filterIds)
  }

  /** A segment is judged drifted exactly when the replacement would change its row. */
  lemma DriftIsWhatAReplacementWouldChange(spec: SegmentSpec, row: Segment)
    ensures SegmentDrifted(spec, row) <==> !SameSegment(OverlaySegment(spec, row).(version := row.version), row)
  {
    ResolvedMemberSettles(spec.rank, row.rank);
    SameNamesAreOneSet(spec.filterIds.GetOr(row.filterIds), row.filterIds);
  }

  /** The effective profile stored as it was read. */
  function StoredAsRead(read: ProfileRead): Profile {
    Profile(read.segmentId, read.dictionary, read.sessionTimeout, read.terminationAction, read.idleTimeout,
            read.filterId,
            read.serviceType, read.version + 1)
  }

  /** A profile is judged drifted exactly when the replacement would change what is read. */
  lemma ProfileDriftIsWhatAReplacementWouldChange(spec: ProfileSpec, read: ProfileRead)
    ensures ProfileDrifted(spec, read) <==> OverlayProfile(spec, read) != StoredAsRead(read)
  {
  }

  // ----- the plan's shape ---------------------------------------------------------------------

  /** The keys of the segments that have a profile spec, in the segments' order. */
  function ProfiledKeys(specs: seq<SegmentSpec>, profiles: map<string, ProfileSpec>): seq<string> {
    if specs == [] then []
    else (if specs[0].key in profiles then [specs[0].key] else []) + ProfiledKeys(specs[1..], profiles)
  }

  /** What an action says of a stated profile, judged as a segment is. */
  function ProfileChange(spec: ProfileSpec, found: Option<ProfileRead>): Change {
    match found
    case None => ChangeCreate
    case Some(read) => if OverlayProfile(spec, read) == StoredAsRead(read) then ChangeNone else ChangeUpdate
  }

  /** The actions of the stated profiles, in their segments' order. */
  function ProfileActions(specs: seq<SegmentSpec>, profiles: map<string, ProfileSpec>,
                          snap: NetworkSnapshot): (r: seq<PlannedAction>)
    ensures |r| == |ProfiledKeys(specs, profiles)|
    ensures forall i | 0 <= i < |r| :: r[i].target == TargetProfile && r[i].key == ProfiledKeys(specs, profiles)[i]
  {
    if specs == [] then []
    else
      var key := specs[0].key;
      (if key in profiles
       then [PlannedAction(ProfileChange(profiles[key], FoundProfile(specs[0], snap)), TargetProfile, key)] else [])
      + ProfileActions(specs[1..], profiles, snap)
  }

  /** The read's termination action is none the SDK knows, and the spec does not state one. */
  predicate GuessesTermination(spec: ProfileSpec, read: ProfileRead) {
    spec.terminationAction.None? && read.terminationAction !in {"default", "radius_request"}
  }

  predicate GuessesService(spec: ProfileSpec, read: ProfileRead) {
    spec.serviceType.Absent? && read.serviceType.Some? && read.serviceType.value != "framed_user"
  }

  /** The plan would carry an open-enum value of this profile's read that it does not know. */
  predicate Guesses(seg: SegmentSpec, profiles: map<string, ProfileSpec>, snap: NetworkSnapshot) {
    && seg.key in profiles && FoundProfile(seg, snap).Some?
    && var spec, read := profiles[seg.key], FoundProfile(seg, snap).value;
       && OverlayProfile(spec, read) != StoredAsRead(read)
       && (GuessesTermination(spec, read) || GuessesService(spec, read))
  }

  /** The refusal names the segment and the value, the termination action before the service type. */
  predicate RefusalNames(seg: SegmentSpec, spec: ProfileSpec, read: ProfileRead, refusal: PlanRefusal) {
    if GuessesTermination(spec, read) then refusal == UnknownTerminationAction(seg.key, read.terminationAction)
    else GuessesService(spec, read) && refusal == UnknownServiceType(seg.key, read.serviceType.value)
  }

  /** The refusal is of spec i, the first that would be a guess. */
  ghost predicate RefusedAt(specs: seq<SegmentSpec>, profiles: map<string, ProfileSpec>, snap: NetworkSnapshot,
                            refusal: PlanRefusal, i: nat) {
    && i < |specs| && Guesses(specs[i], profiles, snap)
    && RefusalNames(specs[i], profiles[specs[i].key], FoundProfile(specs[i], snap).value, refusal)
    && forall j | 0 <= j < i :: !Guesses(specs[j], profiles, snap)
  }

  lemma OneIsRefused(seg: SegmentSpec, profiles: map<string, ProfileSpec>, snap: NetworkSnapshot)
    requires seg.key in profiles
    ensures var planned := PlanProfile(profiles[seg.key], seg.key, FoundProfile(seg, snap));
            && (planned.Err? <==> Guesses(seg, profiles, snap))
            && (planned.Err? ==>
                  RefusalNames(seg, profiles[seg.key], FoundProfile(seg, snap).value, planned.error))
  {
    if FoundProfile(seg, snap).Some? {
      ProfileDriftIsWhatAReplacementWouldChange(profiles[seg.key], FoundProfile(seg, snap).value);
    }
  }

  lemma {:induction false} ProfilesRefuseAGuess(specs: seq<SegmentSpec>, profiles: map<string, ProfileSpec>,
                                                table: Table, snap: NetworkSnapshot) returns (i: nat)
    requires forall seg | seg in specs :: ExistingProfile(seg.key, table, snap.profiles) == FoundProfile(seg, snap)
    ensures var planned := PlanProfiles(specs, profiles, table, snap.profiles);
            if planned.Err? then RefusedAt(specs, profiles, snap, planned.error, i)
            else forall seg | seg in specs :: !Guesses(seg, profiles, snap)
  {
    i := 0;
    if specs != [] {
      var rest := specs[1..];
      assert specs == [specs[0]] + rest;
      if specs[0].key in profiles {
        OneIsRefused(specs[0], profiles, snap);
      }
      if !Guesses(specs[0], profiles, snap) {
        var k := ProfilesRefuseAGuess(rest, profiles, table, snap);
        i := k + 1;
        assert forall j | 0 < j < |specs| :: specs[j] == rest[j - 1];
      }
    }
  }

  lemma {:induction false} ProfilesKeepSegmentOrder(specs: seq<SegmentSpec>, profiles: map<string, ProfileSpec>,
                                                    table: Table,
                                                    snap: NetworkSnapshot)
    requires forall seg | seg in specs :: ExistingProfile(seg.key, table, snap.profiles) == FoundProfile(seg, snap)
    requires PlanProfiles(specs, profiles, table, snap.profiles).Ok?
    ensures Actions(PlanProfiles(specs, profiles, table, snap.profiles).value) == ProfileActions(specs, profiles, snap)
  {
    if specs != [] {
      var rest, key := specs[1..], specs[0].key;
      ProfilesKeepSegmentOrder(rest, profiles, table, snap);
      if key in profiles {
        ProfileIsJudged(specs[0], profiles[key], snap);
        var first := PlanProfile(profiles[key], key, FoundProfile(specs[0], snap)).value;
        var later := PlanProfiles(rest, profiles, table, snap.profiles).value;
        assert Actions([first] + later) == [first.action] + Actions(later);
      }
    }
  }

  lemma ProfileIsJudged(seg: SegmentSpec, spec: ProfileSpec, snap: NetworkSnapshot)
    ensures var planned := PlanProfile(spec, seg.key, FoundProfile(seg, snap));
            planned.Ok? ==>
              planned.value.action ==
                  PlannedAction(ProfileChange(spec, FoundProfile(seg, snap)), TargetProfile, seg.key)
  {
    if FoundProfile(seg, snap).Some? {
      ProfileDriftIsWhatAReplacementWouldChange(spec, FoundProfile(seg, snap).value);
    }
  }

  /** Every profile spec of a valid section is planned exactly once. */
  lemma {:induction false} EveryProfileOnce(specs: seq<SegmentSpec>, profiles: map<string, ProfileSpec>)
    requires Distinct(SpecKeys(specs))
    ensures Distinct(ProfiledKeys(specs, profiles))
    ensures forall key :: key in ProfiledKeys(specs, profiles) <==> key in SpecKeys(specs) && key in profiles
  {
    if specs != [] {
      var rest := specs[1..];
      assert SpecKeys(specs) == [specs[0].key] + SpecKeys(rest);
      assert forall i | 0 <= i < |rest| :: SpecKeys(rest)[i] == SpecKeys(specs)[i + 1];
      EveryProfileOnce(rest, profiles);
      forall i | 0 <= i < |rest| ensures rest[i].key != specs[0].key {
        assert SpecKeys(specs)[0] != SpecKeys(specs)[i + 1];
      }
    }
  }

  /** What an action says of a stated segment: create when no row carries its key, update when a
      replacement would change the row, nothing otherwise. */
  function SegmentChange(spec: SegmentSpec, rows: seq<Segment>): Change {
    match FindSegment(rows, spec.Key())
    case None => ChangeCreate
    case Some(row) =>
      if SameSegment(OverlaySegment(spec, row).(version := row.version), row) then ChangeNone else ChangeUpdate
  }

  /** The actions of the stated policy and segments, judged by what a replacement would change. */
  function PolicyAndSegmentActions(n: NetworkSpec, snap: NetworkSnapshot): seq<PlannedAction> {
    (if n.policy.None? || snap.policy.None? then []
     else [PlannedAction(if n.policy.value.cap == snap.policy.value.cap then ChangeNone
                         else ChangeUpdate, TargetPolicy, POLICY_KEY)])
    + seq(|n.segments|, i requires 0 <= i < |n.segments| =>
        PlannedAction(SegmentChange(n.segments[i], snap.segments), TargetSegment, n.segments[i].key))
  }

  lemma SegmentActionsAreJudged(specs: seq<SegmentSpec>, rows: seq<Segment>)
    ensures Actions(PlanSegments(specs, rows)) ==
            seq(|specs|,
                i requires 0 <= i < |specs| => PlannedAction(SegmentChange(specs[i], rows), TargetSegment,
                                                             specs[i].key))
  {
    forall i | 0 <= i < |specs|
      ensures PlanSegment(specs[i], rows).action ==
              PlannedAction(SegmentChange(specs[i], rows), TargetSegment, specs[i].key)
    {
      var found := FindSegment(rows, specs[i].Key());
      if found.Some? {
        DriftIsWhatAReplacementWouldChange(specs[i], found.value);
      }
    }
  }

  /** One action per spec and nothing else: the policy, the segments in their order, then the profiles in
      their segments' order, each stated profile exactly once; and what each says is what a replacement
      would change. */
  lemma PlanShape(n: NetworkSpec, snap: NetworkSnapshot)
    requires ValidNetwork(n) && PlanOf(n, snap).Ok?
    ensures Actions(PlanOf(n, snap).value.steps) ==
            PolicyAndSegmentActions(n, snap) + ProfileActions(n.segments, ProfilesByKey(n.profiles), snap)
    ensures var keys := ProfiledKeys(n.segments, ProfilesByKey(n.profiles));
            Distinct(keys) && forall key :: key in keys <==> key in ProfileKeys(n.profiles)
  {
    var profiles := ProfilesByKey(n.profiles);
    ProfilesFiled(n.profiles);
    EveryProfileOnce(n.segments, profiles);
    if !n.IsEmpty() {
      ActionsInOrder(n, snap);
    }
  }

  lemma ActionsAppend(a: seq<PlannedStep>, b: seq<PlannedStep>)
    ensures Actions(a + b) == Actions(a) + Actions(b)
  {
  }

  lemma ActionsInOrder(n: NetworkSpec, snap: NetworkSnapshot)
    requires ValidNetwork(n) && !n.IsEmpty() && PlanOf(n, snap).Ok?
    ensures Actions(PlanOf(n, snap).value.steps) ==
            PolicyAndSegmentActions(n, snap) + ProfileActions(n.segments, ProfilesByKey(n.profiles), snap)
  {
    var table, profiles := FillTable(EMPTY_TABLE, n.segments, snap.segments), ProfilesByKey(n.profiles);
    var a, b := PlanPolicy(n, snap), PlanSegments(n.segments, snap.segments);
    var c := PlanProfiles(n.segments, profiles, table, snap.profiles).value;
    ActionsAppend(a + b, c);
    PolicyAndSegmentsInOrder(n, snap);
    ProfilesAreFound(n, snap);
    ProfilesKeepSegmentOrder(n.segments, profiles, table, snap);
  }

  lemma PolicyAndSegmentsInOrder(n: NetworkSpec, snap: NetworkSnapshot)
    ensures Actions(PlanPolicy(n, snap) + PlanSegments(n.segments, snap.segments)) == PolicyAndSegmentActions(n, snap)
  {
    ActionsAppend(PlanPolicy(n, snap), PlanSegments(n.segments, snap.segments));
    SegmentActionsAreJudged(n.segments, snap.segments);
  }

  /** A plan is refused exactly when some profile it would replace was read with an open-enum value the SDK
      does not know in a member the manifest does not state, and then for the first of them: a create and a
      no-change never are. */
  lemma PlanRefusesExactlyAGuess(n: NetworkSpec, snap: NetworkSnapshot)
    requires ValidNetwork(n)
    ensures PlanOf(n, snap).Err? <==> exists seg | seg in n.segments :: Guesses(seg, ProfilesByKey(n.profiles), snap)
    ensures PlanOf(n, snap).Err? ==>
              exists i: nat :: RefusedAt(n.segments, ProfilesByKey(n.profiles), snap, PlanOf(n, snap).error, i)
  {
    if !n.IsEmpty() {
      ProfilesAreFound(n, snap);
      var table := FillTable(EMPTY_TABLE, n.segments, snap.segments);
      var i := ProfilesRefuseAGuess(n.segments, ProfilesByKey(n.profiles), table, snap);
    }
  }

  // ----- listing order and chosen reads -------------------------------------------------------

  lemma {:induction false} SameTable(base: Table, specs: seq<SegmentSpec>, rows: seq<Segment>, others: seq<Segment>)
    requires forall spec | spec in specs :: FindSegment(rows, spec.Key()) == FindSegment(others, spec.Key())
    ensures FillTable(base, specs, rows) == FillTable(base, specs, others)
  {
    if specs != [] {
      SameTable(base, specs[..|specs| - 1], rows, others);
    }
  }

  lemma {:induction false} SameProfilePlan(specs: seq<SegmentSpec>, profiles: map<string, ProfileSpec>, table: Table,
                                           listed: seq<ProfileRead>, others: seq<ProfileRead>)
    requires forall id :: FindProfile(listed, id) == FindProfile(others, id)
    ensures PlanProfiles(specs, profiles, table, listed) == PlanProfiles(specs, profiles, table, others)
  {
    if specs != [] {
      SameProfilePlan(specs[1..], profiles, table, listed, others);
    }
  }

  lemma {:induction false} NoProfilesPlanned(specs: seq<SegmentSpec>, table: Table, listed: seq<ProfileRead>)
    ensures PlanProfiles(specs, map[], table, listed) == Ok([])
  {
    if specs != [] {
      NoProfilesPlanned(specs[1..], table, listed);
    }
  }

  /** Two plans over unchanged state are equal: neither the order the server lists rows in, nor the lists
      the section did not need, make a difference. */
  lemma PlanIgnoresListingOrder(n: NetworkSpec, s: Server, snap: NetworkSnapshot, full: NetworkSnapshot)
    requires WellFormed(s) && Reads(n, s, s, s, snap) && ReadsAll(s, full)
    ensures PlanOf(n, snap) == PlanOf(n, full)
  {
    if !n.IsEmpty() {
      forall spec | spec in n.segments
        ensures FindSegment(snap.segments, spec.Key()) == FindSegment(full.segments, spec.Key())
      {
        FoundInListing(snap.segments, s, spec.Key());
        FoundInListing(full.segments, s, spec.Key());
      }
      SameTable(EMPTY_TABLE, n.segments, snap.segments, full.segments);
      assert PlanSegments(n.segments, snap.segments) == PlanSegments(n.segments, full.segments);
      var table := FillTable(EMPTY_TABLE, n.segments, snap.segments);
      if n.profiles == [] {
        NoProfilesPlanned(n.segments, table, snap.profiles);
        NoProfilesPlanned(n.segments, table, full.profiles);
      } else {
        forall id ensures FindProfile(snap.profiles, id) == FindProfile(full.profiles, id) {
          ProfileInListing(snap.profiles, s, id);
          ProfileInListing(full.profiles, s, id);
        }
        SameProfilePlan(n.segments, ProfilesByKey(n.profiles), table, snap.profiles, full.profiles);
      }
    }
  }

  // ----- what a planned step holds ------------------------------------------------------------

  predicate Names(table: Table, key: string, id: Id) {
    key in table.ids && table.ids[key] == id
  }

  /** A step carries a spec of the manifest and, for a replacement, the row of the snapshot that spec is matched
      to: a segment by its natural key, a profile through the tables. No replacement of a profile would guess. */
  ghost predicate PlannedFor(n: NetworkSpec, snap: NetworkSnapshot, table: Table, p: PlannedStep) {
    match p.step
    case Noop => true
    case PolicyUpdate(spec, read) => n.policy == Some(spec) && snap.policy == Some(read)
    case SegmentCreate(spec) => spec in n.segments && p.action.key == spec.key
    case SegmentUpdate(spec, read) =>
      spec in n.segments && p.action.key == spec.key && read in snap.segments && read.Key() == spec.Key()
    case ProfileCreate(spec) => spec in n.profiles
    case ProfileUpdate(spec, read) =>
      && spec in n.profiles && read in snap.profiles && Names(table, spec.segment, read.segmentId)
      && RefuseUnknownProfileEnum(spec.segment, spec, read).None?
  }

  lemma {:induction false} ProfileStepsArePlannedFor(n: NetworkSpec, specs: seq<SegmentSpec>,
                                                     profiles: map<string, ProfileSpec>, table: Table,
                                                     snap: NetworkSnapshot)
    requires forall key | key in profiles :: profiles[key].segment == key && profiles[key] in n.profiles
    requires PlanProfiles(specs, profiles, table, snap.profiles).Ok?
    ensures forall p | p in PlanProfiles(specs, profiles, table, snap.profiles).value :: PlannedFor(n, snap, table, p)
  {
    if specs != [] {
      ProfileStepsArePlannedFor(n, specs[1..], profiles, table, snap);
      var key := specs[0].key;
      if key in profiles && key in table.ids {
        FindProfileFinds(snap.profiles, table.ids[key]);
      }
    }
  }

  /** Every step of a plan is of the manifest's own specs and the snapshot's own rows, each with its match. */
  lemma StepsArePlannedFor(n: NetworkSpec, snap: NetworkSnapshot)
    requires PlanOf(n, snap).Ok?
    ensures forall p | p in PlanOf(n, snap).value.steps :: PlannedFor(n, snap, PlanOf(n, snap).value.table, p)
  {
    if !n.IsEmpty() {
      var table := FillTable(EMPTY_TABLE, n.segments, snap.segments);
      ProfilesFiled(n.profiles);
      ProfileStepsArePlannedFor(n, n.segments, ProfilesByKey(n.profiles), table, snap);
      forall spec | spec in n.segments ensures PlannedFor(n, snap, table, PlanSegment(spec, snap.segments)) {
        FindSegmentFinds(snap.segments, spec.Key());
      }
    }
  }

  lemma {:induction false} SentComesFromSteps(steps: seq<PlannedStep>, run: Run, tape: Tape)
    ensures var run' := Execute(steps, run, tape);
            && |run.net.sent| <= |run'.net.sent| && run'.net.sent[..|run.net.sent|] == run.net.sent
            && forall i | |run.net.sent| <= i < |run'.net.sent| :: SentByAStep(steps, run'.net.sent[i].write)
    decreases |steps|
  {
    if steps != [] {
      var next := ExecuteOne(run, steps[0], tape);
      var run' := Execute(steps[1..], next, tape);
      SentComesFromSteps(steps[1..], next, tape);
      assert run'.net.sent[..|run.net.sent|] == run'.net.sent[..|next.net.sent|][..|run.net.sent|];
      forall i | |run.net.sent| <= i < |run'.net.sent| ensures SentByAStep(steps, run'.net.sent[i].write) {
        if i < |next.net.sent| {
          assert run'.net.sent[i] == run'.net.sent[..|next.net.sent|][i];
          assert run'.net.sent[i].write == WriteFor(steps[0].step, run.table);
          assert steps[0] in steps;
        } else {
          assert SentByAStep(steps[1..], run'.net.sent[i].write);
          var p, table :| p in steps[1..] && !p.step.Noop? && run'.net.sent[i].write == WriteFor(p.step, table);
          assert p in steps;
        }
      }
    }
  }

  ghost predicate SentByAStep(steps: seq<PlannedStep>, w: Write) {
    exists p, table :: p in steps && !p.step.Noop? && w == WriteFor(p.step, table)
  }

  // ----- open enumerations --------------------------------------------------------------------

  /** A replacement body whose open-enum members are known to the SDK or stated by the manifest. */
  predicate NothingGuessed(spec: ProfileSpec, input: ProfileInput) {
    && input.terminationAction.Some?
    && (input.terminationAction.value in {"default", "radius_request"}
        || spec.terminationAction == input.terminationAction)
    && (input.serviceType.Some? ==>
          input.serviceType.value == "framed_user" || spec.serviceType == Value(input.serviceType.value))
  }

  /** The manifest states this very profile, that of the segment its key was matched to, and the replacement
      guesses nothing of it. */
  ghost predicate StatedForIt(n: NetworkSpec, table: Table, id: Id, input: ProfileInput) {
    exists spec :: spec in n.profiles && Names(table, spec.segment, id) && NothingGuessed(spec, input)
  }

  /** Whoever else writes: once a plan is accepted, no profile replacement its Apply sends carries an
      open-enum value the SDK does not know and the manifest does not state for that profile. */
  lemma UnknownEnumIsNeverResent(n: NetworkSpec, snap: NetworkSnapshot, planned: Planned, net: Net, tape: Tape)
    requires PlanOf(n, snap) == Ok(planned)
    ensures var all := ApplyPlan(planned, net, tape).net.sent;
            && |net.sent| <= |all| && all[..|net.sent|] == net.sent
            && forall i | |net.sent| <= i < |all| && all[i].write.ReplaceProfile? ::
                 StatedForIt(n, planned.table, all[i].write.segmentId, all[i].write.profile)
  {
    var all := ApplyPlan(planned, net, tape).net.sent;
    SentComesFromSteps(planned.steps, Run(net, planned.table, [], false), tape);
    forall i | |net.sent| <= i < |all| && all[i].write.ReplaceProfile?
      ensures StatedForIt(n, planned.table, all[i].write.segmentId, all[i].write.profile)
    {
      SentIsStatedForIt(n, snap, planned, all[i].write);
    }
  }

  lemma SentIsStatedForIt(n: NetworkSpec, snap: NetworkSnapshot, planned: Planned, w: Write)
    requires PlanOf(n, snap) == Ok(planned) && SentByAStep(planned.steps, w) && w.ReplaceProfile?
    ensures StatedForIt(n, planned.table, w.segmentId, w.profile)
  {
    StepsArePlannedFor(n, snap);
    var p, table :| p in planned.steps && !p.step.Noop? && w == WriteFor(p.step, table);
    assert PlannedFor(n, snap, planned.table, p) && NothingGuessed(p.step.profile, w.profile);
  }
}
