/** What an undisturbed Apply leaves behind, row by row, and what every write of it names. */
module NetworkRun {
  import opened Wrappers
  import opened Nullables
  import opened Keys
  import opened NetworkServer
  import opened NetworkManifest
  import opened NetworkPlan
  import opened NetworkApply

  // ----- the rows a spec asks for, stated without the request bodies --------------------------

  /** A stated member over the read's: absent keeps it, null clears it, a value replaces it. */
  function Over<T>(stated: Nullable<T>, read: Option<T>): Option<T> {
    if stated.Absent? then read else if stated.Null? then None else Some(stated.value)
  }

  /** The read row with the stated members replaced and every other one kept. */
  function OverlaySegment(spec: SegmentSpec, row: Segment): Segment {
    row.(vlanId := spec.vlanId, rank := Over(spec.rank, row.rank), filterIds := spec.filterIds.GetOr(row.filterIds),
         enabled := spec.enabled.GetOr(row.enabled), version := row.version + 1)
  }

  function NewSegment(spec: SegmentSpec, id: Id): Segment {
    Segment(id, spec.site, spec.kind, spec.name, spec.vlanId, Over(spec.rank, None), spec.filterIds.GetOr([]),
            spec.enabled.GetOr(true), 1)
  }

  /** The read profile, the effective one, with the stated members replaced and the others kept. */
  function OverlayProfile(spec: ProfileSpec, read: ProfileRead): Profile {
    Profile(read.segmentId, read.dictionary, spec.sessionTimeout, spec.terminationAction.GetOr(read.terminationAction),
            Over(spec.idleTimeout, read.idleTimeout), Over(spec.filterId, read.filterId),
            Over(spec.serviceType, read.serviceType), read.version + 1)
  }

  function NewProfile(spec: ProfileSpec, id: Id): Profile {
    Profile(id, DEFAULT_DICTIONARY, spec.sessionTimeout, spec.terminationAction.GetOr(TERMINATION_RADIUS_REQUEST),
            Over(spec.idleTimeout, None), Over(spec.filterId, None), Over(spec.serviceType, None), 1)
  }

  /** The row a spec ends with, from the row the plan found for it. */
  function SettledSegment(spec: SegmentSpec, found: Option<Segment>, id: Id): Segment {
    match found
    case None => NewSegment(spec, id)
    case Some(row) => if SegmentDrifted(spec, row) then OverlaySegment(spec, row) else row
  }

  /** The profile a spec ends with, from the one the plan read and the one then stored. */
  function SettledProfile(spec: ProfileSpec, found: Option<ProfileRead>, stored: Profile, id: Id): Profile {
    match found
    case None => NewProfile(spec, id)
    case Some(read) => if ProfileDrifted(spec, read) then OverlayProfile(spec, read) else stored
  }

  // ----- what a write must name to be current -------------------------------------------------

  /** The write names rows that exist, at the versions they have when it arrives, and creates only
      what is not there. A manifest's run never deletes. */
  predicate Current(x: Exchange) {
    match x.write
    case ReplacePolicy(_, version) => version == x.before.policy.version
    case CreateSegment(kind, site, name, _, _, _, _) => !KeyTaken(x.before, NaturalKey(site, kind, name))
    case ReplaceSegment(id, _, _, version, _, _) => id in x.before.segments && x.before.segments[id].version == version
    case CreateProfile(id, segmentVersion, _) =>
      && id in x.before.segments && x.before.segments[id].version == segmentVersion && id !in x.before.profiles
    case ReplaceProfile(id, _, segmentVersion, version) =>
      && id in x.before.segments && x.before.segments[id].version == segmentVersion
      && id in x.before.profiles && x.before.profiles[id].version == version
    case _ => false
  }

  ghost predicate CurrentSince(sent: seq<Exchange>, from: nat) {
    forall i | from <= i < |sent| :: Current(sent[i])
  }

  /** The later run sent more, and every write it added was current. */
  ghost predicate Grown(run: Run, run': Run) {
    && |run.net.sent| <= |run'.net.sent| && run'.net.sent[..|run.net.sent|] == run.net.sent
    && CurrentSince(run'.net.sent, |run.net.sent|)
  }

  // ----- segments -----------------------------------------------------------------------------

  /** The row a pending segment step was planned on is still the server's, and the tables know it. */
  ghost predicate SegmentReady(spec: SegmentSpec, rows: seq<Segment>, run: Run) {
    match FindSegment(rows, spec.Key())
    case None => !KeyTaken(run.net.server, spec.Key())
    case Some(row) =>
      && row.Key() == spec.Key()
      && row.id in run.net.server.segments && run.net.server.segments[row.id] == row
      && spec.key in run.table.ids && run.table.ids[spec.key] == row.id
      && spec.key in run.table.versions && run.table.versions[spec.key] == row.version
  }

  /** The tables name the spec's own row at its current version. */
  ghost predicate SegmentKnown(spec: SegmentSpec, run: Run) {
    && spec.key in run.table.ids && spec.key in run.table.versions
    && run.table.ids[spec.key] in run.net.server.segments
    && var row := run.net.server.segments[run.table.ids[spec.key]];
       row.Key() == spec.Key() && row.version == run.table.versions[spec.key]
  }

  ghost predicate SegmentDone(spec: SegmentSpec, rows: seq<Segment>, run: Run) {
    && SegmentKnown(spec, run)
    && var id := run.table.ids[spec.key];
       && run.net.server.segments[id] == SettledSegment(spec, FindSegment(rows, spec.Key()), id)
       && (FindSegment(rows, spec.Key()).Some? ==> FindSegment(rows, spec.Key()).value.id == id)
  }

  /** Only segments with these natural keys changed, none lost its key or went away, and the only
      new ones carry one of these keys under a fresh id. */
  ghost predicate OnlySegments(s: Server, t: Server, keys: seq<NaturalKey>) {
    && t.policy == s.policy && t.profiles == s.profiles && s.nextId <= t.nextId
    && (forall id | id in s.segments :: id in t.segments && t.segments[id].Key() == s.segments[id].Key())
    && (forall id | id in s.segments && s.segments[id].Key() !in keys :: t.segments[id] == s.segments[id])
    && (forall id | id in t.segments && id !in s.segments :: s.nextId <= id && t.segments[id].Key() in keys)
  }

  ghost predicate OnlyKey(a: Table, b: Table, key: string) {
    forall k | k != key ::
      && (k in a.ids <==> k in b.ids) && (k in a.ids ==> a.ids[k] == b.ids[k])
      && (k in a.versions <==> k in b.versions) && (k in a.versions ==> a.versions[k] == b.versions[k])
  }

  /** With no other writer, a write meets exactly the state the last one left. */
  lemma QuietSend(net: Net, w: Write, tape: Tape)
    requires Quiet(tape)
    ensures var net' := Send(net, w, tape);
            && |net'.sent| == |net.sent| + 1 && net'.sent[..|net.sent|] == net.sent
            && net'.sent[|net.sent|] == Exchange(net.server, w, LastAnswer(net'))
            && (net'.server == net.server || net'.server == After(net.server, w))
            && (!LastAnswer(net').Refused? ==>
                  Judge(net.server, w).None? && net'.server == Effect(net.server, w)
                  && LastAnswer(net') == Reply(net.server, w))
  {
    assert Play(net.server, tape(|net.sent|).others) == net.server;
  }

  lemma OneMoreSent(run: Run, run': Run)
    requires |run'.net.sent| == |run.net.sent| + 1 && run'.net.sent[..|run.net.sent|] == run.net.sent
    requires Current(run'.net.sent[|run.net.sent|])
    ensures Grown(run, run')
  {
  }

  lemma CreateEffect(s: Server, spec: SegmentSpec, table: Table)
    requires WellFormed(s) && !KeyTaken(s, spec.Key())
    ensures var w := WriteFor(SegmentCreate(spec), table);
            && Judge(s, w).None?
            && Effect(s, w) ==
               s.(segments := s.segments[s.nextId := NewSegment(spec, s.nextId)], nextId := s.nextId + 1)
            && Reply(s, w) == SegmentAnswer(NewSegment(spec, s.nextId))
            && OnlySegments(s, Effect(s, w), [spec.Key()])
  {
  }

  lemma UpdateEffect(s: Server, spec: SegmentSpec, row: Segment, table: Table)
    requires WellFormed(s) && row.id in s.segments && s.segments[row.id] == row && row.Key() == spec.Key()
    ensures var w := WriteFor(SegmentUpdate(spec, row), table);
            && Judge(s, w).None?
            && Effect(s, w) == s.(segments := s.segments[row.id := OverlaySegment(spec, row)])
            && Reply(s, w) == SegmentAnswer(OverlaySegment(spec, row))
            && OnlySegments(s, Effect(s, w), [spec.Key()])
  {
  }

  /** What a spec's own step leaves, whether it is served or not. */
  ghost predicate SegmentStepped(spec: SegmentSpec, rows: seq<Segment>, run: Run, run': Run) {
    && WellFormed(run'.net.server)
    && OnlySegments(run.net.server, run'.net.server, [spec.Key()])
    && OnlyKey(run.table, run'.table, spec.key)
    && (!run'.stopped ==> SegmentDone(spec, rows, run'))
    && Grown(run, run')
  }

  lemma SegmentCreateStep(spec: SegmentSpec, rows: seq<Segment>, run: Run, tape: Tape)
    requires Quiet(tape) && WellFormed(run.net.server) && !run.stopped
    requires SegmentReady(spec, rows, run) && FindSegment(rows, spec.Key()).None?
    ensures SegmentStepped(spec, rows, run, ExecuteOne(run, PlanSegment(spec, rows), tape))
  {
    var w := WriteFor(SegmentCreate(spec), run.table);
    AfterKeepsWellFormed(run.net.server, w);
    QuietSend(run.net, w, tape);
    CreateEffect(run.net.server, spec, run.table);
  }

  lemma SegmentUpdateStep(spec: SegmentSpec, rows: seq<Segment>, run: Run, tape: Tape)
    requires Quiet(tape) && WellFormed(run.net.server) && !run.stopped
    requires SegmentReady(spec, rows, run) && PlanSegment(spec, rows).step.SegmentUpdate?
    ensures SegmentStepped(spec, rows, run, ExecuteOne(run, PlanSegment(spec, rows), tape))
  {
    var row := FindSegment(rows, spec.Key()).value;
    var w := WriteFor(SegmentUpdate(spec, row), run.table);
    var s := run.net.server;
    UpdateEffect(s, spec, row, run.table);
    assert OnlySegments(s, s, [spec.Key()]);
    assert WellFormed(After(s, w)) by { AfterKeepsWellFormed(s, w); }
    QuietSend(run.net, w, tape);
    var run' := ExecuteOne(run, PlanSegment(spec, rows), tape);
    assert Grown(run, run') by { OneMoreSent(run, run'); }
    if !run'.stopped {
      assert run'.net.server.segments[row.id] == OverlaySegment(spec, row);
    }
  }

  lemma SegmentStep(spec: SegmentSpec, rows: seq<Segment>, run: Run, tape: Tape)
    requires Quiet(tape) && WellFormed(run.net.server) && !run.stopped
    requires SegmentReady(spec, rows, run)
    ensures SegmentStepped(spec, rows, run, ExecuteOne(run, PlanSegment(spec, rows), tape))
  {
    var p := PlanSegment(spec, rows);
    if p.step.SegmentCreate? {
      SegmentCreateStep(spec, rows, run, tape);
    } else if p.step.SegmentUpdate? {
      SegmentUpdateStep(spec, rows, run, tape);
    }
  }

  lemma GrownTransitive(a: Run, b: Run, c: Run)
    requires Grown(a, b) && Grown(b, c)
    ensures Grown(a, c)
  {
    assert c.net.sent[..|a.net.sent|] == b.net.sent[..|a.net.sent|];
    forall i | |a.net.sent| <= i < |c.net.sent| ensures Current(c.net.sent[i]) {
      if i < |b.net.sent| {
        assert c.net.sent[i] == b.net.sent[i];
      }
    }
  }

  /** After a failure nothing is sent and nothing changes. */
  lemma {:induction false} StoppedRunIsInert(steps: seq<PlannedStep>, run: Run, tape: Tape)
    requires run.stopped
    ensures var run' := Execute(steps, run, tape);
            run'.net == run.net && run'.table == run.table && run'.stopped
    decreases |steps|
  {
    if steps != [] {
      StoppedRunIsInert(steps[1..], ExecuteOne(run, steps[0], tape), tape);
    }
  }

  lemma OnlySegmentsTransitive(s: Server, t: Server, u: Server, first: seq<NaturalKey>, rest: seq<NaturalKey>)
    requires OnlySegments(s, t, first) && OnlySegments(t, u, rest)
    ensures OnlySegments(s, u, first + rest)
  {
  }

  /** Executing one spec's step leaves every other spec's step ready. */
  lemma OthersStayReady(spec: SegmentSpec, other: SegmentSpec, rows: seq<Segment>, run: Run, run': Run)
    requires other.key != spec.key && other.Key() != spec.Key()
    requires OnlySegments(run.net.server, run'.net.server, [spec.Key()]) && OnlyKey(run.table, run'.table, spec.key)
    ensures SegmentReady(other, rows, run) ==> SegmentReady(other, rows, run')
  {
  }

  /** What a spec's step settled stays settled while later specs' steps run. */
  lemma DoneStaysDone(spec: SegmentSpec, rows: seq<Segment>, run: Run, run': Run, keys: seq<string>,
                      naturals: seq<NaturalKey>)
    requires SegmentDone(spec, rows, run) && spec.key !in keys && spec.Key() !in naturals
    requires OnlySegments(run.net.server, run'.net.server, naturals) && OnlyKeys(run.table, run'.table, keys)
    ensures SegmentDone(spec, rows, run')
  {
  }

  ghost predicate OnlyKeys(a: Table, b: Table, keys: seq<string>) {
    forall k | k !in keys ::
      && (k in a.ids <==> k in b.ids) && (k in a.ids ==> a.ids[k] == b.ids[k])
      && (k in a.versions <==> k in b.versions) && (k in a.versions ==> a.versions[k] == b.versions[k])
  }

  lemma SplitSpecs(specs: seq<SegmentSpec>)
    requires specs != [] && Distinct(SpecKeys(specs)) && Distinct(NaturalKeys(specs))
    ensures SpecKeys(specs) == [specs[0].key] + SpecKeys(specs[1..])
    ensures NaturalKeys(specs) == [specs[0].Key()] + NaturalKeys(specs[1..])
    ensures Distinct(SpecKeys(specs[1..])) && Distinct(NaturalKeys(specs[1..]))
    ensures specs[0].key !in SpecKeys(specs[1..]) && specs[0].Key() !in NaturalKeys(specs[1..])
    ensures forall s | s in specs[1..] :: s in specs && s.key != specs[0].key && s.Key() != specs[0].Key()
  {
    var rest := specs[1..];
    assert forall i | 0 <= i < |rest| :: rest[i] == specs[i + 1];
    assert SpecKeys(specs) == [specs[0].key] + SpecKeys(rest);
    assert NaturalKeys(specs) == [specs[0].Key()] + NaturalKeys(rest);
    forall i | 0 <= i < |rest| ensures rest[i].key != specs[0].key && rest[i].Key() != specs[0].Key() {
      assert SpecKeys(specs)[0] != SpecKeys(specs)[i + 1];
      assert NaturalKeys(specs)[0] != NaturalKeys(specs)[i + 1];
    }
    forall i, j | 0 <= i < j < |rest| ensures SpecKeys(rest)[i] != SpecKeys(rest)[j] {
      assert SpecKeys(specs)[i + 1] != SpecKeys(specs)[j + 1];
    }
    forall i, j | 0 <= i < j < |rest| ensures NaturalKeys(rest)[i] != NaturalKeys(rest)[j] {
      assert NaturalKeys(specs)[i + 1] != NaturalKeys(specs)[j + 1];
    }
  }

  /** The segment steps of a plan, run to the end or to their first failure. */
  lemma {:induction false} SegmentPhase(specs: seq<SegmentSpec>, rows: seq<Segment>, run: Run, tape: Tape)
    requires Quiet(tape) && WellFormed(run.net.server) && !run.stopped
    requires Distinct(SpecKeys(specs)) && Distinct(NaturalKeys(specs))
    requires forall spec | spec in specs :: SegmentReady(spec, rows, run)
    ensures var run' := Execute(PlanSegments(specs, rows), run, tape);
            && WellFormed(run'.net.server)
            && OnlySegments(run.net.server, run'.net.server, NaturalKeys(specs))
            && OnlyKeys(run.table, run'.table, SpecKeys(specs))
            && (!run'.stopped ==> forall spec | spec in specs :: SegmentDone(spec, rows, run'))
            && Grown(run, run')
    decreases |specs|
  {
    if specs != [] {
      var spec, rest := specs[0], specs[1..];
      SplitSpecs(specs);
      var steps := PlanSegments(specs, rows);
      assert steps[0] == PlanSegment(spec, rows) && steps[1..] == PlanSegments(rest, rows);
      var next := ExecuteOne(run, steps[0], tape);
      SegmentStep(spec, rows, run, tape);
      var run' := Execute(steps[1..], next, tape);
      if next.stopped {
        StoppedRunIsInert(steps[1..], next, tape);
      } else {
        forall other | other in rest ensures SegmentReady(other, rows, next) {
          OthersStayReady(spec, other, rows, run, next);
        }
        SegmentPhase(rest, rows, next, tape);
        OnlySegmentsTransitive(run.net.server, next.net.server, run'.net.server, [spec.Key()], NaturalKeys(rest));
        GrownTransitive(run, next, run');
        if !run'.stopped {
          DoneStaysDone(spec, rows, next, run', SpecKeys(rest), NaturalKeys(rest));
          forall s | s in specs ensures SegmentDone(s, rows, run') {
            assert s == spec || s in rest;
          }
        }
      }
    }
  }

  // ----- profiles -----------------------------------------------------------------------------

  /** The profile a pending step was planned on is still stored, at the version read; cap is the cap
      the read was clamped to. */
  ghost predicate ProfileReady(seg: SegmentSpec, spec: ProfileSpec, existing: Option<ProfileRead>, cap: int, run: Run) {
    && spec.segment == seg.key
    && SegmentKnown(seg, run)
    && var id := run.table.ids[seg.key];
       match existing
       case None => id !in run.net.server.profiles
       case Some(read) =>
         read.segmentId == id && id in run.net.server.profiles && read == Effective(run.net.server.profiles[id], cap)
  }

  ghost predicate ProfileDone(seg: SegmentSpec, spec: ProfileSpec, existing: Option<ProfileRead>, s: Server, run: Run) {
    && SegmentKnown(seg, run)
    && var id := run.table.ids[seg.key];
       && id in run.net.server.profiles
       && (existing.Some? ==> id in s.profiles)
       && var stored := if existing.Some? then s.profiles[id] else NewProfile(spec, id);
          && run.net.server.profiles[id] == SettledProfile(spec, existing, stored, id)
          && (existing.None? || ProfileDrifted(spec, existing.value) ==> spec.sessionTimeout <= s.policy.cap)
  }

  /** Only the profiles of these segments changed. */
  ghost predicate OnlyProfiles(s: Server, t: Server, ids: set<Id>) {
    && t.policy == s.policy && t.segments == s.segments && t.nextId == s.nextId
    && (forall id | id in s.profiles :: id in t.profiles)
    && forall id | id !in ids ::
         (id in s.profiles <==> id in t.profiles) && (id in s.profiles ==> s.profiles[id] == t.profiles[id])
  }

  lemma ProfileCreateEffect(s: Server, spec: ProfileSpec, table: Table)
    requires spec.segment in table.ids && spec.segment in table.versions
    ensures var id := table.ids[spec.segment];
            var w := WriteFor(ProfileCreate(spec), table);
            && (Judge(s, w).None? ==>
                  && spec.sessionTimeout <= s.policy.cap
                  && Effect(s, w) == s.(profiles := s.profiles[id := NewProfile(spec, id)]))
            && w.segmentId == id && w.segmentVersion == table.versions[spec.segment]
  {
  }

  lemma ProfileUpdateEffect(s: Server, spec: ProfileSpec, read: ProfileRead, table: Table)
    requires spec.segment in table.versions
    ensures var w := WriteFor(ProfileUpdate(spec, read), table);
            && (Judge(s, w).None? ==>
                  && spec.sessionTimeout <= s.policy.cap
                  && Effect(s, w) == s.(profiles := s.profiles[read.segmentId := OverlayProfile(spec, read)]))
            && w.segmentId == read.segmentId && w.segmentVersion == table.versions[spec.segment]
            && w.version == read.version
  {
  }

  /** What a profile's own step leaves, whether it is served or not. */
  ghost predicate ProfileStepped(seg: SegmentSpec, spec: ProfileSpec, existing: Option<ProfileRead>, run: Run,
                                 run': Run)
    requires seg.key in run.table.ids
  {
    && WellFormed(run'.net.server)
    && OnlyProfiles(run.net.server, run'.net.server, {run.table.ids[seg.key]})
    && run'.table == run.table
    && (!run'.stopped ==> ProfileDone(seg, spec, existing, run.net.server, run'))
    && Grown(run, run')
  }

  lemma ProfileCreateStep(seg: SegmentSpec, spec: ProfileSpec, cap: int, run: Run, tape: Tape)
    requires Quiet(tape) && WellFormed(run.net.server) && !run.stopped
    requires ProfileReady(seg, spec, None, cap, run)
    ensures ProfileStepped(seg, spec, None, run, ExecuteOne(run, PlanProfile(spec, seg.key, None).value, tape))
  {
    var w := WriteFor(ProfileCreate(spec), run.table);
    AfterKeepsWellFormed(run.net.server, w);
    QuietSend(run.net, w, tape);
    ProfileCreateEffect(run.net.server, spec, run.table);
  }

  lemma ProfileUpdateStep(seg: SegmentSpec, spec: ProfileSpec, read: ProfileRead, cap: int, run: Run, tape: Tape)
    requires Quiet(tape) && WellFormed(run.net.server) && !run.stopped
    requires ProfileReady(seg, spec, Some(read), cap, run) && ProfileDrifted(spec, read)
    requires PlanProfile(spec, seg.key, Some(read)).Ok?
    ensures ProfileStepped(seg, spec, Some(read), run,
                           ExecuteOne(run, PlanProfile(spec, seg.key, Some(read)).value, tape))
  {
    var w := WriteFor(ProfileUpdate(spec, read), run.table);
    var s := run.net.server;
    assert WellFormed(After(s, w)) by { AfterKeepsWellFormed(s, w); }
    QuietSend(run.net, w, tape);
    ProfileUpdateEffect(s, spec, read, run.table);
    var run' := ExecuteOne(run, PlanProfile(spec, seg.key, Some(read)).value, tape);
    assert Grown(run, run') by { OneMoreSent(run, run'); }
  }

  lemma ProfileStep(seg: SegmentSpec, spec: ProfileSpec, existing: Option<ProfileRead>, cap: int, run: Run, tape: Tape)
    requires Quiet(tape) && WellFormed(run.net.server) && !run.stopped
    requires ProfileReady(seg, spec, existing, cap, run)
    requires PlanProfile(spec, seg.key, existing).Ok?
    ensures ProfileStepped(seg, spec, existing, run, ExecuteOne(run, PlanProfile(spec, seg.key, existing).value, tape))
  {
    if existing.None? {
      ProfileCreateStep(seg, spec, cap, run, tape);
    } else if ProfileDrifted(spec, existing.value) {
      ProfileUpdateStep(seg, spec, existing.value, cap, run, tape);
    }
  }

  lemma ProfileStaysReady(seg: SegmentSpec, spec: ProfileSpec, existing: Option<ProfileRead>, cap: int, run: Run,
                          run': Run, ids: set<Id>)
    requires ProfileReady(seg, spec, existing, cap, run) && run.table.ids[seg.key] !in ids
    requires OnlyProfiles(run.net.server, run'.net.server, ids) && run'.table == run.table
    ensures ProfileReady(seg, spec, existing, cap, run')
  {
  }

  ghost predicate AllProfilesReady(specs: seq<SegmentSpec>, profiles: map<string, ProfileSpec>, table: Table,
                                   listed: seq<ProfileRead>, cap: int, run: Run) {
    forall seg | seg in specs ::
      && SegmentKnown(seg, run)
      && (seg.key in profiles ==>
            ProfileReady(seg, profiles[seg.key], ExistingProfile(seg.key, table, listed), cap, run))
  }

  ghost predicate AllProfilesDone(specs: seq<SegmentSpec>, profiles: map<string, ProfileSpec>, table: Table,
                                  listed: seq<ProfileRead>, s: Server, run: Run) {
    forall seg | seg in specs && seg.key in profiles ::
      ProfileDone(seg, profiles[seg.key], ExistingProfile(seg.key, table, listed), s, run)
  }

  /** The ids of the segments the profiles of these specs belong to. */
  ghost function ProfiledIds(specs: seq<SegmentSpec>, profiles: map<string, ProfileSpec>, table: Table): set<Id> {
    set seg | seg in specs && seg.key in profiles && seg.key in table.ids :: table.ids[seg.key]
  }

  /** What a stretch of profile steps leaves, whether it runs to its end or not. */
  ghost predicate ProfilesStepped(specs: seq<SegmentSpec>, profiles: map<string, ProfileSpec>, table: Table,
                                  listed: seq<ProfileRead>, run: Run, run': Run) {
    && WellFormed(run'.net.server)
    && OnlyProfiles(run.net.server, run'.net.server, ProfiledIds(specs, profiles, run.table))
    && run'.table == run.table
    && (!run'.stopped ==> AllProfilesDone(specs, profiles, table, listed, run.net.server, run'))
    && Grown(run, run')
  }

  lemma ProfiledIdsSplit(specs: seq<SegmentSpec>, profiles: map<string, ProfileSpec>, table: Table)
    requires specs != [] && specs[0].key in table.ids
    ensures ProfiledIds(specs, profiles, table) ==
            (if specs[0].key in profiles then {table.ids[specs[0].key]} else {}) +
                ProfiledIds(specs[1..], profiles, table)
  {
    assert specs == [specs[0]] + specs[1..];
  }

  /** The first spec's step, then the others'. */
  lemma ProfilesStepOn(specs: seq<SegmentSpec>, profiles: map<string, ProfileSpec>, table: Table,
                       listed: seq<ProfileRead>,
                       run: Run, next: Run, run': Run)
    requires specs != [] && specs[0].key in profiles && specs[0].key in run.table.ids
    requires ProfileStepped(specs[0], profiles[specs[0].key], ExistingProfile(specs[0].key, table, listed), run, next)
    requires if next.stopped then run'.net == next.net && run'.table == next.table && run'.stopped
             else ProfilesStepped(specs[1..], profiles, table, listed, next, run')
    requires run.table.ids[specs[0].key] !in ProfiledIds(specs[1..], profiles, run.table)
    ensures ProfilesStepped(specs, profiles, table, listed, run, run')
  {
    ProfiledIdsSplit(specs, profiles, run.table);
    if !next.stopped {
      GrownTransitive(run, next, run');
      if !run'.stopped {
        RestDone(specs, profiles, table, listed, run, next, run');
      }
    }
  }

  /** The profile steps of a plan, run to the end or to their first failure. */
  lemma {:induction false} ProfilePhase(specs: seq<SegmentSpec>, profiles: map<string, ProfileSpec>, table: Table,
                                        listed: seq<ProfileRead>, cap: int, steps: seq<PlannedStep>, run: Run,
                                            tape: Tape)
    requires Quiet(tape) && WellFormed(run.net.server) && !run.stopped
    requires Distinct(SpecKeys(specs)) && Distinct(NaturalKeys(specs))
    requires PlanProfiles(specs, profiles, table, listed) == Ok(steps)
    requires AllProfilesReady(specs, profiles, table, listed, cap, run)
    ensures ProfilesStepped(specs, profiles, table, listed, run, Execute(steps, run, tape))
    decreases |specs|
  {
    if specs != [] {
      var seg, rest := specs[0], specs[1..];
      SplitSpecs(specs);
      assert SegmentKnown(seg, run);
      if seg.key !in profiles {
        ProfilePhase(rest, profiles, table, listed, cap, steps, run, tape);
        ProfiledIdsSplit(specs, profiles, run.table);
        assert specs == [seg] + rest;
      } else {
        var existing := ExistingProfile(seg.key, table, listed);
        var later := PlanProfiles(rest, profiles, table, listed).value;
        assert steps == [PlanProfile(profiles[seg.key], seg.key, existing).value] + later && steps[1..] == later;
        var next := ExecuteOne(run, steps[0], tape);
        ProfileStep(seg, profiles[seg.key], existing, cap, run, tape);
        RestStaysReady(specs, profiles, table, listed, cap, run, next);
        if next.stopped {
          StoppedRunIsInert(later, next, tape);
        } else {
          ProfilePhase(rest, profiles, table, listed, cap, later, next, tape);
        }
        ProfilesStepOn(specs, profiles, table, listed, run, next, Execute(later, next, tape));
      }
    }
  }

  lemma RestStaysReady(specs: seq<SegmentSpec>, profiles: map<string, ProfileSpec>, table: Table,
                       listed: seq<ProfileRead>, cap: int, run: Run, next: Run)
    requires specs != [] && Distinct(SpecKeys(specs)) && Distinct(NaturalKeys(specs))
    requires AllProfilesReady(specs, profiles, table, listed, cap, run)
    requires next.table == run.table && OnlyProfiles(run.net.server, next.net.server, {run.table.ids[specs[0].key]})
    ensures AllProfilesReady(specs[1..], profiles, table, listed, cap, next)
    ensures run.table.ids[specs[0].key] !in ProfiledIds(specs[1..], profiles, run.table)
  {
    SplitSpecs(specs);
    forall other | other in specs[1..] ensures run.table.ids[other.key] != run.table.ids[specs[0].key] {
      assert SegmentKnown(other, run) && SegmentKnown(specs[0], run);
    }
    forall other | other in specs[1..] && other.key in profiles
      ensures ProfileReady(other, profiles[other.key], ExistingProfile(other.key, table, listed), cap, next)
    {
      ProfileStaysReady(other, profiles[other.key], ExistingProfile(other.key, table, listed), cap, run, next,
                        {run.table.ids[specs[0].key]});
    }
  }

  lemma RestDone(specs: seq<SegmentSpec>, profiles: map<string, ProfileSpec>, table: Table,
                 listed: seq<ProfileRead>, run: Run, next: Run, run': Run)
    requires specs != [] && specs[0].key in profiles && specs[0].key in run.table.ids
    requires next.table == run.table == run'.table
    requires OnlyProfiles(run.net.server, next.net.server, {run.table.ids[specs[0].key]})
    requires OnlyProfiles(next.net.server, run'.net.server, ProfiledIds(specs[1..], profiles, run.table))
    requires run.table.ids[specs[0].key] !in ProfiledIds(specs[1..], profiles, run.table)
    requires ProfileDone(specs[0], profiles[specs[0].key], ExistingProfile(specs[0].key, table, listed),
                         run.net.server, next)
    requires AllProfilesDone(specs[1..], profiles, table, listed, next.net.server, run')
    ensures AllProfilesDone(specs, profiles, table, listed, run.net.server, run')
  {
    forall seg | seg in specs && seg.key in profiles
      ensures ProfileDone(seg, profiles[seg.key], ExistingProfile(seg.key, table, listed), run.net.server, run')
    {
      if seg != specs[0] {
        assert seg in specs[1..];
        assert ProfileDone(seg, profiles[seg.key], ExistingProfile(seg.key, table, listed), next.net.server, run');
        assert run'.table.ids[seg.key] in ProfiledIds(specs[1..], profiles, run.table);
      }
    }
  }

  // ----- the whole run ------------------------------------------------------------------------

  lemma PolicyPhase(n: NetworkSpec, snap: NetworkSnapshot, run: Run, tape: Tape)
    requires Quiet(tape) && WellFormed(run.net.server) && !run.stopped
    requires snap.policy == if n.policy.Some? then Some(run.net.server.policy) else None
    ensures var run' := Execute(PlanPolicy(n, snap), run, tape);
            && WellFormed(run'.net.server)
            && run'.net.server == run.net.server.(policy := run'.net.server.policy)
            && (n.policy.None? ==> run'.net.server == run.net.server)
            && (n.policy.Some? && !run'.stopped ==>
                run'.net.server.policy == SettledPolicy(n.policy.value, run.net.server.policy))
            && run'.table == run.table
            && Grown(run, run')
  {
    var steps := PlanPolicy(n, snap);
    if steps != [] {
      assert steps[1..] == [];
      if !steps[0].step.Noop? {
        var w := WriteFor(steps[0].step, run.table);
        AfterKeepsWellFormed(run.net.server, w);
        QuietSend(run.net, w, tape);
      }
    }
  }

  function SettledPolicy(spec: PolicySpec, read: Policy): Policy {
    if spec.cap == read.cap then read else Policy(spec.cap, read.version + 1)
  }

  /** The profile a snapshot holds for a segment spec, through the segment it holds for it. */
  function FoundProfile(seg: SegmentSpec, snap: NetworkSnapshot): Option<ProfileRead> {
    match FindSegment(snap.segments, seg.Key())
    case None => None
    case Some(row) => FindProfile(snap.profiles, row.id)
  }

  /** What planning puts in the tables: a key is known exactly when its segment was read. */
  lemma {:induction false} FilledTable(specs: seq<SegmentSpec>, rows: seq<Segment>, spec: SegmentSpec)
    requires Distinct(SpecKeys(specs)) && spec in specs
    ensures var table := FillTable(EMPTY_TABLE, specs, rows);
            && (FindSegment(rows, spec.Key()).None? ==> spec.key !in table.ids)
            && (FindSegment(rows, spec.Key()).Some? ==>
                  var row := FindSegment(rows, spec.Key()).value;
                  && spec.key in table.ids && table.ids[spec.key] == row.id
                  && spec.key in table.versions && table.versions[spec.key] == row.version)
  {
    var init, last := specs[..|specs| - 1], specs[|specs| - 1];
    DistinctSplits(SpecKeys(specs));
    assert SpecKeys(specs)[..|specs| - 1] == SpecKeys(init);
    if spec in init {
      var i :| 0 <= i < |init| && init[i] == spec;
      assert SpecKeys(init)[i] == spec.key;
      FilledTable(init, rows, spec);
    } else {
      UnfilledTable(init, rows, spec.key);
    }
  }

  lemma {:induction false} UnfilledTable(specs: seq<SegmentSpec>, rows: seq<Segment>, key: string)
    requires key !in SpecKeys(specs)
    ensures key !in FillTable(EMPTY_TABLE, specs, rows).ids
  {
    if specs != [] {
      var init, last := specs[..|specs| - 1], specs[|specs| - 1];
      assert SpecKeys(specs) == SpecKeys(init) + [last.key];
      UnfilledTable(init, rows, key);
    }
  }

  /** Planning finds a profile through the table as a reader finds it through the listed segments. */
  lemma ProfilesAreFound(n: NetworkSpec, snap: NetworkSnapshot)
    requires ValidNetwork(n)
    ensures var table := FillTable(EMPTY_TABLE, n.segments, snap.segments);
            forall seg | seg in n.segments :: ExistingProfile(seg.key, table, snap.profiles) == FoundProfile(seg, snap)
  {
    forall seg | seg in n.segments
      ensures ExistingProfile(seg.key, FillTable(EMPTY_TABLE, n.segments, snap.segments), snap.profiles) ==
              FoundProfile(seg, snap)
    {
      FilledTable(n.segments, snap.segments, seg);
    }
  }

  lemma {:induction false} ProfilesFiled(profiles: seq<ProfileSpec>)
    ensures forall key :: key in ProfilesByKey(profiles) <==> key in ProfileKeys(profiles)
    ensures forall key | key in ProfilesByKey(profiles) ::
              ProfilesByKey(profiles)[key].segment == key && ProfilesByKey(profiles)[key] in profiles
  {
    if profiles != [] {
      var init, last := profiles[..|profiles| - 1], profiles[|profiles| - 1];
      ProfilesFiled(init);
      assert ProfileKeys(profiles) == ProfileKeys(init) + [last.segment];
    }
  }

  /** A server's rows as any listing of them is searched. */
  lemma FoundInListing(rows: seq<Segment>, s: Server, key: NaturalKey)
    requires WellFormed(s) && ListsSegments(rows, s)
    ensures match FindSegment(rows, key)
            case None => !KeyTaken(s, key)
            case Some(row) => row.Key() == key && row.id in s.segments && s.segments[row.id] == row
  {
    FindSegmentFinds(rows, key);
  }

  lemma ProfileInListing(listed: seq<ProfileRead>, s: Server, id: Id)
    requires WellFormed(s) && ListsProfiles(listed, s)
    ensures match FindProfile(listed, id)
            case None => id !in s.profiles
            case Some(read) => read.segmentId == id && id in s.profiles &&
                               read == Effective(s.profiles[id], s.policy.cap)
  {
    FindProfileFinds(listed, id);
  }

  lemma StartReady(n: NetworkSpec, s: Server, snap: NetworkSnapshot, spec: SegmentSpec, run: Run)
    requires WellFormed(s) && ValidNetwork(n) && Reads(n, s, s, s, snap) && spec in n.segments
    requires run.net.server.segments == s.segments && run.table == FillTable(EMPTY_TABLE, n.segments, snap.segments)
    ensures SegmentReady(spec, snap.segments, run)
  {
    FoundInListing(snap.segments, s, spec.Key());
    FilledTable(n.segments, snap.segments, spec);
  }

  lemma ProfilesStartReady(n: NetworkSpec, s: Server, snap: NetworkSnapshot, run: Run, seg: SegmentSpec)
    requires WellFormed(s) && ValidNetwork(n) && Reads(n, s, s, s, snap) && seg in n.segments
    requires OnlySegments(s.(policy := run.net.server.policy), run.net.server, NaturalKeys(n.segments))
    requires SegmentDone(seg, snap.segments, run)
    requires seg.key in ProfilesByKey(n.profiles)
    ensures var table := FillTable(EMPTY_TABLE, n.segments, snap.segments);
            && ExistingProfile(seg.key, table, snap.profiles) == FoundProfile(seg, snap)
            && ProfileReady(seg, ProfilesByKey(n.profiles)[seg.key], FoundProfile(seg, snap), s.policy.cap, run)
  {
    ProfilesFiled(n.profiles);
    FilledTable(n.segments, snap.segments, seg);
    FoundInListing(snap.segments, s, seg.Key());
    var id := run.table.ids[seg.key];
    assert n.profiles != [];
    ProfileInListing(snap.profiles, s, id);
    assert run.net.server.profiles == s.profiles;
    if FindSegment(snap.segments, seg.Key()).None? {
      assert id !in s.segments;
    }
  }

  /** The natural keys of the segments the manifest states a profile for. */
  ghost predicate StatesProfile(n: NetworkSpec, key: NaturalKey) {
    exists seg :: seg in n.segments && seg.Key() == key && seg.key in ProfilesByKey(n.profiles)
  }

  /** What no Apply touches, whether it completes or not: an unstated policy, the rows of segments the
      manifest does not name, the profiles it does not state, none of which it makes; and nothing is ever deleted. */
  ghost predicate Untouched(n: NetworkSpec, s: Server, t: Server) {
    && (n.policy.None? ==> t.policy == s.policy)
    && (forall id | id in s.segments :: id in t.segments && t.segments[id].Key() == s.segments[id].Key())
    && (forall id | id in s.segments && s.segments[id].Key() !in NaturalKeys(n.segments) ::
          t.segments[id] == s.segments[id])
    && (forall id | id in t.segments && id !in s.segments ::
          s.nextId <= id && t.segments[id].Key() in NaturalKeys(n.segments))
    && (forall id | id in s.segments && !StatesProfile(n, s.segments[id].Key()) ::
          (id in t.profiles <==> id in s.profiles) && (id in s.profiles ==> t.profiles[id] == s.profiles[id]))
    && (forall id | id in s.profiles :: id in t.profiles)
    && (forall id | id in t.profiles && id !in s.profiles ::
          id in t.segments && StatesProfile(n, t.segments[id].Key()))
  }

  /** Every stated row stands as its spec asks, in the state a complete Apply leaves. */
  ghost predicate Settled(n: NetworkSpec, s: Server, snap: NetworkSnapshot, run: Run) {
    && (n.policy.Some? ==> run.net.server.policy == SettledPolicy(n.policy.value, s.policy))
    && (forall spec | spec in n.segments :: SegmentDone(spec, snap.segments, run))
    && (forall seg | seg in n.segments && seg.key in ProfilesByKey(n.profiles) ::
          ProfileDone(seg, ProfilesByKey(n.profiles)[seg.key], FoundProfile(seg, snap),
                      s.(policy := run.net.server.policy), run))
  }

  lemma SegmentsLeaveUntouched(n: NetworkSpec, s: Server, t: Server)
    requires WellFormed(s) && OnlySegments(s.(policy := t.policy), t, NaturalKeys(n.segments))
    requires n.policy.None? ==> t.policy == s.policy
    ensures Untouched(n, s, t)
  {
  }

  lemma ProfilesLeaveUntouched(n: NetworkSpec, s: Server, run: Run, t: Server)
    requires WellFormed(s) && OnlySegments(s.(policy := run.net.server.policy), run.net.server, NaturalKeys(n.segments))
    requires n.policy.None? ==> run.net.server.policy == s.policy
    requires forall spec | spec in n.segments :: SegmentKnown(spec, run)
    requires OnlyProfiles(run.net.server, t, ProfiledIds(n.segments, ProfilesByKey(n.profiles), run.table))
    ensures Untouched(n, s, t)
  {
    forall id | id in ProfiledIds(n.segments, ProfilesByKey(n.profiles), run.table)
      ensures id in t.segments && StatesProfile(n, t.segments[id].Key())
    {
      var seg :| seg in n.segments && seg.key in ProfilesByKey(n.profiles) && seg.key in run.table.ids &&
          run.table.ids[seg.key] == id;
      assert SegmentKnown(seg, run);
    }
  }

  lemma DoneSurvivesProfiles(spec: SegmentSpec, rows: seq<Segment>, run: Run, run': Run, ids: set<Id>)
    requires SegmentDone(spec, rows, run) && OnlyProfiles(run.net.server, run'.net.server, ids) &&
             run'.table == run.table
    ensures SegmentDone(spec, rows, run')
  {
  }

  /** What an Apply leaves, complete or not: every write it added was current, nothing it does not name is
      touched, and if it completed every stated row is settled. */
  ghost predicate Leaves(n: NetworkSpec, s: Server, snap: NetworkSnapshot, start: Run, run: Run) {
    && WellFormed(run.net.server) && Grown(start, run)
    && Untouched(n, s, run.net.server)
    && (!run.stopped ==> Settled(n, s, snap, run))
  }

  /** The profile steps, after the segment steps all succeeded. */
  lemma ProfilesFinish(n: NetworkSpec, s: Server, snap: NetworkSnapshot, start: Run, run: Run, steps: seq<PlannedStep>,
                       tape: Tape)
    requires Quiet(tape) && WellFormed(s) && ValidNetwork(n) && Reads(n, s, s, s, snap)
    requires PlanProfiles(n.segments, ProfilesByKey(n.profiles), FillTable(EMPTY_TABLE, n.segments, snap.segments),
                          snap.profiles) == Ok(steps)
    requires !run.stopped && WellFormed(run.net.server) && Grown(start, run)
    requires OnlySegments(s.(policy := run.net.server.policy), run.net.server, NaturalKeys(n.segments))
    requires if n.policy.None? then run.net.server.policy == s.policy
             else run.net.server.policy == SettledPolicy(n.policy.value, s.policy)
    requires forall spec | spec in n.segments :: SegmentDone(spec, snap.segments, run)
    ensures Leaves(n, s, snap, start, Execute(steps, run, tape))
  {
    var table, filed := FillTable(EMPTY_TABLE, n.segments, snap.segments), ProfilesByKey(n.profiles);
    forall seg | seg in n.segments && seg.key in filed
      ensures ExistingProfile(seg.key, table, snap.profiles) == FoundProfile(seg, snap)
      ensures ProfileReady(seg, filed[seg.key], FoundProfile(seg, snap), s.policy.cap, run)
    {
      ProfilesStartReady(n, s, snap, run, seg);
    }
    ProfilePhase(n.segments, filed, table, snap.profiles, s.policy.cap, steps, run, tape);
    var run' := Execute(steps, run, tape);
    GrownTransitive(start, run, run');
    ProfilesLeaveUntouched(n, s, run, run'.net.server);
    if !run'.stopped {
      var ids := ProfiledIds(n.segments, filed, run.table);
      forall spec | spec in n.segments ensures SegmentDone(spec, snap.segments, run') {
        DoneSurvivesProfiles(spec, snap.segments, run, run', ids);
      }
      forall seg | seg in n.segments && seg.key in filed
        ensures ProfileDone(seg, filed[seg.key], FoundProfile(seg, snap), s.(policy := run'.net.server.policy), run')
      {
        assert ProfileDone(seg, filed[seg.key], ExistingProfile(seg.key, table, snap.profiles), run.net.server, run');
      }
    }
  }

  /** The segment steps and those after them, once the policy step succeeded. */
  lemma SegmentsFinish(n: NetworkSpec, s: Server, snap: NetworkSnapshot, start: Run, run: Run, steps: seq<PlannedStep>,
                       tape: Tape)
    requires Quiet(tape) && WellFormed(s) && ValidNetwork(n) && Reads(n, s, s, s, snap)
    requires PlanProfiles(n.segments, ProfilesByKey(n.profiles), FillTable(EMPTY_TABLE, n.segments, snap.segments),
                          snap.profiles) == Ok(steps)
    requires !run.stopped && WellFormed(run.net.server) && Grown(start, run)
    requires run.table == FillTable(EMPTY_TABLE, n.segments, snap.segments)
    requires run.net.server == s.(policy := run.net.server.policy)
    requires if n.policy.None? then run.net.server.policy == s.policy
             else run.net.server.policy == SettledPolicy(n.policy.value, s.policy)
    ensures Leaves(n, s, snap, start, Execute(steps, Execute(PlanSegments(n.segments, snap.segments), run, tape), tape))
  {
    forall spec | spec in n.segments ensures SegmentReady(spec, snap.segments, run) {
      StartReady(n, s, snap, spec, run);
    }
    SegmentPhase(n.segments, snap.segments, run, tape);
    var run' := Execute(PlanSegments(n.segments, snap.segments), run, tape);
    GrownTransitive(start, run, run');
    if run'.stopped {
      StoppedRunIsInert(steps, run', tape);
      SegmentsLeaveUntouched(n, s, run'.net.server);
    } else {
      ProfilesFinish(n, s, snap, start, run', steps, tape);
    }
  }

  /** An Apply with no other writer, complete or not. */
  lemma QuietApply(n: NetworkSpec, s: Server, snap: NetworkSnapshot, planned: Planned, sent: seq<Exchange>, tape: Tape)
    requires Quiet(tape) && WellFormed(s) && ValidNetwork(n) && Reads(n, s, s, s, snap)
    requires PlanOf(n, snap) == Ok(planned)
    ensures Leaves(n, s, snap, Run(Net(s, sent), planned.table, [], false), ApplyPlan(planned, Net(s, sent), tape))
  {
    var start := Run(Net(s, sent), planned.table, [], false);
    if n.IsEmpty() {
      assert PlanPolicy(n, snap) == [];
    } else {
      var a, b := PlanPolicy(n, snap), PlanSegments(n.segments, snap.segments);
      var table := FillTable(EMPTY_TABLE, n.segments, snap.segments);
      var c := PlanProfiles(n.segments, ProfilesByKey(n.profiles), table, snap.profiles).value;
      assert planned == Planned(a + b + c, table);
      ExecuteAppends(a + b, c, start, tape);
      ExecuteAppends(a, b, start, tape);
      PolicyPhase(n, snap, start, tape);
      var run := Execute(a, start, tape);
      if run.stopped {
        StoppedRunIsInert(b, run, tape);
        StoppedRunIsInert(c, Execute(b, run, tape), tape);
        SegmentsLeaveUntouched(n, s, run.net.server);
      } else {
        SegmentsFinish(n, s, snap, start, run, c, tape);
      }
    }
  }
}
