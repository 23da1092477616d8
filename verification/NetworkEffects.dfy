/** What a report promises, whoever else writes: a step reported created or updated was admitted, and the server held
    what it asks for at that moment, on the row its manifest key is matched to. */
module NetworkEffects {
  import opened Wrappers
  import opened NetworkServer
  import opened NetworkManifest
  import opened NetworkPlan
  import opened NetworkReads
  import opened NetworkApply
  import opened NetworkRun
  import opened NetworkGuarantees
  import opened NetworkInterference
  import opened ManagementPlan

  // ----- the tables keep naming the segments they were filled from ----------------------------

  /** An id once given to the spec's segment: it may be gone, but it is nothing else's. */
  ghost predicate IsFor(id: Id, spec: SegmentSpec, s: Server) {
    id < s.nextId && (id in s.segments ==> s.segments[id].Key() == spec.Key())
  }

  ghost predicate TablesName(n: NetworkSpec, table: Table, s: Server) {
    forall spec | spec in n.segments && spec.key in table.ids :: IsFor(table.ids[spec.key], spec, s)
  }

  lemma IsForLasts(id: Id, spec: SegmentSpec, s: Server, t: Server)
    requires IsFor(id, spec, s) && Evolves(s, t)
    ensures IsFor(id, spec, t)
  {
  }

  lemma TablesLast(n: NetworkSpec, table: Table, s: Server, t: Server)
    requires TablesName(n, table, s) && Evolves(s, t)
    ensures TablesName(n, table, t)
  {
    forall spec | spec in n.segments && spec.key in table.ids ensures IsFor(table.ids[spec.key], spec, t) {
      IsForLasts(table.ids[spec.key], spec, s, t);
    }
  }

  lemma OneSpecPerKey(n: NetworkSpec, a: SegmentSpec, b: SegmentSpec)
    requires ValidNetwork(n) && a in n.segments && b in n.segments && a.key == b.key
    ensures a == b
  {
    var i :| 0 <= i < |n.segments| && n.segments[i] == a;
    var j :| 0 <= j < |n.segments| && n.segments[j] == b;
    assert SpecKeys(n.segments)[i] == SpecKeys(n.segments)[j];
  }

  lemma StartNames(n: NetworkSpec, snap: NetworkSnapshot, at: Reading, start: Server)
    requires ValidNetwork(n) && ReadAt(snap, at, start)
    ensures TablesName(n, FillTable(EMPTY_TABLE, n.segments, snap.segments), start)
  {
    var table := FillTable(EMPTY_TABLE, n.segments, snap.segments);
    forall spec | spec in n.segments && spec.key in table.ids ensures IsFor(table.ids[spec.key], spec, start) {
      FilledTable(n.segments, snap.segments, spec);
      FindSegmentFinds(snap.segments, spec.Key());
      var row := FindSegment(snap.segments, spec.Key()).value;
      var i :| 0 <= i < |snap.segments| && snap.segments[i] == row;
      var m := at.segments[i];
      PlayEvolves(m.server, m.since);
      IsForLasts(row.id, spec, m.server, start);
    }
  }

  /** One write of a planned step: what it meets and what it leaves. */
  lemma StepMeets(run: Run, p: PlannedStep, tape: Tape)
    requires WellFormed(run.net.server) && !run.stopped && !p.step.Noop?
    ensures var next := ExecuteOne(run, p, tape);
            var met := Play(run.net.server, tape(|run.net.sent|).others);
            && WellFormed(met) && Evolves(run.net.server, met)
            && next.net.sent == run.net.sent + [next.net.sent[|run.net.sent|]]
            && next.net.sent[|run.net.sent|].before == met
            && next.net.sent[|run.net.sent|].write == WriteFor(p.step, run.table)
            && next.net.server ==
               (if tape(|run.net.sent|).fate.Turned? then met else After(met, WriteFor(p.step, run.table)))
            && WellFormed(next.net.server) && Evolves(met, next.net.server)
  {
    var w, met := WriteFor(p.step, run.table), Play(run.net.server, tape(|run.net.sent|).others);
    PlayKeepsWellFormed(run.net.server, tape(|run.net.sent|).others);
    PlayEvolves(run.net.server, tape(|run.net.sent|).others);
    AfterKeepsWellFormed(met, w);
    AfterEvolves(met, w);
    SendMeets(run.net, w, tape);
  }

  /** A step that is not refused was served, admitted and answered. */
  lemma ChangedIsAdmitted(run: Run, p: PlannedStep, tape: Tape)
    requires !run.stopped && !p.step.Noop? && !ExecuteOne(run, p, tape).stopped
    ensures var next := ExecuteOne(run, p, tape);
            var met, w := Play(run.net.server, tape(|run.net.sent|).others), WriteFor(p.step, run.table);
            && tape(|run.net.sent|).fate.Served? && Judge(met, w).None? && next.net.server == Effect(met, w)
            && next.table == Learn(run.table, p.action.key, p.step, Reply(met, w))
  {
  }

  /** A created segment's id, taught under its key. */
  lemma CreatedIsNamed(n: NetworkSpec, spec: SegmentSpec, table: Table, id: Id, version: int, left: Server)
    requires ValidNetwork(n) && spec in n.segments && TablesName(n, table, left) && IsFor(id, spec, left)
    ensures TablesName(n, table.Put(spec.key, id, version), left)
  {
    forall other | other in n.segments && other.key in table.Put(spec.key, id, version).ids
      ensures IsFor(table.Put(spec.key, id, version).ids[other.key], other, left)
    {
      if other.key == spec.key {
        OneSpecPerKey(n, other, spec);
      }
    }
  }

  lemma StepKeepsNames(n: NetworkSpec, snap: NetworkSnapshot, planned: Table, p: PlannedStep, run: Run, tape: Tape)
    requires ValidNetwork(n) && WellFormed(run.net.server) && TablesName(n, run.table, run.net.server)
    requires PlannedFor(n, snap, planned, p)
    ensures var next := ExecuteOne(run, p, tape);
            WellFormed(next.net.server) && TablesName(n, next.table, next.net.server)
  {
    if !run.stopped && !p.step.Noop? {
      var next := ExecuteOne(run, p, tape);
      var met := Play(run.net.server, tape(|run.net.sent|).others);
      StepMeets(run, p, tape);
      TablesLast(n, run.table, run.net.server, met);
      TablesLast(n, run.table, met, next.net.server);
      if !next.stopped {
        ChangedIsAdmitted(run, p, tape);
        if p.step.SegmentCreate? {
          CreateEffect(met, p.step.segment, run.table);
          CreatedIsNamed(n, p.step.segment, run.table, met.nextId, 1, next.net.server);
        }
      }
    }
  }

  lemma {:induction false} RunKeepsNames(n: NetworkSpec, snap: NetworkSnapshot, planned: Table, steps: seq<PlannedStep>,
                                         run: Run, tape: Tape)
    requires ValidNetwork(n) && WellFormed(run.net.server) && TablesName(n, run.table, run.net.server)
    requires forall p | p in steps :: PlannedFor(n, snap, planned, p)
    ensures var run' := Execute(steps, run, tape);
            WellFormed(run'.net.server) && TablesName(n, run'.table, run'.net.server)
    decreases |steps|
  {
    if steps != [] {
      StepKeepsNames(n, snap, planned, steps[0], run, tape);
      RunKeepsNames(n, snap, planned, steps[1..], ExecuteOne(run, steps[0], tape), tape);
    }
  }

  // ----- what a changed step left -------------------------------------------------------------

  /** The row is a segment with the natural key the manifest gives this key. */
  ghost predicate IsSegmentOf(n: NetworkSpec, key: string, id: Id, s: Server) {
    id in s.segments && forall spec | spec in n.segments && spec.key == key :: s.segments[id].Key() == spec.Key()
  }

  /** The one row a step changes: the policy or the segment as it was read with the stated members replaced, a new
      segment, and a profile of the right segment, new or the read one with the stated members replaced. */
  ghost predicate TookEffect(n: NetworkSpec, step: Step, met: Server, left: Server) {
    match step
    case Noop => left == met
    case PolicyUpdate(spec, read) => met.policy == read && left == met.(policy := Policy(spec.cap, read.version + 1))
    case SegmentCreate(spec) =>
      && !KeyTaken(met, spec.Key())
      && left == met.(segments := met.segments[met.nextId := NewSegment(spec, met.nextId)], nextId := met.nextId + 1)
    case SegmentUpdate(spec, read) =>
      && read.id in met.segments && met.segments[read.id] == read && read.Key() == spec.Key()
      && left == met.(segments := met.segments[read.id := OverlaySegment(spec, read)])
    case ProfileCreate(spec) =>
      exists id ::
        && IsSegmentOf(n, spec.segment, id, met) && id !in met.profiles && spec.sessionTimeout <= met.policy.cap
        && left == met.(profiles := met.profiles[id := NewProfile(spec, id)])
    case ProfileUpdate(spec, read) =>
      && IsSegmentOf(n, spec.segment, read.segmentId, met) && spec.sessionTimeout <= met.policy.cap
      && read.segmentId in met.profiles && met.profiles[read.segmentId].version == read.version
      && left == met.(profiles := met.profiles[read.segmentId := OverlayProfile(spec, read)])
  }

  lemma NamedIsSegmentOf(n: NetworkSpec, table: Table, key: string, s: Server)
    requires TablesName(n, table, s) && key in table.ids && table.ids[key] in s.segments
    ensures IsSegmentOf(n, key, table.ids[key], s)
  {
    forall spec | spec in n.segments && spec.key == key ensures s.segments[table.ids[key]].Key() == spec.Key() {
      assert IsFor(table.ids[spec.key], spec, s);
    }
  }

  lemma PolicyTookEffect(n: NetworkSpec, snap: NetworkSnapshot, at: Reading, start: Server, p: PlannedStep,
                         table: Table,
                         more: seq<Write>)
    requires ReadAt(snap, at, start) && p.step.PolicyUpdate? && snap.policy == Some(p.step.policyRead)
    requires Judge(Play(start, more), WriteFor(p.step, table)).None?
    ensures TookEffect(n, p.step, Play(start, more), Effect(Play(start, more), WriteFor(p.step, table)))
  {
    ReadPolicyStands(at.policy, start, more, p.step.policyRead.version);
  }

  lemma SegmentTookEffect(n: NetworkSpec, snap: NetworkSnapshot, at: Reading, start: Server, p: PlannedStep,
                          table: Table,
                          more: seq<Write>)
    requires ReadAt(snap, at, start) && p.step.SegmentUpdate? && p.step.segmentRead in snap.segments
    requires p.step.segmentRead.Key() == p.step.segment.Key()
    requires WellFormed(Play(start, more)) && Judge(Play(start, more), WriteFor(p.step, table)).None?
    ensures TookEffect(n, p.step, Play(start, more), Effect(Play(start, more), WriteFor(p.step, table)))
  {
    var spec, read := p.step.segment, p.step.segmentRead;
    var i :| 0 <= i < |snap.segments| && snap.segments[i] == read;
    ReadSegmentStands(at.segments[i], start, more, read);
    UpdateEffect(Play(start, more), spec, read, table);
  }

  lemma ProfileCreateTookEffect(n: NetworkSpec, p: PlannedStep, table: Table, met: Server)
    requires WellFormed(met) && TablesName(n, table, met) && p.step.ProfileCreate?
    requires Judge(met, WriteFor(p.step, table)).None?
    ensures TookEffect(n, p.step, met, Effect(met, WriteFor(p.step, table)))
  {
    var spec := p.step.profile;
    assert spec.segment in table.ids;
    var id := table.ids[spec.segment];
    NamedIsSegmentOf(n, table, spec.segment, met);
    assert id !in met.profiles && spec.sessionTimeout <= met.policy.cap;
    assert Effect(met, WriteFor(p.step, table)) == met.(profiles := met.profiles[id := NewProfile(spec, id)]);
  }

  lemma ProfileUpdateTookEffect(n: NetworkSpec, planned: Table, p: PlannedStep, table: Table, met: Server)
    requires TablesName(n, planned, met) && p.step.ProfileUpdate?
    requires NetworkGuarantees.Names(planned, p.step.profile.segment, p.step.profileRead.segmentId)
    requires Judge(met, WriteFor(p.step, table)).None?
    ensures TookEffect(n, p.step, met, Effect(met, WriteFor(p.step, table)))
  {
    NamedIsSegmentOf(n, planned, p.step.profile.segment, met);
  }

  /** An admitted write of a planned step, whatever it met since the reads. */
  lemma AdmittedTookEffect(n: NetworkSpec, snap: NetworkSnapshot, at: Reading, start: Server, planned: Table,
                           p: PlannedStep,
                           table: Table, more: seq<Write>)
    requires ReadAt(snap, at, start) && PlannedFor(n, snap, planned, p) && !p.step.Noop?
    requires WellFormed(start) && TablesName(n, planned, start)
    requires TablesName(n, table, Play(start, more)) && Judge(Play(start, more), WriteFor(p.step, table)).None?
    ensures TookEffect(n, p.step, Play(start, more), Effect(Play(start, more), WriteFor(p.step, table)))
  {
    var met := Play(start, more);
    PlayKeepsWellFormed(start, more);
    match p.step
    case PolicyUpdate(_, _) => PolicyTookEffect(n, snap, at, start, p, table, more);
    case SegmentCreate(spec) => CreateEffect(met, spec, table);
    case SegmentUpdate(_, _) => SegmentTookEffect(n, snap, at, start, p, table, more);
    case ProfileCreate(_) => ProfileCreateTookEffect(n, p, table, met);
    case ProfileUpdate(_, _) =>
      PlayEvolves(start, more);
      TablesLast(n, planned, start, met);
      ProfileUpdateTookEffect(n, planned, p, table, met);
  }

  // ----- the report ---------------------------------------------------------------------------

  lemma {:induction false} ReportGrows(steps: seq<PlannedStep>, run: Run, tape: Tape)
    ensures var run' := Execute(steps, run, tape);
            && |run'.report| == |run.report| + |steps| && run'.report[..|run.report|] == run.report
    decreases |steps|
  {
    if steps != [] {
      var next := ExecuteOne(run, steps[0], tape);
      ReportGrows(steps[1..], next, tape);
      assert next.report[..|run.report|] == run.report;
      assert Execute(steps, run, tape).report[..|next.report|][..|run.report|] == run.report;
    }
  }

  lemma {:induction false} WritesOfStart(steps: seq<PlannedStep>, k: nat, i: nat)
    requires k <= i <= |steps|
    ensures WritesBefore(steps[..i], k) == WritesBefore(steps, k)
  {
    if k > 0 {
      WritesOfStart(steps, k - 1, i);
    }
  }

  /** A run just before step i, when no step before it failed. */
  lemma RunUpTo(steps: seq<PlannedStep>, first: Run, tape: Tape, i: nat)
    requires i < |steps| && first.report == [] && !first.stopped
    ensures var run := Execute(steps[..i], first, tape);
            && |run.report| == i
            && Execute(steps, first, tape) == Execute(steps[i + 1..], ExecuteOne(run, steps[i], tape), tape)
            && (!run.stopped ==> |run.net.sent| == |first.net.sent| + WritesBefore(steps, i))
  {
    var run := Execute(steps[..i], first, tape);
    assert steps == steps[..i] + steps[i..] && steps[i..][1..] == steps[i + 1..];
    ExecuteAppends(steps[..i], steps[i..], first, tape);
    ReportGrows(steps[..i], first, tape);
    assert first == Run(first.net, first.table, [], false);
    var k := ApplyStopsAtFirstFailure(steps[..i], first.net, first.table, tape);
    WritesOfStart(steps, i, i);
  }

  /** The request of step i, once the whole run is over. */
  lemma StepsRequest(steps: seq<PlannedStep>, first: Run, tape: Tape, i: nat)
    requires i < |steps| && first.report == [] && !first.stopped
    ensures var run, all := Execute(steps[..i], first, tape), Execute(steps, first, tape);
            var next := ExecuteOne(run, steps[i], tape);
            && |next.report| == i + 1 && |all.report| == |steps| && all.report[i] == next.report[i]
            && |next.net.sent| <= |all.net.sent| && all.net.sent[..|next.net.sent|] == next.net.sent
  {
    RunUpTo(steps, first, tape, i);
    var run := Execute(steps[..i], first, tape);
    var next := ExecuteOne(run, steps[i], tape);
    ReportGrows(steps[i + 1..], next, tape);
    assert Execute(steps, first, tape).report[..i + 1][i] == next.report[i];
    SentComesFromSteps(steps[i + 1..], next, tape);
  }

  /** Step i of a plan, if it is reported created or updated: its own request, the one after those of the steps
      before it, was admitted, and left what it asks for. */
  ghost predicate StandsBehind(n: NetworkSpec, steps: seq<PlannedStep>, report: seq<AppliedStep>, all: seq<Exchange>,
                               tape: Tape, from: nat, i: nat)
    requires i < |steps| == |report|
  {
    Changed(report[i].status) ==>
      var k := from + WritesBefore(steps, i);
      && report[i].status == (if ChangeOf(steps[i].step) == ChangeUpdate then StatusUpdated else StatusCreated)
      && !steps[i].step.Noop?
      && k < |all| && tape(k).fate.Served? && Judge(all[k].before, all[k].write).None?
      && TookEffect(n, steps[i].step, all[k].before, Effect(all[k].before, all[k].write))
  }

  /** Whoever else writes, between the reads and between the steps: every step an Apply reports created or updated was
      admitted by the server, and at that moment left the row its spec asks for, and no other. */
  lemma ChangedStepsTookEffect(n: NetworkSpec, snap: NetworkSnapshot, planned: Planned, at: Reading, start: Server,
                               sent: seq<Exchange>, tape: Tape)
    requires ValidNetwork(n) && WellFormed(start) && ReadAt(snap, at, start) && PlanOf(n, snap) == Ok(planned)
    ensures var run := ApplyPlan(planned, Net(start, sent), tape);
            && |run.report| == |planned.steps|
            && forall i | 0 <= i < |planned.steps| ::
                 StandsBehind(n, planned.steps, run.report, run.net.sent, tape, |sent|, i)
  {
    var first := Run(Net(start, sent), planned.table, [], false);
    ReportGrows(planned.steps, first, tape);
    var all := Execute(planned.steps, first, tape);
    forall i | 0 <= i < |planned.steps|
      ensures StandsBehind(n, planned.steps, all.report, all.net.sent, tape, |sent|, i)
    {
      StepStandsBehind(n, snap, planned, at, start, sent, tape, i);
    }
  }

  /** Just before step i: the tables still name their segments, and the server is where the writes so far led. */
  lemma RunStaysSound(n: NetworkSpec, snap: NetworkSnapshot, planned: Planned, at: Reading, start: Server,
                      sent: seq<Exchange>, tape: Tape, i: nat)
    requires ValidNetwork(n) && WellFormed(start) && ReadAt(snap, at, start) && PlanOf(n, snap) == Ok(planned)
    requires i <= |planned.steps|
    ensures TablesName(n, planned.table, start)
    ensures var run := Execute(planned.steps[..i], Run(Net(start, sent), planned.table, [], false), tape);
            && WellFormed(run.net.server) && TablesName(n, run.table, run.net.server)
            && run.net.server == Play(start, Reached(run.net.sent, tape, |sent|, |run.net.sent|))
  {
    var steps, first := planned.steps[..i], Run(Net(start, sent), planned.table, [], false);
    StartNames(n, snap, at, start);
    StepsArePlannedFor(n, snap);
    forall q | q in steps ensures PlannedFor(n, snap, planned.table, q) {
      assert q in planned.steps;
    }
    RunKeepsNames(n, snap, planned.table, steps, first, tape);
    RunIsTraced(start, steps, first, tape, |sent|);
  }

  /** One step that is done, on a server where the writes so far led. */
  lemma DoneStepTookEffect(n: NetworkSpec, snap: NetworkSnapshot, at: Reading, start: Server, planned: Table,
                           p: PlannedStep, run: Run, reached: seq<Write>, tape: Tape, all: seq<Exchange>)
    requires ReadAt(snap, at, start) && PlannedFor(n, snap, planned, p) && !p.step.Noop?
    requires WellFormed(start) && TablesName(n, planned, start)
    requires WellFormed(run.net.server) && TablesName(n, run.table, run.net.server)
    requires run.net.server == Play(start, reached)
    requires !run.stopped && !ExecuteOne(run, p, tape).stopped
    requires var sent := ExecuteOne(run, p, tape).net.sent;
             |sent| <= |all| && all[..|sent|] == sent
    ensures var k := |run.net.sent|;
            && k < |all| && tape(k).fate.Served? && Judge(all[k].before, all[k].write).None?
            && TookEffect(n, p.step, all[k].before, Effect(all[k].before, all[k].write))
  {
    var k := |run.net.sent|;
    assert all[k] == ExecuteOne(run, p, tape).net.sent[k] by { StepMeets(run, p, tape); }
    var others := tape(|run.net.sent|).others;
    StepMeets(run, p, tape);
    ChangedIsAdmitted(run, p, tape);
    PlayAppends(start, reached, others);
    TablesLast(n, run.table, run.net.server, Play(start, reached + others));
    AdmittedTookEffect(n, snap, at, start, planned, p, run.table, reached + others);
  }

  lemma PlannedStepIs(n: NetworkSpec, snap: NetworkSnapshot, planned: Planned, i: nat)
    requires PlanOf(n, snap) == Ok(planned) && i < |planned.steps|
    ensures PlannedFor(n, snap, planned.table, planned.steps[i])
    ensures planned.steps[i].action.change == ChangeOf(planned.steps[i].step)
  {
    StepsArePlannedFor(n, snap);
    PlansAreHonest(n, snap);
    assert planned.steps[i] in planned.steps;
  }

  /** What a step's own entry in the report says. */
  lemma StatusOfOne(run: Run, p: PlannedStep, tape: Tape)
    requires p.action.change == ChangeOf(p.step)
    ensures var next := ExecuteOne(run, p, tape);
            var status := next.report[|run.report|].status;
            Changed(status) ==>
              && !run.stopped && !p.step.Noop? && !next.stopped
              && status == if ChangeOf(p.step) == ChangeUpdate then StatusUpdated else StatusCreated
  {
  }

  /** Step i of a plan, run on a server where the writes so far led, by what its own request and entry say. */
  lemma ReportedStep(n: NetworkSpec, snap: NetworkSnapshot, planned: Planned, at: Reading, start: Server, run: Run,
                     reached: seq<Write>, tape: Tape, all: Run, from: nat, i: nat)
    requires ReadAt(snap, at, start) && PlanOf(n, snap) == Ok(planned) && i < |planned.steps| == |all.report|
    requires WellFormed(start) && TablesName(n, planned.table, start)
    requires WellFormed(run.net.server) && TablesName(n, run.table, run.net.server)
    requires run.net.server == Play(start, reached)
    requires !run.stopped ==> |run.net.sent| == from + WritesBefore(planned.steps, i)
    requires var next := ExecuteOne(run, planned.steps[i], tape);
             && |run.report| == i && all.report[i] == next.report[i]
             && |next.net.sent| <= |all.net.sent| && all.net.sent[..|next.net.sent|] == next.net.sent
    ensures StandsBehind(n, planned.steps, all.report, all.net.sent, tape, from, i)
  {
    var p := planned.steps[i];
    PlannedStepIs(n, snap, planned, i);
    StatusOfOne(run, p, tape);
    if Changed(all.report[i].status) {
      DoneStepTookEffect(n, snap, at, start, planned.table, p, run, reached, tape, all.net.sent);
    }
  }

  lemma StepStandsBehind(n: NetworkSpec, snap: NetworkSnapshot, planned: Planned, at: Reading, start: Server,
                         sent: seq<Exchange>, tape: Tape, i: nat)
    requires ValidNetwork(n) && WellFormed(start) && ReadAt(snap, at, start) && PlanOf(n, snap) == Ok(planned)
    requires i < |planned.steps|
    ensures var run := ApplyPlan(planned, Net(start, sent), tape);
            && |run.report| == |planned.steps|
            && StandsBehind(n, planned.steps, run.report, run.net.sent, tape, |sent|, i)
  {
    var steps, first := planned.steps, Run(Net(start, sent), planned.table, [], false);
    var run := Execute(steps[..i], first, tape);
    RunUpTo(steps, first, tape, i);
    StepsRequest(steps, first, tape, i);
    RunStaysSound(n, snap, planned, at, start, sent, tape, i);
    var reached := Reached(run.net.sent, tape, |sent|, |run.net.sent|);
    ReportedStep(n, snap, planned, at, start, run, reached, tape, Execute(steps, first, tape), |sent|, i);
  }
}
