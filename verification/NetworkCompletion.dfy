/** When an Apply completes: with no other writer and every write served, the server's own rules are all that can
    stop it, and only a stated profile breaks one. */
module NetworkCompletion {
  import opened Wrappers
  import opened Keys
  import opened NetworkServer
  import opened NetworkManifest
  import opened NetworkPlan
  import opened NetworkApply
  import opened NetworkRun
  import opened NetworkConvergence

  /** No write is turned away for a reason outside the model, and no answer is lost. */
  ghost predicate AllServed(tape: Tape) {
    forall k: nat :: tape(k).fate.Served?
  }

  /** The stated timeout is within the cap, and the idle timeout the write carries, stated or as read, within it. */
  predicate Fits(spec: ProfileSpec, existing: Option<ProfileRead>, cap: int) {
    var idle := Over(spec.idleTimeout, if existing.Some? then existing.value.idleTimeout else None);
    spec.sessionTimeout <= cap && (idle.Some? ==> idle.value <= spec.sessionTimeout)
  }

  /** The profile would be written, and the server would refuse it. */
  predicate Misfits(spec: ProfileSpec, existing: Option<ProfileRead>, cap: int) {
    (existing.None? || ProfileDrifted(spec, existing.value)) && !Fits(spec, existing, cap)
  }

  // ----- one write ----------------------------------------------------------------------------

  lemma ServedSend(net: Net, w: Write, tape: Tape)
    requires Quiet(tape) && AllServed(tape)
    ensures LastAnswer(Send(net, w, tape)).Refused? <==> Judge(net.server, w).Some?
  {
    assert Play(net.server, tape(|net.sent|).others) == net.server;
  }

  lemma SegmentStepIsServed(spec: SegmentSpec, rows: seq<Segment>, run: Run, tape: Tape)
    requires Quiet(tape) && AllServed(tape) && WellFormed(run.net.server) && !run.stopped
    requires SegmentReady(spec, rows, run)
    ensures !ExecuteOne(run, PlanSegment(spec, rows), tape).stopped
  {
    var p := PlanSegment(spec, rows);
    if !p.step.Noop? {
      ServedSend(run.net, WriteFor(p.step, run.table), tape);
      if p.step.SegmentCreate? {
        CreateEffect(run.net.server, spec, run.table);
      } else {
        UpdateEffect(run.net.server, spec, p.step.segmentRead, run.table);
      }
    }
  }

  /** A profile's own step fails exactly when the profile misfits the cap then in force. */
  lemma ProfileStepIsServed(seg: SegmentSpec, spec: ProfileSpec, existing: Option<ProfileRead>, cap: int, run: Run,
                            tape: Tape)
    requires Quiet(tape) && AllServed(tape) && WellFormed(run.net.server) && !run.stopped
    requires ProfileReady(seg, spec, existing, cap, run)
    requires PlanProfile(spec, seg.key, existing).Ok?
    ensures ExecuteOne(run, PlanProfile(spec, seg.key, existing).value, tape).stopped <==>
            Misfits(spec, existing, run.net.server.policy.cap)
  {
    var p := PlanProfile(spec, seg.key, existing).value;
    if !p.step.Noop? {
      var w := WriteFor(p.step, run.table);
      ServedSend(run.net, w, tape);
      assert Judge(run.net.server, w) == JudgeInput(run.net.server, w.profile);
    }
  }

  // ----- the run ------------------------------------------------------------------------------

  lemma {:induction false} SegmentsAreServed(specs: seq<SegmentSpec>, rows: seq<Segment>, run: Run, tape: Tape)
    requires Quiet(tape) && AllServed(tape) && WellFormed(run.net.server) && !run.stopped
    requires Distinct(SpecKeys(specs)) && Distinct(NaturalKeys(specs))
    requires forall spec | spec in specs :: SegmentReady(spec, rows, run)
    ensures !Execute(PlanSegments(specs, rows), run, tape).stopped
    decreases |specs|
  {
    if specs != [] {
      var spec, rest := specs[0], specs[1..];
      SplitSpecs(specs);
      var steps := PlanSegments(specs, rows);
      assert steps[0] == PlanSegment(spec, rows) && steps[1..] == PlanSegments(rest, rows);
      var next := ExecuteOne(run, steps[0], tape);
      SegmentStep(spec, rows, run, tape);
      SegmentStepIsServed(spec, rows, run, tape);
      forall other | other in rest ensures SegmentReady(other, rows, next) {
        OthersStayReady(spec, other, rows, run, next);
      }
      SegmentsAreServed(rest, rows, next, tape);
    }
  }

  ghost predicate SomeMisfits(specs: seq<SegmentSpec>, profiles: map<string, ProfileSpec>, table: Table,
                              listed: seq<ProfileRead>, cap: int) {
    exists seg | seg in specs && seg.key in profiles ::
      Misfits(profiles[seg.key], ExistingProfile(seg.key, table, listed), cap)
  }

  lemma SomeMisfitsSplits(specs: seq<SegmentSpec>, profiles: map<string, ProfileSpec>, table: Table,
                          listed: seq<ProfileRead>, cap: int)
    requires specs != []
    ensures SomeMisfits(specs, profiles, table, listed, cap) <==>
            || (specs[0].key in profiles
                && Misfits(profiles[specs[0].key], ExistingProfile(specs[0].key, table, listed), cap))
            || SomeMisfits(specs[1..], profiles, table, listed, cap)
  {
    assert specs == [specs[0]] + specs[1..];
  }

  lemma {:induction false} ProfilesAreServed(specs: seq<SegmentSpec>, profiles: map<string, ProfileSpec>, table: Table,
                                             listed: seq<ProfileRead>, cap: int, steps: seq<PlannedStep>, run: Run,
                                             tape: Tape)
    requires Quiet(tape) && AllServed(tape) && WellFormed(run.net.server) && !run.stopped
    requires Distinct(SpecKeys(specs)) && Distinct(NaturalKeys(specs))
    requires PlanProfiles(specs, profiles, table, listed) == Ok(steps)
    requires AllProfilesReady(specs, profiles, table, listed, cap, run)
    ensures Execute(steps, run, tape).stopped <==>
            SomeMisfits(specs, profiles, table, listed, run.net.server.policy.cap)
    decreases |specs|
  {
    if specs != [] {
      var seg, rest := specs[0], specs[1..];
      SplitSpecs(specs);
      SomeMisfitsSplits(specs, profiles, table, listed, run.net.server.policy.cap);
      assert SegmentKnown(seg, run);
      if seg.key !in profiles {
        ProfilesAreServed(rest, profiles, table, listed, cap, steps, run, tape);
      } else {
        var existing := ExistingProfile(seg.key, table, listed);
        var later := PlanProfiles(rest, profiles, table, listed).value;
        assert steps == [PlanProfile(profiles[seg.key], seg.key, existing).value] + later && steps[1..] == later;
        var next := ExecuteOne(run, steps[0], tape);
        ProfileStep(seg, profiles[seg.key], existing, cap, run, tape);
        ProfileStepIsServed(seg, profiles[seg.key], existing, cap, run, tape);
        RestStaysReady(specs, profiles, table, listed, cap, run, next);
        if next.stopped {
          StoppedRunIsInert(later, next, tape);
        } else {
          ProfilesAreServed(rest, profiles, table, listed, cap, later, next, tape);
        }
      }
    }
  }

  /** The cap in force when the profiles are written: the manifest's own, or the server's where it states none. */
  function FinalCap(n: NetworkSpec, s: Server): int {
    if n.policy.Some? then n.policy.value.cap else s.policy.cap
  }

  lemma PolicyIsServed(n: NetworkSpec, snap: NetworkSnapshot, run: Run, tape: Tape)
    requires Quiet(tape) && AllServed(tape) && WellFormed(run.net.server) && !run.stopped
    requires snap.policy == if n.policy.Some? then Some(run.net.server.policy) else None
    ensures var run' := Execute(PlanPolicy(n, snap), run, tape);
            !run'.stopped && run'.net.server.policy.cap == FinalCap(n, run.net.server)
  {
    var steps := PlanPolicy(n, snap);
    PolicyPhase(n, snap, run, tape);
    if steps != [] {
      assert steps[1..] == [];
      if !steps[0].step.Noop? {
        ServedSend(run.net, WriteFor(steps[0].step, run.table), tape);
      }
    }
  }

  /** The profile steps of a run whose segments are all settled. */
  lemma ProfilesFinishServed(n: NetworkSpec, s: Server, snap: NetworkSnapshot, run: Run, steps: seq<PlannedStep>,
                             tape: Tape)
    requires Quiet(tape) && AllServed(tape) && WellFormed(s) && ValidNetwork(n) && Reads(n, s, s, s, snap)
    requires var table := FillTable(EMPTY_TABLE, n.segments, snap.segments);
             PlanProfiles(n.segments, ProfilesByKey(n.profiles), table, snap.profiles) == Ok(steps)
    requires !run.stopped && WellFormed(run.net.server)
    requires OnlySegments(s.(policy := run.net.server.policy), run.net.server, NaturalKeys(n.segments))
    requires forall spec | spec in n.segments :: SegmentDone(spec, snap.segments, run)
    ensures Execute(steps, run, tape).stopped <==>
            exists seg | seg in n.segments && seg.key in ProfilesByKey(n.profiles) ::
              Misfits(ProfilesByKey(n.profiles)[seg.key], FoundProfile(seg, snap), run.net.server.policy.cap)
  {
    var table, filed := FillTable(EMPTY_TABLE, n.segments, snap.segments), ProfilesByKey(n.profiles);
    forall seg | seg in n.segments && seg.key in filed
      ensures ExistingProfile(seg.key, table, snap.profiles) == FoundProfile(seg, snap)
      ensures ProfileReady(seg, filed[seg.key], FoundProfile(seg, snap), s.policy.cap, run)
    {
      ProfilesStartReady(n, s, snap, run, seg);
    }
    ProfilesAreServed(n.segments, filed, table, snap.profiles, s.policy.cap, steps, run, tape);
  }

  /** Every profile the plan would write fits the final cap. */
  ghost predicate ProfilesFit(n: NetworkSpec, snap: NetworkSnapshot, cap: int) {
    forall seg | seg in n.segments && seg.key in ProfilesByKey(n.profiles) ::
      !LeftAlone(seg, ProfilesByKey(n.profiles)[seg.key], snap) ==>
        Fits(ProfilesByKey(n.profiles)[seg.key], FoundProfile(seg, snap), cap)
  }

  /** With no other writer and every write served, an Apply completes exactly when every profile it writes fits:
      its session timeout within the final cap, and its idle timeout, stated or carried, within that session
      timeout. A carried idle timeout above a lowered session timeout is refused. */
  lemma ServedApplyCompletes(n: NetworkSpec, s: Server, snap: NetworkSnapshot, planned: Planned, sent: seq<Exchange>,
                             tape: Tape)
    requires Quiet(tape) && AllServed(tape) && WellFormed(s) && ValidNetwork(n) && Reads(n, s, s, s, snap)
    requires PlanOf(n, snap) == Ok(planned)
    ensures !ApplyPlan(planned, Net(s, sent), tape).stopped <==> ProfilesFit(n, snap, FinalCap(n, s))
  {
    var start := Run(Net(s, sent), planned.table, [], false);
    if !n.IsEmpty() {
      var a, b := PlanPolicy(n, snap), PlanSegments(n.segments, snap.segments);
      var table := FillTable(EMPTY_TABLE, n.segments, snap.segments);
      var c := PlanProfiles(n.segments, ProfilesByKey(n.profiles), table, snap.profiles).value;
      assert planned == Planned(a + b + c, table);
      ExecuteAppends(a + b, c, start, tape);
      ExecuteAppends(a, b, start, tape);
      PolicyPhase(n, snap, start, tape);
      PolicyIsServed(n, snap, start, tape);
      var run := Execute(a, start, tape);
      forall spec | spec in n.segments ensures SegmentReady(spec, snap.segments, run) {
        StartReady(n, s, snap, spec, run);
      }
      SegmentPhase(n.segments, snap.segments, run, tape);
      SegmentsAreServed(n.segments, snap.segments, run, tape);
      ProfilesFinishServed(n, s, snap, Execute(b, run, tape), c, tape);
    }
  }

  /** So such an Apply completes and is followed by a plan of no changes exactly when every profile it writes fits and
      the cap suits those it leaves alone. */
  lemma ServedApplyConverges(n: NetworkSpec, s: Server, snap: NetworkSnapshot, planned: Planned, sent: seq<Exchange>,
                             tape: Tape, snap': NetworkSnapshot)
    requires Quiet(tape) && AllServed(tape) && WellFormed(s) && ValidNetwork(n) && Reads(n, s, s, s, snap)
    requires PlanOf(n, snap) == Ok(planned)
    requires var t := ApplyPlan(planned, Net(s, sent), tape).net.server;
             Reads(n, t, t, t, snap')
    ensures !ApplyPlan(planned, Net(s, sent), tape).stopped && PlansNoChange(n, snap') <==>
            ProfilesFit(n, snap, FinalCap(n, s)) && CapSettled(n, snap)
  {
    ServedApplyCompletes(n, s, snap, planned, sent, tape);
    if !ApplyPlan(planned, Net(s, sent), tape).stopped {
      ApplyThenPlan(n, s, snap, planned, sent, tape, snap');
    }
  }
}
