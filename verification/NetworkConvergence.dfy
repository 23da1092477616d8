/** Rule 6 of section 27.6 of CONTRACT.md, Apply then Plan changes nothing: exactly when it holds for
    a network section, and that two complete Applies always suffice. */
module NetworkConvergence {
  import opened Wrappers
  import opened NetworkServer
  import opened NetworkManifest
  import opened NetworkPlan
  import opened NetworkApply
  import opened NetworkRun
  import opened ManagementPlan

  // ----- what a converged plan means ----------------------------------------------------------

  ghost predicate PlansNoChange(n: NetworkSpec, snap: NetworkSnapshot) {
    PlanOf(n, snap).Ok? && IsConverged(PlanOf(n, snap).value.steps)
  }

  /** Every stated row was read and no stated member of it differs. */
  ghost predicate ReadAsStated(n: NetworkSpec, snap: NetworkSnapshot) {
    && (n.policy.Some? && snap.policy.Some? ==> snap.policy.value.cap == n.policy.value.cap)
    && (forall spec | spec in n.segments :: SegmentAsStated(spec, snap))
    && (forall seg | seg in n.segments && seg.key in ProfilesByKey(n.profiles) ::
          LeftAlone(seg, ProfilesByKey(n.profiles)[seg.key], snap))
  }

  predicate SegmentAsStated(spec: SegmentSpec, snap: NetworkSnapshot) {
    var row := FindSegment(snap.segments, spec.Key());
    row.Some? && !SegmentDrifted(spec, row.value)
  }

  /** The plan finds the profile and sees nothing to change in it. */
  predicate LeftAlone(seg: SegmentSpec, spec: ProfileSpec, snap: NetworkSnapshot) {
    FoundProfile(seg, snap).Some? && !ProfileDrifted(spec, FoundProfile(seg, snap).value)
  }

  lemma {:induction false} ConvergedProfiles(specs: seq<SegmentSpec>, profiles: map<string, ProfileSpec>, table: Table,
                                             listed: seq<ProfileRead>)
    ensures var planned := PlanProfiles(specs, profiles, table, listed);
            planned.Ok? && IsConverged(planned.value) <==>
            forall seg | seg in specs && seg.key in profiles ::
              var existing := ExistingProfile(seg.key, table, listed);
              existing.Some? && !ProfileDrifted(profiles[seg.key], existing.value)
  {
    if specs != [] {
      ConvergedProfiles(specs[1..], profiles, table, listed);
      var rest := PlanProfiles(specs[1..], profiles, table, listed);
      var key := specs[0].key;
      assert specs == [specs[0]] + specs[1..];
      if key in profiles {
        var first := PlanProfile(profiles[key], key, ExistingProfile(key, table, listed));
        if first.Ok? && rest.Ok? {
          assert PlanProfiles(specs, profiles, table, listed) == Ok([first.value] + rest.value);
          assert first.value in [first.value] + rest.value;
        }
      }
    }
  }

  lemma ConvergedSegments(specs: seq<SegmentSpec>, rows: seq<Segment>)
    ensures IsConverged(PlanSegments(specs, rows)) <==>
            forall spec | spec in specs ::
              FindSegment(rows, spec.Key()).Some? && !SegmentDrifted(spec, FindSegment(rows, spec.Key()).value)
  {
    var steps := PlanSegments(specs, rows);
    forall spec | spec in specs ensures PlanSegment(spec, rows) in steps {
      var i :| 0 <= i < |specs| && specs[i] == spec;
      assert steps[i] == PlanSegment(spec, rows);
    }
  }

  /** A plan changes nothing exactly when everything stated was read as stated. */
  lemma ConvergedMeansReadAsStated(n: NetworkSpec, snap: NetworkSnapshot)
    requires ValidNetwork(n)
    ensures PlansNoChange(n, snap) <==> ReadAsStated(n, snap)
  {
    if !n.IsEmpty() {
      var table := FillTable(EMPTY_TABLE, n.segments, snap.segments);
      ProfilesAreFound(n, snap);
      ConvergedProfiles(n.segments, ProfilesByKey(n.profiles), table, snap.profiles);
      ConvergedSegments(n.segments, snap.segments);
      var a, b := PlanPolicy(n, snap), PlanSegments(n.segments, snap.segments);
      var planned := PlanProfiles(n.segments, ProfilesByKey(n.profiles), table, snap.profiles);
      if planned.Ok? {
        var c := planned.value;
        assert IsConverged(a + b + c) <==> IsConverged(a) && IsConverged(b) && IsConverged(c) by {
          assert forall p :: p in a + b + c <==> p in a || p in b || p in c;
        }
        assert IsConverged(a) <==>
               (n.policy.Some? && snap.policy.Some? ==> snap.policy.value.cap == n.policy.value.cap) by {
          if a != [] { assert a[0] in a; }
        }
      }
    }
  }

  // ----- what is left after a complete run ----------------------------------------------------

  lemma SettledSegmentIsAsStated(spec: SegmentSpec, found: Option<Segment>, id: Id)
    ensures !SegmentDrifted(spec, SettledSegment(spec, found, id))
  {
  }

  /** A written profile reads as stated under the cap it was written under. */
  lemma WrittenProfileIsAsStated(spec: ProfileSpec, after: Profile, found: Option<ProfileRead>, cap: int, id: Id)
    requires after == match found case None => NewProfile(spec, id) case Some(read) => OverlayProfile(spec, read)
    requires spec.sessionTimeout <= cap && IdleFits(after)
    ensures !ProfileDrifted(spec, Effective(after, cap))
  {
  }

  /** A profile that was left alone reads as stated under another cap exactly when that cap admits the
      stated timeout and, if the first read was clamped, does not raise the cap it was clamped to. */
  lemma UnwrittenProfileUnderNewCap(spec: ProfileSpec, stored: Profile, oldCap: int, newCap: int)
    requires IdleFits(stored) && !ProfileDrifted(spec, Effective(stored, oldCap))
    ensures !ProfileDrifted(spec, Effective(stored, newCap)) <==>
            spec.sessionTimeout <= newCap && (stored.sessionTimeout > oldCap ==> newCap <= oldCap)
  {
  }

  /** A cap that admits the stated timeout and, when the profile was read clamped, is not raised. */
  predicate CapSuits(seg: SegmentSpec, spec: ProfileSpec, snap: NetworkSnapshot, oldCap: int, newCap: int) {
    LeftAlone(seg, spec, snap) ==>
      spec.sessionTimeout <= newCap && (FoundProfile(seg, snap).value.clamped ==> newCap <= oldCap)
  }

  /** Judged on the first plan's own reads: no profile it would leave alone is stated above the
      manifest's cap, or was read clamped to a lower one. A manifest without a policy always meets it. */
  ghost predicate CapSettled(n: NetworkSpec, snap: NetworkSnapshot) {
    n.policy.Some? && snap.policy.Some? ==>
      forall seg | seg in n.segments && seg.key in ProfilesByKey(n.profiles) ::
        CapSuits(seg, ProfilesByKey(n.profiles)[seg.key], snap, snap.policy.value.cap, n.policy.value.cap)
  }

  lemma ReadAfterRun(n: NetworkSpec, s: Server, snap: NetworkSnapshot, run: Run, snap': NetworkSnapshot,
                     seg: SegmentSpec)
    requires WellFormed(run.net.server) && Settled(n, s, snap, run) && seg in n.segments
    requires Reads(n, run.net.server, run.net.server, run.net.server, snap')
    ensures SegmentAsStated(seg, snap') && FindSegment(snap'.segments, seg.Key()).value.id == run.table.ids[seg.key]
  {
    assert SegmentDone(seg, snap.segments, run);
    FoundInListing(snap'.segments, run.net.server, seg.Key());
    SettledSegmentIsAsStated(seg, FindSegment(snap.segments, seg.Key()), run.table.ids[seg.key]);
  }

  /** The profile a fresh read finds for a stated profile's segment. */
  lemma ProfileReadAfterRun(n: NetworkSpec, s: Server, snap: NetworkSnapshot, run: Run, snap': NetworkSnapshot,
                            seg: SegmentSpec)
    requires WellFormed(run.net.server) && Settled(n, s, snap, run)
    requires Reads(n, run.net.server, run.net.server, run.net.server, snap')
    requires seg in n.segments && seg.key in ProfilesByKey(n.profiles)
    ensures var id := run.table.ids[seg.key];
            && SegmentDone(seg, snap.segments, run)
            && ProfileDone(seg, ProfilesByKey(n.profiles)[seg.key], FoundProfile(seg, snap),
                           s.(policy := run.net.server.policy), run)
            && FoundProfile(seg, snap') == Some(Effective(run.net.server.profiles[id], run.net.server.policy.cap))
            && IdleFits(run.net.server.profiles[id])
  {
    ReadAfterRun(n, s, snap, run, snap', seg);
    ProfilesFiled(n.profiles);
    assert n.profiles != [];
    assert ProfileDone(seg, ProfilesByKey(n.profiles)[seg.key], FoundProfile(seg, snap),
                       s.(policy := run.net.server.policy), run);
    ProfileInListing(snap'.profiles, run.net.server, run.table.ids[seg.key]);
  }

  lemma ProfileReadBefore(n: NetworkSpec, s: Server, snap: NetworkSnapshot, seg: SegmentSpec)
    requires WellFormed(s) && Reads(n, s, s, s, snap) && seg in n.segments && seg.key in ProfilesByKey(n.profiles)
    requires FoundProfile(seg, snap).Some?
    ensures var id := FindSegment(snap.segments, seg.Key()).value.id;
            && id in s.profiles && FoundProfile(seg, snap).value == Effective(s.profiles[id], s.policy.cap)
            && IdleFits(s.profiles[id])
  {
    ProfilesFiled(n.profiles);
    assert n.profiles != [];
    FoundInListing(snap.segments, s, seg.Key());
    ProfileInListing(snap.profiles, s, FindSegment(snap.segments, seg.Key()).value.id);
  }

  lemma ProfileAfterRun(n: NetworkSpec, s: Server, snap: NetworkSnapshot, run: Run, snap': NetworkSnapshot,
                        seg: SegmentSpec)
    requires WellFormed(s) && WellFormed(run.net.server) && Settled(n, s, snap, run)
    requires Reads(n, s, s, s, snap)
    requires Reads(n, run.net.server, run.net.server, run.net.server, snap')
    requires seg in n.segments && seg.key in ProfilesByKey(n.profiles)
    ensures var spec := ProfilesByKey(n.profiles)[seg.key];
            LeftAlone(seg, spec, snap') <==> CapSuits(seg, spec, snap, s.policy.cap, run.net.server.policy.cap)
  {
    var spec := ProfilesByKey(n.profiles)[seg.key];
    var found := FoundProfile(seg, snap);
    var id := run.table.ids[seg.key];
    ProfileReadAfterRun(n, s, snap, run, snap', seg);
    var after := run.net.server.profiles[id];
    if LeftAlone(seg, spec, snap) {
      ProfileReadBefore(n, s, snap, seg);
      assert after == s.profiles[id];
      UnwrittenProfileUnderNewCap(spec, after, s.policy.cap, run.net.server.policy.cap);
    } else {
      WrittenProfileIsAsStated(spec, after, found, run.net.server.policy.cap, id);
    }
  }

  /** Apply then Plan, with no other writer: after a complete Apply, a fresh plan changes nothing exactly
      when the cap the manifest states suits the profiles the Apply left alone. */
  lemma ApplyThenPlan(n: NetworkSpec, s: Server, snap: NetworkSnapshot, planned: Planned, sent: seq<Exchange>,
                      tape: Tape,
                      snap': NetworkSnapshot)
    requires Quiet(tape) && WellFormed(s) && ValidNetwork(n) && Reads(n, s, s, s, snap)
    requires PlanOf(n, snap) == Ok(planned)
    requires var run := ApplyPlan(planned, Net(s, sent), tape);
             !run.stopped && Reads(n, run.net.server, run.net.server, run.net.server, snap')
    ensures PlansNoChange(n, snap') <==> CapSettled(n, snap)
  {
    QuietApply(n, s, snap, planned, sent, tape);
    SettledReads(n, s, snap, ApplyPlan(planned, Net(s, sent), tape), snap');
    ConvergedMeansReadAsStated(n, snap');
  }

  /** A fresh read of a settled server is as stated exactly when the cap suits. */
  lemma SettledReads(n: NetworkSpec, s: Server, snap: NetworkSnapshot, run: Run, snap': NetworkSnapshot)
    requires WellFormed(s) && WellFormed(run.net.server) && Reads(n, s, s, s, snap)
    requires Settled(n, s, snap, run) && (n.policy.None? ==> run.net.server.policy == s.policy)
    requires Reads(n, run.net.server, run.net.server, run.net.server, snap')
    ensures ReadAsStated(n, snap') <==> CapSettled(n, snap)
  {
    forall seg | seg in n.segments ensures SegmentAsStated(seg, snap') {
      ReadAfterRun(n, s, snap, run, snap', seg);
    }
    forall seg | seg in n.segments && seg.key in ProfilesByKey(n.profiles)
      ensures var spec := ProfilesByKey(n.profiles)[seg.key];
              LeftAlone(seg, spec, snap') <==> CapSuits(seg, spec, snap, s.policy.cap, run.net.server.policy.cap)
      ensures n.policy.None? ==> LeftAlone(seg, ProfilesByKey(n.profiles)[seg.key], snap')
    {
      ProfileAfterRun(n, s, snap, run, snap', seg);
      if LeftAlone(seg, ProfilesByKey(n.profiles)[seg.key], snap) {
        LeftAloneIsWithinTheCap(n, s, snap, seg);
      }
    }
  }

  /** A profile the plan leaves alone is stated within the cap its read was clamped to. */
  lemma LeftAloneIsWithinTheCap(n: NetworkSpec, s: Server, snap: NetworkSnapshot, seg: SegmentSpec)
    requires WellFormed(s) && Reads(n, s, s, s, snap) && seg in n.segments && seg.key in ProfilesByKey(n.profiles)
    requires LeftAlone(seg, ProfilesByKey(n.profiles)[seg.key], snap)
    ensures ProfilesByKey(n.profiles)[seg.key].sessionTimeout <= s.policy.cap
  {
    ProfileReadBefore(n, s, snap, seg);
  }

  /** A manifest that states a profile above the cap it states can never be read as stated: what cannot
      converge is named by the manifest alone. */
  lemma ConvergedIsWithinTheCap(n: NetworkSpec, s: Server, snap: NetworkSnapshot)
    requires WellFormed(s) && ValidNetwork(n) && Reads(n, s, s, s, snap) && PlansNoChange(n, snap)
    ensures forall p | p in n.profiles :: p.sessionTimeout <= s.policy.cap
    ensures n.policy.Some? ==> s.policy.cap == n.policy.value.cap
  {
    ConvergedMeansReadAsStated(n, snap);
    forall p | p in n.profiles ensures p.sessionTimeout <= s.policy.cap {
      var seg := SegmentOf(n, p);
      LeftAloneIsWithinTheCap(n, s, snap, seg);
    }
  }

  /** The segment spec a stated profile belongs to, and that the profile is the one filed under its key. */
  lemma SegmentOf(n: NetworkSpec, p: ProfileSpec) returns (seg: SegmentSpec)
    requires ValidNetwork(n) && p in n.profiles
    ensures seg in n.segments && seg.key == p.segment
    ensures seg.key in ProfilesByKey(n.profiles) && ProfilesByKey(n.profiles)[seg.key] == p
  {
    var j :| 0 <= j < |n.profiles| && n.profiles[j] == p;
    assert ProfileKeys(n.profiles)[j] == p.segment;
    assert p.segment in SpecKeys(n.segments);
    var i :| 0 <= i < |n.segments| && SpecKeys(n.segments)[i] == p.segment;
    seg := n.segments[i];
    ProfilesFiled(n.profiles);
    var filed := ProfilesByKey(n.profiles)[p.segment];
    var k :| 0 <= k < |n.profiles| && n.profiles[k] == filed;
    assert ProfileKeys(n.profiles)[k] == ProfileKeys(n.profiles)[j];
  }

  /** Two complete Applies with no other writer always converge. */
  lemma TwoAppliesSuffice(n: NetworkSpec, s: Server, snap: NetworkSnapshot, planned: Planned, sent: seq<Exchange>,
                          tape: Tape, snap1: NetworkSnapshot, planned1: Planned, tape1: Tape, snap2: NetworkSnapshot)
    requires Quiet(tape) && Quiet(tape1) && WellFormed(s) && ValidNetwork(n) && Reads(n, s, s, s, snap)
    requires PlanOf(n, snap) == Ok(planned) && PlanOf(n, snap1) == Ok(planned1)
    requires var run := ApplyPlan(planned, Net(s, sent), tape);
             && !run.stopped && Reads(n, run.net.server, run.net.server, run.net.server, snap1)
             && var run1 := ApplyPlan(planned1, run.net, tape1);
                !run1.stopped && Reads(n, run1.net.server, run1.net.server, run1.net.server, snap2)
    ensures PlansNoChange(n, snap2)
  {
    QuietApply(n, s, snap, planned, sent, tape);
    var run := ApplyPlan(planned, Net(s, sent), tape);
    var t := run.net.server;
    assert run.net == Net(t, run.net.sent);
    ApplyThenPlan(n, t, snap1, planned1, run.net.sent, tape1, snap2);
    if n.policy.Some? {
      forall seg | seg in n.segments && seg.key in ProfilesByKey(n.profiles)
                   && LeftAlone(seg, ProfilesByKey(n.profiles)[seg.key], snap1)
        ensures ProfilesByKey(n.profiles)[seg.key].sessionTimeout <= n.policy.value.cap
      {
        LeftAloneIsWithinTheCap(n, t, snap1, seg);
      }
    }
  }

  lemma {:induction false} NoopsAreSilent(steps: seq<PlannedStep>, run: Run, tape: Tape)
    requires (forall p | p in steps :: p.step.Noop?) && !run.stopped
    ensures var run' := Execute(steps, run, tape);
            && run'.net == run.net && run'.table == run.table && !run'.stopped
            && run'.report == run.report + Unchanged(steps)
    decreases |steps|
  {
    if steps != [] {
      NoopsAreSilent(steps[1..], ExecuteOne(run, steps[0], tape), tape);
      assert Unchanged(steps) == [AppliedStep(steps[0].action, StatusUnchanged)] + Unchanged(steps[1..]);
    }
  }

  function Unchanged(steps: seq<PlannedStep>): seq<AppliedStep> {
    seq(|steps|, i requires 0 <= i < |steps| => AppliedStep(steps[i].action, StatusUnchanged))
  }

  /** Applying a converged manifest again sends no write at all and reports every step unchanged,
      whatever other writers do. */
  lemma ConvergedApplyIsSilent(n: NetworkSpec, snap: NetworkSnapshot, net: Net, tape: Tape)
    requires PlansNoChange(n, snap)
    ensures var planned := PlanOf(n, snap).value;
            var run := ApplyPlan(planned, net, tape);
            run.net == net && !run.stopped && run.report == Unchanged(planned.steps)
  {
    PlansAreHonest(n, snap);
    NoopsAreSilent(PlanOf(n, snap).value.steps, Run(net, PlanOf(n, snap).value.table, [], false), tape);
  }
}
