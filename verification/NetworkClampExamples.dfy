/** The two families of manifests for which a complete Apply is not followed by a plan of no changes,
    each by one concrete tenant: a cap raised over a clamped profile, and a cap lowered under one. */
module NetworkClampExamples {
  import opened Wrappers
  import opened Nullables
  import opened NetworkServer
  import opened NetworkManifest
  import opened NetworkPlan
  import opened NetworkApply
  import opened NetworkRun
  import opened NetworkConvergence

  const IOT := Segment(1, "default", "access", "iot", 20, Some(10), ["iot-acl"], true, 1)
  const IOT_SPEC := SegmentSpec("iot", "default", "access", "iot", 20, Absent, None, None)

  /** A tenant with this policy, and one segment whose stored profile allows 900 seconds. */
  function TenantUnder(policy: Policy): Server {
    Server(policy, map[1 := IOT], map[1 := Stored900()], 2)
  }

  function Tenant(cap: int): Server {
    TenantUnder(Policy(cap, 4))
  }

  function Stored900(): Profile {
    Profile(1, DEFAULT_DICTIONARY, 900, TERMINATION_DEFAULT, None, None, None, 1)
  }

  /** The segment as it is, its profile at timeout seconds, and a cap. */
  function Manifest(cap: int, timeout: int): NetworkSpec {
    NetworkSpec(Some(PolicySpec(cap)), [IOT_SPEC], [ProfileSpec("iot", timeout, None, Absent, Absent, Absent)])
  }

  /** What a read of that tenant returns. */
  function SnapshotUnder(policy: Policy): NetworkSnapshot {
    NetworkSnapshot(Some(policy), [IOT], [Effective(Stored900(), policy.cap)])
  }

  function SnapshotOf(cap: int): NetworkSnapshot {
    SnapshotUnder(Policy(cap, 4))
  }

  function Served(): Tape {
    k => Tick([], Fate.Served)
  }

  function FirstApply(oldCap: int, newCap: int, timeout: int): Run
    requires PlanOf(Manifest(newCap, timeout), SnapshotOf(oldCap)).Ok?
  {
    ApplyPlan(PlanOf(Manifest(newCap, timeout), SnapshotOf(oldCap)).value, Net(Tenant(oldCap), []), Served())
  }

  lemma SnapshotIsRead(n: NetworkSpec, policy: Policy)
    requires n.policy.Some? && n.segments != [] && n.profiles != []
    ensures var s := TenantUnder(policy);
            WellFormed(s) && Reads(n, s, s, s, SnapshotUnder(policy))
  {
  }

  /** The plan is the policy update alone, it succeeds, and the new policy is all it changes. */
  lemma OnlyThePolicyIsWritten(oldCap: int, newCap: int, timeout: int)
    requires oldCap != newCap && Min(900, oldCap) == timeout
    ensures ValidNetwork(Manifest(newCap, timeout)) && PlanOf(Manifest(newCap, timeout), SnapshotOf(oldCap)).Ok?
    ensures var run := FirstApply(oldCap, newCap, timeout);
            !run.stopped && run.net.server == TenantUnder(Policy(newCap, 5))
    ensures FoundProfile(IOT_SPEC, SnapshotOf(oldCap)) == Some(Effective(Stored900(), oldCap))
    ensures "iot" in ProfilesByKey(Manifest(newCap, timeout).profiles)
    ensures ProfilesByKey(Manifest(newCap, timeout).profiles)["iot"] == Manifest(newCap, timeout).profiles[0]
  {
    var n, snap := Manifest(newCap, timeout), SnapshotOf(oldCap);
    assert SpecKeys(n.segments) == ["iot"] && ProfileKeys(n.profiles) == ["iot"];
    assert n.profiles[..0] == [] && n.segments[..0] == [] && n.segments[1..] == [];
    assert ProfilesByKey(n.profiles) == map["iot" := n.profiles[0]];
    var table := FillTable(EMPTY_TABLE, n.segments, snap.segments);
    assert FindSegment(snap.segments, IOT_SPEC.Key()) == Some(IOT);
    assert table == FillTable(EMPTY_TABLE, n.segments[..0], snap.segments).Put("iot", 1, 1);
    assert ExistingProfile("iot", table, snap.profiles) == Some(snap.profiles[0]);
    assert PlanProfiles(n.segments[1..], ProfilesByKey(n.profiles), table, snap.profiles) == Ok([]);
    var noop := PlannedStep(PlannedAction(ChangeNone, TargetProfile, "iot"), Noop);
    assert PlanProfiles(n.segments, ProfilesByKey(n.profiles), table, snap.profiles) == Ok([noop] + []);
    var update := PlanPolicy(n, snap)[0];
    var noopSegment := PlannedStep(PlannedAction(ChangeNone, TargetSegment, "iot"), Noop);
    assert PlanSegments(n.segments, snap.segments) == [noopSegment];
    assert PlanOf(n, snap).value.steps == [update, noopSegment, noop];
    PolicyThenNothing(update, noopSegment, noop, Run(Net(Tenant(oldCap), []), table, [], false));
  }

  lemma PolicyThenNothing(update: PlannedStep, second: PlannedStep, third: PlannedStep, run: Run)
    requires update.step.PolicyUpdate? && second.step.Noop? && third.step.Noop? && !run.stopped
    requires update.step.policyRead == run.net.server.policy
    ensures var run' := Execute([update, second, third], run, Served());
            var policy := Policy(update.step.policy.cap, run.net.server.policy.version + 1);
            !run'.stopped && run'.net.server == run.net.server.(policy := policy)
  {
    QuietSend(run.net, WriteFor(update.step, run.table), Served());
    var one := ExecuteOne(run, update, Served());
    assert [update, second, third][1..] == [second, third] && [second, third][1..] == [third] && [third][1..] == [];
    var two := ExecuteOne(one, second, Served());
    var three := ExecuteOne(two, third, Served());
    assert !one.stopped;
    assert Execute([update, second, third], run, Served()) == Execute([second, third], one, Served())
        == Execute([third], two, Served()) == Execute([], three, Served()) == three;
  }

  /** The Apply runs to its end, and a plan of what it leaves has a change. */
  ghost predicate DoesNotConverge(oldCap: int, newCap: int, timeout: int) {
    var n, s, snap := Manifest(newCap, timeout), Tenant(oldCap), SnapshotOf(oldCap);
    var t := TenantUnder(Policy(newCap, 5));
    && WellFormed(s) && ValidNetwork(n) && Reads(n, s, s, s, snap) && PlanOf(n, snap).Ok?
    && !FirstApply(oldCap, newCap, timeout).stopped && FirstApply(oldCap, newCap, timeout).net.server == t
    && Reads(n, t, t, t, SnapshotUnder(t.policy)) && !PlansNoChange(n, SnapshotUnder(t.policy))
  }

  lemma CapDoesNotSuit(oldCap: int, newCap: int, timeout: int)
    requires oldCap != newCap && Min(900, oldCap) == timeout
    requires newCap < timeout || (900 > oldCap && newCap > oldCap)
    ensures DoesNotConverge(oldCap, newCap, timeout)
  {
    var n := Manifest(newCap, timeout);
    OnlyThePolicyIsWritten(oldCap, newCap, timeout);
    SnapshotIsRead(n, Policy(oldCap, 4));
    SnapshotIsRead(n, Policy(newCap, 5));
    assert IOT_SPEC in n.segments && !CapSuits(IOT_SPEC, n.profiles[0], SnapshotOf(oldCap), oldCap, newCap);
    ApplyThenPlan(n, Tenant(oldCap), SnapshotOf(oldCap), PlanOf(n, SnapshotOf(oldCap)).value, [], Served(),
                  SnapshotUnder(Policy(newCap, 5)));
  }

  /** Stated at the value it is clamped to, a profile is left alone; the cap raised in the same Apply
      un-clamps it, and the next plan shows it drifted. */
  lemma RaisingTheCapUnclamps()
    ensures DoesNotConverge(600, 1200, 600)
  {
    CapDoesNotSuit(600, 1200, 600);
  }

  /** Stated above the cap the same Apply lowers, a profile already at its value is left alone; the next
      plan judges it on its clamped read, and shows it drifted. */
  lemma LoweringTheCapStrands()
    ensures DoesNotConverge(3600, 600, 900)
  {
    CapDoesNotSuit(3600, 600, 900);
  }
}
