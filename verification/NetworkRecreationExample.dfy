/** A lost update, by one concrete Apply: between Plan and the replacement it plans, another administrator removes
    the profile and makes it again. The new profile has the version Plan read, so the replacement is admitted, and
    what the administrator had stated is gone. */
module NetworkRecreationExample {
  import opened Wrappers
  import opened Nullables
  import opened NetworkServer
  import opened NetworkManifest
  import opened NetworkPlan
  import opened NetworkApply
  import opened NetworkClampExamples

  const STATED := ProfileSpec("iot", 600, None, Absent, Absent, Absent)
  const MANIFEST := NetworkSpec(None, [IOT_SPEC], [STATED])
  const READ := NetworkSnapshot(None, [IOT], [Effective(Stored900(), 3600)])

  /** The administrator's profile: the timeout the manifest states, and an idle timeout it does not. */
  const THEIRS := ProfileInput(None, 600, None, Some(60), None, None)

  function RemovedAndMadeAgain(): Tape {
    k => Tick(if k == 0 then [DeleteProfile(1, 1), CreateProfile(1, 1, THEIRS)] else [], Fate.Served)
  }

  const UPDATE := PlannedStep(PlannedAction(ChangeUpdate, TargetProfile, "iot"),
                              ProfileUpdate(STATED, Effective(Stored900(), 3600)))
  const NOTHING := PlannedStep(PlannedAction(ChangeNone, TargetSegment, "iot"), Noop)

  lemma ThePlan()
    ensures ValidNetwork(MANIFEST)
    ensures PlanOf(MANIFEST, READ) == Ok(Planned([NOTHING, UPDATE], Table(map["iot" := 1], map["iot" := 1])))
  {
    assert SpecKeys(MANIFEST.segments) == ["iot"] && ProfileKeys(MANIFEST.profiles) == ["iot"];
    assert MANIFEST.profiles[..0] == [] && MANIFEST.segments[..0] == [] && MANIFEST.segments[1..] == [];
    assert ProfilesByKey(MANIFEST.profiles) == map["iot" := STATED];
    assert FindSegment(READ.segments, IOT_SPEC.Key()) == Some(IOT);
    var table := FillTable(EMPTY_TABLE, MANIFEST.segments, READ.segments);
    assert table == FillTable(EMPTY_TABLE, MANIFEST.segments[..0], READ.segments).Put("iot", 1, 1);
    assert ExistingProfile("iot", table, READ.profiles) == Some(READ.profiles[0]);
    assert PlanProfiles(MANIFEST.segments[1..], ProfilesByKey(MANIFEST.profiles), table, READ.profiles) == Ok([]);
    assert PlanProfiles(MANIFEST.segments, ProfilesByKey(MANIFEST.profiles), table, READ.profiles) == Ok([UPDATE] + []);
    assert PlanSegments(MANIFEST.segments, READ.segments) == [NOTHING];
    assert [UPDATE] + [] == [UPDATE] && [] + [NOTHING] + [UPDATE] == [NOTHING, UPDATE];
    assert PlanPolicy(MANIFEST, READ) == [];
  }

  /** What the replacement meets: another profile, at the version it names. */
  lemma MetAnotherProfile()
    ensures var tape := RemovedAndMadeAgain();
            var met := Play(Tenant(3600), tape(0).others);
            && met.segments == Tenant(3600).segments && met.policy == Tenant(3600).policy
            && met.profiles == map[1 := Stored(1, THEIRS, 1)]
            && ProfileRemoved(Tenant(3600), tape(0).others, 1)
  {
    var writes := [DeleteProfile(1, 1), CreateProfile(1, 1, THEIRS)];
    var gone := After(Tenant(3600), writes[0]);
    assert writes[1..] == [writes[1]] && writes[1..][1..] == [];
    assert Play(Tenant(3600), writes) == Play(gone, writes[1..]) == Play(After(gone, writes[1]), []);
  }

  const TABLE := Table(map["iot" := 1], map["iot" := 1])

  /** The replacement is admitted there, and keeps nothing of it. */
  lemma ReplacesAnotherProfile(run: Run)
    requires run.net == Net(Tenant(3600), []) && run.table == TABLE && !run.stopped
    ensures var next := ExecuteOne(run, UPDATE, RemovedAndMadeAgain());
            && !next.stopped && |next.net.sent| == 1 && next.net.sent[0].write.ReplaceProfile?
            && Judge(next.net.sent[0].before, next.net.sent[0].write).None?
            && next.net.sent[0].before.profiles == map[1 := Stored(1, THEIRS, 1)]
            && 1 in next.net.server.profiles && next.net.server.profiles[1].idleTimeout == None
  {
    MetAnotherProfile();
    var met := Play(Tenant(3600), RemovedAndMadeAgain()(0).others);
    var w := WriteFor(UPDATE.step, TABLE);
    assert w.segmentId == 1 && w.segmentVersion == 1 && w.version == 1 && w.profile.idleTimeout == None;
    assert Judge(met, w).None?;
    assert Send(run.net, w, RemovedAndMadeAgain()).sent == [] + [Exchange(met, w, Reply(met, w))];
  }

  /** The Apply is complete, its one write was admitted over the administrator's profile, which Plan never read,
      and their idle timeout is lost. */
  lemma RecreatedProfileIsOverwritten()
    ensures WellFormed(Tenant(3600)) && Reads(MANIFEST, Tenant(3600), Tenant(3600), Tenant(3600), READ)
    ensures PlanOf(MANIFEST, READ).Ok?
    ensures var run := ApplyPlan(PlanOf(MANIFEST, READ).value, Net(Tenant(3600), []), RemovedAndMadeAgain());
            && !run.stopped && |run.net.sent| == 1 && run.net.sent[0].write.ReplaceProfile?
            && Judge(run.net.sent[0].before, run.net.sent[0].write).None?
            && run.net.sent[0].before.profiles == map[1 := Stored(1, THEIRS, 1)] != Tenant(3600).profiles
            && 1 in run.net.server.profiles && run.net.server.profiles[1].idleTimeout == None
  {
    ThePlan();
    assert Tenant(3600).profiles[1] == Stored900() != Stored(1, THEIRS, 1);
    var tape := RemovedAndMadeAgain();
    var start := Run(Net(Tenant(3600), []), TABLE, [], false);
    var one := ExecuteOne(start, NOTHING, tape);
    ReplacesAnotherProfile(one);
    assert [NOTHING, UPDATE][1..] == [UPDATE] && [UPDATE][1..] == [];
    assert Execute([UPDATE], one, tape) == Execute([], ExecuteOne(one, UPDATE, tape), tape);
  }
}
