/** What a plan and a report say of themselves (management_plan.go), and that execute's report is the
    plan, stopped at its first failure. */
module ManagementPlan {
  import opened Wrappers
  import NetworkManifest
  import opened NetworkServer
  import opened NetworkPlan
  import opened NetworkApply

  function ChangesOf(actions: seq<PlannedAction>): seq<PlannedAction> {
    if actions == [] then []
    else
      var last := actions[|actions| - 1];
      ChangesOf(actions[..|actions| - 1]) + if last.change != ChangeNone then [last] else []
  }

  /** The steps of a plan that would change something, in order; none exactly when it is converged. */
  method Changes(actions: seq<PlannedAction>) returns (changes: seq<PlannedAction>)
    ensures changes == ChangesOf(actions)
    ensures changes == [] <==> forall a | a in actions :: a.change == ChangeNone
  {
    changes := [];
    for i := 0 to |actions|
      invariant changes == ChangesOf(actions[..i])
      invariant changes == [] <==> forall a | a in actions[..i] :: a.change == ChangeNone
    {
      assert actions[..i + 1][..i] == actions[..i];
      assert actions[..i + 1] == actions[..i] + [actions[i]];
      if actions[i].change != ChangeNone {
        changes := changes + [actions[i]];
      }
    }
    assert actions[..|actions|] == actions;
  }

  /** The changes of a plan are those of its parts, one part after the other. */
  lemma {:induction false} ChangesAreInOrder(a: seq<PlannedAction>, b: seq<PlannedAction>)
    ensures ChangesOf(a + b) == ChangesOf(a) + ChangesOf(b)
  {
    if b == [] {
      assert a + b == a;
    } else {
      assert (a + b)[..|a + b| - 1] == a + b[..|b| - 1];
      ChangesAreInOrder(a, b[..|b| - 1]);
    }
  }

  /** A single action is a change exactly when it creates or updates. */
  lemma OneChange(x: PlannedAction)
    ensures ChangesOf([x]) == if x.change == ChangeCreate || x.change == ChangeUpdate then [x] else []
  {
    assert [x][..0] == [];
  }

  predicate Changed(status: Status) {
    status.StatusCreated? || status.StatusUpdated?
  }

  predicate Done(status: Status) {
    Changed(status) || status.StatusUnchanged?
  }

  /** The index of the failing step, if there is one. */
  method Failure(report: seq<AppliedStep>) returns (at: Option<nat>)
    ensures at.Some? ==> at.value < |report| && report[at.value].status.StatusFailed?
    ensures at.Some? ==> forall i | 0 <= i < at.value :: !report[i].status.StatusFailed?
    ensures at.None? <==> forall s | s in report :: !s.status.StatusFailed?
  {
    for i := 0 to |report|
      invariant forall j | 0 <= j < i :: !report[j].status.StatusFailed?
    {
      if report[i].status.StatusFailed? {
        assert report[i] in report;
        return Some(i);
      }
    }
    return None;
  }

  function CountChanged(report: seq<AppliedStep>): nat {
    if report == [] then 0
    else CountChanged(report[..|report| - 1]) + if Changed(report[|report| - 1].status) then 1 else 0
  }

  /** The count of a report is that of its parts. */
  lemma {:induction false} CountsAdd(a: seq<AppliedStep>, b: seq<AppliedStep>)
    ensures CountChanged(a + b) == CountChanged(a) + CountChanged(b)
  {
    if b == [] {
      assert a + b == a;
    } else {
      assert (a + b)[..|a + b| - 1] == a + b[..|b| - 1];
      CountsAdd(a, b[..|b| - 1]);
    }
  }

  /** Each created or updated step counts once. */
  lemma OneCounts(s: AppliedStep)
    ensures CountChanged([s]) == if s.status == StatusCreated || s.status == StatusUpdated then 1 else 0
  {
    assert [s][..0] == [];
  }

  method ChangedCount(report: seq<AppliedStep>) returns (n: nat)
    ensures n == CountChanged(report)
  {
    n := 0;
    for i := 0 to |report|
      invariant n == CountChanged(report[..i])
    {
      assert report[..i + 1][..i] == report[..i];
      if report[i].status.StatusCreated? || report[i].status.StatusUpdated? {
        n := n + 1;
      }
    }
    assert report[..|report|] == report;
  }

  /** What a step does to its row. */
  function ChangeOf(step: Step): Change {
    match step
    case Noop => ChangeNone
    case SegmentCreate(_) => ChangeCreate
    case ProfileCreate(_) => ChangeCreate
    case _ => ChangeUpdate
  }

  /** A plan's steps do what they say, as planNetwork pushes them. */
  ghost predicate Honest(steps: seq<PlannedStep>) {
    forall p | p in steps :: p.action.change == ChangeOf(p.step)
  }

  /** The steps that did something before the first failure at k. */
  function WritesBefore(steps: seq<PlannedStep>, k: nat): nat
    requires k <= |steps|
  {
    if k == 0 then 0 else WritesBefore(steps, k - 1) + if steps[k - 1].step.Noop? then 0 else 1
  }

  /** A report is its plan up to a first failure at k, if k is not its end: what precedes was done,
      what follows was not attempted, and each attempted step that changes something sent one request. */
  ghost predicate ReportsUpTo(steps: seq<PlannedStep>, report: seq<AppliedStep>, stopped: bool, requests: int, k: nat) {
    && |report| == |steps| && k <= |steps|
    && (forall i | 0 <= i < |steps| :: report[i].action == steps[i].action)
    && (forall i | 0 <= i < k :: Done(report[i].status) && (Changed(report[i].status) <==> !steps[i].step.Noop?))
    && (stopped <==> k < |steps|)
    && (stopped ==> report[k].status.StatusFailed? && !steps[k].step.Noop?)
    && (forall i | k < i < |steps| :: report[i].status == StatusNotAttempted)
    && requests == WritesBefore(steps, k) + if stopped then 1 else 0
  }

  lemma {:induction false} ExecuteAppendsOne(steps: seq<PlannedStep>, p: PlannedStep, run: Run, tape: Tape)
    ensures Execute(steps + [p], run, tape) == ExecuteOne(Execute(steps, run, tape), p, tape)
  {
    ExecuteAppends(steps, [p], run, tape);
    var one := Execute(steps, run, tape);
    assert [p][1..] == [];
    assert Execute([p], one, tape) == Execute([], ExecuteOne(one, p, tape), tape);
  }

  lemma {:induction false} WritesOfPrefix(steps: seq<PlannedStep>, p: PlannedStep, k: nat)
    requires k <= |steps|
    ensures WritesBefore(steps + [p], k) == WritesBefore(steps, k)
  {
    if k > 0 {
      WritesOfPrefix(steps, p, k - 1);
    }
  }

  /** One more step, after a run that stopped at k or did not stop. */
  lemma ReportsOneMore(steps: seq<PlannedStep>, p: PlannedStep, run: Run, sentBefore: int, tape: Tape, k: nat)
    returns (k': nat)
    requires ReportsUpTo(steps, run.report, run.stopped, |run.net.sent| - sentBefore, k)
    ensures var run' := ExecuteOne(run, p, tape);
            ReportsUpTo(steps + [p], run'.report, run'.stopped, |run'.net.sent| - sentBefore, k')
  {
    var run' := ExecuteOne(run, p, tape);
    WritesOfPrefix(steps, p, k);
    assert run'.report[..|steps|] == run.report;
    assert |run'.report| == |steps| + 1 && run'.report[|steps|].action == p.action;
    k' := if run'.stopped then k else k + 1;
    assert !run.stopped ==>
           k == |steps| && WritesBefore(steps + [p], k + 1) == WritesBefore(steps, k) + if p.step.Noop? then 0 else 1;
    forall i | 0 <= i < |steps| ensures run'.report[i] == run.report[i] && (steps + [p])[i] == steps[i] {
      assert run'.report[i] == run'.report[..|steps|][i];
    }
  }

  /** execute stops at the first failure, attempts each step before it exactly once, and attempts none
      after it, whatever the server and other writers do. */
  lemma {:induction false} ApplyStopsAtFirstFailure(steps: seq<PlannedStep>, net: Net, table: Table, tape: Tape)
    returns (k: nat)
    ensures var run := Execute(steps, Run(net, table, [], false), tape);
            ReportsUpTo(steps, run.report, run.stopped, |run.net.sent| - |net.sent|, k)
  {
    var start := Run(net, table, [], false);
    if steps == [] {
      k := 0;
    } else {
      var init, last := steps[..|steps| - 1], steps[|steps| - 1];
      assert steps == init + [last];
      ExecuteAppendsOne(init, last, start, tape);
      k := ApplyStopsAtFirstFailure(init, net, table, tape);
      k := ReportsOneMore(init, last, Execute(init, start, tape), |net.sent|, tape, k);
    }
  }

  /** A complete Apply changed as many things as its plan said it would. */
  lemma {:induction false} CompleteApplyDoesItsPlan(steps: seq<PlannedStep>, report: seq<AppliedStep>, requests: int)
    requires Honest(steps) && ReportsUpTo(steps, report, false, requests, |steps|)
    ensures CountChanged(report) == |ChangesOf(Actions(steps))| == requests
  {
    if steps != [] {
      var init, last := steps[..|steps| - 1], steps[|steps| - 1];
      assert steps == init + [last] && last in steps;
      forall p | p in init ensures p.action.change == ChangeOf(p.step) {
        assert p in steps;
      }
      WritesOfPrefix(init, last, |init|);
      CompleteApplyDoesItsPlan(init, report[..|report| - 1], WritesBefore(init, |init|));
      assert Actions(steps)[..|steps| - 1] == Actions(init);
    }
  }

  /** Every plan of a network section is honest about its steps. */
  lemma {:induction false} ProfileStepsAreHonest(specs: seq<NetworkManifest.SegmentSpec>,
                                                 profiles: map<string, NetworkManifest.ProfileSpec>,
                                                 table: Table, listed: seq<ProfileRead>)
    requires PlanProfiles(specs, profiles, table, listed).Ok?
    ensures Honest(PlanProfiles(specs, profiles, table, listed).value)
  {
    if specs != [] {
      ProfileStepsAreHonest(specs[1..], profiles, table, listed);
    }
  }

  lemma PlansAreHonest(n: NetworkManifest.NetworkSpec, snap: NetworkSnapshot)
    requires PlanOf(n, snap).Ok?
    ensures Honest(PlanOf(n, snap).value.steps)
  {
    if !n.IsEmpty() {
      ProfileStepsAreHonest(n.segments, ProfilesByKey(n.profiles), FillTable(EMPTY_TABLE, n.segments, snap.segments),
                            snap.profiles);
    }
  }
}
