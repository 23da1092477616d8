/** Carrying a plan out: the bodies runNetwork builds, execute's stop at the first failure
    (management_reconcile_apply.go), and Plan and Apply of management_reconcile.go for a manifest
    that holds a network section alone. */
module NetworkApply {
  import opened Wrappers
  import opened Nullables
  import opened NetworkServer
  import opened NetworkManifest
  import opened NetworkPlan
  import opened NetworkReads
  import Pages

  // ----- one step -----------------------------------------------------------------------------

  /** A Go map read: the zero value when the key is missing. */
  function Lookup<V>(m: map<string, V>, key: string, zero: V): V {
    if key in m then m[key] else zero
  }

  /** The write a step sends: its version is the one Plan read, a profile's segment version the
      table's. */
  function WriteFor(step: Step, table: Table): Write
    requires !step.Noop?
  {
    match step
    case PolicyUpdate(spec, read) => ReplacePolicy(spec.cap, read.version)
    case SegmentCreate(spec) =>
      Write.CreateSegment(spec.kind, spec.site, spec.name, spec.vlanId,
                          if spec.rank.Value? then Some(spec.rank.value) else None,
                          spec.filterIds.GetOr([]), spec.enabled)
    case SegmentUpdate(spec, read) =>
      Write.ReplaceSegment(read.id, spec.enabled.GetOr(read.enabled), spec.filterIds.GetOr(read.filterIds),
                           read.version, spec.vlanId, NullableOrRead(spec.rank, read.rank))
    case ProfileCreate(spec) =>
      Write.CreateProfile(Lookup(table.ids, spec.segment, NIL_ID), Lookup(table.versions, spec.segment, 0),
                          ProfileInput(None, spec.sessionTimeout, spec.terminationAction,
                                       NullableOrRead(spec.idleTimeout, None), NullableOrRead(spec.filterId, None),
                                       NullableOrRead(spec.serviceType, None)))
    case ProfileUpdate(spec, read) =>
      Write.ReplaceProfile(read.segmentId,
                           ProfileInput(Some(read.dictionary), spec.sessionTimeout,
                                        Some(spec.terminationAction.GetOr(read.terminationAction)),
                                        NullableOrRead(spec.idleTimeout, read.idleTimeout),
                                        NullableOrRead(spec.filterId, read.filterId),
                                        NullableOrRead(spec.serviceType, read.serviceType)),
                           Lookup(table.versions, spec.segment, 0), read.version)
  }

  /** What a served step adds to the tables: only segment writes teach an id or a version. */
  function Learn(table: Table, key: string, step: Step, answer: Answer): Table {
    if !answer.SegmentAnswer? then table
    else if step.SegmentCreate? then table.Put(key, answer.segment.id, answer.segment.version)
    else if step.SegmentUpdate? then table.(versions := table.versions[key := answer.segment.version])
    else table
  }

  // ----- a run --------------------------------------------------------------------------------

  datatype Status = StatusCreated | StatusUpdated | StatusUnchanged | StatusFailed(reason: Refusal) | StatusNotAttempted

  datatype AppliedStep = AppliedStep(action: PlannedAction, status: Status)

  datatype Run = Run(net: Net, table: Table, report: seq<AppliedStep>, stopped: bool)

  function ExecuteOne(run: Run, p: PlannedStep, tape: Tape): Run {
    if run.stopped then run.(report := run.report + [AppliedStep(p.action, StatusNotAttempted)])
    else if p.step.Noop? then run.(report := run.report + [AppliedStep(p.action, StatusUnchanged)])
    else
      var net := Send(run.net, WriteFor(p.step, run.table), tape);
      var answer := LastAnswer(net);
      if answer.Refused? then
        Run(net, run.table, run.report + [AppliedStep(p.action, StatusFailed(answer.reason))], true)
      else
        var status := if p.action.change == ChangeUpdate then StatusUpdated else StatusCreated;
        Run(net, Learn(run.table, p.action.key, p.step, answer), run.report + [AppliedStep(p.action, status)], false)
  }

  function Execute(steps: seq<PlannedStep>, run: Run, tape: Tape): Run
    decreases |steps|
  {
    if steps == [] then run else Execute(steps[1..], ExecuteOne(run, steps[0], tape), tape)
  }

  /** An Apply of a plan, from the moment its first step runs. */
  function ApplyPlan(planned: Planned, net: Net, tape: Tape): Run {
    Execute(planned.steps, Run(net, planned.table, [], false), tape)
  }

  lemma {:induction false} ExecuteAppends(a: seq<PlannedStep>, b: seq<PlannedStep>, run: Run, tape: Tape)
    ensures Execute(a + b, run, tape) == Execute(b, Execute(a, run, tape), tape)
    decreases |a|
  {
    if a == [] {
      assert a + b == b;
    } else {
      assert (a + b)[1..] == a[1..] + b;
      ExecuteAppends(a[1..], b, ExecuteOne(run, a[0], tape), tape);
    }
  }

  // ----- the code's form ----------------------------------------------------------------------

  /** The network namespace as a client meets it: one request, one answer, while others write too. The weather
      is what its reads meet; tape(k) is what others wrote before write k, and its fate. */
  class NetworkApi {
    var server: Server
    var sent: seq<Exchange>
    var readCount: nat
    const tape: Tape
    const weather: Weather

    constructor (server: Server, tape: Tape, weather: Weather)
      ensures State() == Net(server, []) && readCount == 0 && this.tape == tape && this.weather == weather
    {
      this.server, this.sent, this.readCount, this.tape, this.weather := server, [], 0, tape, weather;
    }

    function State(): Net
      reads this
    {
      Net(server, sent)
    }

    /** One write, sent once and never retried. */
    method SendWrite(w: Write) returns (answer: Answer)
      modifies this
      ensures State() == Send(old(State()), w, tape) && answer == LastAnswer(State())
      ensures readCount == old(readCount)
    {
      var net := Send(State(), w, tape);
      server, sent := net.server, net.sent;
      answer := LastAnswer(net);
    }

    method GetPolicy() returns (policy: Result<Policy, Refusal>)
      modifies this
      ensures server == MetByRead(old(server), weather, old(readCount), old(readCount))
      ensures policy == match weather.failing(old(readCount)) case Some(r) => Err(r) case None => Ok(server.policy)
      ensures sent == old(sent) && readCount == old(readCount) + 1
    {
      var failed := weather.failing(readCount);
      server, readCount := MetByRead(server, weather, readCount, readCount), readCount + 1;
      policy := if failed.Some? then Err(failed.value) else Ok(server.policy);
    }

    /** ListSegmentsAll and ListProfilesAll: collectPages over the list the server keeps in this order. Every item
        was listed when its page was read; while nobody else writes the whole list comes back. */
    method ListAll<T(!new)>(order: Server -> seq<T>) returns (listing: Result<seq<T>, Refusal>)
      requires Sound(weather)
      modifies this
      ensures sent == old(sent) && old(readCount) < readCount
      ensures server == Play(old(server), Between(weather, old(readCount), readCount))
      ensures FirstFailure(weather.failing, old(readCount), readCount) == if listing.Err? then Some(listing.error)
              else None
      ensures listing.Ok? ==>
                ListedBy(listing.value, old(server), weather, old(readCount), order, old(readCount), readCount)
      ensures listing.Ok? && Calm(weather) ==> server == old(server) && listing.value == order(server)
    {
      ghost var s, from := server, readCount;
      ghost var n := if !Calm(weather) && weather.settled > from then weather.settled - from else 0;
      ghost var all := order(Play(s, Between(weather, from, from + n)));
      var fetch := Fetching(server, weather, readCount, order);
      ListSettles(s, weather, from, order, n);
      var requests;
      listing, requests := Pages.CollectPages(Pages.PageRequest(0, Some(PLAN_PAGE_SIZE), ""), fetch, all, n);
      server, readCount := Play(server, Between(weather, readCount, readCount + |requests|)), readCount + |requests|;
      WalkFailsAtItsEnd(s, weather, from, order, requests);
      PagesWereListed(s, weather, from, order, requests);
      if Calm(weather) {
        CalmPages(s, weather, from, order);
        CalmIsStill(weather, from, from);
        CalmIsStill(weather, from, readCount);
      }
    }
  }

  /** Every read of a walk but its last was answered. */
  lemma {:induction false} WalkWasAnswered<T(!new)>(s: Server, w: Weather, from: nat, order: Server -> seq<T>,
                                                    sent: seq<Pages.PageRequest>, count: nat)
    requires count < |sent| && Pages.Walk(Fetching(s, w, from, order), sent[0], sent)
    ensures FirstFailure(w.failing, from, from + count) == None
  {
    if count > 0 {
      WalkWasAnswered(s, w, from, order, sent, count - 1);
      assert Pages.GoesOn(Fetching(s, w, from, order), sent, count - 1);
      FetchFails(s, w, from, order, count - 1, sent[count - 1]);
    }
  }

  lemma FetchFails<T>(s: Server, w: Weather, from: nat, order: Server -> seq<T>, k: nat, request: Pages.PageRequest)
    ensures match w.failing(from + k)
            case Some(r) => Fetching(s, w, from, order)(k, request) == Err(r)
            case None => Fetching(s, w, from, order)(k, request).Ok?
  {
    FetchIsAPage(s, w, from, order, k, request);
  }

  /** A walk is ended by its first failing read, if there is one. */
  lemma WalkFailsAtItsEnd<T(!new)>(s: Server, w: Weather, from: nat, order: Server -> seq<T>,
                                   sent: seq<Pages.PageRequest>)
    requires sent != [] && Pages.Walk(Fetching(s, w, from, order), sent[0], sent)
    ensures var last := Fetching(s, w, from, order)(|sent| - 1, sent[|sent| - 1]);
            FirstFailure(w.failing, from, from + |sent|) == if last.Err? then Some(last.error) else None
  {
    WalkWasAnswered(s, w, from, order, sent, |sent| - 1);
    FetchFails(s, w, from, order, |sent| - 1, sent[|sent| - 1]);
  }

  lemma PagesWereListed<T(!new)>(s: Server, w: Weather, from: nat, order: Server -> seq<T>,
                                 sent: seq<Pages.PageRequest>)
    ensures ListedBy(Pages.Gathered(Fetching(s, w, from, order), sent, |sent|), s, w, from, order, from, from + |sent|)
  {
    var fetch := Fetching(s, w, from, order);
    var items := Pages.Gathered(fetch, sent, |sent|);
    forall i | 0 <= i < |items| ensures ListedDuring(items[i], s, w, from, order, from, from + |sent|) {
      var k := Pages.GatheredWasServed(fetch, sent, |sent|, items[i]);
      FetchedWasListed(s, w, from, order, k, sent[k], items[i]);
    }
  }

  /** runNetwork: one step, its body built member by member from the read. */
  method RunNetwork(api: NetworkApi, key: string, step: Step, res: Resolved) returns (failure: Option<Refusal>)
    requires !step.Noop?
    modifies api, res
    ensures api.State() == Send(old(api.State()), WriteFor(step, old(res.View())), api.tape)
    ensures api.readCount == old(api.readCount)
    ensures var answer := LastAnswer(api.State());
            && failure == (if answer.Refused? then Some(answer.reason) else None)
            && res.View() == Learn(old(res.View()), key, step, answer)
  {
    var answer;
    match step {
    case PolicyUpdate(spec, read) =>
      answer := api.SendWrite(ReplacePolicy(spec.cap, read.version));
    case SegmentCreate(spec) =>
      var rank := None;
      if spec.rank.Value? {
        rank := Some(spec.rank.value);
      }
      answer := api.SendWrite(Write.CreateSegment(spec.kind, spec.site, spec.name, spec.vlanId, rank,
                                                  spec.filterIds.GetOr([]), spec.enabled));
      if answer.SegmentAnswer? {
        res.networkSegments := res.networkSegments[key := answer.segment.id];
        res.networkSegmentVersions := res.networkSegmentVersions[key := answer.segment.version];
      }
    case SegmentUpdate(spec, read) =>
      var filterIds := read.filterIds;
      if spec.filterIds.Some? {
        filterIds := spec.filterIds.value;
      }
      var enabled := read.enabled;
      if spec.enabled.Some? {
        enabled := spec.enabled.value;
      }
      answer := api.SendWrite(Write.ReplaceSegment(read.id, enabled, filterIds, read.version, spec.vlanId,
                                                   NullableOrRead(spec.rank, read.rank)));
      if answer.SegmentAnswer? {
        res.networkSegmentVersions := res.networkSegmentVersions[key := answer.segment.version];
      }
    case ProfileCreate(spec) =>
      var input := ProfileInput(None, spec.sessionTimeout, None, None, None, None);
      input := input.(terminationAction := spec.terminationAction);
      input := input.(idleTimeout := NullableOrRead(spec.idleTimeout, None));
      input := input.(filterId := NullableOrRead(spec.filterId, None));
      input := input.(serviceType := NullableOrRead(spec.serviceType, None));
      answer := api.SendWrite(Write.CreateProfile(Lookup(res.networkSegments, spec.segment, NIL_ID),
                                                  Lookup(res.networkSegmentVersions, spec.segment, 0), input));
    case ProfileUpdate(spec, read) =>
      var input := ProfileInput(Some(read.dictionary), spec.sessionTimeout, None, None, None, None);
      input := input.(terminationAction := Some(read.terminationAction));
      if spec.terminationAction.Some? {
        input := input.(terminationAction := Some(spec.terminationAction.value));
      }
      input := input.(idleTimeout := NullableOrRead(spec.idleTimeout, read.idleTimeout));
      input := input.(filterId := NullableOrRead(spec.filterId, read.filterId));
      input := input.(serviceType := NullableOrRead(spec.serviceType, read.serviceType));
      answer := api.SendWrite(Write.ReplaceProfile(read.segmentId, input,
                                                   Lookup(res.networkSegmentVersions, spec.segment, 0), read.version));
    }
    failure := if answer.Refused? then Some(answer.reason) else None;
  }

  /** execute: every step in plan order, stopping at the first failure. */
  method ExecuteSteps(api: NetworkApi, steps: seq<PlannedStep>, res: Resolved) returns (report: seq<AppliedStep>)
    modifies api, res
    ensures var run := Execute(steps, Run(old(api.State()), old(res.View()), [], false), api.tape);
            report == run.report && api.State() == run.net && res.View() == run.table
    ensures api.readCount == old(api.readCount)
  {
    report := [];
    var stopped := false;
    ghost var whole := Execute(steps, Run(api.State(), res.View(), [], false), api.tape);
    assert steps[0..] == steps;
    for i := 0 to |steps|
      invariant whole == Execute(steps[i..], Run(api.State(), res.View(), report, stopped), api.tape)
      invariant api.readCount == old(api.readCount)
    {
      var planned := steps[i];
      assert steps[i..][1..] == steps[i + 1..];
      if stopped {
        report := report + [AppliedStep(planned.action, StatusNotAttempted)];
        continue;
      }
      if planned.step.Noop? {
        report := report + [AppliedStep(planned.action, StatusUnchanged)];
        continue;
      }
      var failure := RunNetwork(api, planned.action.key, planned.step, res);
      if failure.Some? {
        report := report + [AppliedStep(planned.action, StatusFailed(failure.value))];
        stopped := true;
        continue;
      }
      var status := StatusCreated;
      if planned.action.change == ChangeUpdate {
        status := StatusUpdated;
      }
      report := report + [AppliedStep(planned.action, status)];
    }
  }

  datatype ManifestError =
    | Invalid(problems: seq<NetworkProblem>)
    | Unread(reason: Refusal)
    | Refusing(refusal: PlanRefusal)

  /** What reading ends with: the snapshot, each row at the moment it was read; and, while nobody else writes, the
      whole state the reads and the run both meet. */
  ghost predicate WasRead(n: NetworkSpec, w: Weather, before: Server, snap: NetworkSnapshot, at: Reading,
                          start: Server) {
    && WellFormed(start) && ReadAt(snap, at, start) && ReadsNoMore(n, snap)
    && (Calm(w) ==> start == before && Reads(n, start, start, start, snap))
  }

  /** readNetwork: GETs only, and only those the section needs; the first that fails ends it. */
  method ReadNetwork(api: NetworkApi, n: NetworkSpec)
    returns (read: Result<NetworkSnapshot, Refusal>, ghost at: Reading)
    requires WellFormed(api.server) && Sound(api.weather)
    modifies api
    ensures api.sent == old(api.sent) && old(api.readCount) <= api.readCount && WellFormed(api.server)
    ensures FirstFailure(api.weather.failing, old(api.readCount), api.readCount) == if read.Err? then Some(read.error)
            else None
    ensures read.Ok? ==> WasRead(n, api.weather, old(api.server), read.value, at, api.server)
    ensures n.IsEmpty() ==> api.readCount == old(api.readCount)
  {
    ghost var s, w, from := api.server, api.weather, api.readCount;
    var snap := NetworkSnapshot(None, [], []);
    at := Reading(Moment(s, []), [], []);
    if n.policy.Some? {
      var policy := api.GetPolicy();
      OneRead(s, w, from);
      if policy.Err? {
        return Err(policy.error), at;
      }
      snap := snap.(policy := Some(policy.value));
    }
    ghost var first := api.readCount;
    if n.segments != [] || n.profiles != [] {
      var rows := api.ListAll(api.weather.segmentOrder);
      ReadOn(s, w, from, first, api.readCount);
      if rows.Err? {
        return Err(rows.error), at;
      }
      snap := snap.(segments := rows.value);
      ListedFromTheStart(rows.value, s, w, from, w.segmentOrder, first, api.readCount);
    }
    ghost var second := api.readCount;
    if n.profiles != [] {
      var listed := api.ListAll(api.weather.profileOrder);
      ReadOn(s, w, from, second, api.readCount);
      if listed.Err? {
        return Err(listed.error), at;
      }
      snap := snap.(profiles := listed.value);
      ListedFromTheStart(listed.value, s, w, from, w.profileOrder, second, api.readCount);
    }
    at := ReadingOf(snap, s, w, from, first, second, api.readCount);
    read := Ok(snap);
  }

  lemma OneRead(s: Server, w: Weather, from: nat)
    requires WellFormed(s)
    ensures MetByRead(s, w, from, from) == Play(s, Between(w, from, from + 1)) &&
            WellFormed(MetByRead(s, w, from, from))
    ensures FirstFailure(w.failing, from, from + 1) == w.failing(from)
    ensures Calm(w) ==> MetByRead(s, w, from, from) == s
  {
    PlayKeepsWellFormed(s, Between(w, from, from + 1));
    if Calm(w) {
      CalmIsStill(w, from, from + 1);
    }
  }

  /** Reads mid..end after reads from..mid. */
  lemma ReadOn(s: Server, w: Weather, from: nat, mid: nat, end: nat)
    requires WellFormed(s) && from <= mid <= end
    ensures Play(Play(s, Between(w, from, mid)), Between(w, mid, end)) == Play(s, Between(w, from, end))
    ensures WellFormed(Play(s, Between(w, from, end)))
    ensures FirstFailure(w.failing, from, mid) == None ==>
              FirstFailure(w.failing, from, end) == FirstFailure(w.failing, mid, end)
  {
    PlaySplits(s, w, from, mid, end);
    PlayKeepsWellFormed(s, Between(w, from, end));
    FirstFailureSplits(w.failing, from, mid, end);
  }

  /** Why a plan is not made: what the manifest says, what a read met, or what planning refused. */
  function Unplanned(n: NetworkSpec, failure: Option<Refusal>, planned: Result<Planned, PlanRefusal>)
    : Option<ManifestError>
  {
    if !ValidNetwork(n) then Some(Invalid(NetworkProblems(n)))
    else if failure.Some? then Some(Unread(failure.value))
    else if planned.Err? then Some(Refusing(planned.error))
    else None
  }

  /** An invalid section before a failed read, and that before a refused plan. */
  lemma WhyUnplanned(n: NetworkSpec, failure: Option<Refusal>, planned: Result<Planned, PlanRefusal>)
    ensures match Unplanned(n, failure, planned)
            case Some(Invalid(problems)) => problems != [] && problems == NetworkProblems(n)
            case Some(Unread(reason)) => NetworkProblems(n) == [] && failure == Some(reason)
            case Some(Refusing(refusal)) => NetworkProblems(n) == [] && failure == None && planned == Err(refusal)
            case None => NetworkProblems(n) == [] && failure == None && planned.Ok?
  {
    NoNetworkProblems(n);
  }

  /** Plan: no write is ever sent, and an invalid section is refused before any read. */
  method Plan(api: NetworkApi, n: NetworkSpec)
    returns (plan: Result<seq<PlannedAction>, ManifestError>, ghost snap: NetworkSnapshot, ghost at: Reading)
    requires WellFormed(api.server) && Sound(api.weather)
    modifies api
    ensures api.sent == old(api.sent) && old(api.readCount) <= api.readCount
    ensures !ValidNetwork(n) ==> api.State() == old(api.State()) && api.readCount == old(api.readCount)
    ensures var failure := FirstFailure(api.weather.failing, old(api.readCount), api.readCount);
            && (ValidNetwork(n) && failure.None? ==> WasRead(n, api.weather, old(api.server), snap, at, api.server))
            && plan == match Unplanned(n, failure, PlanOf(n, snap))
                       case Some(e) => Err(e)
                       case None => Ok(Actions(PlanOf(n, snap).value.steps))
  {
    snap, at := NetworkSnapshot(None, [], []), Reading(Moment(api.server, []), [], []);
    var problems := ValidateNetwork(n);
    if problems != [] {
      return Err(Invalid(problems)), snap, at;
    }
    var read;
    read, at := ReadNetwork(api, n);
    if read.Err? {
      return Err(Unread(read.error)), snap, at;
    }
    snap := read.value;
    var res := new Resolved();
    var steps, refusal := RunPlanNetwork(n, read.value, res);
    if refusal.Some? {
      return Err(Refusing(refusal.value)), snap, at;
    }
    plan := Ok(Actions(steps));
  }

  function Actions(steps: seq<PlannedStep>): seq<PlannedAction> {
    seq(|steps|, i requires 0 <= i < |steps| => steps[i].action)
  }

  /** Apply: exactly the steps Plan reports, run in order against the server the reads left. */
  method Apply(api: NetworkApi, n: NetworkSpec)
    returns (report: Result<seq<AppliedStep>, ManifestError>, ghost snap: NetworkSnapshot, ghost at: Reading,
             ghost start: Server)
    requires WellFormed(api.server) && Sound(api.weather)
    modifies api
    ensures old(api.readCount) <= api.readCount && (report.Err? ==> api.sent == old(api.sent))
    ensures !ValidNetwork(n) ==> api.State() == old(api.State()) && api.readCount == old(api.readCount)
    ensures var failure := FirstFailure(api.weather.failing, old(api.readCount), api.readCount);
            && (ValidNetwork(n) && failure.None? ==> WasRead(n, api.weather, old(api.server), snap, at, start))
            && match Unplanned(n, failure, PlanOf(n, snap))
               case Some(e) => report == Err(e)
               case None =>
                 var run := ApplyPlan(PlanOf(n, snap).value, Net(start, old(api.sent)), api.tape);
                 report == Ok(run.report) && api.State() == run.net
  {
    snap, at, start := NetworkSnapshot(None, [], []), Reading(Moment(api.server, []), [], []), api.server;
    var problems := ValidateNetwork(n);
    if problems != [] {
      return Err(Invalid(problems)), snap, at, start;
    }
    var read;
    read, at := ReadNetwork(api, n);
    if read.Err? {
      return Err(Unread(read.error)), snap, at, start;
    }
    snap, start := read.value, api.server;
    var res := new Resolved();
    var steps, refusal := RunPlanNetwork(n, read.value, res);
    if refusal.Some? {
      return Err(Refusing(refusal.value)), snap, at, start;
    }
    var steps' := ExecuteSteps(api, steps, res);
    report := Ok(steps');
  }
}
