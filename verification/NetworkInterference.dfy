/** An Apply while other administrators write: what it overwrote is what Plan read, so no update of theirs is
    lost; the one way round it is a profile removed and made again, and exactly that. */
module NetworkInterference {
  import opened Wrappers
  import opened NetworkServer
  import opened NetworkManifest
  import opened NetworkPlan
  import opened NetworkReads
  import opened NetworkApply
  import opened NetworkGuarantees

  // ----- everything that reached the server ---------------------------------------------------

  /** The writes that reached the server from write number from of a run until write k was on its way: the others'
      and the run's own, in the order they arrived. */
  function Reached(sent: seq<Exchange>, tape: Tape, from: nat, k: nat): seq<Write>
    requires k <= |sent|
    decreases k
  {
    if k <= from then []
    else
      Reached(sent, tape, from, k - 1) + tape(k - 1).others
      + if tape(k - 1).fate.Turned? then [] else [sent[k - 1].write]
  }

  /** The writes that reached the server before write k met it. */
  function Met(sent: seq<Exchange>, tape: Tape, from: nat, k: nat): seq<Write>
    requires k <= |sent|
  {
    Reached(sent, tape, from, k) + tape(k).others
  }

  ghost predicate MetAt(start: Server, sent: seq<Exchange>, tape: Tape, from: nat, k: nat)
    requires k < |sent|
  {
    sent[k].before == Play(start, Met(sent, tape, from, k))
  }

  /** Every state a run met is its start, when its first write was number from, played forward by what reached the
      server. */
  ghost predicate Traced(start: Server, net: Net, tape: Tape, from: nat) {
    && from <= |net.sent|
    && net.server == Play(start, Reached(net.sent, tape, from, |net.sent|))
    && forall k | from <= k < |net.sent| :: MetAt(start, net.sent, tape, from, k)
  }

  lemma {:induction false} ReachedIsStable(sent: seq<Exchange>, more: seq<Exchange>, tape: Tape, from: nat, k: nat)
    requires k <= |sent|
    ensures Reached(sent + more, tape, from, k) == Reached(sent, tape, from, k)
    decreases k
  {
    if k > from {
      ReachedIsStable(sent, more, tape, from, k - 1);
    }
  }

  lemma PlayOne(s: Server, w: Write)
    ensures Play(s, [w]) == After(s, w)
  {
    assert [w][1..] == [];
  }

  lemma SendMeets(net: Net, w: Write, tape: Tape)
    ensures var net' := Send(net, w, tape);
            var x := net'.sent[|net.sent|];
            && net'.sent == net.sent + [x] && x.write == w
            && x.before == Play(net.server, tape(|net.sent|).others)
            && net'.server == if tape(|net.sent|).fate.Turned? then x.before else After(x.before, w)
  {
  }

  /** One more write, met where the run had come to. */
  lemma ReachedOneMore(start: Server, sent: seq<Exchange>, x: Exchange, tape: Tape, from: nat)
    requires from <= |sent|
    requires x.before == Play(Play(start, Reached(sent, tape, from, |sent|)), tape(|sent|).others)
    ensures var more := sent + [x];
            && MetAt(start, more, tape, from, |sent|)
            && Play(start, Reached(more, tape, from, |sent| + 1)) ==
               (if tape(|sent|).fate.Turned? then x.before else After(x.before, x.write))
  {
    var n, more := |sent|, sent + [x];
    ReachedIsStable(sent, [x], tape, from, n);
    PlayAppends(start, Reached(sent, tape, from, n), tape(n).others);
    if tape(n).fate.Turned? {
      assert Reached(more, tape, from, n + 1) == Met(more, tape, from, n);
    } else {
      assert Reached(more, tape, from, n + 1) == Met(more, tape, from, n) + [x.write];
      PlayAppends(start, Met(more, tape, from, n), [x.write]);
      PlayOne(x.before, x.write);
    }
  }

  lemma MetAtStays(start: Server, sent: seq<Exchange>, x: Exchange, tape: Tape, from: nat, k: nat)
    requires k < |sent| && MetAt(start, sent, tape, from, k)
    ensures MetAt(start, sent + [x], tape, from, k)
  {
    ReachedIsStable(sent, [x], tape, from, k);
  }

  lemma TracedOneMore(start: Server, net: Net, net': Net, x: Exchange, tape: Tape, from: nat)
    requires Traced(start, net, tape, from) && net'.sent == net.sent + [x]
    requires x.before == Play(net.server, tape(|net.sent|).others)
    requires net'.server == if tape(|net.sent|).fate.Turned? then x.before else After(x.before, x.write)
    ensures Traced(start, net', tape, from)
  {
    ReachedOneMore(start, net.sent, x, tape, from);
    forall k | from <= k < |net'.sent| ensures MetAt(start, net'.sent, tape, from, k) {
      if k < |net.sent| {
        MetAtStays(start, net.sent, x, tape, from, k);
      }
    }
  }

  lemma SendIsTraced(start: Server, net: Net, w: Write, tape: Tape, from: nat)
    requires Traced(start, net, tape, from)
    ensures Traced(start, Send(net, w, tape), tape, from)
  {
    var net' := Send(net, w, tape);
    SendMeets(net, w, tape);
    TracedOneMore(start, net, net', net'.sent[|net.sent|], tape, from);
  }

  lemma {:induction false} RunIsTraced(start: Server, steps: seq<PlannedStep>, run: Run, tape: Tape, from: nat)
    requires Traced(start, run.net, tape, from)
    ensures Traced(start, Execute(steps, run, tape).net, tape, from)
    decreases |steps|
  {
    if steps != [] {
      var next := ExecuteOne(run, steps[0], tape);
      if next.net != run.net {
        SendIsTraced(start, run.net, WriteFor(steps[0].step, run.table), tape, from);
      }
      RunIsTraced(start, steps[1..], next, tape, from);
    }
  }

  // ----- no lost update -----------------------------------------------------------------------

  /** The profile met is the one that was read, if no admitted write removed it since; and one did exactly when
      the profile met was made since. */
  ghost predicate ProfileAsRead(read: ProfileRead, m: Moment, met: Server, since: seq<Write>) {
    var id := read.segmentId;
    && id in m.server.profiles && id in met.profiles
    && (!ProfileRemoved(m.server, since, id) ==> met.profiles[id] == m.server.profiles[id])
    && (ProfileRemoved(m.server, since, id) <==> ProfileMade(m.server, since, id))
  }

  /** If the server admits a replacement, the row it overwrites is one the plan read. */
  ghost predicate OverwritesWhatWasRead(snap: NetworkSnapshot, at: Reading, sent: seq<Exchange>, tape: Tape,
                                        from: nat, k: nat)
    requires k < |sent| && |at.profiles| == |snap.profiles|
  {
    var met, w := sent[k].before, sent[k].write;
    Judge(met, w).None? ==>
      match w
      case ReplacePolicy(_, _) => snap.policy == Some(met.policy)
      case ReplaceSegment(id, _, _, _, _, _) => id in met.segments && met.segments[id] in snap.segments
      case ReplaceProfile(id, _, _, _) =>
        exists j | 0 <= j < |snap.profiles| ::
          && snap.profiles[j].segmentId == id
          && ProfileAsRead(snap.profiles[j], at.profiles[j], met, at.profiles[j].since + Met(sent, tape, from, k))
      case _ => true
  }

  lemma ReadPolicyStands(m: Moment, start: Server, more: seq<Write>, version: int)
    requires LeadsTo(m, start) && Play(start, more).policy.version == version == m.server.policy.version
    ensures Play(start, more).policy == m.server.policy
  {
    PlayAppends(m.server, m.since, more);
    PlayEvolves(m.server, m.since + more);
  }

  lemma ReadSegmentStands(m: Moment, start: Server, more: seq<Write>, row: Segment)
    requires LeadsTo(m, start) && row.id in m.server.segments && m.server.segments[row.id] == row
    requires row.id in Play(start, more).segments && Play(start, more).segments[row.id].version == row.version
    ensures Play(start, more).segments[row.id] == row
  {
    PlayAppends(m.server, m.since, more);
    PlayEvolves(m.server, m.since + more);
  }

  lemma ReadProfileStands(m: Moment, start: Server, more: seq<Write>, read: ProfileRead)
    requires ProfileReadAt(read, m, start)
    requires read.segmentId in Play(start, more).profiles &&
             Play(start, more).profiles[read.segmentId].version == read.version
    ensures ProfileAsRead(read, m, Play(start, more), m.since + more)
  {
    var id, since := read.segmentId, m.since + more;
    PlayAppends(m.server, m.since, more);
    PresentIsKeptOrMade(m.server, since, id);
    if !ProfileRemoved(m.server, since, id) {
      PlayLetsProfileStand(m.server, m.server, since, id);
    }
  }

  lemma AdmittedOverwritesWhatWasRead(n: NetworkSpec, snap: NetworkSnapshot, at: Reading, start: Server, planned: Table,
                                      p: PlannedStep, table: Table, sent: seq<Exchange>, tape: Tape, from: nat, k: nat)
    requires ReadAt(snap, at, start) && PlannedFor(n, snap, planned, p) && !p.step.Noop?
    requires from <= k < |sent| && sent[k].write == WriteFor(p.step, table) && MetAt(start, sent, tape, from, k)
    ensures OverwritesWhatWasRead(snap, at, sent, tape, from, k)
  {
    var met, w, more := sent[k].before, sent[k].write, Met(sent, tape, from, k);
    if Judge(met, w).None? {
      match p.step
      case PolicyUpdate(_, read) =>
        ReadPolicyStands(at.policy, start, more, read.version);
      case SegmentUpdate(_, read) =>
        var i :| 0 <= i < |snap.segments| && snap.segments[i] == read;
        ReadSegmentStands(at.segments[i], start, more, read);
      case ProfileUpdate(_, read) =>
        var j :| 0 <= j < |snap.profiles| && snap.profiles[j] == read;
        ReadProfileStands(at.profiles[j], start, more, read);
      case _ =>
    }
  }

  /** No lost update: whoever writes between the reads, between the pages of a list and between the steps, a
      replacement the server admits overwrites exactly the row Plan read. For a profile that is so unless an
      admitted write removed it meanwhile; and then, and only then, the row overwritten was made since. */
  lemma NoLostUpdate(n: NetworkSpec, snap: NetworkSnapshot, planned: Planned, at: Reading, start: Server,
                     sent: seq<Exchange>, tape: Tape)
    requires ReadAt(snap, at, start) && PlanOf(n, snap) == Ok(planned)
    ensures var all := ApplyPlan(planned, Net(start, sent), tape).net.sent;
            && |sent| <= |all| && all[..|sent|] == sent
            && forall k | |sent| <= k < |all| :: OverwritesWhatWasRead(snap, at, all, tape, |sent|, k)
  {
    var first := Run(Net(start, sent), planned.table, [], false);
    var net := Execute(planned.steps, first, tape).net;
    RunIsTraced(start, planned.steps, first, tape, |sent|);
    SentComesFromSteps(planned.steps, first, tape);
    StepsArePlannedFor(n, snap);
    forall k | |sent| <= k < |net.sent| ensures OverwritesWhatWasRead(snap, at, net.sent, tape, |sent|, k) {
      assert SentByAStep(planned.steps, net.sent[k].write);
      var p, table :| p in planned.steps && !p.step.Noop? && net.sent[k].write == WriteFor(p.step, table);
      AdmittedOverwritesWhatWasRead(n, snap, at, start, planned.table, p, table, net.sent, tape, |sent|, k);
    }
  }
}
