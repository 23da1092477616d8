/** What Plan and Apply of a network section come to, said of the stored rows alone: when a plan has no change, what a
    complete Apply leaves, and when a plan is refused. */
module NetworkAsStated {
  import opened Wrappers
  import opened Nullables
  import opened NetworkServer
  import opened NetworkManifest
  import opened NetworkPlan
  import opened NetworkApply
  import opened NetworkRun
  import opened NetworkConvergence
  import opened NetworkGuarantees

  // ----- rows that are as stated --------------------------------------------------------------

  /** An unstated member is met by anything, a stated null by none. */
  predicate Meets<T(==)>(stated: Nullable<T>, held: Option<T>) {
    match stated
    case Absent => true
    case Null => held == None
    case Value(v) => held == Some(v)
  }

  predicate IsFor(spec: SegmentSpec, row: Segment) {
    row.site == spec.site && row.kind == spec.kind && row.name == spec.name
  }

  predicate SegmentMeets(spec: SegmentSpec, row: Segment) {
    && row.vlanId == spec.vlanId && Meets(spec.rank, row.rank)
    && (spec.filterIds.Some? ==> (set f | f in row.filterIds) == (set f | f in spec.filterIds.value))
    && (spec.enabled.Some? ==> row.enabled == spec.enabled.value)
  }

  /** The session timeout of a stored profile as a read under this cap returns it. */
  function TimeoutUnder(p: Profile, cap: int): int {
    if p.sessionTimeout > cap then cap else p.sessionTimeout
  }

  function IdleUnder(p: Profile, cap: int): Option<int> {
    if p.idleTimeout.Some? && p.idleTimeout.value > TimeoutUnder(p, cap) then Some(TimeoutUnder(p, cap))
    else p.idleTimeout
  }

  predicate ProfileMeets(spec: ProfileSpec, row: Profile, cap: int) {
    && TimeoutUnder(row, cap) == spec.sessionTimeout && Meets(spec.idleTimeout, IdleUnder(row, cap))
    && (spec.terminationAction.Some? ==> row.terminationAction == spec.terminationAction.value)
    && Meets(spec.filterId, row.filterId) && Meets(spec.serviceType, row.serviceType)
  }

  /** The row this is the id of carries the spec's natural key. */
  predicate Stands(seg: SegmentSpec, s: Server, id: Id) {
    id in s.segments && IsFor(seg, s.segments[id])
  }

  ghost predicate SegmentHeld(seg: SegmentSpec, s: Server) {
    exists id :: Stands(seg, s, id) && SegmentMeets(seg, s.segments[id])
  }

  ghost predicate ProfileHeld(seg: SegmentSpec, spec: ProfileSpec, s: Server) {
    exists id :: Stands(seg, s, id) && id in s.profiles && ProfileMeets(spec, s.profiles[id], s.policy.cap)
  }

  /** Everything the section states is what the server has, a profile as it is read. */
  ghost predicate HeldAsStated(n: NetworkSpec, s: Server) {
    && (n.policy.Some? ==> s.policy.cap == n.policy.value.cap)
    && (forall seg | seg in n.segments :: SegmentHeld(seg, s))
    && forall seg, spec | seg in n.segments && spec in n.profiles && spec.segment == seg.key ::
         ProfileHeld(seg, spec, s)
  }

  // ----- what is read and what is stored ------------------------------------------------------

  lemma DriftOfMembers(spec: SegmentSpec, row: Segment)
    ensures SegmentDrifted(spec, row) <==> !SegmentMeets(spec, row)
  {
    SameNamesAreOneSet(spec.filterIds.GetOr([]), row.filterIds);
  }

  lemma DriftOfProfile(spec: ProfileSpec, row: Profile, cap: int)
    ensures ProfileDrifted(spec, Effective(row, cap)) <==> !ProfileMeets(spec, row, cap)
  {
    var read := Effective(row, cap);
    assert read.sessionTimeout == TimeoutUnder(row, cap) && read.idleTimeout == IdleUnder(row, cap);
  }

  /** One row of a server carries a natural key. */
  lemma OneStands(seg: SegmentSpec, s: Server, id: Id, other: Id)
    requires WellFormed(s) && Stands(seg, s, id) && Stands(seg, s, other)
    ensures id == other
  {
    assert s.segments[id].Key() == s.segments[other].Key();
  }

  /** The row found for a spec is the one that stands for it. */
  lemma FoundStands(n: NetworkSpec, s: Server, snap: NetworkSnapshot, seg: SegmentSpec)
    requires WellFormed(s) && Reads(n, s, s, s, snap) && seg in n.segments
    ensures match FindSegment(snap.segments, seg.Key())
            case None => forall id :: !Stands(seg, s, id)
            case Some(row) => Stands(seg, s, row.id) && s.segments[row.id] == row
  {
    FoundInListing(snap.segments, s, seg.Key());
    assert forall id | Stands(seg, s, id) :: s.segments[id].Key() == seg.Key();
  }

  lemma SegmentReadAsHeld(n: NetworkSpec, s: Server, snap: NetworkSnapshot, seg: SegmentSpec)
    requires WellFormed(s) && Reads(n, s, s, s, snap) && seg in n.segments
    ensures SegmentAsStated(seg, snap) <==> SegmentHeld(seg, s)
  {
    FoundStands(n, s, snap, seg);
    var found := FindSegment(snap.segments, seg.Key());
    if found.Some? {
      DriftOfMembers(seg, found.value);
      forall id | Stands(seg, s, id) ensures id == found.value.id {
        OneStands(seg, s, id, found.value.id);
      }
    }
  }

  /** What a profile's read is, of the segment that stands for its spec. */
  lemma ProfileFoundStands(n: NetworkSpec, s: Server, snap: NetworkSnapshot, seg: SegmentSpec, id: Id)
    requires WellFormed(s) && Reads(n, s, s, s, snap) && seg in n.segments && n.profiles != [] && Stands(seg, s, id)
    ensures FoundProfile(seg, snap) == if id in s.profiles then Some(Effective(s.profiles[id], s.policy.cap)) else None
  {
    FoundStands(n, s, snap, seg);
    OneStands(seg, s, id, FindSegment(snap.segments, seg.Key()).value.id);
    ProfileInListing(snap.profiles, s, id);
  }

  lemma ProfileReadAsHeld(n: NetworkSpec, s: Server, snap: NetworkSnapshot, seg: SegmentSpec, spec: ProfileSpec)
    requires WellFormed(s) && Reads(n, s, s, s, snap) && seg in n.segments && n.profiles != []
    ensures LeftAlone(seg, spec, snap) <==> ProfileHeld(seg, spec, s)
  {
    FoundStands(n, s, snap, seg);
    var found := FindSegment(snap.segments, seg.Key());
    if found.Some? {
      var id := found.value.id;
      ProfileFoundStands(n, s, snap, seg, id);
      if id in s.profiles {
        DriftOfProfile(spec, s.profiles[id], s.policy.cap);
      }
      forall other | Stands(seg, s, other) ensures other == id {
        OneStands(seg, s, other, id);
      }
    }
  }

  /** A stated profile is the one filed under its segment's key. */
  lemma FiledProfile(n: NetworkSpec, seg: SegmentSpec)
    requires ValidNetwork(n) && seg in n.segments
    ensures forall spec | spec in n.profiles && spec.segment == seg.key ::
              seg.key in ProfilesByKey(n.profiles) && ProfilesByKey(n.profiles)[seg.key] == spec
    ensures seg.key in ProfilesByKey(n.profiles) ==>
              ProfilesByKey(n.profiles)[seg.key] in n.profiles && ProfilesByKey(n.profiles)[seg.key].segment == seg.key
  {
    ProfilesFiled(n.profiles);
    forall spec | spec in n.profiles && spec.segment == seg.key
      ensures seg.key in ProfilesByKey(n.profiles) && ProfilesByKey(n.profiles)[seg.key] == spec
    {
      var own := SegmentOf(n, spec);
    }
  }

  /** A plan has no change exactly when the server holds all that the section states. */
  lemma NoChangeMeansHeldAsStated(n: NetworkSpec, s: Server, snap: NetworkSnapshot)
    requires WellFormed(s) && ValidNetwork(n) && Reads(n, s, s, s, snap)
    ensures PlansNoChange(n, snap) <==> HeldAsStated(n, s)
  {
    ConvergedMeansReadAsStated(n, snap);
    forall seg | seg in n.segments ensures SegmentAsStated(seg, snap) <==> SegmentHeld(seg, s) {
      SegmentReadAsHeld(n, s, snap, seg);
    }
    forall seg | seg in n.segments
      ensures (seg.key in ProfilesByKey(n.profiles) ==> LeftAlone(seg, ProfilesByKey(n.profiles)[seg.key], snap)) <==>
              forall spec | spec in n.profiles && spec.segment == seg.key :: ProfileHeld(seg, spec, s)
    {
      FiledProfile(n, seg);
      if n.profiles != [] {
        forall spec | spec in n.profiles ensures LeftAlone(seg, spec, snap) <==> ProfileHeld(seg, spec, s) {
          ProfileReadAsHeld(n, s, snap, seg, spec);
        }
      }
    }
  }

  // ----- what an Apply leaves -----------------------------------------------------------------

  /** A member of a written row: as stated, or else as it was, or none in a new row. */
  predicate Left<T(==)>(stated: Nullable<T>, was: Option<T>, held: Option<T>) {
    match stated
    case Absent => held == was
    case Null => held == None
    case Value(v) => held == Some(v)
  }

  /** A stated segment's row: the stated members as stated, the others as they were, or at their defaults. */
  predicate SegmentLeft(spec: SegmentSpec, was: Option<Segment>, row: Segment) {
    && row.vlanId == spec.vlanId
    && Left(spec.rank, if was.Some? then was.value.rank else None, row.rank)
    && (match spec.filterIds
        case Some(stated) => (set f | f in row.filterIds) == (set f | f in stated)
        case None => row.filterIds == if was.Some? then was.value.filterIds else [])
    && row.enabled == (match spec.enabled
                       case Some(stated) => stated
                       case None => if was.Some? then was.value.enabled else true)
  }

  /** A written profile: the stated members as stated, the others as they were read under the cap, or defaults. */
  predicate ProfileWritten(spec: ProfileSpec, was: Option<Profile>, cap: int, row: Profile) {
    && row.sessionTimeout == spec.sessionTimeout
    && row.dictionary == (if was.Some? then was.value.dictionary else "axiam-radius-reply/1")
    && row.terminationAction == (match spec.terminationAction
                                 case Some(stated) => stated
                                 case None => if was.Some? then was.value.terminationAction else "radius_request")
    && Left(spec.idleTimeout, if was.Some? then IdleUnder(was.value, cap) else None, row.idleTimeout)
    && Left(spec.filterId, if was.Some? then was.value.filterId else None, row.filterId)
    && Left(spec.serviceType, if was.Some? then was.value.serviceType else None, row.serviceType)
  }

  /** A stated profile: untouched where it was read as stated, and written otherwise. */
  predicate ProfileLeft(spec: ProfileSpec, was: Option<Profile>, cap: int, row: Profile) {
    if was.Some? && ProfileMeets(spec, was.value, cap) then row == was.value else ProfileWritten(spec, was, cap, row)
  }

  function RowOf(s: Server, id: Id): Option<Segment> {
    if id in s.segments then Some(s.segments[id]) else None
  }

  function ProfileOf(s: Server, id: Id): Option<Profile> {
    if id in s.profiles then Some(s.profiles[id]) else None
  }

  ghost predicate SegmentIsLeft(seg: SegmentSpec, s: Server, t: Server) {
    exists id :: Stands(seg, t, id) && SegmentLeft(seg, RowOf(s, id), t.segments[id])
  }

  ghost predicate ProfileIsLeft(seg: SegmentSpec, spec: ProfileSpec, s: Server, t: Server) {
    exists id ::
      Stands(seg, t, id) && id in t.profiles && ProfileLeft(spec, ProfileOf(s, id), s.policy.cap, t.profiles[id])
  }

  lemma SettledIsLeft(seg: SegmentSpec, found: Option<Segment>, id: Id)
    ensures SegmentLeft(seg, found, SettledSegment(seg, found, id))
  {
    if found.Some? {
      DriftOfMembers(seg, found.value);
    }
  }

  lemma SettledProfileIsLeft(spec: ProfileSpec, was: Option<Profile>, cap: int, stored: Profile, id: Id)
    requires was.Some? ==> stored == was.value
    ensures var found := if was.Some? then Some(Effective(was.value, cap)) else None;
            ProfileLeft(spec, was, cap, SettledProfile(spec, found, stored, id))
  {
    if was.Some? {
      DriftOfProfile(spec, was.value, cap);
      assert Effective(was.value, cap).idleTimeout == IdleUnder(was.value, cap);
    }
  }

  lemma SegmentOfRun(n: NetworkSpec, s: Server, snap: NetworkSnapshot, run: Run, seg: SegmentSpec)
    requires WellFormed(s) && Reads(n, s, s, s, snap) && seg in n.segments && Settled(n, s, snap, run)
    requires Untouched(n, s, run.net.server)
    ensures SegmentKnown(seg, run) && Stands(seg, run.net.server, run.table.ids[seg.key])
    ensures FindSegment(snap.segments, seg.Key()) == RowOf(s, run.table.ids[seg.key])
    ensures SegmentIsLeft(seg, s, run.net.server)
  {
    assert SegmentDone(seg, snap.segments, run);
    FoundStands(n, s, snap, seg);
    var found, id := FindSegment(snap.segments, seg.Key()), run.table.ids[seg.key];
    if found.None? && id in s.segments {
      assert s.segments[id].Key() == run.net.server.segments[id].Key();
      assert Stands(seg, s, id);
    }
    SettledIsLeft(seg, found, id);
  }

  lemma ProfileOfRun(n: NetworkSpec, s: Server, snap: NetworkSnapshot, run: Run, seg: SegmentSpec, spec: ProfileSpec)
    requires WellFormed(s) && ValidNetwork(n) && Reads(n, s, s, s, snap) && Settled(n, s, snap, run)
    requires Untouched(n, s, run.net.server)
    requires seg in n.segments && spec in n.profiles && spec.segment == seg.key
    ensures ProfileIsLeft(seg, spec, s, run.net.server)
  {
    FiledProfile(n, seg);
    SegmentOfRun(n, s, snap, run, seg);
    var id := run.table.ids[seg.key];
    assert ProfileDone(seg, spec, FoundProfile(seg, snap), s.(policy := run.net.server.policy), run);
    if id in s.segments {
      ProfileFoundStands(n, s, snap, seg, id);
    }
    var was := ProfileOf(s, id);
    SettledProfileIsLeft(spec, was, s.policy.cap, if was.Some? then was.value else NewProfile(spec, id), id);
  }

  /** A complete Apply with no other writer leaves every stated row as the section states it, with what it does not
      state as it was, and everything else untouched. */
  lemma CompleteApplyLeaves(n: NetworkSpec, s: Server, snap: NetworkSnapshot, planned: Planned, sent: seq<Exchange>,
                            tape: Tape)
    requires Quiet(tape) && WellFormed(s) && ValidNetwork(n) && Reads(n, s, s, s, snap)
    requires PlanOf(n, snap) == Ok(planned) && !ApplyPlan(planned, Net(s, sent), tape).stopped
    ensures var t := ApplyPlan(planned, Net(s, sent), tape).net.server;
            && t.policy.cap == (if n.policy.Some? then n.policy.value.cap else s.policy.cap)
            && (forall seg | seg in n.segments :: SegmentIsLeft(seg, s, t))
            && (forall seg, spec | seg in n.segments && spec in n.profiles && spec.segment == seg.key ::
                  ProfileIsLeft(seg, spec, s, t))
  {
    QuietApply(n, s, snap, planned, sent, tape);
    var run := ApplyPlan(planned, Net(s, sent), tape);
    forall seg | seg in n.segments ensures SegmentIsLeft(seg, s, run.net.server) {
      SegmentOfRun(n, s, snap, run, seg);
    }
    forall seg, spec | seg in n.segments && spec in n.profiles && spec.segment == seg.key
      ensures ProfileIsLeft(seg, spec, s, run.net.server)
    {
      ProfileOfRun(n, s, snap, run, seg, spec);
    }
  }

  // ----- when a plan is refused ---------------------------------------------------------------

  /** The stored profile has an open-enum value that is none of the SDK's, in a member the spec does not state. */
  predicate UnknownUnstated(spec: ProfileSpec, row: Profile) {
    || (spec.terminationAction.None? && row.terminationAction !in {"default", "radius_request"})
    || (spec.serviceType.Absent? && row.serviceType.Some? && row.serviceType.value != "framed_user")
  }

  ghost predicate WouldGuess(n: NetworkSpec, s: Server) {
    exists seg, spec, id :: GuessesOf(n, s, seg, spec, id)
  }

  predicate GuessesOf(n: NetworkSpec, s: Server, seg: SegmentSpec, spec: ProfileSpec, id: Id) {
    && seg in n.segments && spec in n.profiles && spec.segment == seg.key
    && Stands(seg, s, id) && id in s.profiles
    && !ProfileMeets(spec, s.profiles[id], s.policy.cap) && UnknownUnstated(spec, s.profiles[id])
  }

  /** A plan is refused exactly when some stored profile it would replace has an unknown value nobody states. */
  lemma PlanIsRefusedExactlyWhen(n: NetworkSpec, s: Server, snap: NetworkSnapshot)
    requires WellFormed(s) && ValidNetwork(n) && Reads(n, s, s, s, snap)
    ensures PlanOf(n, snap).Err? <==> WouldGuess(n, s)
  {
    PlanRefusesExactlyAGuess(n, snap);
    forall seg | seg in n.segments
      ensures Guesses(seg, ProfilesByKey(n.profiles), snap) <==> exists spec, id :: GuessesOf(n, s, seg, spec, id)
    {
      GuessOfOne(n, s, snap, seg);
    }
  }

  lemma GuessOfOne(n: NetworkSpec, s: Server, snap: NetworkSnapshot, seg: SegmentSpec)
    requires WellFormed(s) && ValidNetwork(n) && Reads(n, s, s, s, snap) && seg in n.segments
    ensures Guesses(seg, ProfilesByKey(n.profiles), snap) <==> exists spec, id :: GuessesOf(n, s, seg, spec, id)
  {
    FiledProfile(n, seg);
    FoundStands(n, s, snap, seg);
    forall spec, id | spec in n.profiles && spec.segment == seg.key && Stands(seg, s, id)
      ensures Guesses(seg, ProfilesByKey(n.profiles), snap) <==> GuessesOf(n, s, seg, spec, id)
    {
      ProfileFoundStands(n, s, snap, seg, id);
      if id in s.profiles {
        DriftOfProfile(spec, s.profiles[id], s.policy.cap);
        ProfileDriftIsWhatAReplacementWouldChange(spec, Effective(s.profiles[id], s.policy.cap));
      }
    }
    if Guesses(seg, ProfilesByKey(n.profiles), snap) {
      var id := FindSegment(snap.segments, seg.Key()).value.id;
      assert GuessesOf(n, s, seg, ProfilesByKey(n.profiles)[seg.key], id);
    }
  }

  /** Every open-enum value of the stored profile is one the SDK knows. */
  predicate KnownRow(row: Profile) {
    row.terminationAction in {"default", "radius_request"} && row.serviceType in {None, Some("framed_user")}
  }

  predicate KnownServer(s: Server) {
    forall id | id in s.profiles :: KnownRow(s.profiles[id])
  }

  predicate StatesKnown(n: NetworkSpec) {
    forall p | p in n.profiles ::
      && p.terminationAction in {None, Some("default"), Some("radius_request")}
      && p.serviceType in {Absent, Null, Value("framed_user")}
  }

  /** Over known values no plan is refused, whatever it states; and an Apply that states none but known ones, or
      leaves the members at their defaults, leaves known values. */
  lemma KnownIsNeverRefused(n: NetworkSpec, s: Server, snap: NetworkSnapshot)
    requires WellFormed(s) && ValidNetwork(n) && Reads(n, s, s, s, snap) && KnownServer(s)
    ensures PlanOf(n, snap).Ok?
  {
    PlanIsRefusedExactlyWhen(n, s, snap);
  }

  lemma ApplyLeavesKnown(n: NetworkSpec, s: Server, snap: NetworkSnapshot, sent: seq<Exchange>, tape: Tape)
    requires Quiet(tape) && WellFormed(s) && ValidNetwork(n) && Reads(n, s, s, s, snap)
    requires KnownServer(s) && StatesKnown(n)
    ensures PlanOf(n, snap).Ok?
    ensures var run := ApplyPlan(PlanOf(n, snap).value, Net(s, sent), tape);
            !run.stopped ==> KnownServer(run.net.server)
  {
    KnownIsNeverRefused(n, s, snap);
    var planned := PlanOf(n, snap).value;
    QuietApply(n, s, snap, planned, sent, tape);
    var run := ApplyPlan(planned, Net(s, sent), tape);
    var t := run.net.server;
    if !run.stopped {
      forall id | id in t.profiles ensures KnownRow(t.profiles[id]) {
        ProfileStaysKnown(n, s, snap, run, id);
      }
    }
  }

  lemma LeftIsKnown(seg: SegmentSpec, spec: ProfileSpec, s: Server, t: Server, id: Id)
    requires WellFormed(t) && ProfileIsLeft(seg, spec, s, t) && Stands(seg, t, id) && id in t.profiles && KnownServer(s)
    requires spec.terminationAction in {None, Some("default"), Some("radius_request")}
    requires spec.serviceType in {Absent, Null, Value("framed_user")}
    ensures KnownRow(t.profiles[id])
  {
    var own :|
      Stands(seg, t, own) && own in t.profiles && ProfileLeft(spec, ProfileOf(s, own), s.policy.cap, t.profiles[own]);
    OneStands(seg, t, own, id);
  }

  lemma ProfileStaysKnown(n: NetworkSpec, s: Server, snap: NetworkSnapshot, run: Run, id: Id)
    requires WellFormed(s) && ValidNetwork(n) && Reads(n, s, s, s, snap) && KnownServer(s) && StatesKnown(n)
    requires WellFormed(run.net.server) && Settled(n, s, snap, run) && Untouched(n, s, run.net.server)
    requires id in run.net.server.profiles
    ensures KnownRow(run.net.server.profiles[id])
  {
    var t := run.net.server;
    if StatesProfile(n, t.segments[id].Key()) {
      var seg :| seg in n.segments && seg.Key() == t.segments[id].Key() && seg.key in ProfilesByKey(n.profiles);
      FiledProfile(n, seg);
      var spec := ProfilesByKey(n.profiles)[seg.key];
      ProfileOfRun(n, s, snap, run, seg, spec);
      LeftIsKnown(seg, spec, s, t, id);
    }
  }
}
