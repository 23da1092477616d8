/** The network service a manifest is reconciled against: its rows, the version-conditional
    writes of management_network.go, and the clamp every profile read applies.

    Everything the server may refuse beyond what is written out here (permissions, VLAN and
    rank rules, stranded profiles, limits, a lost connection) is a Fate a run meets, so a
    statement about every tape of ticks is a statement about every such server. */
module NetworkServer {
  import opened Wrappers

  /** A UUID; the nil UUID, which Go reads from a map that lacks the key, is NIL_ID. */
  type Id = nat
  const NIL_ID: Id := 0

  const DEFAULT_DICTIONARY := "axiam-radius-reply/1"
  const TERMINATION_DEFAULT := "default"
  const TERMINATION_RADIUS_REQUEST := "radius_request"
  const SERVICE_FRAMED_USER := "framed_user"

  /** Site, kind and name: what a segment is matched by, and what no write moves. */
  datatype NaturalKey = NaturalKey(site: string, kind: string, name: string)

  datatype Policy = Policy(cap: int, version: int)

  datatype Segment = Segment(id: Id, site: string, kind: string, name: string, vlanId: int, rank: Option<int>,
                             filterIds: seq<string>, enabled: bool, version: int) {
    function Key(): NaturalKey {
      NaturalKey(site, kind, name)
    }
  }

  /** A reply profile as stored; reads return Effective of it. */
  datatype Profile = Profile(segmentId: Id, dictionary: string, sessionTimeout: int, terminationAction: string,
                             idleTimeout: Option<int>, filterId: Option<string>, serviceType: Option<string>,
                             version: int)

  datatype ProfileRead = ProfileRead(segmentId: Id, dictionary: string, sessionTimeout: int, clamped: bool,
                                     terminationAction: string, idleTimeout: Option<int>, filterId: Option<string>,
                                     serviceType: Option<string>, version: int)

  function Min(a: int, b: int): int {
    if a <= b then a else b
  }

  /** The profile as every read returns it: the stored timeout lowered to the tenant's current cap,
      and the idle timeout kept within it. */
  function Effective(p: Profile, cap: int): ProfileRead {
    var session := Min(p.sessionTimeout, cap);
    ProfileRead(p.segmentId, p.dictionary, session, p.sessionTimeout > cap, p.terminationAction,
                if p.idleTimeout.Some? then Some(Min(p.idleTimeout.value, session)) else None,
                p.filterId, p.serviceType, p.version)
  }

  datatype Server = Server(policy: Policy, segments: map<Id, Segment>, profiles: map<Id, Profile>, nextId: Id)

  datatype ProfileInput = ProfileInput(dictionary: Option<string>, sessionTimeout: int,
                                       terminationAction: Option<string>, idleTimeout: Option<int>,
                                       filterId: Option<string>, serviceType: Option<string>)

  /** The seven writes of the namespace. A manifest never deletes; another administrator may. */
  datatype Write =
    | ReplacePolicy(cap: int, version: int)
    | CreateSegment(kind: string, site: string, name: string, vlanId: int, rank: Option<int>,
                    filterIds: seq<string>, enable: Option<bool>)
    | ReplaceSegment(id: Id, enabled: bool, filterIds: seq<string>, version: int, vlanId: int, rank: Option<int>)
    | DeleteSegment(id: Id, version: int)
    | CreateProfile(segmentId: Id, segmentVersion: int, profile: ProfileInput)
    | ReplaceProfile(segmentId: Id, profile: ProfileInput, segmentVersion: int, version: int)
    | DeleteProfile(segmentId: Id, version: int)

  datatype Refusal =
    StaleVersion | NotFound | DuplicateName | ProfileExists | AboveCap | BadValue | Lost | Other(code: string)

  datatype Answer =
    | Refused(reason: Refusal)
    | PolicyAnswer(policy: Policy)
    | SegmentAnswer(segment: Segment)
    | ProfileAnswer(profile: ProfileRead)
    | Deleted

  /** Every row is filed under its own non-nil id, natural keys are unique, a profile belongs to a
      segment that exists and its idle timeout is within its session timeout. */
  ghost predicate WellFormed(s: Server) {
    && 1 <= s.nextId
    && (forall id | id in s.segments :: s.segments[id].id == id && 1 <= id < s.nextId)
    && (forall i, j | i in s.segments && j in s.segments && s.segments[i].Key() == s.segments[j].Key() :: i == j)
    && (forall id | id in s.profiles :: id in s.segments && s.profiles[id].segmentId == id && IdleFits(s.profiles[id]))
  }

  ghost predicate IdleFits(p: Profile) {
    p.idleTimeout.Some? ==> p.idleTimeout.value <= p.sessionTimeout
  }

  predicate KeyTaken(s: Server, key: NaturalKey) {
    exists id | id in s.segments :: s.segments[id].Key() == key
  }

  function Stored(id: Id, input: ProfileInput, version: int): Profile {
    Profile(id, input.dictionary.GetOr(DEFAULT_DICTIONARY), input.sessionTimeout,
            input.terminationAction.GetOr(TERMINATION_RADIUS_REQUEST), input.idleTimeout, input.filterId,
            input.serviceType, version)
  }

  /** The value rules of a profile write that decide what a later read returns. */
  function JudgeInput(s: Server, input: ProfileInput): Option<Refusal> {
    if input.sessionTimeout > s.policy.cap then Some(AboveCap)
    else if input.idleTimeout.Some? && input.idleTimeout.value > input.sessionTimeout then Some(BadValue)
    else None
  }

  /** Why the server refuses a write, or None: a stale version writes nothing. */
  function Judge(s: Server, w: Write): Option<Refusal> {
    match w
    case ReplacePolicy(_, version) => if version != s.policy.version then Some(StaleVersion) else None
    case CreateSegment(kind, site, name, _, _, _, _) =>
      if KeyTaken(s, NaturalKey(site, kind, name)) then Some(DuplicateName) else None
    case ReplaceSegment(id, _, _, version, _, _) => JudgeSegment(s, id, version)
    case DeleteSegment(id, version) => JudgeSegment(s, id, version)
    case CreateProfile(id, segmentVersion, input) =>
      if JudgeSegment(s, id, segmentVersion).Some? then JudgeSegment(s, id, segmentVersion)
      else if id in s.profiles then Some(ProfileExists)
      else JudgeInput(s, input)
    case ReplaceProfile(id, input, segmentVersion, version) =>
      if JudgeProfile(s, id, version).Some? then JudgeProfile(s, id, version)
      else if JudgeSegment(s, id, segmentVersion).Some? then JudgeSegment(s, id, segmentVersion)
      else JudgeInput(s, input)
    case DeleteProfile(id, version) => JudgeProfile(s, id, version)
  }

  function JudgeSegment(s: Server, id: Id, version: int): Option<Refusal> {
    if id !in s.segments then Some(NotFound)
    else if s.segments[id].version != version then Some(StaleVersion)
    else None
  }

  function JudgeProfile(s: Server, id: Id, version: int): Option<Refusal> {
    if id !in s.profiles then Some(NotFound)
    else if s.profiles[id].version != version then Some(StaleVersion)
    else None
  }

  /** What an admitted write does: a replacement bumps its row's version, a created row starts at 1
      under an id never used before, and a segment's deletion takes its profile with it. */
  function Effect(s: Server, w: Write): Server
    requires Judge(s, w).None?
  {
    match w
    case ReplacePolicy(cap, version) => s.(policy := Policy(cap, version + 1))
    case CreateSegment(kind, site, name, vlanId, rank, filterIds, enable) =>
      s.(segments := s.segments[s.nextId := Segment(s.nextId, site, kind, name, vlanId, rank, filterIds,
                                                    enable.GetOr(true), 1)],
         nextId := s.nextId + 1)
    case ReplaceSegment(id, enabled, filterIds, version, vlanId, rank) =>
      s.(segments := s.segments[id := s.segments[id].(enabled := enabled, filterIds := filterIds, vlanId := vlanId,
                                                      rank := rank, version := version + 1)])
    case DeleteSegment(id, _) => s.(segments := s.segments - {id}, profiles := s.profiles - {id})
    case CreateProfile(id, _, input) => s.(profiles := s.profiles[id := Stored(id, input, 1)])
    case ReplaceProfile(id, input, _, version) => s.(profiles := s.profiles[id := Stored(id, input, version + 1)])
    case DeleteProfile(id, _) => s.(profiles := s.profiles - {id})
  }

  /** The row an admitted write answers with. */
  function Reply(s: Server, w: Write): Answer
    requires Judge(s, w).None?
  {
    var t := Effect(s, w);
    match w
    case ReplacePolicy(_, _) => PolicyAnswer(t.policy)
    case CreateSegment(_, _, _, _, _, _, _) => SegmentAnswer(t.segments[s.nextId])
    case ReplaceSegment(id, _, _, _, _, _) => SegmentAnswer(t.segments[id])
    case CreateProfile(id, _, _) => ProfileAnswer(Effective(t.profiles[id], t.policy.cap))
    case ReplaceProfile(id, _, _, _) => ProfileAnswer(Effective(t.profiles[id], t.policy.cap))
    case _ => Deleted
  }

  /** The state after a write, admitted or not. */
  function After(s: Server, w: Write): Server {
    if Judge(s, w).None? then Effect(s, w) else s
  }

  /** The state after other administrators' writes. */
  function Play(s: Server, writes: seq<Write>): Server
    decreases |writes|
  {
    if writes == [] then s else Play(After(s, writes[0]), writes[1..])
  }

  lemma AfterKeepsWellFormed(s: Server, w: Write)
    requires WellFormed(s)
    ensures WellFormed(After(s, w))
  {
  }

  lemma {:induction false} PlayKeepsWellFormed(s: Server, writes: seq<Write>)
    requires WellFormed(s)
    ensures WellFormed(Play(s, writes))
    decreases |writes|
  {
    if writes != [] {
      AfterKeepsWellFormed(s, writes[0]);
      PlayKeepsWellFormed(After(s, writes[0]), writes[1..]);
    }
  }

  /** What any writers together can have done between two moments: a version that still stands
      means the row still stands, and an id, once gone, names nothing again. */
  ghost predicate Evolves(s: Server, t: Server) {
    && s.nextId <= t.nextId
    && s.policy.version <= t.policy.version
    && (s.policy.version == t.policy.version ==> s.policy == t.policy)
    && forall id | id in t.segments && id < s.nextId ::
         && id in s.segments
         && s.segments[id].Key() == t.segments[id].Key()
         && s.segments[id].version <= t.segments[id].version
         && (s.segments[id].version == t.segments[id].version ==> s.segments[id] == t.segments[id])
  }

  lemma AfterEvolves(s: Server, w: Write)
    requires WellFormed(s)
    ensures Evolves(s, After(s, w))
  {
  }

  lemma {:induction false} PlayEvolves(s: Server, writes: seq<Write>)
    requires WellFormed(s)
    ensures Evolves(s, Play(s, writes))
    decreases |writes|
  {
    if writes != [] {
      AfterKeepsWellFormed(s, writes[0]);
      AfterEvolves(s, writes[0]);
      PlayEvolves(After(s, writes[0]), writes[1..]);
    }
  }

  lemma {:induction false} PlayAppends(s: Server, first: seq<Write>, rest: seq<Write>)
    ensures Play(s, first + rest) == Play(Play(s, first), rest)
    decreases |first|
  {
    if first == [] {
      assert first + rest == rest;
    } else {
      assert (first + rest)[1..] == first[1..] + rest;
      PlayAppends(After(s, first[0]), first[1..], rest);
    }
  }

  /** A profile row's version is meaningful only while the profile is not removed, by itself or with its segment:
      a new one for the same segment starts at 1 again. */
  predicate RemovesProfile(s: Server, w: Write, id: Id) {
    Judge(s, w).None? && ((w.DeleteProfile? && w.segmentId == id) || (w.DeleteSegment? && w.id == id))
  }

  predicate MakesProfile(s: Server, w: Write, id: Id) {
    Judge(s, w).None? && w.CreateProfile? && w.segmentId == id
  }

  /** Some write of these, judged on the state it met, removed the profile. */
  predicate ProfileRemoved(s: Server, writes: seq<Write>, id: Id)
    decreases |writes|
  {
    writes != [] && (RemovesProfile(s, writes[0], id) || ProfileRemoved(After(s, writes[0]), writes[1..], id))
  }

  /** Some write of these, judged on the state it met, made the profile that is there after them: none of the
      later ones removed it. */
  predicate ProfileMade(s: Server, writes: seq<Write>, id: Id)
    decreases |writes|
  {
    writes != [] &&
    var t := After(s, writes[0]);
    || (MakesProfile(s, writes[0], id) && !ProfileRemoved(t, writes[1..], id))
    || ProfileMade(t, writes[1..], id)
  }

  /** A profile that is there at the end either was there at the start and nobody removed it, or was made since:
      never both. */
  lemma {:induction false} PresentIsKeptOrMade(s: Server, writes: seq<Write>, id: Id)
    requires id in Play(s, writes).profiles
    ensures id in s.profiles && !ProfileRemoved(s, writes, id) <==> !ProfileMade(s, writes, id)
    decreases |writes|
  {
    if writes != [] {
      PresentIsKeptOrMade(After(s, writes[0]), writes[1..], id);
    }
  }

  /** The profile is still there, and a version that still stands means the row still stands. */
  ghost predicate ProfileStands(s: Server, t: Server, id: Id)
    requires id in s.profiles
  {
    && id in t.profiles
    && s.profiles[id].version <= t.profiles[id].version
    && (s.profiles[id].version == t.profiles[id].version ==> s.profiles[id] == t.profiles[id])
  }

  lemma AfterLetsProfileStand(s: Server, t: Server, w: Write, id: Id)
    requires id in s.profiles && ProfileStands(s, t, id) && !RemovesProfile(t, w, id)
    ensures ProfileStands(s, After(t, w), id)
  {
  }

  /** A profile nobody removed stands. */
  lemma {:induction false} PlayLetsProfileStand(s: Server, t: Server, writes: seq<Write>, id: Id)
    requires id in s.profiles && ProfileStands(s, t, id) && !ProfileRemoved(t, writes, id)
    ensures ProfileStands(s, Play(t, writes), id)
    decreases |writes|
  {
    if writes != [] {
      AfterLetsProfileStand(s, t, writes[0], id);
      PlayLetsProfileStand(s, After(t, writes[0]), writes[1..], id);
    }
  }

  /** One write of a run: what others did just before it, and whether it is served, refused for a
      reason outside this model, or served with its answer lost. */
  datatype Fate = Served | Turned(reason: Refusal) | AnswerLost

  datatype Tick = Tick(others: seq<Write>, fate: Fate)

  type Tape = nat -> Tick

  /** A write as it met the server, and the answer the caller saw. */
  datatype Exchange = Exchange(before: Server, write: Write, answer: Answer)

  datatype Net = Net(server: Server, sent: seq<Exchange>)

  function Send(net: Net, w: Write, tape: Tape): Net {
    var tick := tape(|net.sent|);
    var before := Play(net.server, tick.others);
    var judged := if Judge(before, w).None? then Reply(before, w) else Refused(Judge(before, w).value);
    match tick.fate
    case Served => Net(After(before, w), net.sent + [Exchange(before, w, judged)])
    case Turned(reason) => Net(before, net.sent + [Exchange(before, w, Refused(reason))])
    case AnswerLost => Net(After(before, w), net.sent + [Exchange(before, w, Refused(Lost))])
  }

  function LastAnswer(net: Net): Answer
    requires net.sent != []
  {
    net.sent[|net.sent| - 1].answer
  }

  /** No other administrator writes while the run lasts. */
  ghost predicate Quiet(tape: Tape) {
    forall k: nat :: tape(k).others == []
  }
}
