/** What the reads of a Plan or an Apply meet (readNetwork of management_manifest_network.go): one GET after
    another, a list one page after another, while other administrators write between any two of them. */
module NetworkReads {
  import opened Wrappers
  import opened NetworkServer
  import opened NetworkManifest
  import opened NetworkPlan
  import Pages

  const PLAN_PAGE_SIZE := 200

  /** For read number k: what others wrote just before it, why it failed if it did, and how many items a page
      holds at most. From read number settled on nobody writes any more. The two orders are the server's. */
  datatype Weather = Weather(before: nat -> seq<Write>, failing: nat -> Option<Refusal>, pageSize: nat -> nat,
                             settled: nat,
                             segmentOrder: Server -> seq<Segment>, profileOrder: Server -> seq<ProfileRead>)

  ghost predicate Sound(w: Weather) {
    && (forall k | k >= w.settled :: w.before(k) == [])
    && (forall k :: w.pageSize(k) > 0)
    && (forall s | WellFormed(s) :: ListsSegments(w.segmentOrder(s), s) && ListsProfiles(w.profileOrder(s), s))
  }

  /** Nobody else writes while the reads are made. */
  ghost predicate Calm(w: Weather) {
    forall k :: w.before(k) == []
  }

  /** What others wrote just before reads from..end. */
  function Between(w: Weather, from: nat, end: nat): seq<Write>
    decreases end
  {
    if from >= end then [] else Between(w, from, end - 1) + w.before(end - 1)
  }

  /** The server as read number k meets it, where s is the server before read number from. */
  function MetByRead(s: Server, w: Weather, from: nat, k: nat): Server {
    Play(s, Between(w, from, k + 1))
  }

  lemma {:induction false} BetweenSplits(w: Weather, from: nat, mid: nat, end: nat)
    requires from <= mid <= end
    ensures Between(w, from, end) == Between(w, from, mid) + Between(w, mid, end)
    decreases end
  {
    if mid == end {
      assert Between(w, from, mid) + [] == Between(w, from, mid);
    } else {
      BetweenSplits(w, from, mid, end - 1);
    }
  }

  lemma {:induction false} CalmIsStill(w: Weather, from: nat, end: nat)
    requires forall k | from <= k < end :: w.before(k) == []
    ensures Between(w, from, end) == []
    decreases end
  {
    if from < end {
      CalmIsStill(w, from, end - 1);
    }
  }

  lemma PlaySplits(s: Server, w: Weather, from: nat, mid: nat, end: nat)
    requires from <= mid <= end
    ensures Play(s, Between(w, from, end)) == Play(Play(s, Between(w, from, mid)), Between(w, mid, end))
  {
    BetweenSplits(w, from, mid, end);
    PlayAppends(s, Between(w, from, mid), Between(w, mid, end));
  }

  /** Why the first failing one of reads from..end failed. */
  function FirstFailure(failing: nat -> Option<Refusal>, from: nat, end: nat): Option<Refusal>
    decreases end
  {
    if from >= end then None
    else
      var earlier := FirstFailure(failing, from, end - 1);
      if earlier.Some? then earlier else failing(end - 1)
  }

  lemma {:induction false} FirstFailureSplits(failing: nat -> Option<Refusal>, from: nat, mid: nat, end: nat)
    requires from <= mid <= end
    ensures FirstFailure(failing, from, end) ==
            if FirstFailure(failing, from, mid).Some? then FirstFailure(failing, from, mid)
                else FirstFailure(failing, mid, end)
    decreases end
  {
    if mid < end {
      FirstFailureSplits(failing, from, mid, end - 1);
    }
  }

  // ----- one page -----------------------------------------------------------------------------

  /** What read number k answers to a page request, the list being all. */
  function PageOf<T>(w: Weather, k: nat, all: seq<T>, request: Pages.PageRequest): Result<Pages.Page<T>, Refusal> {
    var rest := Pages.Tail(all, request.offset);
    if w.failing(k).Some? then Err(w.failing(k).value)
    else Ok(Pages.Page(rest[..Min(w.pageSize(k), |rest|)], |all|, request.offset, w.pageSize(k)))
  }

  /** A page request as the reads from number from on answer it. */
  function Fetching<T>(s: Server, w: Weather, from: nat, order: Server -> seq<T>): Pages.Fetch<T, Refusal> {
    (k: nat, request: Pages.PageRequest) => PageOf(w, from + k, order(MetByRead(s, w, from, from + k)), request)
  }

  lemma FetchIsAPage<T>(s: Server, w: Weather, from: nat, order: Server -> seq<T>, k: nat, request: Pages.PageRequest)
    ensures Fetching(s, w, from, order)(k, request) ==
            PageOf(w, from + k, order(MetByRead(s, w, from, from + k)), request)
  {
  }

  /** From the n-th read on nobody writes: the list has settled. */
  lemma ListSettles<T(!new)>(s: Server, w: Weather, from: nat, order: Server -> seq<T>, n: nat)
    requires Sound(w) && forall k | k >= from + n :: w.before(k) == []
    ensures Pages.Settles(Fetching(s, w, from, order), order(Play(s, Between(w, from, from + n))), n)
  {
    var all := order(Play(s, Between(w, from, from + n)));
    forall k: nat, request: Pages.PageRequest | k >= n
      ensures Fetching(s, w, from, order)(k, request) == PageOf(w, from + k, all, request)
    {
      BetweenSplits(w, from, from + n, from + k + 1);
      CalmIsStill(w, from + n, from + k + 1);
      assert Between(w, from, from + n) + [] == Between(w, from, from + n);
      assert MetByRead(s, w, from, from + k) == Play(s, Between(w, from, from + n));
    }
  }

  /** While nobody writes at all, every page is a page of one list, and no Total is too small. */
  lemma CalmPages<T(!new)>(s: Server, w: Weather, from: nat, order: Server -> seq<T>)
    requires Calm(w)
    ensures Pages.NeverUndercounts(Fetching(s, w, from, order), order(s))
  {
    forall k: nat, request: Pages.PageRequest
      ensures Fetching(s, w, from, order)(k, request) == PageOf(w, from + k, order(s), request)
    {
      CalmIsStill(w, from, from + k + 1);
      assert MetByRead(s, w, from, from + k) == s;
    }
  }

  // ----- what was read, and when --------------------------------------------------------------

  /** A state a read met, and what reached the server from then to the start of the run. */
  datatype Moment = Moment(server: Server, since: seq<Write>)

  ghost predicate LeadsTo(m: Moment, start: Server) {
    WellFormed(m.server) && Play(m.server, m.since) == start
  }

  /** Each row of a snapshot with the moment it was read at: every page of a list may meet a later state. */
  datatype Reading = Reading(policy: Moment, segments: seq<Moment>, profiles: seq<Moment>)

  ghost predicate SegmentReadAt(read: Segment, m: Moment, start: Server) {
    LeadsTo(m, start) && read.id in m.server.segments && m.server.segments[read.id] == read
  }

  ghost predicate ProfileReadAt(read: ProfileRead, m: Moment, start: Server) {
    && LeadsTo(m, start) && read.segmentId in m.server.profiles
    && read == Effective(m.server.profiles[read.segmentId], m.server.policy.cap)
  }

  ghost predicate ReadAt(snap: NetworkSnapshot, at: Reading, start: Server) {
    && |at.segments| == |snap.segments| && |at.profiles| == |snap.profiles|
    && (snap.policy.Some? ==> LeadsTo(at.policy, start) && snap.policy.value == at.policy.server.policy)
    && (forall i | 0 <= i < |snap.segments| :: SegmentReadAt(snap.segments[i], at.segments[i], start))
    && (forall i | 0 <= i < |snap.profiles| :: ProfileReadAt(snap.profiles[i], at.profiles[i], start))
  }

  /** Only what the section needs was read. */
  predicate ReadsNoMore(n: NetworkSpec, snap: NetworkSnapshot) {
    && (snap.policy.Some? <==> n.policy.Some?)
    && (n.segments == [] && n.profiles == [] ==> snap.segments == [])
    && (n.profiles == [] ==> snap.profiles == [])
  }

  /** The moment of read number k, of reads from..end. */
  function MomentOf(s: Server, w: Weather, from: nat, k: nat, end: nat): Moment {
    Moment(MetByRead(s, w, from, k), Between(w, k + 1, end))
  }

  lemma MomentLeads(s: Server, w: Weather, from: nat, k: nat, end: nat)
    requires WellFormed(s) && from <= k < end
    ensures LeadsTo(MomentOf(s, w, from, k, end), Play(s, Between(w, from, end)))
  {
    PlayKeepsWellFormed(s, Between(w, from, k + 1));
    PlaySplits(s, w, from, k + 1, end);
  }

  /** The server listed the item as read number k met it. */
  predicate ListedAt<T(==)>(x: T, s: Server, w: Weather, from: nat, order: Server -> seq<T>, k: nat) {
    x in order(MetByRead(s, w, from, k))
  }

  lemma FetchedWasListed<T>(s: Server, w: Weather, from: nat, order: Server -> seq<T>, k: nat,
                            request: Pages.PageRequest, x: T)
    requires Fetching(s, w, from, order)(k, request).Ok? && x in Fetching(s, w, from, order)(k, request).value.items
    ensures ListedAt(x, s, w, from, order, from + k)
  {
    FetchIsAPage(s, w, from, order, k, request);
    var all := order(MetByRead(s, w, from, from + k));
    assert x in Pages.Tail(all, request.offset);
  }

  /** Every item was listed by the server as one of the reads first..last met it. */
  ghost predicate ListedBy<T(!new)>(items: seq<T>, s: Server, w: Weather, from: nat, order: Server -> seq<T>,
                                    first: nat, last: nat) {
    forall i | 0 <= i < |items| :: ListedDuring(items[i], s, w, from, order, first, last)
  }

  ghost predicate ListedDuring<T(!new)>(x: T, s: Server, w: Weather, from: nat, order: Server -> seq<T>, first: nat,
                                        last: nat) {
    exists k: nat :: first <= k < last && ListedAt(x, s, w, from, order, k)
  }

  lemma SegmentMoment(row: Segment, s: Server, w: Weather, from: nat, first: nat, last: nat, end: nat)
    returns (m: Moment)
    requires Sound(w) && WellFormed(s) && from <= first <= last <= end
    requires ListedDuring(row, s, w, from, w.segmentOrder, first, last)
    ensures SegmentReadAt(row, m, Play(s, Between(w, from, end)))
  {
    var k: nat :| first <= k < last && ListedAt(row, s, w, from, w.segmentOrder, k);
    MomentLeads(s, w, from, k, end);
    m := MomentOf(s, w, from, k, end);
    assert ListsSegments(w.segmentOrder(m.server), m.server);
  }

  lemma ProfileMoment(read: ProfileRead, s: Server, w: Weather, from: nat, first: nat, last: nat, end: nat)
    returns (m: Moment)
    requires Sound(w) && WellFormed(s) && from <= first <= last <= end
    requires ListedDuring(read, s, w, from, w.profileOrder, first, last)
    ensures ProfileReadAt(read, m, Play(s, Between(w, from, end)))
  {
    var k: nat :| first <= k < last && ListedAt(read, s, w, from, w.profileOrder, k);
    MomentLeads(s, w, from, k, end);
    m := MomentOf(s, w, from, k, end);
    assert ListsProfiles(w.profileOrder(m.server), m.server);
  }

  lemma {:induction false} SegmentMoments(rows: seq<Segment>, s: Server, w: Weather, from: nat, first: nat, last: nat,
                                          end: nat)
    returns (at: seq<Moment>)
    requires Sound(w) && WellFormed(s) && from <= first <= last <= end
    requires ListedBy(rows, s, w, from, w.segmentOrder, first, last)
    ensures |at| == |rows| && forall i | 0 <= i < |rows| ::
            SegmentReadAt(rows[i], at[i], Play(s, Between(w, from, end)))
  {
    at := [];
    if rows != [] {
      var init, row := rows[..|rows| - 1], rows[|rows| - 1];
      var rest := SegmentMoments(init, s, w, from, first, last, end);
      var m := SegmentMoment(row, s, w, from, first, last, end);
      at := rest + [m];
    }
  }

  lemma {:induction false} ProfileMoments(listed: seq<ProfileRead>, s: Server, w: Weather, from: nat, first: nat,
                                          last: nat, end: nat)
    returns (at: seq<Moment>)
    requires Sound(w) && WellFormed(s) && from <= first <= last <= end
    requires ListedBy(listed, s, w, from, w.profileOrder, first, last)
    ensures |at| == |listed| && forall i | 0 <= i < |listed| ::
            ProfileReadAt(listed[i], at[i], Play(s, Between(w, from, end)))
  {
    at := [];
    if listed != [] {
      var init, read := listed[..|listed| - 1], listed[|listed| - 1];
      var rest := ProfileMoments(init, s, w, from, first, last, end);
      var m := ProfileMoment(read, s, w, from, first, last, end);
      at := rest + [m];
    }
  }

  /** What was listed after other reads was listed by the server they started from. */
  lemma ListedFromTheStart<T(!new)>(items: seq<T>, s: Server, w: Weather, from: nat, order: Server -> seq<T>,
                                    first: nat, last: nat)
    requires from <= first && ListedBy(items, Play(s, Between(w, from, first)), w, first, order, first, last)
    ensures ListedBy(items, s, w, from, order, first, last)
  {
    var later := Play(s, Between(w, from, first));
    forall i | 0 <= i < |items| ensures ListedDuring(items[i], s, w, from, order, first, last) {
      assert ListedDuring(items[i], later, w, first, order, first, last);
      var k: nat :| first <= k < last && ListedAt(items[i], later, w, first, order, k);
      PlaySplits(s, w, from, first, k + 1);
      assert ListedAt(items[i], s, w, from, order, k);
    }
  }

  /** The policy read first, if it was, then the segments, then the profiles: a reading of the whole. */
  lemma ReadingOf(snap: NetworkSnapshot, s: Server, w: Weather, from: nat, first: nat, second: nat, end: nat)
    returns (at: Reading)
    requires Sound(w) && WellFormed(s) && from <= first <= second <= end
    requires snap.policy.Some? ==> from < first && snap.policy.value == MetByRead(s, w, from, from).policy
    requires ListedBy(snap.segments, s, w, from, w.segmentOrder, first, second)
    requires ListedBy(snap.profiles, s, w, from, w.profileOrder, second, end)
    ensures ReadAt(snap, at, Play(s, Between(w, from, end)))
  {
    var segments := SegmentMoments(snap.segments, s, w, from, first, second, end);
    var profiles := ProfileMoments(snap.profiles, s, w, from, second, end, end);
    at := Reading(MomentOf(s, w, from, from, end), segments, profiles);
    if snap.policy.Some? {
      MomentLeads(s, w, from, from, end);
    }
  }
}
