/** The `network` section of a manifest, and validateNetwork of
    management_manifest_network.go. */
module NetworkManifest {
  import opened Wrappers
  import opened Nullables
  import opened Keys
  import opened NetworkServer

  datatype PolicySpec = PolicySpec(cap: int)

  /** filterIds None is unstated; Some([]) states an empty envelope. */
  datatype SegmentSpec = SegmentSpec(key: string, site: string, kind: string, name: string, vlanId: int,
                                     rank: Nullable<int>, filterIds: Option<seq<string>>, enabled: Option<bool>) {
    function Key(): NaturalKey {
      NaturalKey(site, kind, name)
    }
  }

  datatype ProfileSpec = ProfileSpec(segment: string, sessionTimeout: int, terminationAction: Option<string>,
                                     idleTimeout: Nullable<int>, filterId: Nullable<string>,
                                     serviceType: Nullable<string>)

  datatype NetworkSpec = NetworkSpec(policy: Option<PolicySpec>, segments: seq<SegmentSpec>,
                                     profiles: seq<ProfileSpec>) {
    predicate IsEmpty() {
      policy.None? && segments == [] && profiles == []
    }
  }

  function SpecKeys(specs: seq<SegmentSpec>): seq<string> {
    seq(|specs|, i requires 0 <= i < |specs| => specs[i].key)
  }

  function NaturalKeys(specs: seq<SegmentSpec>): seq<NaturalKey> {
    seq(|specs|, i requires 0 <= i < |specs| => specs[i].Key())
  }

  function ProfileKeys(profiles: seq<ProfileSpec>): seq<string> {
    seq(|profiles|, i requires 0 <= i < |profiles| => profiles[i].segment)
  }

  // ----- validation ---------------------------------------------------------------------------

  datatype NetworkProblem =
    | SharedNaturalKey(first: string, second: string)
    | RepeatedFilterId(segment: string, filterId: string)
    | DuplicateSegmentKey(key: string)
    | DanglingProfile(segment: string)
    | RepeatedProfile(segment: string)

  /** What a network section must be for one row of the server to stand for each of its specs. */
  predicate ValidNetwork(n: NetworkSpec) {
    && Distinct(SpecKeys(n.segments))
    && Distinct(NaturalKeys(n.segments))
    && (forall s | s in n.segments :: Distinct(s.filterIds.GetOr([])))
    && (forall key | key in ProfileKeys(n.profiles) :: key in SpecKeys(n.segments))
    && Distinct(ProfileKeys(n.profiles))
  }

  /** The key of the first spec with this natural key. */
  function FirstHolder(specs: seq<SegmentSpec>, key: NaturalKey): Option<string> {
    if specs == [] then None
    else
      var init, last := specs[..|specs| - 1], specs[|specs| - 1];
      if FirstHolder(init, key).Some? then FirstHolder(init, key)
      else if last.Key() == key then Some(last.key) else None
  }

  function FilterProblems(segment: string, repeats: seq<string>): seq<NetworkProblem> {
    seq(|repeats|, i requires 0 <= i < |repeats| => RepeatedFilterId(segment, repeats[i]))
  }

  function KeyProblems(repeats: seq<string>): seq<NetworkProblem> {
    seq(|repeats|, i requires 0 <= i < |repeats| => DuplicateSegmentKey(repeats[i]))
  }

  function SegmentProblems(specs: seq<SegmentSpec>): seq<NetworkProblem> {
    if specs == [] then []
    else
      var init, last := specs[..|specs| - 1], specs[|specs| - 1];
      var holder := FirstHolder(init, last.Key());
      SegmentProblems(init)
      + (if holder.Some? then [SharedNaturalKey(holder.value, last.key)] else [])
      + FilterProblems(last.key, Repeats(last.filterIds.GetOr([])))
  }

  function ProfileProblems(declared: seq<string>, profiles: seq<string>): seq<NetworkProblem> {
    if profiles == [] then []
    else
      var init, last := profiles[..|profiles| - 1], profiles[|profiles| - 1];
      ProfileProblems(declared, init)
      + if last !in declared then [DanglingProfile(last)]
        else if last in init then [RepeatedProfile(last)]
        else []
  }

  function NetworkProblems(n: NetworkSpec): seq<NetworkProblem> {
    SegmentProblems(n.segments) + KeyProblems(Repeats(SpecKeys(n.segments)))
    + ProfileProblems(SpecKeys(n.segments), ProfileKeys(n.profiles))
  }

  lemma {:induction false} FirstHolderExists(specs: seq<SegmentSpec>, key: NaturalKey)
    ensures FirstHolder(specs, key).Some? <==> key in NaturalKeys(specs)
  {
    if specs != [] {
      var init, last := specs[..|specs| - 1], specs[|specs| - 1];
      FirstHolderExists(init, key);
      assert NaturalKeys(specs) == NaturalKeys(init) + [last.Key()];
    }
  }

  lemma {:induction false} NoSegmentProblems(specs: seq<SegmentSpec>)
    ensures SegmentProblems(specs) == [] <==>
            Distinct(NaturalKeys(specs)) && forall s | s in specs :: Distinct(s.filterIds.GetOr([]))
  {
    if specs != [] {
      var init, last := specs[..|specs| - 1], specs[|specs| - 1];
      NoSegmentProblems(init);
      FirstHolderExists(init, last.Key());
      NoRepeatsMeansDistinct(last.filterIds.GetOr([]));
      DistinctSplits(NaturalKeys(specs));
      assert NaturalKeys(specs)[..|specs| - 1] == NaturalKeys(init);
      assert specs == init + [last];
    }
  }

  lemma {:induction false} NoProfileProblems(declared: seq<string>, profiles: seq<string>)
    ensures ProfileProblems(declared, profiles) == [] <==>
            (forall key | key in profiles :: key in declared) && Distinct(profiles)
  {
    if profiles != [] {
      var init, last := profiles[..|profiles| - 1], profiles[|profiles| - 1];
      NoProfileProblems(declared, init);
      DistinctSplits(profiles);
      assert profiles == init + [last];
    }
  }

  /** Nothing is reported exactly when the section is valid. */
  lemma NoNetworkProblems(n: NetworkSpec)
    ensures NetworkProblems(n) == [] <==> ValidNetwork(n)
  {
    NoSegmentProblems(n.segments);
    NoRepeatsMeansDistinct(SpecKeys(n.segments));
    NoProfileProblems(SpecKeys(n.segments), ProfileKeys(n.profiles));
  }

  /** validateNetwork: every problem of the section, none exactly when it is valid. */
  method ValidateNetwork(n: NetworkSpec) returns (problems: seq<NetworkProblem>)
    ensures problems == NetworkProblems(n)
    ensures problems == [] <==> ValidNetwork(n)
  {
    var segmentKeys, keyList;
    problems, segmentKeys, keyList := ValidateSegments(n.segments);
    var repeats := DuplicateKeys(keyList);
    problems := problems + KeyProblems(repeats);

    var dangling := ValidateProfiles(segmentKeys, keyList, n.profiles);
    problems := problems + dangling;
    NoNetworkProblems(n);
  }

  /** The first loop of validateNetwork: the segments' own problems, and the keys they declare. */
  method ValidateSegments(segments: seq<SegmentSpec>)
    returns (problems: seq<NetworkProblem>, segmentKeys: map<string, bool>, keyList: seq<string>)
    ensures problems == SegmentProblems(segments)
    ensures keyList == SpecKeys(segments)
    ensures forall k :: k in segmentKeys <==> k in keyList
  {
    problems, segmentKeys, keyList := [], map[], [];
    var naturalKeys: map<NaturalKey, string> := map[];
    for i := 0 to |segments|
      invariant keyList == SpecKeys(segments[..i])
      invariant forall k :: k in segmentKeys <==> k in keyList
      invariant forall nk :: nk in naturalKeys <==> FirstHolder(segments[..i], nk).Some?
      invariant forall nk | nk in naturalKeys :: FirstHolder(segments[..i], nk) == Some(naturalKeys[nk])
      invariant problems == SegmentProblems(segments[..i])
    {
      var s := segments[i];
      assert segments[..i + 1][..i] == segments[..i];
      segmentKeys := segmentKeys[s.key := true];
      keyList := keyList + [s.key];
      if s.Key() in naturalKeys {
        problems := problems + [SharedNaturalKey(naturalKeys[s.Key()], s.key)];
      } else {
        naturalKeys := naturalKeys[s.Key() := s.key];
      }
      var repeats := DuplicateKeys(s.filterIds.GetOr([]));
      problems := problems + FilterProblems(s.key, repeats);
    }
    assert segments[..|segments|] == segments;
  }

  /** The second loop of validateNetwork: profiles without a segment, and segments with two. */
  method ValidateProfiles(segmentKeys: map<string, bool>, ghost keyList: seq<string>, profiles: seq<ProfileSpec>)
    returns (problems: seq<NetworkProblem>)
    requires forall k :: k in segmentKeys <==> k in keyList
    ensures problems == ProfileProblems(keyList, ProfileKeys(profiles))
  {
    problems := [];
    ghost var names := ProfileKeys(profiles);
    var profiled: map<string, bool> := map[];
    for i := 0 to |profiles|
      invariant forall k :: k in profiled <==> k in keyList && k in names[..i]
      invariant problems == ProfileProblems(keyList, names[..i])
    {
      var p := profiles[i];
      assert names[..i + 1][..i] == names[..i] && names[..i + 1][i] == p.segment;
      if p.segment !in segmentKeys {
        problems := problems + [DanglingProfile(p.segment)];
        continue;
      }
      if p.segment in profiled {
        problems := problems + [RepeatedProfile(p.segment)];
      }
      profiled := profiled[p.segment := true];
    }
    assert names[..|profiles|] == names;
  }
}
