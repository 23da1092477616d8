/** topologicalOrder (management_manifest.go): parents before children, or the cycle that forbids it. */
module TopologicalOrder {
  import opened Wrappers
  import opened Keys
  import opened ManifestTypes

  /** The parent each declared key names; a key declared twice has its last parent. */
  function Parents(resources: seq<ResourceSpec>): (parents: map<string, string>)
    ensures forall k :: k in parents <==> k in ResourceKeys(resources)
  {
    if resources == [] then map[]
    else
      var init, last := resources[..|resources| - 1], resources[|resources| - 1];
      assert ResourceKeys(resources) == ResourceKeys(init) + [last.key];
      Parents(init)[last.key := last.parent]
  }

  /** One step up; "" is above every root and above itself. */
  function Up(parents: map<string, string>, key: string): string {
    if key != "" && key in parents then parents[key] else ""
  }

  function Climb(parents: map<string, string>, key: string, n: nat): string
    decreases n
  {
    if n == 0 then key else Climb(parents, Up(parents, key), n - 1)
  }

  ghost predicate OnCycle(parents: map<string, string>, key: string) {
    key != "" && exists n: nat :: n > 0 && Climb(parents, key, n) == key
  }

  ghost predicate Acyclic(parents: map<string, string>) {
    forall key :: !OnCycle(parents, key)
  }

  lemma {:induction false} ClimbOn(parents: map<string, string>, key: string, m: nat, n: nat)
    ensures Climb(parents, key, m + n) == Climb(parents, Climb(parents, key, m), n)
    decreases m
  {
    if m > 0 {
      ClimbOn(parents, Up(parents, key), m - 1, n);
    }
  }

  lemma {:induction false} ClimbFromTop(parents: map<string, string>, n: nat)
    ensures Climb(parents, "", n) == ""
  {
    if n > 0 {
      ClimbFromTop(parents, n - 1);
    }
  }

  lemma {:induction false} CycleGoesRound(parents: map<string, string>, key: string, n: nat, turns: nat)
    requires Climb(parents, key, n) == key
    ensures Climb(parents, key, n * turns) == key
  {
    if turns > 0 {
      CycleGoesRound(parents, key, n, turns - 1);
      assert n * turns == n * (turns - 1) + n;
      ClimbOn(parents, key, n * (turns - 1), n);
    }
  }

  /** A key from which the top is reached is on no cycle. */
  lemma RootedIsNotOnCycle(parents: map<string, string>, key: string, m: nat)
    requires Climb(parents, key, m) == ""
    ensures !OnCycle(parents, key)
  {
    if OnCycle(parents, key) {
      var n: nat :| n > 0 && Climb(parents, key, n) == key;
      CycleGoesRound(parents, key, n, m);
      assert n * m >= m;
      ClimbOn(parents, key, m, n * m - m);
      ClimbFromTop(parents, n * m - m);
    }
  }

  /** No key twice, none of them "", and each with its parent, if any, before it. */
  ghost predicate ParentsFirst(parents: map<string, string>, order: seq<string>) {
    && Distinct(order)
    && forall i | 0 <= i < |order| ::
       order[i] != "" && (Up(parents, order[i]) == "" || Up(parents, order[i]) in order[..i])
  }

  lemma {:induction false} ParentsFirstIsRooted(parents: map<string, string>, order: seq<string>, i: nat)
    requires ParentsFirst(parents, order) && i < |order|
    ensures !OnCycle(parents, order[i])
    ensures exists m: nat :: Climb(parents, order[i], m) == ""
  {
    if Up(parents, order[i]) == "" {
      assert Climb(parents, order[i], 1) == Climb(parents, "", 0) == "";
      RootedIsNotOnCycle(parents, order[i], 1);
    } else {
      var j :| 0 <= j < i && order[..i][j] == Up(parents, order[i]);
      ParentsFirstIsRooted(parents, order, j);
      var m: nat :| Climb(parents, order[j], m) == "";
      assert Climb(parents, order[i], m + 1) == "";
      RootedIsNotOnCycle(parents, order[i], m + 1);
    }
  }

  /** An order of every key, parents first, exists only for an acyclic hierarchy. */
  lemma OrderedMeansAcyclic(parents: map<string, string>, order: seq<string>)
    requires ParentsFirst(parents, order) && forall k | k in parents && k != "" :: k in order
    ensures Acyclic(parents)
  {
    forall key ensures !OnCycle(parents, key) {
      if key in parents && key != "" {
        var i :| 0 <= i < |order| && order[i] == key;
        ParentsFirstIsRooted(parents, order, i);
      } else {
        assert Climb(parents, key, 1) == Climb(parents, "", 0) == "";
        RootedIsNotOnCycle(parents, key, 1);
      }
    }
  }

  // ----- the same, of the resources themselves ------------------------------------------------

  /** The resource here is the last one declared with its key: the one whose parent counts. */
  predicate LastOfItsKey(resources: seq<ResourceSpec>, i: nat) {
    i < |resources| && forall j | i < j < |resources| :: resources[j].key != resources[i].key
  }

  /** Declared resources, each beneath the next and the last beneath the first. */
  predicate Ring(resources: seq<ResourceSpec>, ring: seq<nat>) {
    && ring != []
    && (forall i | 0 <= i < |ring| :: LastOfItsKey(resources, ring[i]) && resources[ring[i]].key != "")
    && (forall i | 0 <= i < |ring| - 1 :: resources[ring[i]].parent == resources[ring[i + 1]].key)
    && resources[ring[|ring| - 1]].parent == resources[ring[0]].key
  }

  ghost predicate RingThrough(resources: seq<ResourceSpec>, key: string) {
    exists ring :: Ring(resources, ring) && resources[ring[0]].key == key
  }

  lemma {:induction false} ParentOfLast(resources: seq<ResourceSpec>, i: nat)
    requires LastOfItsKey(resources, i)
    ensures resources[i].key in Parents(resources) && Parents(resources)[resources[i].key] == resources[i].parent
  {
    var init := resources[..|resources| - 1];
    if i < |init| {
      assert init[i] == resources[i] && resources[|init|].key != resources[i].key;
      ParentOfLast(init, i);
    }
  }

  lemma {:induction false} LastWithKey(resources: seq<ResourceSpec>, key: string) returns (i: nat)
    requires key in Parents(resources)
    ensures LastOfItsKey(resources, i) && resources[i].key == key
  {
    var init := resources[..|resources| - 1];
    i := |init|;
    if resources[i].key != key {
      i := LastWithKey(init, key);
      forall j | i < j < |resources| ensures resources[j].key != resources[i].key {
        assert j < |init| ==> init[j] == resources[j];
      }
    }
  }

  lemma ClimbOne(parents: map<string, string>, key: string, n: nat)
    ensures Climb(parents, key, n + 1) == Up(parents, Climb(parents, key, n))
  {
    ClimbOn(parents, key, n, 1);
    assert Climb(parents, Climb(parents, key, n), 1) == Climb(parents, Up(parents, Climb(parents, key, n)), 0);
  }

  lemma {:induction false} RingClimbs(resources: seq<ResourceSpec>, ring: seq<nat>, i: nat)
    requires Ring(resources, ring) && i < |ring|
    ensures Climb(Parents(resources), resources[ring[0]].key, i) == resources[ring[i]].key
  {
    if i > 0 {
      RingClimbs(resources, ring, i - 1);
      ParentOfLast(resources, ring[i - 1]);
      ClimbOne(Parents(resources), resources[ring[0]].key, i - 1);
    }
  }

  /** This resource is step j of the climb from a key. */
  predicate IsStep(resources: seq<ResourceSpec>, key: string, j: nat, here: nat) {
    && LastOfItsKey(resources, here) && resources[here].key != ""
    && resources[here].key == Climb(Parents(resources), key, j)
    && resources[here].parent == Climb(Parents(resources), key, j + 1)
  }

  lemma StepOfClimb(resources: seq<ResourceSpec>, key: string, n: nat, j: nat) returns (here: nat)
    requires j < n && Climb(Parents(resources), key, n) != ""
    ensures IsStep(resources, key, j, here)
  {
    var parents := Parents(resources);
    var at := Climb(parents, key, j);
    ClimbOne(parents, key, j);
    ClimbOn(parents, key, j + 1, n - j - 1);
    if Up(parents, at) == "" {
      ClimbFromTop(parents, n - j - 1);
    }
    here := LastWithKey(resources, at);
    ParentOfLast(resources, here);
  }

  /** The first i resources of a climb that is on its way to something. */
  lemma {:induction false} ClimbIsOfResources(resources: seq<ResourceSpec>, key: string, n: nat, i: nat)
    returns (chain: seq<nat>)
    requires i <= n && Climb(Parents(resources), key, n) != ""
    ensures |chain| == i && forall j | 0 <= j < i :: IsStep(resources, key, j, chain[j])
  {
    chain := [];
    if i > 0 {
      var rest := ClimbIsOfResources(resources, key, n, i - 1);
      var last := StepOfClimb(resources, key, n, i - 1);
      chain := rest + [last];
    }
  }

  /** A key is on a cycle exactly when declared resources form a ring through it. */
  lemma CycleIsARing(resources: seq<ResourceSpec>, key: string)
    ensures OnCycle(Parents(resources), key) <==> RingThrough(resources, key)
  {
    var parents := Parents(resources);
    if OnCycle(parents, key) {
      var n: nat :| n > 0 && Climb(parents, key, n) == key;
      var ring := ClimbIsOfResources(resources, key, n, n);
      assert IsStep(resources, key, 0, ring[0]) && IsStep(resources, key, n - 1, ring[n - 1]);
      forall i | 0 <= i < n - 1 ensures resources[ring[i]].parent == resources[ring[i + 1]].key {
        assert IsStep(resources, key, i, ring[i]) && IsStep(resources, key, i + 1, ring[i + 1]);
      }
      assert Ring(resources, ring);
    } else if RingThrough(resources, key) {
      var ring :| Ring(resources, ring) && resources[ring[0]].key == key;
      var last := |ring| - 1;
      RingClimbs(resources, ring, last);
      ParentOfLast(resources, ring[last]);
      ClimbOne(parents, key, last);
    }
  }

  lemma CyclesAreRings(resources: seq<ResourceSpec>)
    ensures !Acyclic(Parents(resources)) <==> exists key :: RingThrough(resources, key)
  {
    forall key ensures OnCycle(Parents(resources), key) <==> RingThrough(resources, key) {
      CycleIsARing(resources, key);
    }
  }

  /** a stands before b. */
  predicate Before(order: seq<string>, a: string, b: string) {
    exists i, j | 0 <= i < j < |order| :: order[i] == a && order[j] == b
  }

  /** The resource stands in the order, after its own parent if it has one. */
  predicate Placed(resources: seq<ResourceSpec>, order: seq<string>, i: nat)
    requires i < |resources|
  {
    var r := resources[i];
    r.key in order && (LastOfItsKey(resources, i) && r.parent != "" ==> Before(order, r.parent, r.key))
  }

  predicate ResourcesInOrder(resources: seq<ResourceSpec>, order: seq<string>) {
    forall i | 0 <= i < |resources| && resources[i].key != "" :: Placed(resources, order, i)
  }

  lemma ParentsFirstOfResources(resources: seq<ResourceSpec>, order: seq<string>)
    requires ParentsFirst(Parents(resources), order) && forall k | k in ResourceKeys(resources) && k != "" :: k in order
    ensures ResourcesInOrder(resources, order)
  {
    forall i | 0 <= i < |resources| && resources[i].key != "" ensures Placed(resources, order, i) {
      assert ResourceKeys(resources)[i] == resources[i].key;
      ResourceIsPlaced(resources, order, i);
    }
  }

  lemma ResourceIsPlaced(resources: seq<ResourceSpec>, order: seq<string>, i: nat)
    requires ParentsFirst(Parents(resources), order) && i < |resources|
    requires resources[i].key != "" && resources[i].key in order
    ensures Placed(resources, order, i)
  {
    var key, parent := resources[i].key, resources[i].parent;
    if LastOfItsKey(resources, i) && parent != "" {
      var q :| 0 <= q < |order| && order[q] == key;
      ParentOfLast(resources, i);
      assert Up(Parents(resources), order[q]) == parent;
      var p :| 0 <= p < q && order[..q][p] == parent;
    }
  }

  /** Distinct keys, none "", and each resource listed after its parent. */
  predicate ListedInOrder(resources: seq<ResourceSpec>) {
    && (forall i, j | 0 <= i < j < |resources| :: resources[i].key != resources[j].key)
    && (forall i | 0 <= i < |resources| :: resources[i].key != "")
    && (forall i | 0 <= i < |resources| ::
          resources[i].parent == "" || exists j | 0 <= j < i :: resources[j].key == resources[i].parent)
  }

  lemma ListedIsParentsFirst(resources: seq<ResourceSpec>)
    requires ListedInOrder(resources)
    ensures ParentsFirst(Parents(resources), ResourceKeys(resources))
  {
    var keys := ResourceKeys(resources);
    forall i | 0 <= i < |keys|
      ensures Up(Parents(resources), keys[i]) == "" || Up(Parents(resources), keys[i]) in keys[..i]
    {
      ParentOfLast(resources, i);
      if resources[i].parent != "" {
        var j :| 0 <= j < i && resources[j].key == resources[i].parent;
        assert keys[..i][j] == resources[i].parent;
      }
    }
  }

  /** What ordering is, said of the resources alone: an error exactly when some of them form a ring, and then of a
      key on one; otherwise all of them, each after its parent; and resources listed so keep their own order. */
  ghost predicate OrdersResources(resources: seq<ResourceSpec>, r: Result<seq<string>, string>) {
    && (r.Err? <==> exists key :: RingThrough(resources, key))
    && (r.Err? ==> RingThrough(resources, r.error))
    && (r.Ok? ==> ResourcesInOrder(resources, r.value))
    && (ListedInOrder(resources) ==>
          && r.Ok? && |r.value| == |resources|
          && forall i | 0 <= i < |resources| :: r.value[i] == resources[i].key)
  }

  lemma CycleIsReported(resources: seq<ResourceSpec>, key: string)
    requires OnCycle(Parents(resources), key)
    ensures OrdersResources(resources, Err(key))
  {
    CycleIsARing(resources, key);
    if ListedInOrder(resources) {
      ListedMeansAcyclic(resources);
    }
  }

  lemma ListedMeansAcyclic(resources: seq<ResourceSpec>)
    requires ListedInOrder(resources)
    ensures Acyclic(Parents(resources))
  {
    ListedIsParentsFirst(resources);
    OrderedMeansAcyclic(Parents(resources), ResourceKeys(resources));
  }

  lemma OrderIsOfResources(resources: seq<ResourceSpec>, order: seq<string>)
    requires ParentsFirst(Parents(resources), order) && forall k | k in ResourceKeys(resources) && k != "" :: k in order
    requires Acyclic(Parents(resources))
    requires ParentsFirst(Parents(resources), ResourceKeys(resources)) ==> order == ResourceKeys(resources)
    ensures OrdersResources(resources, Ok(order))
  {
    CyclesAreRings(resources);
    ParentsFirstOfResources(resources, order);
    if ListedInOrder(resources) {
      ListedIsParentsFirst(resources);
    }
  }

  // ----- the chain a resource climbs ----------------------------------------------------------

  /** key, its parent, its parent's parent and so on: distinct, unplaced keys. */
  ghost predicate Chain(parents: map<string, string>, placed: set<string>, start: string, chain: seq<string>,
                        cursor: string) {
    && Distinct(chain)
    && (forall i | 0 <= i < |chain| :: chain[i] != "" && chain[i] !in placed)
    && (forall i | 0 <= i < |chain| - 1 :: Up(parents, chain[i]) == chain[i + 1])
    && (if chain == [] then cursor == start else chain[0] == start && cursor == Up(parents, chain[|chain| - 1]))
  }

  lemma {:induction false} ChainClimbs(parents: map<string, string>, placed: set<string>, start: string,
                                       chain: seq<string>,
                                       cursor: string, i: nat)
    requires Chain(parents, placed, start, chain, cursor) && i < |chain|
    ensures Climb(parents, chain[i], |chain| - i) == cursor
    decreases |chain| - i
  {
    if i == |chain| - 1 {
      assert Climb(parents, chain[i], 1) == Climb(parents, Up(parents, chain[i]), 0);
    } else {
      ChainClimbs(parents, placed, start, chain, cursor, i + 1);
    }
  }

  /** Walks up from start to a root, to something already placed, or round a cycle. */
  method WalkUp(parents: map<string, string>, placed: map<string, bool>, start: string)
    returns (chain: seq<string>, cycle: Option<string>)
    ensures cycle.Some? ==> OnCycle(parents, cycle.value)
    ensures cycle.None? ==>
              exists cursor :: Chain(parents, placed.Keys, start, chain, cursor) && (cursor == "" || cursor in placed)
  {
    chain, cycle := [], None;
    var guard: map<string, bool> := map[];
    var cursor := start;
    while cursor != "" && cursor !in placed
      invariant Chain(parents, placed.Keys, start, chain, cursor)
      invariant forall k :: k in guard <==> k in chain
      decreases parents.Keys - guard.Keys, if cursor == "" then 0 else 1
    {
      if cursor in guard {
        var i :| 0 <= i < |chain| && chain[i] == cursor;
        ChainClimbs(parents, placed.Keys, start, chain, cursor, i);
        return chain, Some(cursor);
      }
      assert cursor in parents ==> parents.Keys - guard.Keys > parents.Keys - guard.Keys - {cursor};
      assert parents.Keys - (guard.Keys + {cursor}) == parents.Keys - guard.Keys - {cursor};
      guard := guard[cursor := true];
      chain := chain + [cursor];
      cursor := if cursor in parents then parents[cursor] else "";
    }
  }

  lemma PlacedNext(parents: map<string, string>, order: seq<string>, key: string)
    requires ParentsFirst(parents, order) && key !in order && key != ""
    requires Up(parents, key) == "" || Up(parents, key) in order
    ensures ParentsFirst(parents, order + [key])
  {
    var longer := order + [key];
    forall i | 0 <= i < |longer|
      ensures longer[i] != "" && (Up(parents, longer[i]) == "" || Up(parents, longer[i]) in longer[..i])
    {
      assert longer[..i] == order[..i];
    }
  }

  /** Adds a chain to the order, its top end first. */
  method PlaceChain(parents: map<string, string>, ghost start: string, chain: seq<string>, ghost cursor: string,
                    order: seq<string>, placed: map<string, bool>)
                        returns (order': seq<string>, placed': map<string, bool>)
    requires ParentsFirst(parents, order) && (forall k :: k in placed <==> k in order)
    requires Chain(parents, placed.Keys, start, chain, cursor) && (cursor == "" || cursor in placed)
    ensures ParentsFirst(parents, order') && (forall k :: k in placed' <==> k in order')
    ensures order <= order' && (forall k :: k in order' <==> k in order || k in chain)
    ensures |chain| == 1 ==> order' == order + chain
  {
    order', placed' := order, placed;
    for i := |chain| downto 0
      invariant ParentsFirst(parents, order') && (forall k :: k in placed' <==> k in order')
      invariant order <= order'
      invariant forall k :: k in order' <==> k in order || k in chain[i..]
      invariant |chain| == 1 ==> order' == order + chain[i..]
    {
      assert chain[i..] == [chain[i]] + chain[i + 1..];
      if chain[i] !in placed' {
        assert i + 1 < |chain| ==> chain[i + 1] in chain[i + 1..];
        PlacedNext(parents, order', chain[i]);
        placed' := placed'[chain[i] := true];
        order' := order' + [chain[i]];
      }
    }
  }

  /** One round of the main loop: a resource and whatever of its ancestors is not placed yet. */
  method PlaceResource(ghost resources: seq<ResourceSpec>, parents: map<string, string>, start: string,
                       order: seq<string>, placed: map<string, bool>)
    returns (order': seq<string>, placed': map<string, bool>, cycle: Option<string>)
    requires parents == Parents(resources) && start in ResourceKeys(resources)
    requires ParentsFirst(parents, order) && (forall k :: k in placed <==> k in order)
    ensures cycle.Some? ==> OnCycle(parents, cycle.value)
    ensures cycle.None? ==> ParentsFirst(parents, order') && (forall k :: k in placed' <==> k in order')
    ensures cycle.None? ==> order <= order' && (start != "" ==> start in order')
    ensures cycle.None? ==>
            forall k | k in order' :: k in order || k in ResourceKeys(resources) || NamedAsParent(resources, k)
    ensures cycle.None? && NextInPlace(parents, order, start) ==> order' == order + [start]
  {
    order', placed' := order, placed;
    var chain;
    chain, cycle := WalkUp(parents, placed, start);
    if cycle.Some? {
      return;
    }
    ghost var cursor :| Chain(parents, placed.Keys, start, chain, cursor) && (cursor == "" || cursor in placed);
    assert |chain| > 1 ==> chain[1] == Up(parents, chain[0]);
    assert NextInPlace(parents, order, start) ==> chain == [start];
    ChainIsNamed(resources, placed.Keys, start, chain, cursor);
    order', placed' := PlaceChain(parents, start, chain, cursor, order, placed);
    assert chain != [] ==> start == chain[0] && chain[0] in chain;
  }

  /** A key that can be placed next as it stands. */
  predicate NextInPlace(parents: map<string, string>, order: seq<string>, key: string) {
    key != "" && key !in order && (Up(parents, key) == "" || Up(parents, key) in order)
  }

  method MapParents(resources: seq<ResourceSpec>) returns (parents: map<string, string>)
    ensures parents == Parents(resources)
  {
    parents := map[];
    for i := 0 to |resources|
      invariant parents == Parents(resources[..i])
    {
      assert resources[..i + 1][..i] == resources[..i];
      parents := parents[resources[i].key := resources[i].parent];
    }
    assert resources[..|resources|] == resources;
  }

  /** topologicalOrder: an order exactly when the hierarchy has no cycle. Every declared key is in it, each
      key once, its parent before it; and a manifest already listed that way keeps its own order. */
  method Order(resources: seq<ResourceSpec>) returns (r: Result<seq<string>, string>)
    ensures r.Ok? <==> Acyclic(Parents(resources))
    ensures r.Err? ==> OnCycle(Parents(resources), r.error)
    ensures r.Ok? ==> ParentsFirst(Parents(resources), r.value)
    ensures r.Ok? ==> forall k | k in ResourceKeys(resources) && k != "" :: k in r.value
    ensures r.Ok? ==> forall k | k in r.value :: k in ResourceKeys(resources) || NamedAsParent(resources, k)
    ensures ParentsFirst(Parents(resources), ResourceKeys(resources)) ==> r == Ok(ResourceKeys(resources))
    ensures OrdersResources(resources, r)
  {
    var parents := MapParents(resources);
    ghost var keys := ResourceKeys(resources);
    ghost var listed := ParentsFirst(parents, keys);
    if listed {
      OrderedMeansAcyclic(parents, keys);
    }
    var order: seq<string> := [];
    var placed: map<string, bool> := map[];
    for i := 0 to |resources|
      invariant ParentsFirst(parents, order) && (forall k :: k in placed <==> k in order)
      invariant forall k | k in keys[..i] && k != "" :: k in order
      invariant forall k | k in order :: k in keys || NamedAsParent(resources, k)
      invariant listed ==> order == keys[..i]
    {
      var start := resources[i].key;
      assert keys[i] == start && keys[..i + 1] == keys[..i] + [start];
      assert listed ==> NextInPlace(parents, keys[..i], start);
      var next, placed', cycle := PlaceResource(resources, parents, start, order, placed);
      if cycle.Some? {
        CycleIsReported(resources, cycle.value);
        return Err(cycle.value);
      }
      order, placed := next, placed';
    }
    assert keys[..|keys|] == keys;
    assert listed ==> order == keys;
    OrderedMeansAcyclic(parents, order);
    r := Ok(order);
    OrderIsOfResources(resources, order);
  }

  predicate NamedAsParent(resources: seq<ResourceSpec>, key: string) {
    exists r | r in resources :: r.parent == key
  }

  lemma {:induction false} ParentIsNamed(resources: seq<ResourceSpec>, key: string)
    requires key in Parents(resources)
    ensures NamedAsParent(resources, Parents(resources)[key])
  {
    var init, last := resources[..|resources| - 1], resources[|resources| - 1];
    if key == last.key {
      assert last in resources;
    } else {
      ParentIsNamed(init, key);
      var r :| r in init && r.parent == Parents(init)[key];
      assert r in resources;
    }
  }

  /** Everything on a chain is declared or named as somebody's parent. */
  lemma ChainIsNamed(resources: seq<ResourceSpec>, placed: set<string>, start: string, chain: seq<string>,
                     cursor: string)
    requires Chain(Parents(resources), placed, start, chain, cursor) && start in ResourceKeys(resources)
    ensures forall k | k in chain :: k in ResourceKeys(resources) || NamedAsParent(resources, k)
  {
    forall i | 0 <= i < |chain| ensures chain[i] in ResourceKeys(resources) || NamedAsParent(resources, chain[i]) {
      if i > 0 {
        assert Up(Parents(resources), chain[i - 1]) == chain[i];
        ParentIsNamed(resources, chain[i - 1]);
      }
    }
  }

  /** With distinct non-empty keys and declared parents, the order is a permutation of the keys. */
  lemma OrderIsPermutation(resources: seq<ResourceSpec>, order: seq<string>)
    requires Distinct(ResourceKeys(resources)) && "" !in ResourceKeys(resources)
    requires forall r | r in resources :: r.parent == "" || r.parent in ResourceKeys(resources)
    requires Distinct(order) && "" !in order && (forall k | k in ResourceKeys(resources) && k != "" :: k in order)
    requires forall k | k in order :: k in ResourceKeys(resources) || NamedAsParent(resources, k)
    ensures multiset(order) == multiset(ResourceKeys(resources))
  {
    var keys := ResourceKeys(resources);
    DistinctCounts(order);
    DistinctCounts(keys);
    forall k ensures multiset(order)[k] == multiset(keys)[k] {
      assert k in order <==> k in keys;
    }
  }

  lemma {:induction false} DistinctCounts(keys: seq<string>)
    requires Distinct(keys)
    ensures forall k :: multiset(keys)[k] == if k in keys then 1 else 0
  {
    if keys != [] {
      var init, last := keys[..|keys| - 1], keys[|keys| - 1];
      DistinctSplits(keys);
      DistinctCounts(init);
      assert keys == init + [last];
    }
  }

  lemma {:induction false} ParentOfDeclared(resources: seq<ResourceSpec>, r: ResourceSpec)
    requires Distinct(ResourceKeys(resources)) && r in resources
    ensures r.key in Parents(resources) && Parents(resources)[r.key] == r.parent
  {
    var init, last := resources[..|resources| - 1], resources[|resources| - 1];
    DistinctSplits(ResourceKeys(resources));
    assert ResourceKeys(resources)[..|resources| - 1] == ResourceKeys(init);
    if r in init {
      var i :| 0 <= i < |init| && init[i] == r;
      assert ResourceKeys(init)[i] == r.key;
      ParentOfDeclared(init, r);
    }
  }

  /** Resources listed in the order found for them are already parents first, so ordering them again
      changes nothing. */
  lemma ReorderedStaysInOrder(resources: seq<ResourceSpec>, reordered: seq<ResourceSpec>)
    requires Distinct(ResourceKeys(resources)) && multiset(reordered) == multiset(resources)
    requires ParentsFirst(Parents(resources), ResourceKeys(reordered))
    ensures ParentsFirst(Parents(reordered), ResourceKeys(reordered))
  {
    var keys := ResourceKeys(reordered);
    forall i | 0 <= i < |keys| ensures Up(Parents(reordered), keys[i]) == Up(Parents(resources), keys[i]) {
      var r := reordered[i];
      assert r in multiset(reordered);
      ParentOfDeclared(resources, r);
      ParentOfDeclared(reordered, r);
    }
  }
}
