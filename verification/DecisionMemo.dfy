/** The client-side decision memo (decision_memo.go): a bounded, TTL-clamped map with FIFO eviction,
    judged against the log of the operations made on it. */
module DecisionMemo {
  import opened Wrappers
  import opened Joined

  // ----- keys ---------------------------------------------------------------------------------

  const MEMO_SEP := '\U{1F}'
  const MEMO_ABSENT := "\U{0}"

  datatype AccessCheck = AccessCheck(action: string, resourceId: string, scope: string, subjectId: string)

  datatype AccessResult = AccessResult(allowed: bool, reason: string, reasonCode: string)

  function Part(s: string): string {
    if s == "" then MEMO_ABSENT else s
  }

  /** The parts of a memo key: the acting tenant's text, then the four of the check. */
  function KeyParts(check: AccessCheck, actingTenant: Option<string>): seq<string> {
    [if actingTenant.Some? then actingTenant.value else MEMO_ABSENT,
     Part(check.subjectId), check.resourceId, check.action, Part(check.scope)]
  }

  function MemoKey(check: AccessCheck, actingTenant: Option<string>): string {
    Join(KeyParts(check, actingTenant), MEMO_SEP)
  }

  /** No field holds the separator, and no optional one is the absent marker itself. */
  predicate Clean(check: AccessCheck, actingTenant: Option<string>) {
    && MEMO_SEP !in check.action && MEMO_SEP !in check.resourceId && MEMO_SEP !in check.scope
    && MEMO_SEP !in check.subjectId
    && check.scope != MEMO_ABSENT && check.subjectId != MEMO_ABSENT
    && (actingTenant.Some? ==> MEMO_SEP !in actingTenant.value && actingTenant.value != MEMO_ABSENT)
  }

  /** Clean questions share a key exactly when they are the same check for the same acting tenant: an absent
      optional never collides with a present one, nor one tenant with another. */
  lemma MemoKeyIsInjective(a: AccessCheck, s: Option<string>, b: AccessCheck, t: Option<string>)
    requires Clean(a, s) && Clean(b, t)
    ensures MemoKey(a, s) == MemoKey(b, t) <==> a == b && s == t
  {
    JoinIsInjective(KeyParts(a, s), KeyParts(b, t), MEMO_SEP);
    var p, q := KeyParts(a, s), KeyParts(b, t);
    if p == q {
      assert p[0] == q[0] && p[1] == q[1] && p[2] == q[2] && p[3] == q[3] && p[4] == q[4];
    }
  }

  predicate SeparatorFree(check: AccessCheck, actingTenant: Option<string>) {
    Free(KeyParts(check, actingTenant), MEMO_SEP)
  }

  /** Without a separator in any field, questions share a key exactly when they agree up to the absent marker: each
      optional field is equal, or the marker in one and absent in the other. */
  lemma SeparatorFreeKeysAgreeUpToTheMarker(a: AccessCheck, s: Option<string>, b: AccessCheck, t: Option<string>)
    requires SeparatorFree(a, s) && SeparatorFree(b, t)
    ensures MemoKey(a, s) == MemoKey(b, t) <==>
            && a.action == b.action && a.resourceId == b.resourceId
            && Part(a.scope) == Part(b.scope) && Part(a.subjectId) == Part(b.subjectId)
            && s.GetOr(MEMO_ABSENT) == t.GetOr(MEMO_ABSENT)
  {
    JoinIsInjective(KeyParts(a, s), KeyParts(b, t), MEMO_SEP);
    var p, q := KeyParts(a, s), KeyParts(b, t);
    assert p == q <==> p[0] == q[0] && p[1] == q[1] && p[2] == q[2] && p[3] == q[3] && p[4] == q[4];
  }

  /** The marker in an optional field makes the key of the question without it, whichever field it is. */
  lemma MarkerCollides(check: AccessCheck, actingTenant: Option<string>)
    ensures check.scope == MEMO_ABSENT ==> MemoKey(check, actingTenant) == MemoKey(check.(scope := ""), actingTenant)
    ensures check.subjectId == MEMO_ABSENT ==>
            MemoKey(check, actingTenant) == MemoKey(check.(subjectId := ""), actingTenant)
    ensures actingTenant == Some(MEMO_ABSENT) ==> MemoKey(check, actingTenant) == MemoKey(check, None)
  {
    assert check.scope == MEMO_ABSENT ==> KeyParts(check, actingTenant) == KeyParts(check.(scope := ""), actingTenant);
    assert check.subjectId == MEMO_ABSENT ==>
           KeyParts(check, actingTenant) == KeyParts(check.(subjectId := ""), actingTenant);
    assert actingTenant == Some(MEMO_ABSENT) ==> KeyParts(check, actingTenant) == KeyParts(check, None);
  }

  /** A separator moves what follows it into the next field: for every pair of neighbouring fields two questions
      with one key, whatever the other fields are. */
  lemma SeparatorCollides(check: AccessCheck, actingTenant: Option<string>, x: string, y: string)
    ensures check.subjectId != "" ==>
              MemoKey(check, Some(x + [MEMO_SEP] + y)) ==
              MemoKey(check.(subjectId := y + [MEMO_SEP] + check.subjectId), Some(x))
    ensures x != "" ==>
              MemoKey(check.(subjectId := x + [MEMO_SEP] + y), actingTenant) ==
              MemoKey(check.(subjectId := x, resourceId := y + [MEMO_SEP] + check.resourceId), actingTenant)
    ensures MemoKey(check.(resourceId := x + [MEMO_SEP] + y), actingTenant) ==
            MemoKey(check.(resourceId := x, action := y + [MEMO_SEP] + check.action), actingTenant)
    ensures check.scope != "" ==>
              MemoKey(check.(action := x + [MEMO_SEP] + y), actingTenant) ==
              MemoKey(check.(action := x, scope := y + [MEMO_SEP] + check.scope), actingTenant)
  {
    var t := if actingTenant.Some? then actingTenant.value else MEMO_ABSENT;
    var u, r, a, c := Part(check.subjectId), check.resourceId, check.action, Part(check.scope);
    Shift([], x, y, u, [r, a, c]);
    Shift([t], x, y, r, [a, c]);
    Shift([t, u], x, y, a, [c]);
    Shift([t, u, r], x, y, c, []);
    assert check.subjectId != "" ==>
           KeyParts(check, Some(x + [MEMO_SEP] + y)) == [] + [x + [MEMO_SEP] + y, u] + [r, a, c];
    assert check.subjectId != "" ==>
             KeyParts(check.(subjectId := y + [MEMO_SEP] + u), Some(x)) == [] + [x, y + [MEMO_SEP] + u] + [r, a, c];
    assert KeyParts(check.(subjectId := x + [MEMO_SEP] + y), actingTenant) == [t] + [x + [MEMO_SEP] + y, r] + [a, c];
    assert x != "" ==>
             KeyParts(check.(subjectId := x, resourceId := y + [MEMO_SEP] + r), actingTenant) == [t] +
                 [x, y + [MEMO_SEP] + r] + [a, c];
    assert KeyParts(check.(resourceId := x + [MEMO_SEP] + y), actingTenant) == [t, u] + [x + [MEMO_SEP] + y, a] + [c];
    assert KeyParts(check.(resourceId := x, action := y + [MEMO_SEP] + a), actingTenant) == [t, u] +
           [x, y + [MEMO_SEP] + a] + [c];
    assert KeyParts(check.(action := x + [MEMO_SEP] + y), actingTenant) == [t, u, r] + [x + [MEMO_SEP] + y, c] + [];
    assert check.scope != "" ==>
             KeyParts(check.(action := x, scope := y + [MEMO_SEP] + c), actingTenant) == [t, u, r] +
                 [x, y + [MEMO_SEP] + c] + [];
  }

  /** So cleanness is needed: two different checks with one key, by a separator and by the marker. */
  lemma UncleanFieldsCollide()
    ensures var a := AccessCheck("b", "r\U{1F}a", "", "");
            var b := AccessCheck("a\U{1F}b", "r", "", "");
            a != b && MemoKey(a, None) == MemoKey(b, None)
    ensures var a, b := AccessCheck("a", "r", "", "\U{0}"), AccessCheck("a", "r", "", "");
            a != b && MemoKey(a, None) == MemoKey(b, None)
  {
    SeparatorCollides(AccessCheck("b", "", "", ""), None, "r", "a");
    assert "r" + [MEMO_SEP] + "a" == "r\U{1F}a" && "a" + [MEMO_SEP] + "b" == "a\U{1F}b";
    MarkerCollides(AccessCheck("a", "r", "", MEMO_ABSENT), None);
  }

  lemma Shift(before: seq<string>, x: string, y: string, z: string, after: seq<string>)
    ensures Join(before + [x + [MEMO_SEP] + y, z] + after, MEMO_SEP) ==
            Join(before + [x, y + [MEMO_SEP] + z] + after, MEMO_SEP)
  {
    var left, right := [x + [MEMO_SEP] + y, z] + after, [x, y + [MEMO_SEP] + z] + after;
    if before == [] {
      assert [] + [x + [MEMO_SEP] + y, z] + after == left && [] + [x, y + [MEMO_SEP] + z] + after == right;
      assert left[1..] == [z] + after && right[1..] == [y + [MEMO_SEP] + z] + after;
      JoinExtendsFirst(y + [MEMO_SEP], z, after);
      assert x + [MEMO_SEP] + (y + [MEMO_SEP] + Join([z] + after, MEMO_SEP)) ==
             x + [MEMO_SEP] + y + [MEMO_SEP] + Join([z] + after, MEMO_SEP);
    } else {
      Shift(before[1..], x, y, z, after);
      assert (before + [x + [MEMO_SEP] + y, z] + after)[1..] == before[1..] + [x + [MEMO_SEP] + y, z] + after;
      assert (before + [x, y + [MEMO_SEP] + z] + after)[1..] == before[1..] + [x, y + [MEMO_SEP] + z] + after;
    }
  }

  lemma JoinExtendsFirst(head: string, first: string, rest: seq<string>)
    ensures Join([head + first] + rest, MEMO_SEP) == head + Join([first] + rest, MEMO_SEP)
  {
    assert ([head + first] + rest)[1..] == rest && ([first] + rest)[1..] == rest;
    if rest != [] {
      assert head + first + [MEMO_SEP] + Join(rest, MEMO_SEP) == head + (first + [MEMO_SEP] + Join(rest, MEMO_SEP));
    }
  }

  // ----- the memo as a value ------------------------------------------------------------------

  /** Nanoseconds: durations, and instants of a clock that does not run backwards. */
  const MAX_MEMO_TTL := 5_000_000_000
  const MAX_MEMO_ENTRIES := 1024

  datatype Entry = Entry(key: string, result: AccessResult, storedAt: int)

  /** entries indexes the list order, whose front is the oldest entry. */
  datatype Memo = Memo(entries: map<string, Entry>, order: seq<Entry>)

  const EMPTY_MEMO := Memo(map[], [])

  datatype Op = Set(key: string, result: AccessResult, at: int) | Get(key: string, at: int) | Clear

  /** Where the list holds this key, or its length. */
  function IndexOf(order: seq<Entry>, key: string): (i: nat)
    ensures i <= |order| && (i < |order| ==> order[i].key == key)
    ensures forall j | 0 <= j < i :: order[j].key != key
  {
    if order == [] then 0
    else if order[0].key == key then 0
    else 1 + IndexOf(order[1..], key)
  }

  /** The list without the entry of this key. */
  function Unlinked(order: seq<Entry>, key: string): seq<Entry> {
    var i := IndexOf(order, key);
    if i < |order| then order[..i] + order[i + 1..] else order
  }

  function Dropped(m: Memo, key: string): Memo {
    Memo(m.entries - {key}, Unlinked(m.order, key))
  }

  /** FIFO eviction down to the bound. */
  function Evicted(m: Memo): Memo
    decreases |m.order|
  {
    if |m.order| > MAX_MEMO_ENTRIES then Evicted(Memo(m.entries - {m.order[0].key}, m.order[1..])) else m
  }

  /** The memo a set makes, before eviction. */
  function Appended(m: Memo, e: Entry): Memo {
    var kept := if e.key in m.entries then Dropped(m, e.key) else m;
    Memo(kept.entries[e.key := e], kept.order + [e])
  }

  predicate Expired(e: Entry, ttl: int, now: int) {
    now - e.storedAt >= ttl
  }

  /** A zero ttl disables the memo: nothing is stored and nothing is found. */
  function Answer(m: Memo, ttl: int, key: string, now: int): Option<AccessResult> {
    if ttl > 0 && key in m.entries && !Expired(m.entries[key], ttl, now) then Some(m.entries[key].result) else None
  }

  function Step(m: Memo, ttl: int, op: Op): Memo {
    match op
    case Clear => EMPTY_MEMO
    case Set(key, result, at) => if ttl > 0 then Evicted(Appended(m, Entry(key, result, at))) else m
    case Get(key, at) =>
      if ttl > 0 && key in m.entries && Expired(m.entries[key], ttl, at) then Dropped(m, key) else m
  }

  function Run(ttl: int, log: seq<Op>): Memo {
    if log == [] then EMPTY_MEMO else Step(Run(ttl, log[..|log| - 1]), ttl, log[|log| - 1])
  }

  lemma RunOneMore(ttl: int, log: seq<Op>, op: Op)
    ensures Run(ttl, log + [op]) == Step(Run(ttl, log), ttl, op)
  {
    assert (log + [op])[..|log|] == log;
  }

  // ----- the log ------------------------------------------------------------------------------

  /** The position of the last set of this key since the last clear. */
  function LastSet(log: seq<Op>, key: string): (i: Option<nat>)
    ensures i.Some? ==> i.value < |log| && log[i.value].Set? && log[i.value].key == key
  {
    if log == [] then None
    else
      var last := log[|log| - 1];
      if last.Clear? then None
      else if last.Set? && last.key == key then Some(|log| - 1)
      else LastSet(log[..|log| - 1], key)
  }

  lemma LastSetAppends(log: seq<Op>, op: Op, key: string)
    ensures LastSet(log + [op], key) ==
            if op.Clear? then None else if op.Set? && op.key == key then Some(|log|) else LastSet(log, key)
  {
    assert (log + [op])[..|log|] == log;
  }

  /** The other keys set after position i. */
  function OthersSince(log: seq<Op>, i: nat, key: string): set<string> {
    set j | i < j < |log| && log[j].Set? && log[j].key != key :: log[j].key
  }

  /** Somebody asked for the key after its entry at i had expired. */
  predicate AskedTooLate(log: seq<Op>, ttl: int, i: nat, key: string)
    requires i < |log| && log[i].Set?
  {
    exists j | i < j < |log| :: log[j].Get? && log[j].key == key && log[j].at - log[i].at >= ttl
  }

  /** The entry is the last set of its key. */
  predicate Logged(log: seq<Op>, e: Entry) {
    LastSet(log, e.key).Some? && log[LastSet(log, e.key).value] == Set(e.key, e.result, e.storedAt)
  }

  /** The last set of e's key came before the last set of f's. */
  predicate Earlier(log: seq<Op>, e: Entry, f: Entry) {
    LastSet(log, e.key).Some? && LastSet(log, f.key).Some? && LastSet(log, e.key).value < LastSet(log, f.key).value
  }

  predicate InOrder(log: seq<Op>, order: seq<Entry>) {
    forall a, b | 0 <= a < b < |order| :: Earlier(log, order[a], order[b])
  }

  /** Why a key may be absent: never set since the last clear, asked for too late, or pushed out by
      MAX_MEMO_ENTRIES other keys. */
  predicate Missing(log: seq<Op>, ttl: int, key: string) {
    LastSet(log, key).Some? ==>
      || AskedTooLate(log, ttl, LastSet(log, key).value, key)
      || |OthersSince(log, LastSet(log, key).value, key)| >= MAX_MEMO_ENTRIES
  }

  /** The map indexes exactly the list. */
  ghost predicate Linked(m: Memo) {
    && (forall e | e in m.order :: e.key in m.entries && m.entries[e.key] == e)
    && (forall k | k in m.entries :: m.entries[k].key == k && m.entries[k] in m.order)
  }

  /** What the memo is to its log: its entries are last sets, listed in the order they were set, and a
      key that is absent has a reason to be. */
  ghost predicate Mirrors(m: Memo, ttl: int, log: seq<Op>) {
    && Linked(m) && InOrder(log, m.order)
    && (forall e | e in m.order :: Logged(log, e))
    && (forall k | k !in m.entries :: Missing(log, ttl, k))
  }

  ghost predicate Reflects(m: Memo, ttl: int, log: seq<Op>) {
    |m.order| <= MAX_MEMO_ENTRIES && Mirrors(m, ttl, log)
  }

  // ----- one more operation -------------------------------------------------------------------

  lemma {:induction false} SubsetIsNoLarger<T>(a: set<T>, b: set<T>)
    requires a <= b
    ensures |a| <= |b|
  {
    assert |b| == |a| + |b - a| by { assert b == a + (b - a); }
  }

  lemma LogGrows(log: seq<Op>, op: Op, ttl: int, key: string)
    requires !op.Clear? && !(op.Set? && op.key == key)
    ensures LastSet(log + [op], key) == LastSet(log, key)
    ensures Missing(log, ttl, key) ==> Missing(log + [op], ttl, key)
  {
    var longer := log + [op];
    assert longer[..|log|] == log;
    if LastSet(log, key).Some? {
      var i := LastSet(log, key).value;
      if AskedTooLate(log, ttl, i, key) {
        var j :| i < j < |log| && log[j].Get? && log[j].key == key && log[j].at - log[i].at >= ttl;
        assert longer[j] == log[j];
      }
      forall k | k in OthersSince(log, i, key) ensures k in OthersSince(longer, i, key) {
        var j :| i < j < |log| && log[j].Set? && log[j].key != key && log[j].key == k;
        assert longer[j] == log[j];
      }
      SubsetIsNoLarger(OthersSince(log, i, key), OthersSince(longer, i, key));
    }
  }

  lemma EntryStays(log: seq<Op>, op: Op, e: Entry)
    requires !op.Clear? && !(op.Set? && op.key == e.key)
    ensures Logged(log, e) ==> Logged(log + [op], e)
    ensures LastSet(log + [op], e.key) == LastSet(log, e.key)
  {
    LogGrows(log, op, 0, e.key);
  }

  lemma OrderStays(log: seq<Op>, op: Op, order: seq<Entry>)
    requires InOrder(log, order) && !op.Clear?
    requires forall e | e in order :: !(op.Set? && op.key == e.key)
    ensures InOrder(log + [op], order)
  {
    forall a, b | 0 <= a < b < |order| ensures Earlier(log + [op], order[a], order[b]) {
      assert order[a] in order && order[b] in order && Earlier(log, order[a], order[b]);
      EntryStays(log, op, order[a]);
      EntryStays(log, op, order[b]);
    }
  }

  /** The list without its p-th entry, position by position. */
  lemma Shifted(order: seq<Entry>, p: nat)
    requires p < |order|
    ensures var rest := order[..p] + order[p + 1..];
            && |rest| == |order| - 1
            && forall a | 0 <= a < |rest| :: rest[a] == order[if a < p then a else a + 1]
  {
  }

  lemma RemovedStaysInOrder(log: seq<Op>, order: seq<Entry>, p: nat)
    requires InOrder(log, order) && p < |order|
    ensures InOrder(log, order[..p] + order[p + 1..])
  {
    var rest := order[..p] + order[p + 1..];
    Shifted(order, p);
    forall a, b | 0 <= a < b < |rest| ensures Earlier(log, rest[a], rest[b]) {
      var i, j := if a < p then a else a + 1, if b < p then b else b + 1;
      assert Earlier(log, order[i], order[j]);
    }
  }

  lemma RemovedAt(log: seq<Op>, order: seq<Entry>, p: nat)
    requires InOrder(log, order) && p < |order|
    ensures forall e :: e in order[..p] + order[p + 1..] <==> e in order && e.key != order[p].key
  {
    var front, back := order[..p], order[p + 1..];
    assert order == front + [order[p]] + back;
    forall e | e in front ensures e.key != order[p].key {
      var i :| 0 <= i < |front| && front[i] == e;
      assert Earlier(log, order[i], order[p]);
    }
    forall e | e in back ensures e.key != order[p].key {
      var i :| 0 <= i < |back| && back[i] == e;
      assert Earlier(log, order[p], order[p + 1 + i]);
    }
  }

  /** Dropping a key takes its one entry out of the list and leaves the others in their order. */
  lemma DroppedKeepsTheRest(m: Memo, log: seq<Op>, key: string)
    requires Linked(m) && InOrder(log, m.order) && key in m.entries
    ensures var d := Dropped(m, key);
            && Linked(d) && InOrder(log, d.order) && |d.order| == |m.order| - 1
            && forall e :: e in d.order <==> e in m.order && e.key != key
  {
    var p := IndexOf(m.order, key);
    var a :| 0 <= a < |m.order| && m.order[a] == m.entries[key];
    assert p < |m.order|;
    RemovedAt(log, m.order, p);
    RemovedStaysInOrder(log, m.order, p);
  }

  lemma GetMirrors(m: Memo, ttl: int, log: seq<Op>, op: Op)
    requires Reflects(m, ttl, log) && op.Get? && ttl > 0
    ensures Reflects(Step(m, ttl, op), ttl, log + [op])
  {
    var log' := log + [op];
    var next := Step(m, ttl, op);
    if next != m {
      DroppedKeepsTheRest(m, log, op.key);
      var e := m.entries[op.key];
      assert Logged(log, e);
      LogGrows(log, op, ttl, op.key);
      var i := LastSet(log, op.key).value;
      assert log'[|log|] == op && log'[i] == log[i];
      assert AskedTooLate(log', ttl, i, op.key);
    }
    OrderStays(log, op, next.order);
    forall e | e in next.order ensures Logged(log', e) {
      EntryStays(log, op, e);
    }
    forall k | k !in next.entries && k != op.key ensures Missing(log', ttl, k) {
      LogGrows(log, op, ttl, k);
    }
    if op.key !in m.entries {
      LogGrows(log, op, ttl, op.key);
    }
  }

  /** What a set keeps of the memo before it appends the new entry. */
  lemma KeptWithout(m: Memo, log: seq<Op>, key: string) returns (kept: Memo)
    requires Linked(m) && InOrder(log, m.order)
    ensures kept == if key in m.entries then Dropped(m, key) else m
    ensures Linked(kept) && InOrder(log, kept.order) && |kept.order| <= |m.order|
    ensures kept.entries == m.entries - {key}
    ensures forall f | f in kept.order :: f in m.order && f.key != key
  {
    kept := if key in m.entries then Dropped(m, key) else m;
    if key in m.entries {
      DroppedKeepsTheRest(m, log, key);
    }
  }

  lemma AppendedInOrder(log: seq<Op>, order: seq<Entry>, e: Entry)
    requires InOrder(log, order) && forall f | f in order :: Earlier(log, f, e)
    ensures InOrder(log, order + [e])
  {
    var longer := order + [e];
    forall a, b | 0 <= a < b < |longer| ensures Earlier(log, longer[a], longer[b]) {
      assert longer[a] == order[a] && order[a] in order;
      if b < |order| {
        assert Earlier(log, order[a], order[b]);
      }
    }
  }

  lemma SetMirrors(m: Memo, ttl: int, log: seq<Op>, op: Op)
    requires Reflects(m, ttl, log) && op.Set?
    ensures var next := Appended(m, Entry(op.key, op.result, op.at));
            |next.order| <= MAX_MEMO_ENTRIES + 1 && Mirrors(next, ttl, log + [op])
  {
    var log' := log + [op];
    var e := Entry(op.key, op.result, op.at);
    var kept := KeptWithout(m, log, op.key);
    var next := Appended(m, e);
    assert next == Memo(kept.entries[op.key := e], kept.order + [e]);
    assert LastSet(log', op.key) == Some(|log|);
    OrderStays(log, op, kept.order);
    forall f | f in kept.order ensures Logged(log', f) && Earlier(log', f, e) {
      assert Logged(log, f);
      EntryStays(log, op, f);
    }
    AppendedInOrder(log', kept.order, e);
    forall k | k !in next.entries ensures Missing(log', ttl, k) {
      assert k !in m.entries;
      LogGrows(log, op, ttl, k);
    }
  }

  function Keys(order: seq<Entry>): set<string> {
    set e | e in order :: e.key
  }

  lemma TailInOrder(log: seq<Op>, order: seq<Entry>)
    requires InOrder(log, order) && order != []
    ensures InOrder(log, order[1..])
    ensures forall e | e in order[1..] :: Earlier(log, order[0], e) && e.key != order[0].key
    ensures Keys(order) == {order[0].key} + Keys(order[1..])
  {
    var rest := order[1..];
    forall a, b | 0 <= a < b < |rest| ensures Earlier(log, rest[a], rest[b]) {
      assert rest[a] == order[a + 1] && rest[b] == order[b + 1] && Earlier(log, order[a + 1], order[b + 1]);
    }
    forall e | e in rest ensures Earlier(log, order[0], e) {
      var a :| 0 <= a < |rest| && rest[a] == e;
      assert order[a + 1] == e && Earlier(log, order[0], order[a + 1]);
    }
    assert order == [order[0]] + rest;
  }

  lemma {:induction false} KeysCount(log: seq<Op>, order: seq<Entry>)
    requires InOrder(log, order)
    ensures |Keys(order)| == |order|
  {
    if order != [] {
      TailInOrder(log, order);
      KeysCount(log, order[1..]);
    }
  }

  /** Every entry behind the front was set after it. */
  lemma SetAfterFront(log: seq<Op>, order: seq<Entry>)
    requires InOrder(log, order) && |order| > 1
    ensures LastSet(log, order[0].key).Some?
    ensures Keys(order[1..]) <= OthersSince(log, LastSet(log, order[0].key).value, order[0].key)
  {
    TailInOrder(log, order);
    assert order[1] == order[1..][0] && order[1] in order[1..];
    var i := LastSet(log, order[0].key).value;
    forall k | k in Keys(order[1..]) ensures k in OthersSince(log, i, order[0].key) {
      var f :| f in order[1..] && f.key == k;
      assert Earlier(log, order[0], f);
      var j := LastSet(log, k).value;
      assert i < j < |log| && log[j].Set? && log[j].key == k && k != order[0].key;
    }
  }

  /** An overfull list explains the eviction of its front. */
  lemma FrontIsPushedOut(log: seq<Op>, ttl: int, order: seq<Entry>)
    requires InOrder(log, order) && |order| == MAX_MEMO_ENTRIES + 1
    ensures Missing(log, ttl, order[0].key)
  {
    TailInOrder(log, order);
    KeysCount(log, order[1..]);
    SetAfterFront(log, order);
    SubsetIsNoLarger(Keys(order[1..]), OthersSince(log, LastSet(log, order[0].key).value, order[0].key));
  }

  lemma EvictionMirrors(m: Memo, ttl: int, log: seq<Op>)
    requires Mirrors(m, ttl, log) && |m.order| == MAX_MEMO_ENTRIES + 1
    ensures Mirrors(Memo(m.entries - {m.order[0].key}, m.order[1..]), ttl, log)
  {
    TailInOrder(log, m.order);
    FrontIsPushedOut(log, ttl, m.order);
    assert m.order == [m.order[0]] + m.order[1..];
  }

  lemma StepReflects(m: Memo, ttl: int, log: seq<Op>, op: Op)
    requires Reflects(m, ttl, log) && ttl > 0
    ensures Reflects(Step(m, ttl, op), ttl, log + [op])
  {
    match op
    case Clear =>
      assert forall k :: LastSet(log + [op], k).None?;
    case Set(key, result, at) =>
      var next := Appended(m, Entry(key, result, at));
      SetMirrors(m, ttl, log, op);
      if |next.order| > MAX_MEMO_ENTRIES {
        EvictionMirrors(next, ttl, log + [op]);
        var rest := Memo(next.entries - {next.order[0].key}, next.order[1..]);
        assert Evicted(next) == Evicted(rest) == rest;
      }
    case Get(key, at) =>
      GetMirrors(m, ttl, log, op);
  }

  /** On every log the memo mirrors it: the map and the list stay in bijection within the bound. */
  lemma {:induction false} RunReflects(ttl: int, log: seq<Op>)
    requires ttl > 0
    ensures Reflects(Run(ttl, log), ttl, log)
    ensures |Run(ttl, log).order| <= 1024
  {
    if log != [] {
      var init, last := log[..|log| - 1], log[|log| - 1];
      RunReflects(ttl, init);
      StepReflects(Run(ttl, init), ttl, init, last);
      assert log == init + [last];
    }
  }

  /** A hit returns the last result set for the key since the last clear, less than ttl ago. */
  lemma HitIsTheLastSet(ttl: int, log: seq<Op>, key: string, now: int)
    requires Answer(Run(ttl, log), ttl, key, now).Some?
    ensures LastSet(log, key).Some?
    ensures var last := log[LastSet(log, key).value];
            Answer(Run(ttl, log), ttl, key, now) == Some(last.result) && now - last.at < ttl
  {
    RunReflects(ttl, log);
    assert Logged(log, Run(ttl, log).entries[key]);
  }

  /** The operation at i set the key, and it has not been set again nor everything cleared since. */
  predicate StandsAt(log: seq<Op>, key: string, i: nat) {
    && i < |log| && log[i].Set? && log[i].key == key
    && forall j | i < j < |log| :: !log[j].Clear? && !(log[j].Set? && log[j].key == key)
  }

  lemma {:induction false} StandingIsLastSet(log: seq<Op>, key: string, i: nat)
    requires StandsAt(log, key, i)
    ensures LastSet(log, key) == Some(i)
  {
    var init := log[..|log| - 1];
    if i < |init| {
      assert log[|init|] == log[|log| - 1] && forall j | i <= j < |init| :: init[j] == log[j];
      StandingIsLastSet(init, key, i);
    }
  }

  lemma {:induction false} LastSetStands(log: seq<Op>, key: string)
    requires LastSet(log, key).Some?
    ensures StandsAt(log, key, LastSet(log, key).value)
  {
    var init, i := log[..|log| - 1], LastSet(log, key).value;
    if i < |init| {
      LastSetStands(init, key);
      assert forall j | i <= j < |init| :: init[j] == log[j];
    }
  }

  /** A hit was set, stands, and is younger than the ttl. */
  lemma HitStands(ttl: int, log: seq<Op>, key: string, now: int) returns (i: nat)
    requires Answer(Run(ttl, log), ttl, key, now).Some?
    ensures StandsAt(log, key, i) && now - log[i].at < ttl
    ensures Answer(Run(ttl, log), ttl, key, now) == Some(log[i].result)
  {
    HitIsTheLastSet(ttl, log, key, now);
    LastSetStands(log, key);
    i := LastSet(log, key).value;
  }

  /** A fresh set that stands always hits, unless 1024 other keys have been set after it. */
  lemma FreshSetHits(ttl: int, log: seq<Op>, key: string, now: int, i: nat)
    requires ttl > 0 && StandsAt(log, key, i) && now - log[i].at < ttl
    requires forall op | op in log && !op.Clear? :: op.at <= now
    requires |set j | i < j < |log| && log[j].Set? && log[j].key != key :: log[j].key| < 1024
    ensures Answer(Run(ttl, log), ttl, key, now) == Some(log[i].result)
  {
    RunReflects(ttl, log);
    StandingIsLastSet(log, key, i);
    var m := Run(ttl, log);
    assert !AskedTooLate(log, ttl, i, key) by {
      assert forall j | i < j < |log| && log[j].Get? :: log[j] in log;
    }
    assert !Missing(log, ttl, key);
    assert Logged(log, m.entries[key]);
  }

  /** What was set last is found while it is fresh. */
  lemma JustSetHits(ttl: int, log: seq<Op>, key: string, result: AccessResult, at: int, now: int)
    requires ttl > 0 && now - at < ttl
    ensures Answer(Run(ttl, log + [Set(key, result, at)]), ttl, key, now) == Some(result)
  {
    var longer := log + [Set(key, result, at)];
    RunReflects(ttl, longer);
    StandingIsLastSet(longer, key, |log|);
    assert OthersSince(longer, |log|, key) == {};
    assert !Missing(longer, ttl, key);
    assert Logged(longer, Run(ttl, longer).entries[key]);
  }

  /** A zero ttl disables the memo: nothing is ever in it. */
  lemma {:induction false} DisabledHoldsNothing(ttl: int, log: seq<Op>)
    requires ttl <= 0
    ensures Run(ttl, log) == EMPTY_MEMO
  {
    if log != [] {
      DisabledHoldsNothing(ttl, log[..|log| - 1]);
    }
  }

  /** Asked for too late, a key is dropped, and only that key. */
  lemma AskingTooLateDrops(ttl: int, log: seq<Op>, key: string, at: int, i: nat)
    requires ttl > 0 && StandsAt(log, key, i) && at - log[i].at >= ttl
    ensures var before, after := Run(ttl, log), Run(ttl, log + [Get(key, at)]);
            && key !in after.entries && (forall e | e in after.order :: e.key != key)
            && forall k | k != key :: k in after.entries <==> k in before.entries
  {
    RunReflects(ttl, log);
    RunReflects(ttl, log + [Get(key, at)]);
    RunOneMore(ttl, log, Get(key, at));
    StandingIsLastSet(log, key, i);
    var m := Run(ttl, log);
    if key in m.entries {
      assert Logged(log, m.entries[key]);
    }
  }

  // ----- decisionMemo as the code runs it -----------------------------------------------------

  /** What newDecisionMemo makes of a requested ttl: never negative, never above the ceiling. */
  function ClampedTtl(ttl: int): (kept: int)
    ensures 0 <= kept <= 5_000_000_000
    ensures 0 <= ttl <= 5_000_000_000 ==> kept == ttl
    ensures ttl > 5_000_000_000 ==> kept == 5_000_000_000
    ensures kept == 0 <==> ttl <= 0
  {
    if ttl < 0 then 0 else if ttl > MAX_MEMO_TTL then MAX_MEMO_TTL else ttl
  }

  class DecisionCache {
    const ttl: int
    var entries: map<string, Entry>
    var order: seq<Entry>
    ghost var log: seq<Op>

    constructor (ttl: int)
      ensures Valid() && log == [] && this.ttl == ClampedTtl(ttl)
    {
      this.ttl := if ttl < 0 then 0 else if ttl > MAX_MEMO_TTL then MAX_MEMO_TTL else ttl;
      entries, order, log := map[], [], [];
    }

    function View(): Memo
      reads this
    {
      Memo(entries, order)
    }

    /** The fields are what the operations logged so far make them, and the ttl is within its ceiling. */
    ghost predicate Valid()
      reads this
    {
      0 <= ttl <= 5_000_000_000 && View() == Run(ttl, log)
    }

    predicate Enabled() {
      ttl > 0
    }

    /** A live decision for the key: the last one set since the last clear, while it is younger than ttl. */
    method Lookup(key: string, now: int) returns (result: Option<AccessResult>)
      requires Valid()
      modifies this
      ensures Valid() && log == old(log) + [Get(key, now)]
      ensures result == Answer(old(View()), ttl, key, now)
      ensures result.Some? ==>
                && LastSet(old(log), key).Some?
                && var last := old(log)[LastSet(old(log), key).value];
                   result == Some(last.result) && now - last.at < ttl <= 5_000_000_000
    {
      log := log + [Get(key, now)];
      assert log[..|log| - 1] == old(log);
      if !Enabled() || key !in entries {
        return None;
      }
      var entry := entries[key];
      if now - entry.storedAt >= ttl {
        order := Unlinked(order, key);
        entries := entries - {key};
        return None;
      }
      HitIsTheLastSet(ttl, old(log), key, now);
      return Some(entry.result);
    }

    /** Memoizes a decision the server returned, evicting the oldest beyond the bound. */
    method Store(key: string, result: AccessResult, now: int)
      requires Valid()
      modifies this
      ensures Valid() && log == old(log) + [Set(key, result, now)]
      ensures Enabled() ==> |order| <= MAX_MEMO_ENTRIES
    {
      log := log + [Set(key, result, now)];
      assert log[..|log| - 1] == old(log);
      if !Enabled() {
        return;
      }
      if key in entries {
        order := Unlinked(order, key);
        entries := entries - {key};
      }
      var e := Entry(key, result, now);
      order := order + [e];
      entries := entries[key := e];
      assert View() == Appended(old(View()), e);
      while |order| > MAX_MEMO_ENTRIES
        invariant Evicted(View()) == Evicted(Appended(old(View()), e))
        invariant log == old(log) + [Set(key, result, now)]
      {
        var oldest := order[0];
        order := order[1..];
        entries := entries - {oldest.key};
      }
    }

    method Clear()
      requires Valid()
      modifies this
      ensures Valid() && log == old(log) + [Op.Clear] && View() == EMPTY_MEMO
    {
      log := log + [Op.Clear];
      assert log[..|log| - 1] == old(log);
      entries, order := map[], [];
    }
  }
}
