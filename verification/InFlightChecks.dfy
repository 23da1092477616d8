/** Access checks and credential changes that overlap (authz.go, login.go, oidc.go). A check asks the memo, sends
    its request, perhaps more than once, and memoizes the answer when it comes; a call that changes the credential
    clears the memo at one moment and installs the new credential at another, in the order of Moments below. Only
    the memo itself is locked, so any of these moments may fall between any others. */
module InFlightChecks {
  import opened Wrappers
  import opened DecisionMemo

  /** Sends names the position at which its check asked the memo, Answered that at which the request it answers
      was sent. */
  datatype Event =
    | Asks(key: string, now: int)
    | Sends(asked: nat)
    | Answered(sent: nat, result: AccessResult, at: int)
    | MemoCleared
    | CredentialReplaced

  /** missed holds the checks the memo did not answer, waiting the requests not answered yet, each under its
      position and with its key; credential tells the credentials apart that requests are sent with. */
  datatype State = State(memo: Memo, missed: map<nat, string>, waiting: map<nat, string>, credential: nat)

  function After(s: State, ttl: int, position: nat, e: Event): State {
    match e
    case MemoCleared => s.(memo := EMPTY_MEMO)
    case CredentialReplaced => s.(credential := position + 1)
    case Asks(key, now) =>
      var asked := s.(memo := Step(s.memo, ttl, Get(key, now)));
      if Answer(s.memo, ttl, key, now).Some? then asked else asked.(missed := s.missed[position := key])
    case Sends(asked) => if asked in s.missed then s.(waiting := s.waiting[position := s.missed[asked]]) else s
    case Answered(sent, result, at) =>
      if sent in s.waiting
      then s.(memo := Step(s.memo, ttl, Set(s.waiting[sent], result, at)), waiting := s.waiting - {sent})
      else s
  }

  predicate AskedFor(events: seq<Event>, asked: nat, key: string) {
    asked < |events| && events[asked].Asks? && events[asked].key == key
  }

  predicate SentFor(events: seq<Event>, sent: nat, key: string) {
    sent < |events| && events[sent].Sends? && events[sent].asked < sent && AskedFor(events, events[sent].asked, key)
  }

  function Run(ttl: int, events: seq<Event>): State {
    if events == [] then State(EMPTY_MEMO, map[], map[], 0)
    else After(Run(ttl, events[..|events| - 1]), ttl, |events| - 1, events[|events| - 1])
  }

  lemma {:induction false} CredentialIsPast(ttl: int, events: seq<Event>)
    ensures Run(ttl, events).credential <= |events|
  {
    if events != [] {
      CredentialIsPast(ttl, events[..|events| - 1]);
    }
  }

  lemma {:induction false} MissedWereAsked(ttl: int, events: seq<Event>, i: nat)
    requires i in Run(ttl, events).missed
    ensures AskedFor(events, i, Run(ttl, events).missed[i])
  {
    var init := events[..|events| - 1];
    if i in Run(ttl, init).missed {
      MissedWereAsked(ttl, init, i);
    }
  }

  lemma {:induction false} WaitingWereSent(ttl: int, events: seq<Event>, i: nat)
    requires i in Run(ttl, events).waiting
    ensures SentFor(events, i, Run(ttl, events).waiting[i])
  {
    var init, last := events[..|events| - 1], events[|events| - 1];
    if i in Run(ttl, init).waiting {
      WaitingWereSent(ttl, init, i);
    } else {
      MissedWereAsked(ttl, init, last.asked);
    }
  }

  /** A check goes on to ask the server exactly when the memo did not answer it. */
  lemma {:induction false} OnlyMissesGoOn(ttl: int, events: seq<Event>, i: nat)
    ensures i in Run(ttl, events).missed <==>
            && i < |events| && events[i].Asks?
            && Answer(Run(ttl, events[..i]).memo, ttl, events[i].key, events[i].now) == None
  {
    if events != [] {
      var init := events[..|events| - 1];
      OnlyMissesGoOn(ttl, init, i);
      if i < |init| {
        assert init[..i] == events[..i] && init[i] == events[i];
      }
    }
  }

  /** A request waits from its sending, by a check that missed, to its answer. */
  lemma {:induction false} WaitsForItsAnswer(ttl: int, events: seq<Event>, i: nat)
    ensures i in Run(ttl, events).waiting <==>
            && i < |events| && events[i].Sends? && events[i].asked in Run(ttl, events[..i]).missed
            && forall k | i < k < |events| :: !(events[k].Answered? && events[k].sent == i)
  {
    if events != [] {
      var init := events[..|events| - 1];
      WaitsForItsAnswer(ttl, init, i);
      assert events[..|init|] == init;
      if i < |init| {
        assert init[..i] == events[..i] && init[i] == events[i];
        assert forall k | i < k < |init| :: init[k] == events[k];
      }
    }
  }

  function OpOf(s: State, e: Event): Option<Op> {
    match e
    case MemoCleared => Some(Clear)
    case CredentialReplaced => None
    case Asks(key, now) => Some(Get(key, now))
    case Sends(_) => None
    case Answered(sent, result, at) => if sent in s.waiting then Some(Set(s.waiting[sent], result, at)) else None
  }

  function LogOf(ttl: int, events: seq<Event>): seq<Op> {
    if events == [] then []
    else
      var init := events[..|events| - 1];
      var op := OpOf(Run(ttl, init), events[|events| - 1]);
      LogOf(ttl, init) + if op.Some? then [op.value] else []
  }

  lemma EventStepsTheMemo(s: State, ttl: int, position: nat, e: Event)
    ensures After(s, ttl, position, e).memo == if OpOf(s, e).Some? then Step(s.memo, ttl, OpOf(s, e).value) else s.memo
  {
  }

  lemma {:induction false} MemoFollowsTheEvents(ttl: int, events: seq<Event>)
    ensures Run(ttl, events).memo == DecisionMemo.Run(ttl, LogOf(ttl, events))
  {
    if events != [] {
      var init, last := events[..|events| - 1], events[|events| - 1];
      var op := OpOf(Run(ttl, init), last);
      MemoFollowsTheEvents(ttl, init);
      EventStepsTheMemo(Run(ttl, init), ttl, |init|, last);
      if op.Some? {
        RunOneMore(ttl, LogOf(ttl, init), op.value);
      } else {
        assert LogOf(ttl, events) == LogOf(ttl, init);
      }
    }
  }

  /** The event memoizes the answer to a request sent for a check of this key. */
  predicate Memoizes(events: seq<Event>, k: nat, key: string) {
    k < |events| && events[k].Answered? && events[k].sent < k && SentFor(events, events[k].sent, key)
  }

  /** How the last event moves the last set of a key. */
  lemma LastEventMovesLastSet(ttl: int, events: seq<Event>, key: string)
    requires events != []
    ensures var init := events[..|events| - 1];
            var log, log', op := LogOf(ttl, init), LogOf(ttl, events), OpOf(Run(ttl, init), events[|events| - 1]);
            && |log| <= |log'| && log'[..|log|] == log
            && LastSet(log', key) ==
               (if op == Some(Clear) then None
                else if op.Some? && op.value.Set? && op.value.key == key then Some(|log|)
                else LastSet(log, key))
            && (op.Some? ==> |log'| == |log| + 1 && log'[|log|] == op.value)
  {
    var init := events[..|events| - 1];
    var log, op := LogOf(ttl, init), OpOf(Run(ttl, init), events[|events| - 1]);
    if op.Some? {
      assert LogOf(ttl, events) == log + [op.value];
      LastSetAppends(log, op.value, key);
    } else {
      assert LogOf(ttl, events) == log;
    }
  }

  /** The last set of a key in the log is an answer memoized since the last clear. */
  lemma {:induction false} LastSetWasAnswered(ttl: int, events: seq<Event>, key: string) returns (k: nat)
    requires LastSet(LogOf(ttl, events), key).Some?
    ensures Memoizes(events, k, key)
    ensures LogOf(ttl, events)[LastSet(LogOf(ttl, events), key).value] == Set(key, events[k].result, events[k].at)
    ensures forall i | k < i < |events| :: !events[i].MemoCleared?
  {
    var init, last := events[..|events| - 1], events[|events| - 1];
    var op := OpOf(Run(ttl, init), last);
    LastEventMovesLastSet(ttl, events, key);
    if op.Some? && op.value.Set? && op.value.key == key {
      k := |events| - 1;
      WaitingWereSent(ttl, init, last.sent);
      assert init[last.sent] == events[last.sent];
    } else {
      k := LastSetWasAnswered(ttl, init, key);
      assert SentFor(init, init[k].sent, key) && init[k] == events[k] && init[events[k].sent] == events[events[k].sent];
      var i := LastSet(LogOf(ttl, init), key).value;
      assert LogOf(ttl, events)[i] == LogOf(ttl, init)[i];
    }
  }

  // ----- whose answer a hit is ----------------------------------------------------------------

  ghost predicate ReplacedBetween(events: seq<Event>, from: nat, to: nat) {
    exists i | from < i < to && i < |events| :: events[i].CredentialReplaced?
  }

  /** The answer memoized at k was given to another credential than the one now held. */
  predicate Stale(ttl: int, events: seq<Event>, k: nat)
    requires k < |events| && events[k].Answered? && events[k].sent < k
  {
    Run(ttl, events[..events[k].sent]).credential != Run(ttl, events).credential
  }

  lemma {:induction false} CredentialChangesWhenReplaced(ttl: int, events: seq<Event>, from: nat)
    requires from < |events| && events[from].Sends?
    ensures Run(ttl, events[..from]).credential != Run(ttl, events).credential <==>
            ReplacedBetween(events, from, |events|)
    decreases |events|
  {
    var init := events[..|events| - 1];
    assert init[..from] == events[..from];
    if from == |init| {
      assert Run(ttl, events).credential == Run(ttl, init).credential;
    } else {
      CredentialChangesWhenReplaced(ttl, init, from);
      CredentialIsPast(ttl, init[..from]);
      ReplacedOneMore(events, from);
    }
  }

  lemma ReplacedOneMore(events: seq<Event>, from: nat)
    requires from + 1 < |events|
    ensures var init := events[..|events| - 1];
            ReplacedBetween(events, from, |events|) <==>
            ReplacedBetween(init, from, |init|) || events[|init|].CredentialReplaced?
  {
    var init := events[..|events| - 1];
    assert forall i | 0 <= i < |init| :: init[i] == events[i];
  }

  /** However the moments interleave, a hit was the server's answer to a check of the same key, memoized less
      than ttl ago with no clear since; and it was given to another credential than the one now held exactly
      when a replacement fell between the sending of its request and the hit. Such a replacement came either
      while the request was waiting, or after the answer was memoized and has not been followed by a clear. */
  lemma HitWasAnswered(ttl: int, events: seq<Event>, key: string, now: int) returns (k: nat)
    requires Answer(Run(ttl, events).memo, ttl, key, now).Some?
    ensures Memoizes(events, k, key)
    ensures k < |events| && events[k].Answered? && events[k].sent < k && events[events[k].sent].Sends?
    ensures var asked := events[events[k].sent].asked;
            asked < events[k].sent && events[asked].Asks? && events[asked].key == key
    ensures Answer(Run(ttl, events).memo, ttl, key, now) == Some(events[k].result) && now - events[k].at < ttl
    ensures forall i | k < i < |events| :: !events[i].MemoCleared?
    ensures Stale(ttl, events, k) <==> ReplacedBetween(events, events[k].sent, |events|)
    ensures Stale(ttl, events, k) <==>
            ReplacedBetween(events, events[k].sent, k) || ReplacedBetween(events, k, |events|)
  {
    MemoFollowsTheEvents(ttl, events);
    HitIsTheLastSet(ttl, LogOf(ttl, events), key, now);
    k := LastSetWasAnswered(ttl, events, key);
    CredentialChangesWhenReplaced(ttl, events, events[k].sent);
    if i :| events[k].sent < i < |events| && events[i].CredentialReplaced? {
      assert i != k;
    }
  }

  /** Every replacement so far has been followed by a clear. */
  ghost predicate ClearedAfterReplacing(events: seq<Event>) {
    forall r | 0 <= r < |events| && events[r].CredentialReplaced? ::
      exists c | r < c < |events| :: events[c].MemoCleared?
  }

  /** The calls that change the credential, each completed. */
  datatype Change = SignsIn | CompletesSso | Refreshes | LogsOut | LogsInDevice | AdoptsToken

  /** In what order a call clears the memo and replaces the credential, where a device token is held before it or
      not. The credential is replaced when a token is dropped or adopted, and when the jar takes a cookie from an
      answer's headers, unless a device token then held keeps it from being sent. */
  function Moments(change: Change, deviceHeld: bool): seq<Event> {
    var dropped := if deviceHeld then [CredentialReplaced] else [];
    match change
    case SignsIn => [MemoCleared] + dropped + [CredentialReplaced]
    case CompletesSso => if deviceHeld then [MemoCleared] + dropped else [CredentialReplaced, MemoCleared]
    case Refreshes => if deviceHeld then [MemoCleared] else [MemoCleared, CredentialReplaced]
    case LogsOut => [MemoCleared] + dropped + [CredentialReplaced]
    case LogsInDevice =>
      (if deviceHeld then [] else [CredentialReplaced]) + [MemoCleared] + dropped + [CredentialReplaced]
    case AdoptsToken => dropped + [CredentialReplaced]
  }

  /** A call follows every replacement with a clear exactly when it is an SSO completion that finds no device token
      held, or a refresh that finds one. */
  lemma WhichCallsClearLast(change: Change, deviceHeld: bool)
    ensures ClearedAfterReplacing(Moments(change, deviceHeld)) <==>
            (change.CompletesSso? && !deviceHeld) || (change.Refreshes? && deviceHeld)
  {
    var events := Moments(change, deviceHeld);
    assert events[|events| - 1].CredentialReplaced? || events[|events| - 1].MemoCleared?;
  }

  /** Where every replacement has been followed by a clear, one way to a stale hit is left: a request that was
      waiting while the credential was replaced. */
  lemma ClearingLastLeavesWaitingRequests(ttl: int, events: seq<Event>, key: string, now: int) returns (k: nat)
    requires Answer(Run(ttl, events).memo, ttl, key, now).Some? && ClearedAfterReplacing(events)
    ensures Memoizes(events, k, key)
    ensures Answer(Run(ttl, events).memo, ttl, key, now) == Some(events[k].result)
    ensures Stale(ttl, events, k) <==> ReplacedBetween(events, events[k].sent, k)
  {
    k := HitWasAnswered(ttl, events, key, now);
  }

  // ----- the two ways, each by one run --------------------------------------------------------

  const ALLOWED := AccessResult(true, "", "allowed")

  /** A change falls within a check: the answer given to the old credential comes after the clear and the new
      credential, whichever of the two came first, is memoized, and is served to the new one. */
  lemma LateAnswerOutlivesTheChange(change: Change, deviceHeld: bool)
    requires |Moments(change, deviceHeld)| == 2
    ensures var events := [Asks("k", 0), Sends(0)] + Moments(change, deviceHeld) + [Answered(1, ALLOWED, 1)];
            Answer(Run(5, events).memo, 5, "k", 2) == Some(ALLOWED) && Stale(5, events, 4)
  {
    var events := [Asks("k", 0), Sends(0)] + Moments(change, deviceHeld) + [Answered(1, ALLOWED, 1)];
    FiveEvents(events);
    assert ReplacedBetween(events, 1, 5) by { assert events[2].CredentialReplaced? || events[3].CredentialReplaced?; }
    CredentialChangesWhenReplaced(5, events, 1);
  }

  /** A check falls within a change that clears first: a login, an SSO completion that finds a device token held,
      a refresh. It is asked and answered after the memo was cleared and before the new credential is installed,
      which is then served the old one's decision. */
  lemma EarlyAnswerOutlivesTheChange(change: Change, deviceHeld: bool)
    requires Moments(change, deviceHeld) == [MemoCleared, CredentialReplaced]
    ensures var moments := Moments(change, deviceHeld);
            var events := [moments[0], Asks("k", 0), Sends(1), Answered(2, ALLOWED, 1), moments[1]];
            && Answer(Run(5, events).memo, 5, "k", 2) == Some(ALLOWED) && Stale(5, events, 3)
            && !ClearedAfterReplacing(events)
  {
    var events := [MemoCleared, Asks("k", 0), Sends(1), Answered(2, ALLOWED, 1), CredentialReplaced];
    FiveEvents(events);
    assert ReplacedBetween(events, 2, 5) by { assert events[4].CredentialReplaced?; }
    CredentialChangesWhenReplaced(5, events, 2);
    assert events[4].CredentialReplaced?;
  }

  lemma FiveEvents(events: seq<Event>)
    requires |events| == 5
    ensures var s1 := After(State(EMPTY_MEMO, map[], map[], 0), 5, 0, events[0]);
            var s3 := After(After(s1, 5, 1, events[1]), 5, 2, events[2]);
            Run(5, events) == After(After(s3, 5, 3, events[3]), 5, 4, events[4])
  {
    assert Run(5, []) == State(EMPTY_MEMO, map[], map[], 0);
    assert events[..1][..0] == [] && events[..2][..1] == events[..1];
    assert events[..3][..2] == events[..2] && events[..4][..3] == events[..3];
    assert Run(5, events[..1]) == After(Run(5, []), 5, 0, events[0]);
    assert Run(5, events[..2]) == After(Run(5, events[..1]), 5, 1, events[1]);
    assert Run(5, events[..3]) == After(Run(5, events[..2]), 5, 2, events[2]);
    assert Run(5, events[..4]) == After(Run(5, events[..3]), 5, 3, events[3]);
  }
}
