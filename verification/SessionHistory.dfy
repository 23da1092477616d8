/** A client's session told from the calls made on it alone: what it knows of its principal, what it holds and what
    its memo may answer, after any run of calls through any handles (client.go, authz.go). */
module SessionHistory {
  import opened Wrappers
  import DecisionMemo
  import opened Sessions

  // ----- which calls count --------------------------------------------------------------------

  predicate ClosedBefore(calls: seq<Call>, k: nat) {
    exists i | 0 <= i < k && i < |calls| :: calls[i].Close?
  }

  /** The session takes the call: it is open, or the call is one that does not ask. */
  predicate Takes(calls: seq<Call>, k: nat)
    requires k < |calls|
  {
    ClosedBefore(calls, k) ==>
      || calls[k].CompleteSso? || calls[k].JarChanges?
      || (calls[k].AdoptToken? && calls[k].grant in {ClientCredentials, DeviceGrant, NativeSignIn})
  }

  /** An SSO completion whose answer was read, and which left a cookie in the jar. */
  predicate CompletesSso(ttl: int, calls: seq<Call>, k: nat)
    requires k < |calls|
  {
    calls[k].CompleteSso? && calls[k].decoded && Run(ttl, calls[..k + 1]).cookie != ""
  }

  /** The call ends what the session held of a principal or a device. */
  predicate EndsHold(ttl: int, calls: seq<Call>, k: nat)
    requires k < |calls|
  {
    && Takes(calls, k)
    && (|| calls[k].SignIn? || calls[k].Logout? || CompletesSso(ttl, calls, k)
        || (calls[k].AuthenticateDevice? && calls[k].token.Some?) || (calls[k].AdoptToken? && calls[k].token.Some?))
  }

  ghost predicate Holds(ttl: int, calls: seq<Call>, j: nat) {
    forall k | j < k < |calls| :: !EndsHold(ttl, calls, k)
  }

  lemma {:induction false} ClosedByAClose(ttl: int, calls: seq<Call>)
    ensures Run(ttl, calls).closed <==> ClosedBefore(calls, |calls|)
  {
    if calls != [] {
      var init := calls[..|calls| - 1];
      ClosedByAClose(ttl, init);
      assert forall i | 0 <= i < |init| :: init[i] == calls[i];
    }
  }

  lemma ClosedBeforeIs(ttl: int, calls: seq<Call>, k: nat)
    requires k <= |calls|
    ensures Run(ttl, calls[..k]).closed <==> ClosedBefore(calls, k)
  {
    ClosedByAClose(ttl, calls[..k]);
    assert forall i | 0 <= i < k :: calls[..k][i] == calls[i];
  }

  lemma OneCallOn(ttl: int, calls: seq<Call>, k: nat)
    requires k < |calls|
    ensures Run(ttl, calls[..k + 1]) == After(Run(ttl, calls[..k]), ttl, calls[k])
  {
    assert calls[..k + 1][..k] == calls[..k];
  }

  lemma EndsHoldIs(ttl: int, calls: seq<Call>, k: nat)
    requires k < |calls|
    ensures EndsHold(ttl, calls, k) <==> EndsDeviceHold(Run(ttl, calls[..k]), calls[k])
  {
    ClosedBeforeIs(ttl, calls, k);
    OneCallOn(ttl, calls, k);
    CallMovesCredentials(Run(ttl, calls[..k]), ttl, calls[k]);
  }

  lemma HoldsIs(ttl: int, calls: seq<Call>, j: nat)
    requires j < |calls|
    ensures Holds(ttl, calls, j) <==> HeldSince(ttl, calls, j)
  {
    forall k | j < k < |calls| ensures EndsHold(ttl, calls, k) <==> EndsDeviceHold(Run(ttl, calls[..k]), calls[k]) {
      EndsHoldIs(ttl, calls, k);
    }
  }

  // ----- the principal and the acting-tenant gate ---------------------------------------------

  /** A sign-in that completed, left its cookie, told a principal, and that nothing has ended since. */
  ghost predicate StandingSignIn(ttl: int, calls: seq<Call>, j: nat) {
    && j < |calls| && calls[j].SignIn? && !ClosedBefore(calls, j)
    && calls[j].outcome.Completed? && !calls[j].flow.WebauthnAuthentication?
    && Run(ttl, calls[..j + 1]).cookie != "" && Holds(ttl, calls, j)
  }

  /** While the hold lasts the call at j is the last that moved the gate and the device token. */
  lemma {:induction false} HeldFrom(ttl: int, calls: seq<Call>, upTo: nat, j: nat)
    requires j < upTo <= |calls| && forall k | j < k < upTo :: !EndsHold(ttl, calls, k)
    ensures var then_, now := Run(ttl, calls[..j + 1]), Run(ttl, calls[..upTo]);
            now.scope == then_.scope && now.deviceToken == then_.deviceToken
    decreases upTo
  {
    if j + 1 < upTo {
      HeldFrom(ttl, calls, upTo - 1, j);
      EndsHoldIs(ttl, calls, upTo - 1);
      OneCallOn(ttl, calls, upTo - 1);
      CallMovesCredentials(Run(ttl, calls[..upTo - 1]), ttl, calls[upTo - 1]);
    }
  }

  lemma StandingSignInIsKnown(ttl: int, calls: seq<Call>, j: nat)
    requires StandingSignIn(ttl, calls, j)
    ensures Run(ttl, calls).scope == Known(calls[j].outcome.organizationLevel, calls[j].outcome.reachable)
  {
    HeldFrom(ttl, calls, |calls|, j);
    assert calls[..|calls|] == calls;
    ClosedBeforeIs(ttl, calls, j);
    OneCallOn(ttl, calls, j);
  }

  lemma KnownStands(ttl: int, calls: seq<Call>) returns (j: nat)
    requires Run(ttl, calls).scope.Known?
    ensures StandingSignIn(ttl, calls, j)
  {
    j := KnownScopeIsTheLastSignIns(ttl, calls);
    HoldsIs(ttl, calls, j);
    ClosedBeforeIs(ttl, calls, j);
  }

  /** On every run the session knows exactly what the sign-in that stands said, organization level and reachable
      tenants, and nothing if none stands. */
  lemma KnownIsWhatStands(ttl: int, calls: seq<Call>)
    ensures forall j: nat | StandingSignIn(ttl, calls, j) ::
              Run(ttl, calls).scope == Known(calls[j].outcome.organizationLevel, calls[j].outcome.reachable)
    ensures (forall j: nat :: !StandingSignIn(ttl, calls, j)) ==> Run(ttl, calls).scope == Unknown
  {
    forall j: nat | StandingSignIn(ttl, calls, j)
      ensures Run(ttl, calls).scope == Known(calls[j].outcome.organizationLevel, calls[j].outcome.reachable)
    {
      StandingSignInIsKnown(ttl, calls, j);
    }
    if Run(ttl, calls).scope.Known? {
      var j := KnownStands(ttl, calls);
    }
  }

  /** On every run a handle for a tenant is granted exactly when nothing closed the session and the sign-in that
      stands, if one does, told of a principal at organization level who reaches every tenant, or this one. */
  lemma GateOnEveryRun(ttl: int, calls: seq<Call>, tenant: string)
    ensures Grants(Run(ttl, calls), tenant) <==>
            && !ClosedBefore(calls, |calls|)
            && forall j: nat | StandingSignIn(ttl, calls, j) ::
                 && calls[j].outcome.organizationLevel
                 && (calls[j].outcome.reachable == None || tenant in calls[j].outcome.reachable.value)
  {
    ClosedByAClose(ttl, calls);
    KnownIsWhatStands(ttl, calls);
    if Run(ttl, calls).scope.Known? {
      var j := KnownStands(ttl, calls);
    }
  }

  // ----- the tokens and the cookie ------------------------------------------------------------

  ghost predicate StandingDevice(ttl: int, calls: seq<Call>, j: nat) {
    && j < |calls| && calls[j].AuthenticateDevice? && !ClosedBefore(calls, j) && calls[j].token.Some?
    && Holds(ttl, calls, j)
  }

  lemma StandingDeviceIsHeld(ttl: int, calls: seq<Call>, j: nat)
    requires StandingDevice(ttl, calls, j)
    ensures Run(ttl, calls).deviceToken == calls[j].token.value
  {
    HeldFrom(ttl, calls, |calls|, j);
    assert calls[..|calls|] == calls;
    ClosedBeforeIs(ttl, calls, j);
    OneCallOn(ttl, calls, j);
  }

  lemma HeldStands(ttl: int, calls: seq<Call>) returns (j: nat)
    requires Run(ttl, calls).deviceToken != ""
    ensures StandingDevice(ttl, calls, j)
  {
    j := DeviceTokenIsHeldUntilReplaced(ttl, calls);
    HoldsIs(ttl, calls, j);
    ClosedBeforeIs(ttl, calls, j);
  }

  /** On every run the device token held is that of the device login that stands, and there is none if none does. */
  lemma DeviceTokenIsWhatStands(ttl: int, calls: seq<Call>)
    ensures forall j: nat | StandingDevice(ttl, calls, j) :: Run(ttl, calls).deviceToken == calls[j].token.value
    ensures (forall j: nat :: !StandingDevice(ttl, calls, j)) ==> Run(ttl, calls).deviceToken == ""
  {
    forall j: nat | StandingDevice(ttl, calls, j) ensures Run(ttl, calls).deviceToken == calls[j].token.value {
      StandingDeviceIsHeld(ttl, calls, j);
    }
    if Run(ttl, calls).deviceToken != "" {
      var j := HeldStands(ttl, calls);
    }
  }

  /** The call adopts a token, a device's or a grant's. */
  predicate AdoptsOne(calls: seq<Call>, k: nat)
    requires k < |calls|
  {
    Takes(calls, k) && (calls[k].AuthenticateDevice? || calls[k].AdoptToken?) && calls[k].token.Some?
  }

  predicate StandingGrant(calls: seq<Call>, j: nat) {
    && j < |calls| && calls[j].AdoptToken? && AdoptsOne(calls, j)
    && forall k | j < k < |calls| :: !AdoptsOne(calls, k)
  }

  lemma AdoptsOneIs(ttl: int, calls: seq<Call>, k: nat)
    requires k < |calls|
    ensures AdoptsOne(calls, k) <==> Adopts(Run(ttl, calls[..k]), calls[k])
  {
    ClosedBeforeIs(ttl, calls, k);
  }

  lemma {:induction false} StandingGrantIsHeld(ttl: int, calls: seq<Call>, j: nat)
    requires StandingGrant(calls, j)
    ensures Run(ttl, calls).oidcToken == calls[j].token.value
    decreases |calls|
  {
    var n := |calls| - 1;
    var init := calls[..n];
    AdoptsOneIs(ttl, calls, n);
    CallMovesCredentials(Run(ttl, init), ttl, calls[n]);
    if j < n {
      forall k | j <= k < n ensures AdoptsOne(init, k) <==> AdoptsOne(calls, k) {
        assert ClosedBefore(init, k) <==> ClosedBefore(calls, k) by {
          assert forall i | 0 <= i < n :: init[i] == calls[i];
        }
      }
      StandingGrantIsHeld(ttl, init, j);
    }
  }

  lemma GrantStands(ttl: int, calls: seq<Call>) returns (j: nat)
    requires Run(ttl, calls).oidcToken != ""
    ensures StandingGrant(calls, j)
  {
    j := GrantTokenWasAdopted(ttl, calls);
    AdoptsOneIs(ttl, calls, j);
    forall k | j < k < |calls| ensures !AdoptsOne(calls, k) {
      AdoptsOneIs(ttl, calls, k);
    }
  }

  /** On every run the grant's token held is the one adopted last, unless a device login has dropped it since. */
  lemma GrantTokenIsWhatStands(ttl: int, calls: seq<Call>)
    ensures forall j: nat | StandingGrant(calls, j) :: Run(ttl, calls).oidcToken == calls[j].token.value
    ensures (forall j: nat :: !StandingGrant(calls, j)) ==> Run(ttl, calls).oidcToken == ""
  {
    forall j: nat | StandingGrant(calls, j) ensures Run(ttl, calls).oidcToken == calls[j].token.value {
      StandingGrantIsHeld(ttl, calls, j);
    }
    if Run(ttl, calls).oidcToken != "" {
      var j := GrantStands(ttl, calls);
    }
  }

  /** The call's answer leaves this in the jar. A refresh and a logout ask only with a session cookie. */
  predicate LeavesInJar(ttl: int, calls: seq<Call>, k: nat, cookie: string)
    requires k < |calls|
  {
    && Takes(calls, k)
    && (|| calls[k].SignIn? || calls[k].CompleteSso? || calls[k].JarChanges?
        || ((calls[k].Refresh? || calls[k].Logout?) && Run(ttl, calls[..k]).cookie != ""))
    && calls[k].jar == Some(cookie)
  }

  ghost predicate TouchesJar(ttl: int, calls: seq<Call>, k: nat)
    requires k < |calls|
  {
    exists cookie :: LeavesInJar(ttl, calls, k, cookie)
  }

  ghost predicate StandingCookie(ttl: int, calls: seq<Call>, j: nat, cookie: string) {
    && j < |calls| && LeavesInJar(ttl, calls, j, cookie)
    && forall k | j < k < |calls| :: !TouchesJar(ttl, calls, k)
  }

  lemma LeavesInJarIs(ttl: int, calls: seq<Call>, k: nat, cookie: string)
    requires k < |calls|
    ensures LeavesInJar(ttl, calls, k, cookie) <==> JarSet(Run(ttl, calls[..k]), calls[k]) == Some(cookie)
  {
    ClosedBeforeIs(ttl, calls, k);
  }

  lemma TouchesJarIs(ttl: int, calls: seq<Call>, k: nat)
    requires k < |calls|
    ensures TouchesJar(ttl, calls, k) <==> JarSet(Run(ttl, calls[..k]), calls[k]).Some?
  {
    var set_ := JarSet(Run(ttl, calls[..k]), calls[k]);
    if set_.Some? {
      LeavesInJarIs(ttl, calls, k, set_.value);
    }
    if cookie :| LeavesInJar(ttl, calls, k, cookie) {
      LeavesInJarIs(ttl, calls, k, cookie);
    }
  }

  /** The jar's cookie is what the call at j left, while no other touched it. */
  lemma {:induction false} CookieFrom(ttl: int, calls: seq<Call>, upTo: nat, j: nat)
    requires j < upTo <= |calls| && forall k | j < k < upTo :: !TouchesJar(ttl, calls, k)
    ensures Run(ttl, calls[..upTo]).cookie == Run(ttl, calls[..j + 1]).cookie
    decreases upTo
  {
    if j + 1 < upTo {
      CookieFrom(ttl, calls, upTo - 1, j);
      TouchesJarIs(ttl, calls, upTo - 1);
      OneCallOn(ttl, calls, upTo - 1);
      CallMovesCredentials(Run(ttl, calls[..upTo - 1]), ttl, calls[upTo - 1]);
    }
  }

  lemma StandingCookieIsHeld(ttl: int, calls: seq<Call>, j: nat, cookie: string)
    requires StandingCookie(ttl, calls, j, cookie)
    ensures Run(ttl, calls).cookie == cookie
  {
    CookieFrom(ttl, calls, |calls|, j);
    assert calls[..|calls|] == calls;
    LeavesInJarIs(ttl, calls, j, cookie);
    OneCallOn(ttl, calls, j);
    CallMovesCredentials(Run(ttl, calls[..j]), ttl, calls[j]);
  }

  /** A cookie in the jar was left by a call. */
  lemma {:induction false} CookieWasLeft(ttl: int, calls: seq<Call>, upTo: nat) returns (j: nat)
    requires upTo <= |calls| && Run(ttl, calls[..upTo]).cookie != ""
    ensures j < upTo && TouchesJar(ttl, calls, j) && forall k | j < k < upTo :: !TouchesJar(ttl, calls, k)
    decreases upTo
  {
    assert upTo > 0 by {
      assert calls[..0] == [];
    }
    j := upTo - 1;
    TouchesJarIs(ttl, calls, j);
    if !TouchesJar(ttl, calls, j) {
      OneCallOn(ttl, calls, j);
      CallMovesCredentials(Run(ttl, calls[..j]), ttl, calls[j]);
      j := CookieWasLeft(ttl, calls, upTo - 1);
    }
  }

  /** On every run the session cookie is the one left in the jar last, and there is none if none was left. */
  lemma CookieIsWhatStands(ttl: int, calls: seq<Call>)
    ensures forall j: nat, cookie | StandingCookie(ttl, calls, j, cookie) :: Run(ttl, calls).cookie == cookie
    ensures (forall j: nat, cookie :: !StandingCookie(ttl, calls, j, cookie)) ==> Run(ttl, calls).cookie == ""
  {
    forall j: nat, cookie | StandingCookie(ttl, calls, j, cookie) ensures Run(ttl, calls).cookie == cookie {
      StandingCookieIsHeld(ttl, calls, j, cookie);
    }
    assert calls[..|calls|] == calls;
    if Run(ttl, calls).cookie != "" {
      var j := CookieWasLeft(ttl, calls, |calls|);
      var cookie :| LeavesInJar(ttl, calls, j, cookie);
      assert StandingCookie(ttl, calls, j, cookie);
    }
  }

  /** What a request carries of what is held: nothing of it to another origin or an OAuth2 endpoint; else the caller's
      own header before an adopted token, and a cookie only where no device token is held. */
  lemma RequestCarries(s: Session, r: Request)
    ensures !r.sameOrigin || r.oauth2 ==> Authorization(s, r) == r.authorization && CookieSent(s, r) == ""
    ensures r.sameOrigin && !r.oauth2 ==>
              && CookieSent(s, r) == (if s.deviceToken != "" then "" else s.cookie)
              && (r.authorization != "" ==> Authorization(s, r) == r.authorization)
              && (r.authorization == "" && s.deviceToken != "" ==> Authorization(s, r) == "Bearer " + s.deviceToken)
              && (r.authorization == "" && s.deviceToken == "" && s.oidcToken != "" ==>
                    Authorization(s, r) == "Bearer " + s.oidcToken)
              && (r.authorization == "" && s.deviceToken == "" && s.oidcToken == "" ==> Authorization(s, r) == "")
  {
  }

  /** On every run a plain request carries the header of the device login that stands, and no cookie. */
  lemma RequestOfADevice(ttl: int, calls: seq<Call>, j: nat)
    requires StandingDevice(ttl, calls, j) && calls[j].token.value != ""
    ensures var s, r := Run(ttl, calls), Request(true, false, "");
            Authorization(s, r) == "Bearer " + calls[j].token.value && CookieSent(s, r) == ""
  {
    StandingDeviceIsHeld(ttl, calls, j);
  }

  /** If none stands, it carries the cookie that stands beside the header of the grant that does. */
  lemma RequestWithoutADevice(ttl: int, calls: seq<Call>, j: nat, cookie: string, g: nat)
    requires forall k: nat :: !StandingDevice(ttl, calls, k)
    requires StandingCookie(ttl, calls, j, cookie) && StandingGrant(calls, g) && calls[g].token.value != ""
    ensures var s, r := Run(ttl, calls), Request(true, false, "");
            Authorization(s, r) == "Bearer " + calls[g].token.value && CookieSent(s, r) == cookie
  {
    DeviceTokenIsWhatStands(ttl, calls);
    StandingCookieIsHeld(ttl, calls, j, cookie);
    StandingGrantIsHeld(ttl, calls, g);
  }

  // ----- what the memo may answer -------------------------------------------------------------

  /** The call drops every memoized decision. */
  predicate DropsDecisions(ttl: int, calls: seq<Call>, k: nat)
    requires k < |calls|
  {
    || calls[k].SignIn? || calls[k].Refresh? || calls[k].Logout? || calls[k].Close? || CompletesSso(ttl, calls, k)
    || (calls[k].AuthenticateDevice? && calls[k].token.Some?)
  }

  /** What the memo would answer a check after these calls. */
  function MemoAnswer(ttl: int, calls: seq<Call>, call: Call): Option<DecisionMemo.AccessResult>
    requires call.CheckAccess?
  {
    DecisionMemo.Answer(Run(ttl, calls).memo, ttl, DecisionMemo.MemoKey(call.check, call.tenant), call.now)
  }

  /** On every run of an open session, what the server answered a check the memo did not is served to the same check
      for the same acting tenant, while it is fresh. */
  lemma AnswerIsServedAgain(ttl: int, calls: seq<Call>, call: Call, again: Call)
    requires call.CheckAccess? && again.CheckAccess? && again.check == call.check && again.tenant == call.tenant
    requires ttl > 0 && !ClosedBefore(calls, |calls|) && MemoAnswer(ttl, calls, call) == None
    requires call.served.Some? && again.now - call.storedAt < ttl
    ensures MemoAnswer(ttl, calls + [call], again) == call.served
  {
    var key, longer := DecisionMemo.MemoKey(call.check, call.tenant), calls + [call];
    ClosedByAClose(ttl, calls);
    MemoFollowsTheCalls(ttl, longer);
    assert longer[..|longer| - 1] == calls;
    assert LogOf(ttl, longer) == LogOf(ttl, calls) + [DecisionMemo.Get(key, call.now)]
                                 + [DecisionMemo.Set(key, call.served.value, call.storedAt)];
    DecisionMemo.JustSetHits(ttl, LogOf(ttl, calls) + [DecisionMemo.Get(key, call.now)], key, call.served.value,
                             call.storedAt, again.now);
  }

  /** A check the server did not answer leaves nothing in the memo that was not there. */
  lemma FailureIsNotStored(s: Session, ttl: int, call: Call, key: string, now: int)
    requires call.CheckAccess? && call.served == None
    ensures var after := DecisionMemo.Answer(After(s, ttl, call).memo, ttl, key, now);
            after.Some? ==> after == DecisionMemo.Answer(s.memo, ttl, key, now)
  {
  }

  lemma {:induction false} ClosedIsEmpty(ttl: int, calls: seq<Call>)
    requires Run(ttl, calls).closed
    ensures Run(ttl, calls).memo == DecisionMemo.EMPTY_MEMO
  {
    var init, last := calls[..|calls| - 1], calls[|calls| - 1];
    if !last.Close? {
      ClosedIsEmpty(ttl, init);
    }
  }

  /** A closed session answers nothing. */
  lemma NothingAfterAClose(ttl: int, calls: seq<Call>, key: string, now: int)
    requires ClosedBefore(calls, |calls|)
    ensures DecisionMemo.Answer(Run(ttl, calls).memo, ttl, key, now) == None
  {
    ClosedByAClose(ttl, calls);
    ClosedIsEmpty(ttl, calls);
  }

  /** A session that is open was open before each call. */
  lemma OpenThroughout(ttl: int, calls: seq<Call>, k: nat)
    requires !Run(ttl, calls).closed && k < |calls|
    ensures !Run(ttl, calls[..k]).closed
  {
    ClosedByAClose(ttl, calls);
    ClosedBeforeIs(ttl, calls, k);
  }

  /** On every run, whatever ttl was asked for: an answer from the memo is the server's to the same check for the
      same acting tenant, less than five seconds old, on a session nothing has closed; and there has been no
      sign-in, refresh, logout, completed SSO completion or device login since. */
  lemma HitOnEveryRun(asked: int, calls: seq<Call>, call: Call) returns (j: nat)
    requires call.CheckAccess? && AllClean(calls) && DecisionMemo.Clean(call.check, call.tenant)
    requires MemoAnswer(DecisionMemo.ClampedTtl(asked), calls, call).Some?
    ensures var ttl := DecisionMemo.ClampedTtl(asked);
            && j < |calls| && calls[j].CheckAccess? && calls[j].check == call.check && calls[j].tenant == call.tenant
            && calls[j].served == MemoAnswer(ttl, calls, call)
            && call.now - calls[j].storedAt < 5_000_000_000 && call.now - calls[j].storedAt < asked
            && !ClosedBefore(calls, |calls|)
            && forall k | j < k < |calls| :: !DropsDecisions(ttl, calls, k)
  {
    var ttl := DecisionMemo.ClampedTtl(asked);
    j := MemoizedAnswerWasServed(ttl, calls, call);
    if Run(ttl, calls).closed {
      ClosedIsEmpty(ttl, calls);
    }
    ClosedByAClose(ttl, calls);
    forall k | j < k < |calls| ensures !DropsDecisions(ttl, calls, k) {
      OpenThroughout(ttl, calls, k);
      OneCallOn(ttl, calls, k);
      CallMovesCredentials(Run(ttl, calls[..k]), ttl, calls[k]);
      assert !Clears(Run(ttl, calls[..k]), calls[k]);
    }
  }
}
