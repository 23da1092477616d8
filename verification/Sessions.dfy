/** The session every handle of a client shares (client.go and the calls that change its credential) and the
    memoized access check (authz.go), each public call one atomic step. */
module Sessions {
  import opened Wrappers
  import opened DecisionMemo

  /** What the session knows of the signed-in principal's reach; reachable None is unrestricted. */
  datatype Scope = Unknown | Known(organizationLevel: bool, reachable: Option<seq<string>>)

  /** A token is "" when none is held, and cookie, the jar's session cookie, when the jar holds none. */
  datatype Session = Session(
    memo: Memo,
    scope: Scope,
    deviceToken: string,
    oidcToken: string,
    cookie: string,
    closed: bool
  )

  const NEW_SESSION := Session(EMPTY_MEMO, Unknown, "", "", "", false)

  /** A sign-in either completes, with the principal's reach, or does not (an error, or a step still to come such
      as MFA). */
  datatype Outcome = Completed(organizationLevel: bool, reachable: Option<seq<string>>) | NotCompleted

  /** The calls that drop what the session holds before their request, and may complete a sign-in. A WebAuthn
      authentication completes without telling a principal's reach. */
  datatype SignInFlow = Password | Opaque | Mfa | MfaSetup | WebauthnSetup | WebauthnAuthentication

  /** The grants whose access token a client may adopt as its bearer. */
  datatype Grant = ClientCredentials | DeviceGrant | NativeSignIn | Backchannel

  /** One public call and what the server answered it. served is the decision a check got if it asked,
      storedAt when it was stored; a device login or a grant that failed has no token. jar is the session cookie
      the answer left in the jar, if it touched it: the jar takes it with the headers, whether or not the call
      then completes. decoded says that the rest of an SSO answer was read too. JarChanges is any other request's
      answer, or the cookie's own expiry. A call that is refused before it changes anything is no call. */
  datatype Call =
    | CheckAccess(tenant: Option<string>, check: AccessCheck, now: int, served: Option<AccessResult>, storedAt: int)
    | SignIn(flow: SignInFlow, outcome: Outcome, jar: Option<string>)
    | CompleteSso(decoded: bool, jar: Option<string>)
    | Refresh(jar: Option<string>)
    | Logout(jar: Option<string>)
    | AuthenticateDevice(token: Option<string>)
    | AdoptToken(grant: Grant, token: Option<string>)
    | JarChanges(jar: Option<string>)
    | Close

  /** A check asks the server when the memo has no live answer, and stores what the server answered. */
  predicate Stores(s: Session, ttl: int, call: Call) {
    && call.CheckAccess? && !s.closed && call.served.Some?
    && Answer(s.memo, ttl, MemoKey(call.check, call.tenant), call.now).None?
  }

  function AfterCheck(s: Session, ttl: int, call: Call): Memo
    requires call.CheckAccess?
  {
    var key := MemoKey(call.check, call.tenant);
    var asked := Step(s.memo, ttl, Get(key, call.now));
    if Stores(s, ttl, call) then Step(asked, ttl, Set(key, call.served.value, call.storedAt)) else asked
  }

  /** The calls that do not ask whether the client is closed: an SSO completion, and every adoption but the
      backchannel one; and what is no call of the client's own. */
  predicate IgnoresClose(call: Call) {
    call.CompleteSso? || call.JarChanges? || (call.AdoptToken? && !call.grant.Backchannel?)
  }

  /** What the call's answer makes the jar hold, if it touches it. A refresh or a logout without a session cookie
      sends no request. */
  function JarSet(s: Session, call: Call): Option<string> {
    if s.closed && !IgnoresClose(call) then None
    else
      match call
      case SignIn(_, _, jar) => jar
      case CompleteSso(_, jar) => jar
      case Refresh(jar) => if s.cookie == "" then None else jar
      case Logout(jar) => if s.cookie == "" then None else jar
      case JarChanges(jar) => jar
      case _ => None
  }

  function CookieAfter(s: Session, call: Call): string {
    JarSet(s, call).GetOr(s.cookie)
  }

  /** An SSO completion completes, and only then drops what the session held, when its answer was read and the
      jar holds a session cookie. */
  predicate SsoCompletes(s: Session, call: Call) {
    call.CompleteSso? && call.decoded && CookieAfter(s, call) != ""
  }

  /** What a sign-in tells of its principal: nothing unless it completes with a session cookie in the jar. */
  function Principal(s: Session, call: Call): Scope
    requires call.SignIn?
  {
    if call.outcome.Completed? && !call.flow.WebauthnAuthentication? && CookieAfter(s, call) != ""
    then Known(call.outcome.organizationLevel, call.outcome.reachable) else Unknown
  }

  /** What a sign-in leaves: nothing of the principal before it but its cookie, whether it completes or not. */
  function SignedIn(s: Session, scope: Scope, cookie: string): Session {
    s.(memo := EMPTY_MEMO, scope := scope, deviceToken := "", cookie := cookie)
  }

  function After(s: Session, ttl: int, call: Call): Session {
    if call.Close? then s.(closed := true, memo := EMPTY_MEMO)
    else if s.closed && !IgnoresClose(call) then s
    else
      match call
      case CheckAccess(_, _, _, _, _) => s.(memo := AfterCheck(s, ttl, call))
      case SignIn(_, _, _) => SignedIn(s, Principal(s, call), CookieAfter(s, call))
      case CompleteSso(_, _) =>
        if SsoCompletes(s, call) then SignedIn(s, Unknown, CookieAfter(s, call)) else s.(cookie := CookieAfter(s, call))
      case Refresh(_) => s.(memo := EMPTY_MEMO, cookie := CookieAfter(s, call))
      case Logout(_) => SignedIn(s, Unknown, CookieAfter(s, call))
      case AuthenticateDevice(token) =>
        if token.None? then s else s.(memo := EMPTY_MEMO, scope := Unknown, deviceToken := token.value, oidcToken := "")
      case AdoptToken(_, token) =>
        if token.None? then s else s.(scope := Unknown, deviceToken := "", oidcToken := token.value)
      case JarChanges(_) => s.(cookie := CookieAfter(s, call))
  }

  /** The session after a run of calls made through any handles. */
  function Run(ttl: int, calls: seq<Call>): Session {
    if calls == [] then NEW_SESSION else After(Run(ttl, calls[..|calls| - 1]), ttl, calls[|calls| - 1])
  }

  // ----- where a memoized answer comes from ---------------------------------------------------

  /** The call drops every memoized decision. */
  predicate Clears(s: Session, call: Call) {
    || call.Close? || SsoCompletes(s, call)
    || (!s.closed && (call.SignIn? || call.Refresh? || call.Logout? || (call.AuthenticateDevice? && call.token.Some?)))
  }

  /** A token of a grant is adopted. */
  predicate AdoptsToken(s: Session, call: Call) {
    call.AdoptToken? && call.token.Some? && (s.closed ==> IgnoresClose(call))
  }

  /** The memo operations of one call. */
  function Ops(s: Session, ttl: int, call: Call): seq<Op> {
    if Clears(s, call) then [Op.Clear]
    else if !call.CheckAccess? || s.closed then []
    else
      var key := MemoKey(call.check, call.tenant);
      [Get(key, call.now)] + if Stores(s, ttl, call) then [Set(key, call.served.value, call.storedAt)] else []
  }

  function LogOf(ttl: int, calls: seq<Call>): seq<Op> {
    if calls == [] then []
    else LogOf(ttl, calls[..|calls| - 1]) + Ops(Run(ttl, calls[..|calls| - 1]), ttl, calls[|calls| - 1])
  }

  function StepAll(m: Memo, ttl: int, ops: seq<Op>): Memo {
    if ops == [] then m else Step(StepAll(m, ttl, ops[..|ops| - 1]), ttl, ops[|ops| - 1])
  }

  lemma {:induction false} RunAppends(ttl: int, log: seq<Op>, ops: seq<Op>)
    ensures DecisionMemo.Run(ttl, log + ops) == StepAll(DecisionMemo.Run(ttl, log), ttl, ops)
  {
    if ops == [] {
      assert log + ops == log;
    } else {
      RunAppends(ttl, log, ops[..|ops| - 1]);
      assert (log + ops)[..|log + ops| - 1] == log + ops[..|ops| - 1];
    }
  }

  lemma CallStepsTheMemo(s: Session, ttl: int, call: Call)
    ensures After(s, ttl, call).memo == StepAll(s.memo, ttl, Ops(s, ttl, call))
  {
    var ops := Ops(s, ttl, call);
    if |ops| == 1 {
      assert ops[..0] == [];
    } else if |ops| == 2 {
      assert ops[..1] == [ops[0]] && ops[..1][..0] == [];
      assert StepAll(s.memo, ttl, ops[..1]) == Step(StepAll(s.memo, ttl, []), ttl, ops[0]);
    }
  }

  /** The session's memo is the memo of the operations its calls made. */
  lemma {:induction false} MemoFollowsTheCalls(ttl: int, calls: seq<Call>)
    ensures Run(ttl, calls).memo == DecisionMemo.Run(ttl, LogOf(ttl, calls))
  {
    if calls != [] {
      var init, last := calls[..|calls| - 1], calls[|calls| - 1];
      MemoFollowsTheCalls(ttl, init);
      CallStepsTheMemo(Run(ttl, init), ttl, last);
      RunAppends(ttl, LogOf(ttl, init), Ops(Run(ttl, init), ttl, last));
    }
  }

  /** Call j asked the server and stored its answer under this key. */
  predicate StoredUnder(ttl: int, calls: seq<Call>, j: nat, key: string)
    requires j < |calls|
  {
    Stores(Run(ttl, calls[..j]), ttl, calls[j]) && MemoKey(calls[j].check, calls[j].tenant) == key
  }

  predicate KeptSince(ttl: int, calls: seq<Call>, j: nat) {
    forall k | j < k < |calls| :: !Clears(Run(ttl, calls[..k]), calls[k])
  }

  /** The call that stored the decision a key now holds, if no call has cleared the memo since. */
  function LastStore(ttl: int, calls: seq<Call>, key: string): (j: Option<nat>)
    ensures j.Some? ==> j.value < |calls| && calls[j.value].CheckAccess? && calls[j.value].served.Some?
  {
    if calls == [] then None
    else
      var init, last := calls[..|calls| - 1], calls[|calls| - 1];
      if Clears(Run(ttl, init), last) then None
      else if Stores(Run(ttl, init), ttl, last) && MemoKey(last.check, last.tenant) == key then Some(|calls| - 1)
      else LastStore(ttl, init, key)
  }

  lemma {:induction false} LastStoreIsKept(ttl: int, calls: seq<Call>, key: string)
    requires LastStore(ttl, calls, key).Some?
    ensures StoredUnder(ttl, calls, LastStore(ttl, calls, key).value, key)
    ensures KeptSince(ttl, calls, LastStore(ttl, calls, key).value)
  {
    var init, last := calls[..|calls| - 1], calls[|calls| - 1];
    var j := LastStore(ttl, calls, key).value;
    if j < |init| {
      LastStoreIsKept(ttl, init, key);
      assert init[..j] == calls[..j] && init[j] == calls[j];
      forall k | j < k < |calls| ensures !Clears(Run(ttl, calls[..k]), calls[k]) {
        assert k < |init| ==> init[..k] == calls[..k] && init[k] == calls[k];
      }
    }
  }

  /** How one call's operations move the last set of a key. */
  lemma CallMovesLastSet(s: Session, ttl: int, call: Call, log: seq<Op>, key: string)
    ensures var log' := log + Ops(s, ttl, call);
            var stored := !Clears(s, call) && Stores(s, ttl, call) && MemoKey(call.check, call.tenant) == key;
            && |log| <= |log'| && log'[..|log|] == log
            && (Clears(s, call) ==> LastSet(log', key).None?)
            && (stored ==>
                  && LastSet(log', key).Some?
                  && log'[LastSet(log', key).value] == Set(key, call.served.value, call.storedAt))
            && (!Clears(s, call) && !stored ==> LastSet(log', key) == LastSet(log, key))
  {
    var ops := Ops(s, ttl, call);
    if |ops| == 0 {
      assert log + ops == log;
    } else if |ops| == 1 {
      assert ops == [ops[0]];
      LastSetAppends(log, ops[0], key);
    } else {
      assert log + ops == log + [ops[0]] + [ops[1]];
      LastSetAppends(log, ops[0], key);
      LastSetAppends(log + [ops[0]], ops[1], key);
    }
  }

  lemma {:induction false} StoresAreTheSets(ttl: int, calls: seq<Call>, key: string)
    ensures LastSet(LogOf(ttl, calls), key).Some? <==> LastStore(ttl, calls, key).Some?
    ensures LastStore(ttl, calls, key).Some? ==>
              var by_ := calls[LastStore(ttl, calls, key).value];
              LogOf(ttl, calls)[LastSet(LogOf(ttl, calls), key).value] == Set(key, by_.served.value, by_.storedAt)
  {
    if calls != [] {
      var init, last := calls[..|calls| - 1], calls[|calls| - 1];
      StoresAreTheSets(ttl, init, key);
      CallMovesLastSet(Run(ttl, init), ttl, last, LogOf(ttl, init), key);
    }
  }

  /** Every check of the run asks a clean question. */
  predicate AllClean(calls: seq<Call>) {
    forall call | call in calls && call.CheckAccess? :: Clean(call.check, call.tenant)
  }

  /** On every run, over any handles: an answer served from the memo was given by the server to the same
      check for the same acting tenant, less than ttl ago, and no sign-in, SSO completion, refresh, logout,
      device login or close has happened since. */
  lemma MemoizedAnswerWasServed(ttl: int, calls: seq<Call>, call: Call) returns (j: nat)
    requires call.CheckAccess? && AllClean(calls) && Clean(call.check, call.tenant)
    requires Answer(Run(ttl, calls).memo, ttl, MemoKey(call.check, call.tenant), call.now).Some?
    ensures j < |calls| && calls[j].CheckAccess?
    ensures calls[j].check == call.check && calls[j].tenant == call.tenant
    ensures calls[j].served == Answer(Run(ttl, calls).memo, ttl, MemoKey(call.check, call.tenant), call.now)
    ensures call.now - calls[j].storedAt < ttl
    ensures Stores(Run(ttl, calls[..j]), ttl, calls[j])
    ensures KeptSince(ttl, calls, j)
  {
    var key := MemoKey(call.check, call.tenant);
    MemoFollowsTheCalls(ttl, calls);
    HitIsTheLastSet(ttl, LogOf(ttl, calls), key, call.now);
    StoresAreTheSets(ttl, calls, key);
    LastStoreIsKept(ttl, calls, key);
    j := LastStore(ttl, calls, key).value;
    MemoKeyIsInjective(calls[j].check, calls[j].tenant, call.check, call.tenant);
  }

  /** A session is closed only by a Close, and a closed one stores nothing. */
  lemma {:induction false} OpenUntilClosed(ttl: int, calls: seq<Call>, j: nat, k: nat)
    requires j < k < |calls| && KeptSince(ttl, calls, j)
    requires Stores(Run(ttl, calls[..j]), ttl, calls[j])
    ensures !Run(ttl, calls[..k]).closed
    decreases k
  {
    assert calls[..k][..k - 1] == calls[..k - 1];
    if j < k - 1 {
      OpenUntilClosed(ttl, calls, j, k - 1);
    }
  }

  // ----- the device credential and the acting-tenant gate -------------------------------------

  /** The call ends the hold of a device token. */
  predicate EndsDeviceHold(s: Session, call: Call) {
    || AdoptsToken(s, call) || SsoCompletes(s, call)
    || (!s.closed && (call.SignIn? || call.Logout? || (call.AuthenticateDevice? && call.token.Some?)))
  }

  /** Nothing ended the hold after call j. */
  ghost predicate HeldSince(ttl: int, calls: seq<Call>, j: nat) {
    forall k | j < k < |calls| :: !EndsDeviceHold(Run(ttl, calls[..k]), calls[k])
  }

  lemma HeldOneMore(ttl: int, calls: seq<Call>, j: nat)
    requires calls != [] && HeldSince(ttl, calls[..|calls| - 1], j)
    requires !EndsDeviceHold(Run(ttl, calls[..|calls| - 1]), calls[|calls| - 1])
    ensures HeldSince(ttl, calls, j)
  {
    var init := calls[..|calls| - 1];
    forall k | j < k < |calls| ensures !EndsDeviceHold(Run(ttl, calls[..k]), calls[k]) {
      if k < |init| {
        assert init[..k] == calls[..k] && init[k] == calls[k];
      }
    }
  }

  lemma CallMovesCredentials(s: Session, ttl: int, call: Call)
    ensures var t := After(s, ttl, call);
            && t.cookie == CookieAfter(s, call)
            && (!EndsDeviceHold(s, call) ==>
                  t.deviceToken == s.deviceToken && t.scope == s.scope && t.oidcToken == s.oidcToken)
            && (EndsDeviceHold(s, call) ==>
                  && t.deviceToken == (if call.AuthenticateDevice? then call.token.value else "")
                  && t.scope == (if call.SignIn? then Principal(s, call) else Unknown)
                  && t.oidcToken == (if call.AuthenticateDevice? then ""
                                     else if call.AdoptToken? then call.token.value else s.oidcToken))
  {
  }

  /** A held device token was adopted by a device login that nothing has replaced since; while it is held
      the acting-tenant gate is unknown and no other bearer token is held. Refresh keeps both. */
  lemma {:induction false} DeviceTokenIsHeldUntilReplaced(ttl: int, calls: seq<Call>) returns (j: nat)
    requires Run(ttl, calls).deviceToken != ""
    ensures j < |calls| && calls[j] == AuthenticateDevice(Some(Run(ttl, calls).deviceToken))
    ensures !Run(ttl, calls[..j]).closed
    ensures Run(ttl, calls).scope == Unknown && Run(ttl, calls).oidcToken == ""
    ensures HeldSince(ttl, calls, j)
  {
    var init, last := calls[..|calls| - 1], calls[|calls| - 1];
    CallMovesCredentials(Run(ttl, init), ttl, last);
    if EndsDeviceHold(Run(ttl, init), last) {
      j := |calls| - 1;
    } else {
      j := DeviceTokenIsHeldUntilReplaced(ttl, init);
      HeldOneMore(ttl, calls, j);
      assert init[..j] == calls[..j];
    }
  }

  /** What the gate knows is what the last sign-in that completed said, and nothing has replaced or ended that
      principal since. */
  lemma {:induction false} KnownScopeIsTheLastSignIns(ttl: int, calls: seq<Call>) returns (j: nat)
    requires Run(ttl, calls).scope.Known?
    ensures j < |calls| && !Run(ttl, calls[..j]).closed
    ensures calls[j].SignIn? && calls[j].outcome.Completed? && Run(ttl, calls[..j + 1]).cookie != ""
    ensures Run(ttl, calls).scope == Known(calls[j].outcome.organizationLevel, calls[j].outcome.reachable)
    ensures !calls[j].flow.WebauthnAuthentication?
    ensures HeldSince(ttl, calls, j) && Run(ttl, calls).deviceToken == ""
  {
    var init, last := calls[..|calls| - 1], calls[|calls| - 1];
    CallMovesCredentials(Run(ttl, init), ttl, last);
    if EndsDeviceHold(Run(ttl, init), last) {
      j := |calls| - 1;
      assert calls[..j + 1] == calls;
    } else {
      j := KnownScopeIsTheLastSignIns(ttl, init);
      HeldOneMore(ttl, calls, j);
      assert init[..j] == calls[..j] && init[..j + 1] == calls[..j + 1];
    }
  }

  // ----- the bearer token requests carry ------------------------------------------------------

  /** The adopted token, if any: the device token, or else that of a grant. */
  function Bearer(s: Session): string {
    if s.deviceToken == "" then s.oidcToken else s.deviceToken
  }

  /** The call adopts a token as the client's bearer: a device's, or a grant's. */
  predicate Adopts(s: Session, call: Call) {
    AdoptsToken(s, call) || (call.AuthenticateDevice? && !s.closed && call.token.Some?)
  }

  /** On every run at most one adopted token is held, so the order they are looked up in never matters. */
  lemma {:induction false} OneTokenAtMost(ttl: int, calls: seq<Call>)
    ensures Run(ttl, calls).deviceToken == "" || Run(ttl, calls).oidcToken == ""
  {
    if calls != [] {
      OneTokenAtMost(ttl, calls[..|calls| - 1]);
      CallMovesCredentials(Run(ttl, calls[..|calls| - 1]), ttl, calls[|calls| - 1]);
    }
  }

  ghost predicate NoneAdoptedSince(ttl: int, calls: seq<Call>, j: nat) {
    forall k | j < k < |calls| :: !Adopts(Run(ttl, calls[..k]), calls[k])
  }

  lemma NoneAdoptedOneMore(ttl: int, calls: seq<Call>, j: nat)
    requires calls != [] && NoneAdoptedSince(ttl, calls[..|calls| - 1], j)
    requires !Adopts(Run(ttl, calls[..|calls| - 1]), calls[|calls| - 1])
    ensures NoneAdoptedSince(ttl, calls, j)
  {
    var init := calls[..|calls| - 1];
    forall k | j < k < |calls| ensures !Adopts(Run(ttl, calls[..k]), calls[k]) {
      if k < |init| {
        assert init[..k] == calls[..k] && init[k] == calls[k];
      }
    }
  }

  /** The token held is the last one adopted. */
  lemma {:induction false} BearerIsTheLastAdopted(ttl: int, calls: seq<Call>) returns (j: nat)
    requires Bearer(Run(ttl, calls)) != ""
    ensures j < |calls| && Adopts(Run(ttl, calls[..j]), calls[j]) && calls[j].token == Some(Bearer(Run(ttl, calls)))
    ensures NoneAdoptedSince(ttl, calls, j)
  {
    var init, last := calls[..|calls| - 1], calls[|calls| - 1];
    var s := Run(ttl, init);
    OneTokenAtMost(ttl, init);
    CallMovesCredentials(s, ttl, last);
    if Adopts(s, last) {
      j := |calls| - 1;
    } else {
      j := BearerIsTheLastAdopted(ttl, init);
      assert init[..j] == calls[..j];
      NoneAdoptedOneMore(ttl, calls, j);
    }
  }

  // ----- the credential the server reads ------------------------------------------------------

  /** Whom a request acts for: the server reads the session cookie before the header and does not fall back, and
      no cookie is sent while a device token is held (rule 11 of section 6.1 of CONTRACT.md). */
  datatype Credential = Nobody | OfDevice(token: string) | OfCookie(cookie: string) | OfGrant(token: string)

  function Acting(s: Session): Credential {
    if s.deviceToken != "" then OfDevice(s.deviceToken)
    else if s.cookie != "" then OfCookie(s.cookie)
    else if s.oidcToken != "" then OfGrant(s.oidcToken)
    else Nobody
  }

  /** The cookie the last call after j that touched the jar left there. */
  function JarSetSince(ttl: int, calls: seq<Call>, j: int): Option<string>
    requires -1 <= j < |calls|
    decreases |calls|
  {
    if |calls| <= j + 1 then None
    else
      var init := calls[..|calls| - 1];
      var last := JarSet(Run(ttl, init), calls[|calls| - 1]);
      if last.Some? then last else JarSetSince(ttl, init, j)
  }

  lemma {:induction false} CookieIsTheLastSet(ttl: int, calls: seq<Call>, j: int)
    requires -1 <= j < |calls|
    ensures Run(ttl, calls).cookie == JarSetSince(ttl, calls, j).GetOr(Run(ttl, calls[..j + 1]).cookie)
    decreases |calls|
  {
    if |calls| <= j + 1 {
      assert calls[..j + 1] == calls;
    } else {
      var init := calls[..|calls| - 1];
      CookieIsTheLastSet(ttl, init, j);
      CallMovesCredentials(Run(ttl, init), ttl, calls[|calls| - 1]);
      assert init[..j + 1] == calls[..j + 1];
    }
  }

  /** On every run: requests act for the device while its token is held; or else for the session whose cookie an
      answer left in the jar last; or else, and only without such a cookie, for the token adopted last. */
  lemma ActingOnEveryRun(ttl: int, calls: seq<Call>) returns (j: nat)
    requires calls != []
    ensures match Acting(Run(ttl, calls))
            case OfDevice(token) =>
              j < |calls| && calls[j] == AuthenticateDevice(Some(token)) && HeldSince(ttl, calls, j)
            case OfCookie(cookie) => JarSetSince(ttl, calls, -1) == Some(cookie)
            case OfGrant(token) =>
              && j < |calls| && calls[j].AdoptToken? && calls[j].token == Some(token) && NoneAdoptedSince(ttl, calls, j)
              && JarSetSince(ttl, calls, -1).GetOr("") == ""
            case Nobody => Bearer(Run(ttl, calls)) == "" && JarSetSince(ttl, calls, -1).GetOr("") == ""
  {
    j := 0;
    var s := Run(ttl, calls);
    CookieIsTheLastSet(ttl, calls, -1);
    assert calls[..0] == [];
    if s.deviceToken != "" {
      j := DeviceTokenIsHeldUntilReplaced(ttl, calls);
    } else if s.oidcToken != "" {
      j := GrantTokenWasAdopted(ttl, calls);
    }
  }

  /** A grant's token is held only since it was adopted: a device token adopted later would have dropped it. */
  lemma {:induction false} GrantTokenWasAdopted(ttl: int, calls: seq<Call>) returns (j: nat)
    requires Run(ttl, calls).oidcToken != ""
    ensures j < |calls| && calls[j].AdoptToken? && calls[j].token == Some(Run(ttl, calls).oidcToken)
    ensures Adopts(Run(ttl, calls[..j]), calls[j]) && NoneAdoptedSince(ttl, calls, j)
  {
    var init, last := calls[..|calls| - 1], calls[|calls| - 1];
    CallMovesCredentials(Run(ttl, init), ttl, last);
    if Adopts(Run(ttl, init), last) {
      j := |calls| - 1;
    } else {
      j := GrantTokenWasAdopted(ttl, init);
      assert init[..j] == calls[..j];
      NoneAdoptedOneMore(ttl, calls, j);
    }
  }

  /** An adopted grant's token is not read at all exactly while the jar holds a session cookie. */
  lemma TokenIsReadWithoutACookie(ttl: int, calls: seq<Call>)
    requires Run(ttl, calls).oidcToken != ""
    ensures Acting(Run(ttl, calls)) == OfGrant(Run(ttl, calls).oidcToken) <==> Run(ttl, calls).cookie == ""
  {
    OneTokenAtMost(ttl, calls);
  }

  /** The principal a credential names, where who tells whose a cookie or a token is. */
  function PrincipalOf(c: Credential, who: string -> string): Option<string> {
    match c
    case Nobody => None
    case OfDevice(token) => Some(who(token))
    case OfCookie(cookie) => Some(who(cookie))
    case OfGrant(token) => Some(who(token))
  }

  /** On every run on which the gate knows a principal: it is the principal of the cookie its sign-in left, and
      requests act for it exactly when what touched the jar last since, if anything did, left a cookie of that
      principal, or none over an adopted token of it. */
  lemma GatesPrincipalActs(ttl: int, calls: seq<Call>, who: string -> string) returns (j: nat)
    requires Run(ttl, calls).scope.Known?
    ensures j < |calls| && calls[j].SignIn? && calls[j].outcome.Completed?
    ensures Run(ttl, calls).scope == Known(calls[j].outcome.organizationLevel, calls[j].outcome.reachable)
    ensures var cookie := Run(ttl, calls[..j + 1]).cookie;
            && cookie != ""
            && (PrincipalOf(Acting(Run(ttl, calls)), who) == Some(who(cookie)) <==>
                  match JarSetSince(ttl, calls, j)
                  case None => true
                  case Some(later) =>
                    if later != "" then who(later) == who(cookie)
                    else Run(ttl, calls).oidcToken != "" && who(Run(ttl, calls).oidcToken) == who(cookie))
  {
    j := KnownScopeIsTheLastSignIns(ttl, calls);
    CookieIsTheLastSet(ttl, calls, j);
  }

  /** A login over an adopted token: the token stays held and is sent, and is not read, for the login's cookie is
      read first. */
  lemma LoginActsOverAToken(grant: Grant)
    ensures var s := Run(5, [AdoptToken(grant, Some("t")), SignIn(Password, Completed(true, None), Some("a"))]);
            s.scope == Known(true, None) && Bearer(s) == "t" && Acting(s) == OfCookie("a")
  {
    TwoCalls(5, AdoptToken(grant, Some("t")), SignIn(Password, Completed(true, None), Some("a")));
  }

  /** The call signs the session's principal out or another one in. */
  predicate ReplacesPrincipal(s: Session, call: Call) {
    (!s.closed && (call.SignIn? || call.Logout?)) || SsoCompletes(s, call)
  }

  /** A grant's token outlives every sign-in, SSO completion and logout: right after one of them it is held as
      before, and requests act for it exactly when the jar is left without a session cookie. */
  lemma GrantTokenOutlivesThePrincipal(s: Session, ttl: int, call: Call)
    requires ReplacesPrincipal(s, call)
    ensures Bearer(After(s, ttl, call)) == s.oidcToken
    ensures s.oidcToken != "" ==> (Acting(After(s, ttl, call)) == OfGrant(s.oidcToken) <==> CookieAfter(s, call) == "")
  {
    CallMovesCredentials(s, ttl, call);
  }

  /** One run: the principal that logged in over an adopted token logs out, the answer takes the session cookie
      away, and requests act for the token again. */
  lemma LogoutKeepsTheToken(grant: Grant)
    ensures var login := SignIn(Password, Completed(true, None), Some("a"));
            var calls := [AdoptToken(grant, Some("t")), login, Logout(Some(""))];
            Acting(Run(5, calls[..2])) == OfCookie("a") && Acting(Run(5, calls)) == OfGrant("t")
  {
    ThreeCalls(5, AdoptToken(grant, Some("t")), SignIn(Password, Completed(true, None), Some("a")), Logout(Some("")));
  }

  lemma TwoCalls(ttl: int, first: Call, second: Call)
    ensures Run(ttl, [first, second]) == After(After(NEW_SESSION, ttl, first), ttl, second)
  {
    assert [first, second][..1] == [first] && [first][..0] == [];
    assert Run(ttl, []) == NEW_SESSION;
    assert Run(ttl, [first]) == After(NEW_SESSION, ttl, first);
  }

  lemma ThreeCalls(ttl: int, first: Call, second: Call, third: Call)
    ensures [first, second, third][..2] == [first, second]
    ensures Run(ttl, [first, second]) == After(After(NEW_SESSION, ttl, first), ttl, second)
    ensures Run(ttl, [first, second, third]) == After(Run(ttl, [first, second]), ttl, third)
  {
    TwoCalls(ttl, first, second);
    assert [first, second, third][..2] == [first, second];
  }

  // ----- memoized answers and the credential that got them ------------------------------------

  /** The token of the last grant adopted after call j. */
  function AdoptedSince(calls: seq<Call>, j: nat): Option<string>
    requires j < |calls|
    decreases |calls|
  {
    if |calls| == j + 1 then None
    else
      var last := calls[|calls| - 1];
      if last.AdoptToken? && last.token.Some? then last.token else AdoptedSince(calls[..|calls| - 1], j)
  }

  /** Since a check stored an answer that is still memoized, only adoptions move the tokens. */
  lemma {:induction false} TokensSinceAStore(ttl: int, calls: seq<Call>, j: nat)
    requires j < |calls| && Stores(Run(ttl, calls[..j]), ttl, calls[j]) && KeptSince(ttl, calls, j)
    ensures var then_, now := Run(ttl, calls[..j]), Run(ttl, calls);
            && now.deviceToken == (if AdoptedSince(calls, j).Some? then "" else then_.deviceToken)
            && now.oidcToken == AdoptedSince(calls, j).GetOr(then_.oidcToken)
            && then_.cookie == Run(ttl, calls[..j + 1]).cookie
    decreases |calls|
  {
    var init, last := calls[..|calls| - 1], calls[|calls| - 1];
    CallMovesCredentials(Run(ttl, init), ttl, last);
    if |calls| == j + 1 {
      assert init == calls[..j] && calls[..j + 1] == calls;
    } else {
      assert init[..j] == calls[..j] && init[..j + 1] == calls[..j + 1] && init[j] == calls[j];
      KeptOneLess(ttl, calls, j);
      TokensSinceAStore(ttl, init, j);
      OpenUntilClosed(ttl, calls, j, |init|);
    }
  }

  lemma KeptOneLess(ttl: int, calls: seq<Call>, j: nat)
    requires j + 1 < |calls| && KeptSince(ttl, calls, j)
    ensures KeptSince(ttl, calls[..|calls| - 1], j) && !Clears(Run(ttl, calls[..|calls| - 1]), calls[|calls| - 1])
  {
    var init := calls[..|calls| - 1];
    forall k | j < k < |init| ensures !Clears(Run(ttl, init[..k]), init[k]) {
      assert init[..k] == calls[..k] && init[k] == calls[k];
    }
  }

  /** Exactly when a hit was answered to the credential requests now act for. An answer a device token got: when no
      token has been adopted since. One a session cookie got: when what touched the jar last since, if anything
      did, left that cookie. One a grant's token got: when the jar has been left without a cookie, and the token
      adopted last is that one. */
  lemma HitIsOfTheCurrentCredential(ttl: int, calls: seq<Call>, call: Call) returns (j: nat)
    requires call.CheckAccess? && AllClean(calls) && Clean(call.check, call.tenant)
    requires Answer(Run(ttl, calls).memo, ttl, MemoKey(call.check, call.tenant), call.now).Some?
    ensures j < |calls| && calls[j].CheckAccess? && calls[j].check == call.check && calls[j].tenant == call.tenant
    ensures calls[j].served == Answer(Run(ttl, calls).memo, ttl, MemoKey(call.check, call.tenant), call.now)
    ensures Acting(Run(ttl, calls)) == Acting(Run(ttl, calls[..j])) <==>
            match Acting(Run(ttl, calls[..j]))
            case OfDevice(_) => AdoptedSince(calls, j).None?
            case OfCookie(cookie) => JarSetSince(ttl, calls, j).GetOr(cookie) == cookie
            case OfGrant(token) =>
              JarSetSince(ttl, calls, j).GetOr("") == "" && AdoptedSince(calls, j).GetOr(token) == token
            case Nobody =>
              JarSetSince(ttl, calls, j).GetOr("") == "" && AdoptedSince(calls, j).GetOr("") == ""
  {
    j := MemoizedAnswerWasServed(ttl, calls, call);
    TokensSinceAStore(ttl, calls, j);
    CookieIsTheLastSet(ttl, calls, j);
  }

  const READ_DOC := AccessCheck("read", "doc", "", "")
  const ALLOWED := AccessResult(true, "", "allowed")

  /** Rule 9 of section 17.1 of CONTRACT.md asks that any credential change clear the memo. Adopting a token over a
      device token does not, by whatever grant: the answer the device got is served to the token. */
  lemma AdoptionKeepsTheMemo(grant: Grant)
    ensures var check := CheckAccess(None, READ_DOC, 0, Some(ALLOWED), 0);
            var calls := [AuthenticateDevice(Some("d")), check, AdoptToken(grant, Some("t"))];
            && Acting(Run(5, calls[..2])) == OfDevice("d") && Acting(Run(5, calls)) == OfGrant("t")
            && Answer(Run(5, calls).memo, 5, MemoKey(READ_DOC, None), 1) == Some(ALLOWED)
  {
    var check := CheckAccess(None, READ_DOC, 0, Some(ALLOWED), 0);
    ThreeCalls(5, AuthenticateDevice(Some("d")), check, AdoptToken(grant, Some("t")));
    assert Stores(After(NEW_SESSION, 5, AuthenticateDevice(Some("d"))), 5, check);
  }

  /** Nor does an SSO completion whose answer stored its cookie and then could not be read: the answer the previous
      session got is served to the new one, and the gate still describes the previous principal. */
  lemma UnreadSsoKeepsTheMemo(flow: SignInFlow)
    requires flow != WebauthnAuthentication
    ensures var check := CheckAccess(None, READ_DOC, 0, Some(ALLOWED), 0);
            var calls := [SignIn(flow, Completed(true, None), Some("a")), check, CompleteSso(false, Some("b"))];
            && Acting(Run(5, calls[..2])) == OfCookie("a") && Acting(Run(5, calls)) == OfCookie("b")
            && Run(5, calls).scope == Known(true, None)
            && Answer(Run(5, calls).memo, 5, MemoKey(READ_DOC, None), 1) == Some(ALLOWED)
  {
    var login := SignIn(flow, Completed(true, None), Some("a"));
    var check := CheckAccess(None, READ_DOC, 0, Some(ALLOWED), 0);
    ThreeCalls(5, login, check, CompleteSso(false, Some("b")));
    assert Stores(After(NEW_SESSION, 5, login), 5, check);
  }

  // ----- what one request carries -------------------------------------------------------------

  /** What of a request decides which credentials it carries: whether it goes to the client's own origin, whether
      to an OAuth2 endpoint there, and the header its caller set, "" for none. */
  datatype Request = Request(sameOrigin: bool, oauth2: bool, authorization: string)

  /** The Authorization header a request leaves with. */
  function Authorization(s: Session, r: Request): string {
    if r.sameOrigin && !r.oauth2 && r.authorization == "" && Bearer(s) != "" then "Bearer " + Bearer(s)
    else r.authorization
  }

  /** The session cookie a request leaves with. */
  function CookieSent(s: Session, r: Request): string {
    if r.sameOrigin && !r.oauth2 && s.deviceToken == "" then s.cookie else ""
  }

  /** What the server reads of a request: its cookie, or else its header. */
  function ReadFrom(cookie: string, authorization: string): string {
    if cookie != "" then cookie else authorization
  }

  /** A plain request of the client's is read as the credential it acts for, cookie or header. */
  lemma PlainRequestsAreReadAsActing(s: Session)
    ensures var r := Request(true, false, "");
            ReadFrom(CookieSent(s, r), Authorization(s, r)) ==
            match Acting(s)
            case Nobody => ""
            case OfDevice(token) => "Bearer " + token
            case OfCookie(cookie) => cookie
            case OfGrant(token) => "Bearer " + token
  {
  }

  /** A request leaves with a header its caller did not set exactly when it goes to the client's own origin, not to
      an OAuth2 endpoint, and a token is held; and the header then carries the last token adopted. */
  lemma RequestsCarryTheLastToken(ttl: int, calls: seq<Call>, r: Request) returns (j: nat)
    ensures Authorization(Run(ttl, calls), r) != r.authorization <==>
            r.sameOrigin && !r.oauth2 && r.authorization == "" && Bearer(Run(ttl, calls)) != ""
    ensures Authorization(Run(ttl, calls), r) != r.authorization ==>
              && j < |calls| && Adopts(Run(ttl, calls[..j]), calls[j]) && NoneAdoptedSince(ttl, calls, j)
              && Authorization(Run(ttl, calls), r) == "Bearer " + calls[j].token.value
  {
    j := 0;
    if Bearer(Run(ttl, calls)) != "" {
      j := BearerIsTheLastAdopted(ttl, calls);
    }
  }

  /** checkActingTenantReach: a refusal only on what a login result said. */
  predicate Reaches(scope: Scope, tenant: string) {
    scope.Known? ==> scope.organizationLevel && (scope.reachable.Some? ==> tenant in scope.reachable.value)
  }

  /** A handle for the tenant is granted: an open session, whose principal, if it is known, reaches it. */
  predicate Grants(s: Session, tenant: string) {
    !s.closed && Reaches(s.scope, tenant)
  }

  // ----- the code's form ----------------------------------------------------------------------

  class ClientSession {
    const memo: DecisionCache
    var scope: Scope
    var deviceToken: string
    var oidcToken: string
    var cookie: string
    var closed: bool

    constructor (ttl: int)
      ensures Valid() && View() == NEW_SESSION && fresh(memo) && memo.ttl == ClampedTtl(ttl) <= 5_000_000_000
    {
      memo := new DecisionCache(ttl);
      scope, deviceToken, oidcToken, cookie, closed := Unknown, "", "", "", false;
    }

    function View(): Session
      reads this, memo
    {
      Session(memo.View(), scope, deviceToken, oidcToken, cookie, closed)
    }

    ghost predicate Valid()
      reads this, memo
    {
      memo.Valid()
    }
  }

  /** A handle: the session it shares, and the acting tenant it alone carries. */
  class Client {
    const session: ClientSession
    const actingTenant: Option<string>

    constructor (session: ClientSession, actingTenant: Option<string>)
      ensures this.session == session && this.actingTenant == actingTenant
    {
      this.session, this.actingTenant := session, actingTenant;
    }

    /** A new handle on the same session, or a refusal; this handle and the session are as they were. */
    method ActingTenant(tenant: string) returns (next: Option<Client>)
      ensures next.Some? <==> Grants(session.View(), tenant)
      ensures next.Some? ==> next.value.session == session && next.value.actingTenant == Some(tenant)
    {
      if session.closed {
        return None;
      }
      if session.scope.Known? {
        if !session.scope.organizationLevel {
          return None;
        }
        if session.scope.reachable.Some? {
          var ids := session.scope.reachable.value;
          var reachable := false;
          for i := 0 to |ids|
            invariant reachable <==> tenant in ids[..i]
          {
            if ids[i] == tenant {
              reachable := true;
              assert tenant in ids;
              break;
            }
          }
          assert !reachable ==> ids[..|ids|] == ids;
          if !reachable {
            return None;
          }
        }
      }
      var handle := new Client(session, Some(tenant));
      next := Some(handle);
    }

    method ClearActingTenant() returns (next: Client)
      ensures next.session == session && next.actingTenant == None
    {
      next := new Client(session, None);
    }

    /** checkAccessWithRetry: the memo first, then the server, whose answer alone is stored. */
    method Check(check: AccessCheck, now: int, served: Option<AccessResult>, storedAt: int)
      returns (result: Option<AccessResult>)
      requires session.Valid()
      modifies session, session.memo
      ensures session.Valid()
      ensures session.View() ==
              After(old(session.View()), session.memo.ttl, CheckAccess(actingTenant, check, now, served, storedAt))
      ensures result ==
              if old(session.closed) then None
              else if Answer(old(session.memo.View()), session.memo.ttl, MemoKey(check, actingTenant), now).Some?
              then Answer(old(session.memo.View()), session.memo.ttl, MemoKey(check, actingTenant), now)
              else served
    {
      if session.closed {
        return None;
      }
      var key := MemoKey(check, actingTenant);
      ghost var before, log := session.memo.View(), session.memo.log;
      var memoized := session.memo.Lookup(key, now);
      RunAppends(session.memo.ttl, log, [Get(key, now)]);
      StepAllOne(before, session.memo.ttl, Get(key, now));
      if memoized.Some? {
        return memoized;
      }
      if served.None? {
        return None;
      }
      ghost var asked, asking := session.memo.View(), session.memo.log;
      session.memo.Store(key, served.value, storedAt);
      RunAppends(session.memo.ttl, asking, [Set(key, served.value, storedAt)]);
      StepAllOne(asked, session.memo.ttl, Set(key, served.value, storedAt));
      return served;
    }

    /** An answer arrives: the jar takes the session cookie its headers name, if they do. */
    method ReceiveAnswer(jar: Option<string>)
      requires session.Valid()
      modifies session`cookie
      ensures session.Valid() && session.View() == old(session.View()).(cookie := jar.GetOr(old(session.cookie)))
    {
      if jar.Some? {
        session.cookie := jar.value;
      }
    }

    /** Login, LoginOpaque, VerifyMfa, MfaSetupConfirm and the WebAuthn completions: drop what the session held, send
        the request, then record the principal if the call completes, its cookie absorbed, and tells one. */
    method SignIn(flow: SignInFlow, outcome: Outcome, jar: Option<string>) returns (ok: bool)
      requires session.Valid()
      modifies session, session.memo
      ensures session.Valid() && (ok <==> !old(session.closed))
      ensures session.View() == After(old(session.View()), session.memo.ttl, Call.SignIn(flow, outcome, jar))
    {
      if session.closed {
        return false;
      }
      session.memo.Clear();
      session.scope := Unknown;
      session.deviceToken := "";
      ReceiveAnswer(jar);
      if outcome.Completed? && session.cookie != "" && flow != WebauthnAuthentication {
        session.scope := Known(outcome.organizationLevel, outcome.reachable);
      }
      return true;
    }

    /** SsoComplete and its siblings: the same drop, but only once the answer is read and its cookie absorbed. */
    method FinishSso(decoded: bool, jar: Option<string>)
      requires session.Valid()
      modifies session, session.memo
      ensures session.Valid()
      ensures session.View() == After(old(session.View()), session.memo.ttl, CompleteSso(decoded, jar))
    {
      ReceiveAnswer(jar);
      if !decoded || session.cookie == "" {
        return;
      }
      session.memo.Clear();
      session.scope := Unknown;
      session.deviceToken := "";
    }

    method RefreshSession(jar: Option<string>) returns (ok: bool)
      requires session.Valid()
      modifies session, session.memo
      ensures session.Valid() && (ok <==> !old(session.closed))
      ensures session.View() == After(old(session.View()), session.memo.ttl, Refresh(jar))
    {
      if session.closed {
        return false;
      }
      session.memo.Clear();
      if session.cookie != "" {
        ReceiveAnswer(jar);
      }
      return true;
    }

    method LogOut(jar: Option<string>) returns (ok: bool)
      requires session.Valid()
      modifies session, session.memo
      ensures session.Valid() && (ok <==> !old(session.closed))
      ensures session.View() == After(old(session.View()), session.memo.ttl, Logout(jar))
    {
      if session.closed {
        return false;
      }
      session.memo.Clear();
      session.scope := Unknown;
      session.deviceToken := "";
      if session.cookie != "" {
        ReceiveAnswer(jar);
      }
      return true;
    }

    /** AuthenticateDevice: nothing changes unless the server issued a token; then everything held is
        dropped before the token is adopted. */
    method DeviceLogin(token: Option<string>) returns (ok: bool)
      requires session.Valid()
      modifies session, session.memo
      ensures session.Valid() && (ok <==> !old(session.closed) && token.Some?)
      ensures session.View() == After(old(session.View()), session.memo.ttl, AuthenticateDevice(token))
    {
      if session.closed {
        return false;
      }
      if token.None? {
        return false;
      }
      session.oidcToken := "";
      session.memo.Clear();
      session.scope := Unknown;
      session.deviceToken := "";
      session.deviceToken := token.value;
      return true;
    }

    /** The adoption branch of the four grants; only the backchannel one asks whether the client is closed. */
    method AdoptCredentials(grant: Grant, token: Option<string>) returns (ok: bool)
      requires session.Valid()
      modifies session
      ensures session.Valid() && (ok <==> AdoptsToken(old(session.View()), AdoptToken(grant, token)))
      ensures session.View() == After(old(session.View()), session.memo.ttl, AdoptToken(grant, token))
    {
      if grant == Backchannel && session.closed {
        return false;
      }
      if token.None? {
        return false;
      }
      session.scope := Unknown;
      session.deviceToken := "";
      session.oidcToken := token.value;
      return true;
    }

    /** decorateRequest and doRequest: the header and the session cookie a request leaves with, and the acting
        tenant it names. */
    method Decorate(r: Request) returns (authorization: string, cookie: string, tenant: Option<string>)
      ensures authorization == Authorization(session.View(), r)
      ensures cookie == CookieSent(session.View(), r)
      ensures tenant == if r.sameOrigin then actingTenant else None
    {
      authorization, cookie, tenant := r.authorization, "", None;
      if !r.sameOrigin {
        return;
      }
      tenant := actingTenant;
      var adopted := session.deviceToken;
      if adopted == "" {
        adopted := session.oidcToken;
      }
      if adopted != "" && r.authorization == "" && !r.oauth2 {
        authorization := "Bearer " + adopted;
      }
      if session.deviceToken == "" && !r.oauth2 {
        cookie := session.cookie;
      }
    }

    method CloseSession()
      requires session.Valid()
      modifies session, session.memo
      ensures session.Valid()
      ensures session.View() == After(old(session.View()), session.memo.ttl, Close)
    {
      session.closed := true;
      session.memo.Clear();
    }
  }

  lemma StepAllOne(m: Memo, ttl: int, op: Op)
    ensures StepAll(m, ttl, [op]) == Step(m, ttl, op)
  {
    assert [op][..0] == [];
  }
}
