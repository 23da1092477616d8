/** The read-modify-write form of a stream (management_checks.go): ToInput, ToInputWith and its event cut,
    against a server whose update replaces the whole stream. */
module SsfStreams {
  import opened Wrappers
  import opened Nullables

  /** A stream as read. An update time of "" is one the server did not send. */
  datatype Stream = Stream(audience: string, deliveryMethod: string, description: Option<string>,
                           endpointUrl: Option<string>, eventsAllowed: seq<string>, eventsRequested: seq<string>,
                           receiverClientId: string, status: string, statusReason: Option<string>,
                           subjectFormat: string, updatedAt: string)

  /** The replacement body: a None member is left out. eventsRequested None resets to every allowed event. */
  datatype Input = Input(audience: string, authorizationHeader: Option<string>, clearAuthorizationHeader: Option<bool>,
                         deliveryMethod: string, description: Option<string>, endpointUrl: Option<string>,
                         eventsAllowed: seq<string>, eventsRequested: Option<seq<string>>,
                         expectedUpdatedAt: Option<string>, receiverClientId: string, status: Option<string>,
                         statusReason: Option<string>, subjectFormat: Option<string>)

  datatype Changes = Changes(audience: Option<string>, authorizationHeader: Option<string>,
                             clearAuthorizationHeader: Option<bool>, deliveryMethod: Option<string>,
                             description: Nullable<string>, endpointUrl: Nullable<string>,
                             eventsAllowed: Option<seq<string>>, eventsRequested: Option<seq<string>>,
                             expectedUpdatedAt: Nullable<string>, receiverClientId: Option<string>,
                             status: Option<string>, statusReason: Nullable<string>, subjectFormat: Option<string>)

  const NO_CHANGES := Changes(None, None, None, None, Absent, Absent, None, None, Absent, None, None, Absent, None)

  function ToInput(s: Stream): Input {
    Input(s.audience, None, None, s.deliveryMethod, s.description, s.endpointUrl, s.eventsAllowed,
          Some(s.eventsRequested), if s.updatedAt != "" then Some(s.updatedAt) else None, s.receiverClientId,
          Some(s.status), s.statusReason, Some(s.subjectFormat))
  }

  /** The events a ceiling still holds, in their order. */
  function CutTo(ceiling: seq<string>, events: seq<string>): seq<string> {
    if events == [] then []
    else CutTo(ceiling, events[..|events| - 1]) + if events[|events| - 1] in ceiling then [events[|events| - 1]] else []
  }

  function ApplyNullable(member: Option<string>, change: Nullable<string>): Option<string> {
    match change
    case Absent => member
    case Null => None
    case Value(v) => Some(v)
  }

  method CutEvents(ceiling: seq<string>, events: seq<string>) returns (cut: seq<string>)
    ensures cut == CutTo(ceiling, events)
  {
    cut := [];
    for i := 0 to |events|
      invariant cut == CutTo(ceiling, events[..i])
    {
      assert events[..i + 1][..i] == events[..i];
      if events[i] in ceiling {
        cut := cut + [events[i]];
      }
    }
    assert events[..|events|] == events;
  }

  /** The body a set of changes over a read stands for, member by member: a stated change over what was
      read, null for none, and the header members only when stated. */
  function InputWith(s: Stream, c: Changes): Input {
    Input(c.audience.GetOr(s.audience), c.authorizationHeader, c.clearAuthorizationHeader,
          c.deliveryMethod.GetOr(s.deliveryMethod), NullableOrRead(c.description, s.description),
          NullableOrRead(c.endpointUrl, s.endpointUrl), c.eventsAllowed.GetOr(s.eventsAllowed),
          Some(RequestedEvents(s, c)), NullableOrRead(c.expectedUpdatedAt, ToInput(s).expectedUpdatedAt),
          c.receiverClientId.GetOr(s.receiverClientId), Some(c.status.GetOr(s.status)),
          NullableOrRead(c.statusReason, s.statusReason), Some(c.subjectFormat.GetOr(s.subjectFormat)))
  }

  /** The change-taking form, step by step. */
  method ToInputWith(s: Stream, changes: Changes) returns (in_: Input)
    ensures in_ == InputWith(s, changes)
  {
    var read := ToInput(s);
    var audience, deliveryMethod, receiverClientId := read.audience, read.deliveryMethod, read.receiverClientId;
    if changes.audience.Some? {
      audience := changes.audience.value;
    }
    if changes.deliveryMethod.Some? {
      deliveryMethod := changes.deliveryMethod.value;
    }
    if changes.receiverClientId.Some? {
      receiverClientId := changes.receiverClientId.value;
    }
    var status, subjectFormat := read.status, read.subjectFormat;
    if changes.status.Some? {
      status := changes.status;
    }
    if changes.subjectFormat.Some? {
      subjectFormat := changes.subjectFormat;
    }
    var description := ApplyNullable(read.description, changes.description);
    var endpointUrl := ApplyNullable(read.endpointUrl, changes.endpointUrl);
    var statusReason := ApplyNullable(read.statusReason, changes.statusReason);
    var expectedUpdatedAt := ApplyNullable(read.expectedUpdatedAt, changes.expectedUpdatedAt);

    var eventsRequested, eventsAllowed := read.eventsRequested, read.eventsAllowed;
    if changes.eventsRequested.Some? {
      eventsRequested := changes.eventsRequested;
    } else if changes.eventsAllowed.Some? {
      var cut := CutEvents(changes.eventsAllowed.value, s.eventsRequested);
      eventsRequested := Some(cut);
    }
    if changes.eventsAllowed.Some? {
      eventsAllowed := changes.eventsAllowed.value;
    }
    in_ := Input(audience, changes.authorizationHeader, changes.clearAuthorizationHeader, deliveryMethod, description,
                 endpointUrl, eventsAllowed, eventsRequested, expectedUpdatedAt, receiverClientId, status, statusReason,
                 subjectFormat);
  }

  /** The list a stated change asks for, or the read's, cut to a new ceiling. */
  function RequestedEvents(s: Stream, changes: Changes): seq<string> {
    match changes.eventsRequested
    case Some(events) => events
    case None =>
      if changes.eventsAllowed.Some? then CutTo(changes.eventsAllowed.value, s.eventsRequested) else s.eventsRequested
  }

  /** Changing nothing re-states the stream. */
  lemma NoChangesIsToInput(s: Stream)
    ensures InputWith(s, NO_CHANGES) == ToInput(s)
  {
  }

  /** The cut is the order-preserving filter by the ceiling: it cuts a list part by part, and keeps a single
      event exactly when the ceiling holds it. */
  lemma {:induction false} CutIsAnOrderedFilter(ceiling: seq<string>, a: seq<string>, b: seq<string>)
    ensures CutTo(ceiling, a + b) == CutTo(ceiling, a) + CutTo(ceiling, b)
    ensures forall e :: CutTo(ceiling, [e]) == if e in ceiling then [e] else []
  {
    forall e ensures CutTo(ceiling, [e]) == if e in ceiling then [e] else [] {
      assert [e][..0] == [];
    }
    if b == [] {
      assert a + b == a;
    } else {
      assert (a + b)[..|a + b| - 1] == a + b[..|b| - 1];
      CutIsAnOrderedFilter(ceiling, a, b[..|b| - 1]);
    }
  }

  /** After the cut nothing outside the new ceiling is requested, and a list the ceiling already holds is not
      cut at all. */
  lemma {:induction false} CutFitsTheCeiling(ceiling: seq<string>, events: seq<string>)
    ensures forall e | e in CutTo(ceiling, events) :: e in ceiling && e in events
    ensures (forall e | e in events :: e in ceiling) <==> CutTo(ceiling, events) == events
  {
    if events != [] {
      var init, last := events[..|events| - 1], events[|events| - 1];
      CutFitsTheCeiling(ceiling, init);
      assert events == init + [last];
      if CutTo(ceiling, events) == events {
        assert last in events;
      }
    }
  }

  /** A server whose update replaces the stream: a member left out takes its default, and an events list left
      out every allowed event. The write lands only on the version it names. */
  function Replaced(stored: Stream, input: Input, now: string): Option<Stream> {
    if input.expectedUpdatedAt.Some? && input.expectedUpdatedAt.value != stored.updatedAt then None
    else if input.eventsRequested.Some? && exists e | e in input.eventsRequested.value :: e !in input.eventsAllowed then
      None
    else
      Some(Stream(input.audience, input.deliveryMethod, input.description, input.endpointUrl, input.eventsAllowed,
                  input.eventsRequested.GetOr(input.eventsAllowed), input.receiverClientId,
                  input.status.GetOr("enabled"), input.statusReason, input.subjectFormat.GetOr("iss_sub"), now))
  }

  /** A member after the update: as stated, or else as it was. */
  predicate Stays<T(==)>(stated: Option<T>, was: T, held: T) {
    match stated
    case None => held == was
    case Some(v) => held == v
  }

  predicate StaysOptional(stated: Nullable<string>, was: Option<string>, held: Option<string>) {
    match stated
    case Absent => held == was
    case Null => held == None
    case Value(v) => held == Some(v)
  }

  /** The events asked for after the update: as stated, or as they were, cut to a new ceiling. */
  predicate EventsStay(c: Changes, was: seq<string>, held: seq<string>) {
    match c.eventsRequested
    case Some(events) => held == events
    case None =>
      match c.eventsAllowed
      case None => held == was
      case Some(ceiling) => held == CutTo(ceiling, was)
  }

  /** Only what the changes name is different. */
  predicate ChangedAsNamed(was: Stream, c: Changes, held: Stream) {
    && Stays(c.audience, was.audience, held.audience)
    && Stays(c.deliveryMethod, was.deliveryMethod, held.deliveryMethod)
    && Stays(c.receiverClientId, was.receiverClientId, held.receiverClientId)
    && Stays(c.status, was.status, held.status)
    && Stays(c.subjectFormat, was.subjectFormat, held.subjectFormat)
    && StaysOptional(c.description, was.description, held.description)
    && StaysOptional(c.endpointUrl, was.endpointUrl, held.endpointUrl)
    && StaysOptional(c.statusReason, was.statusReason, held.statusReason)
    && Stays(c.eventsAllowed, was.eventsAllowed, held.eventsAllowed)
    && EventsStay(c, was.eventsRequested, held.eventsRequested)
  }

  predicate Within(events: seq<string>, ceiling: seq<string>) {
    forall e | e in events :: e in ceiling
  }

  /** The events the changes lead to are within the ceiling they lead to: a cut list always is. */
  predicate EventsFit(c: Changes, was: Stream) {
    match c.eventsRequested
    case Some(events) =>
      (match c.eventsAllowed
       case Some(ceiling) => Within(events, ceiling)
       case None => Within(events, was.eventsAllowed))
    case None => c.eventsAllowed.None? ==> Within(was.eventsRequested, was.eventsAllowed)
  }

  /** Read, change, replace. With nobody else writing, the update lands exactly when the events it asks for fit
      the ceiling and a version the changes state is the one stored; and then it changes only what the changes
      name, apart from the cut. A version left unstated, or cleared, never stands in the way. */
  lemma ReplaceChangesOnlyWhatIsNamed(stored: Stream, c: Changes, now: string)
    ensures var after := Replaced(stored, InputWith(stored, c), now);
            && (after.Some? <==>
                  && EventsFit(c, stored)
                  && (c.expectedUpdatedAt.Value? ==> c.expectedUpdatedAt.value == stored.updatedAt))
            && (after.Some? ==> ChangedAsNamed(stored, c, after.value) && after.value.updatedAt == now)
  {
    CutFitsTheCeiling(c.eventsAllowed.GetOr([]), stored.eventsRequested);
  }

  /** The Authorization header the server keeps for the endpoint, which no read returns: a body may set it or clear it,
      and one that does neither keeps it. A body that does both is refused, so the order is nobody's to see. */
  function HeaderAfter(kept: Option<string>, input: Input): Option<string> {
    if input.clearAuthorizationHeader == Some(true) then None
    else if input.authorizationHeader.Some? then input.authorizationHeader
    else kept
  }

  /** Only changes that state a header, or that it be cleared, touch it. */
  lemma HeaderStaysUnlessStated(kept: Option<string>, s: Stream, c: Changes)
    requires !(c.authorizationHeader.Some? && c.clearAuthorizationHeader == Some(true))
    ensures HeaderAfter(kept, ToInput(s)) == kept
    ensures HeaderAfter(kept, InputWith(s, c)) ==
            match c.authorizationHeader
            case Some(header) => Some(header)
            case None => if c.clearAuthorizationHeader == Some(true) then None else kept
  {
  }

  /** When somebody wrote in between, the update lands over their write exactly when the changes clear the
      version, or the read had none, or state the one now stored: otherwise the version read stands in the way. */
  lemma ReplaceMeetsTheVersionItNames(read: Stream, stored: Stream, c: Changes, now: string)
    requires EventsFit(c, read)
    ensures Replaced(stored, InputWith(read, c), now).Some? <==>
            match c.expectedUpdatedAt
            case Absent => read.updatedAt == "" || read.updatedAt == stored.updatedAt
            case Null => true
            case Value(v) => v == stored.updatedAt
  {
    CutFitsTheCeiling(c.eventsAllowed.GetOr([]), read.eventsRequested);
  }
}
