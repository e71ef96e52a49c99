/**
 One in-flight request: the reducers that recognise its answer, and the shared
 state a reducer, a timer and a polling task all work on
 (crates/prose-xmpp/src/util/request_future.rs, crates/prose-xmpp/src/mods/mam.rs,
 crates/prose-xmpp/src/mods/muc/join_room_future.rs, send_muc_message_future.rs).
 */
module Requests {
  import opened Basics

  // ---- Incoming traffic; XML that no reducer looks into is opaque text ----

  datatype Jid = Jid(bare: string, resource: Option<string>)

  /** A payload either parses as a MAM `fin` or does not. */
  datatype Fin = Fin(xml: string)
  datatype Payload = FinPayload(fin: Fin) | OtherPayload(xml: string)
  datatype IqType =
    | IqResult(payload: Option<Payload>)
    | IqError(error: string)
    | IqGet(request: string)
    | IqSet(request: string)

  /** The MAM result of a message: none, one that does not parse, or an archived message. */
  datatype ArchivedMessage = ArchivedMessage(queryId: Option<string>, xml: string)
  datatype MamResult = NoResult | BadResult | GoodResult(archived: ArchivedMessage)
  datatype MessageStanza = MessageStanza(from: Option<Jid>, id: Option<string>, subject: Option<string>,
                                         result: MamResult, xml: string)

  /** `error`: what a presence of type error says. */
  datatype PresenceError = StanzaError(error: string) | BadError(msg: string) | NoErrorElement
  datatype PresenceStanza = PresenceStanza(from: Option<Jid>, error: Option<PresenceError>, xml: string)

  datatype XmppElement =
    | Presence(presence: PresenceStanza)
    | Message(message: MessageStanza)
    | Iq(id: string, payload: IqType)
    | PubSubMessage(xml: string)

  datatype RequestError = XmppError(error: string) | UnexpectedResponse | TimedOut | Disconnected | Generic(msg: string)

  // ---- Requests and their reducers ----

  /** An IQ, an archive query with its own query id, joining a room under a nick name, a message to a room. */
  datatype Request =
    | IqRequest(id: string)
    | MamRequest(id: string, queryId: string)
    | JoinRequest(room: string, nick: string)
    | MucMessageRequest(room: string, messageId: string)

  /** The value a request's reducer folds incoming elements into. */
  datatype ReducerState =
    | IqState(id: string, element: Option<Payload>)
    | MamState(id: string, queryId: string, fin: Option<Fin>, messages: seq<ArchivedMessage>)
    | JoinState(room: string, nick: string, presences: seq<PresenceStanza>, selfPresence: Option<PresenceStanza>,
                subject: Option<string>, history: seq<MessageStanza>)
    | MucMessageState(room: string, messageId: string, received: Option<MessageStanza>)
  {
    function Request(): (r: Request) {
      match this
      case IqState(id, _) => IqRequest(id)
      case MamState(id, q, _, _) => MamRequest(id, q)
      case JoinState(room, nick, _, _, _, _) => JoinRequest(room, nick)
      case MucMessageState(room, id, _) => MucMessageRequest(room, id)
    }
  }

  function Initial(r: Request): ReducerState {
    match r
    case IqRequest(id) => IqState(id, None)
    case MamRequest(id, q) => MamState(id, q, None, [])
    case JoinRequest(room, nick) => JoinState(room, nick, [], None, None, [])
    case MucMessageRequest(room, id) => MucMessageState(room, id, None)
  }

  datatype ReducerPoll = Pending(element: Option<XmppElement>) | Ready | Failing(error: RequestError)

  function ReduceIq(s: ReducerState, e: XmppElement): (ReducerState, ReducerPoll)
    requires s.IqState?
  {
    if !e.Iq? || e.id != s.id then (s, Pending(Some(e)))
    else match e.payload
      case IqResult(payload) => (s.(element := payload), Ready)
      case IqError(err) => (s, Failing(XmppError(err)))
      case IqGet(_) => (s, Failing(UnexpectedResponse))
      case IqSet(_) => (s, Failing(UnexpectedResponse))
  }

  function ReduceMam(s: ReducerState, e: XmppElement): (ReducerState, ReducerPoll)
    requires s.MamState?
  {
    match e
    case Iq(id, payload) =>
      if id != s.id then (s, Pending(Some(e)))
      else if payload.IqError? then (s, Failing(XmppError(payload.error)))
      else if !payload.IqResult? || payload.payload.None? then (s, Pending(Some(e)))
      else (match payload.payload.value
            case FinPayload(fin) => (s.(fin := Some(fin)), Ready)
            case OtherPayload(_) => (s, Failing(UnexpectedResponse)))
    case Message(m) =>
      if !m.result.GoodResult? || m.result.archived.queryId != Some(s.queryId) then (s, Pending(Some(e)))
      else (s.(messages := s.messages + [m.result.archived]), Pending(None))
    case _ => (s, Pending(Some(e)))
  }

  const MISSING_ERROR := "Encountered presence of type error with a missing `error` stanza."

  function ReduceJoin(s: ReducerState, e: XmppElement): (ReducerState, ReducerPoll)
    requires s.JoinState?
  {
    match e
    case Presence(p) =>
      if p.from.None? || p.from.value.resource.None? || p.from.value.bare != s.room then (s, Pending(Some(e)))
      else
        var isSelf := p.from.value.resource == Some(s.nick);
        if p.error.Some? && isSelf then
          (s, Failing(match p.error.value
                      case StanzaError(err) => XmppError(err)
                      case BadError(msg) => Generic(msg)
                      case NoErrorElement => Generic(MISSING_ERROR)))
        else if isSelf then (s.(selfPresence := Some(p)), Pending(None))
        else (s.(presences := s.presences + [p]), Pending(None))
    case Message(m) =>
      if m.from.None? || m.from.value.bare != s.room || !m.result.NoResult? then (s, Pending(Some(e)))
      else if m.subject.Some? then (s.(subject := if m.subject == Some("") then None else m.subject), Ready)
      else (s.(history := s.history + [m]), Pending(None))
    case _ => (s, Pending(Some(e)))
  }

  function ReduceMucMessage(s: ReducerState, e: XmppElement): (ReducerState, ReducerPoll)
    requires s.MucMessageState?
  {
    if !e.Message? || e.message.id != Some(s.messageId) || e.message.from.None? || e.message.from.value.bare != s.room
    then (s, Pending(Some(e)))
    else (s.(received := Some(e.message)), Ready)
  }

  function Reduce(s: ReducerState, e: XmppElement): (ReducerState, ReducerPoll) {
    match s
    case IqState(_, _) => ReduceIq(s, e)
    case MamState(_, _, _, _) => ReduceMam(s, e)
    case JoinState(_, _, _, _, _, _) => ReduceJoin(s, e)
    case MucMessageState(_, _, _) => ReduceMucMessage(s, e)
  }

  // ---- The request/answer relation, independent of any reducer ----

  /** `e` is an archived message sent in answer to query `q`. */
  predicate Bears(e: XmppElement, q: string) {
    e.Message? && e.message.result.GoodResult? && e.message.result.archived.queryId == Some(q)
  }

  /** `e` is a presence of an occupant of `room`. */
  predicate Occupies(e: XmppElement, room: string) {
    e.Presence? && e.presence.from.Some? && e.presence.from.value.bare == room && e.presence.from.value.resource.Some?
  }

  /** `e` is a presence of the occupant called `nick`. */
  predicate IsAbout(e: XmppElement, room: string, nick: string) {
    e.Presence? && e.presence.from == Some(Jid(room, Some(nick)))
  }

  /** `e` is a message from `room` or one of its occupants. */
  predicate SentIn(e: XmppElement, room: string) {
    e.Message? && e.message.from.Some? && e.message.from.value.bare == room
  }

  /** `e` is a live message of `room`, not one from an archive. */
  predicate LiveIn(e: XmppElement, room: string) { SentIn(e, room) && e.message.result.NoResult? }

  /** `e` decides request `r`: its answer, its error, or an answer of the wrong kind. */
  predicate Decides(e: XmppElement, r: Request) {
    match r
    case IqRequest(id) => e.Iq? && e.id == id
    case MamRequest(id, _) =>
      e.Iq? && e.id == id && (e.payload.IqError? || (e.payload.IqResult? && e.payload.payload.Some?))
    case JoinRequest(room, nick) =>
      (IsAbout(e, room, nick) && e.presence.error.Some?) || (LiveIn(e, room) && e.message.subject.Some?)
    case MucMessageRequest(room, id) => SentIn(e, room) && e.message.id == Some(id)
  }

  predicate Claims(r: Request, e: XmppElement) {
    || Decides(e, r)
    || (r.MamRequest? && Bears(e, r.queryId))
    || (r.JoinRequest? && (Occupies(e, r.room) || LiveIn(e, r.room)))
  }

  /** `e` decides `r` in its favour. */
  predicate Fulfils(e: XmppElement, r: Request) {
    && Decides(e, r)
    && match r
       case IqRequest(_) => e.payload.IqResult?
       case MamRequest(_, _) => e.payload.IqResult? && e.payload.payload.value.FinPayload?
       case JoinRequest(_, _) => e.Message?
       case MucMessageRequest(_, _) => true
  }

  /** The error a deciding element that does not fulfil its request stands for. */
  function Rejection(e: XmppElement): RequestError {
    match e
    case Iq(_, IqError(err)) => XmppError(err)
    case Presence(PresenceStanza(_, Some(StanzaError(err)), _)) => XmppError(err)
    case Presence(PresenceStanza(_, Some(BadError(msg)), _)) => Generic(msg)
    case Presence(_) => Generic(MISSING_ERROR)
    case _ => UnexpectedResponse
  }

  /** A reducer leaves foreign elements alone, only its deciding element ends its request, and rightly so. */
  lemma ReduceRespectsClaims(s: ReducerState, e: XmppElement)
    ensures var ((s', poll), r) := (Reduce(s, e), s.Request());
            && s'.Request() == r
            && (!Claims(r, e) <==> poll == Pending(Some(e)))
            && (!Claims(r, e) ==> s' == s)
            && (Decides(e, r) <==> !poll.Pending?)
            && (poll.Pending? ==> poll.element.None? || poll.element.value == e)
            && (poll.Ready? <==> Fulfils(e, r))
            && (poll.Failing? ==> poll.error == Rejection(e))
  {
  }

  /** No element can be claimed by both requests. */
  predicate Disjoint(r: Request, r': Request) {
    match (r, r')
    case (MamRequest(id, q), MamRequest(id', q')) => id != id' && q != q'
    case (MamRequest(_, _), MucMessageRequest(_, _)) => false
    case (MucMessageRequest(_, _), MamRequest(_, _)) => false
    case (JoinRequest(_, _), IqRequest(_)) => true
    case (JoinRequest(_, _), MamRequest(_, _)) => true
    case (JoinRequest(_, _), _) => r.room != r'.room
    case (MucMessageRequest(_, _), IqRequest(_)) => true
    case (MucMessageRequest(room, _), JoinRequest(room', _)) => room != room'
    case (MucMessageRequest(room, id), MucMessageRequest(room', id')) => room != room' || id != id'
    case (_, JoinRequest(_, _)) => true
    case (_, MucMessageRequest(_, _)) => true
    case (_, _) => r.id != r'.id
  }

  lemma DisjointRequestsClaimApart(r: Request, r': Request, e: XmppElement)
    requires Disjoint(r, r')
    ensures !(Claims(r, e) && Claims(r', e))
  {
  }

  /** An element both requests would take, if there is one. */
  function Contested(r: Request, r': Request): XmppElement {
    if r.MamRequest? && r'.MamRequest? && r.id != r'.id then
      Message(MessageStanza(None, None, None, GoodResult(ArchivedMessage(Some(r.queryId), "")), ""))
    else if r.MamRequest? && r'.MucMessageRequest? then
      Message(MessageStanza(Some(Jid(r'.room, None)), Some(r'.messageId), None,
                            GoodResult(ArchivedMessage(Some(r.queryId), "")), ""))
    else if r.MucMessageRequest? && r'.MamRequest? then
      Message(MessageStanza(Some(Jid(r.room, None)), Some(r.messageId), None,
                            GoodResult(ArchivedMessage(Some(r'.queryId), "")), ""))
    else if r.MucMessageRequest? then
      Message(MessageStanza(Some(Jid(r.room, None)), Some(r.messageId), None, NoResult, ""))
    else if r'.MucMessageRequest? then
      Message(MessageStanza(Some(Jid(r'.room, None)), Some(r'.messageId), None, NoResult, ""))
    else if r.JoinRequest? then Message(MessageStanza(Some(Jid(r.room, None)), None, None, NoResult, ""))
    else if r'.JoinRequest? then Message(MessageStanza(Some(Jid(r'.room, None)), None, None, NoResult, ""))
    else Iq(r.id, IqError(""))
  }

  /** Two requests may be pending together without ever competing exactly if they are disjoint. */
  lemma DisjointExactly(r: Request, r': Request)
    ensures Disjoint(r, r') <==> forall e :: !(Claims(r, e) && Claims(r', e))
  {
    if Disjoint(r, r') {
      forall e ensures !(Claims(r, e) && Claims(r', e)) { DisjointRequestsClaimApart(r, r', e); }
    } else {
      assert Claims(r, Contested(r, r')) && Claims(r', Contested(r, r'));
    }
  }

  // ---- What a request makes of a stretch of traffic ----

  function ReduceAll(r: Request, es: seq<XmppElement>): (s: ReducerState)
    ensures s.Request() == r
  {
    if es == [] then Initial(r)
    else
      var before, e := ReduceAll(r, es[..|es| - 1]), es[|es| - 1];
      ReduceRespectsClaims(before, e);
      Reduce(before, e).0
  }

  /** What `pick` finds in `es`, in order. */
  function Select<T>(es: seq<XmppElement>, pick: XmppElement -> Option<T>): seq<T> {
    if es == [] then []
    else
      var picked := pick(es[|es| - 1]);
      Select(es[..|es| - 1], pick) + if picked.Some? then [picked.value] else []
  }

  /** The archived messages of a query. */
  function Archived(q: string): XmppElement -> Option<ArchivedMessage> {
    (e: XmppElement) => if Bears(e, q) then Some(e.message.result.archived) else None
  }

  /** The presences of one's own occupant, errors aside. */
  function OwnPresence(room: string, nick: string): XmppElement -> Option<PresenceStanza> {
    (e: XmppElement) => if IsAbout(e, room, nick) && e.presence.error.None? then Some(e.presence) else None
  }

  function OtherPresence(room: string, nick: string): XmppElement -> Option<PresenceStanza> {
    (e: XmppElement) => if Occupies(e, room) && !IsAbout(e, room, nick) then Some(e.presence) else None
  }

  /** Live messages of a room, its subject aside. */
  function RoomMessage(room: string): XmppElement -> Option<MessageStanza> {
    (e: XmppElement) => if LiveIn(e, room) && e.message.subject.None? then Some(e.message) else None
  }

  function Last<T>(xs: seq<T>): Option<T> { if xs == [] then None else Some(xs[|xs| - 1]) }

  datatype Output =
    | IqOutput(element: Option<Payload>)
    | MamOutput(messages: seq<ArchivedMessage>, fin: Fin)
    | JoinOutput(selfPresence: PresenceStanza, presences: seq<PresenceStanza>, history: seq<MessageStanza>,
                 subject: Option<string>)
    | MucMessageOutput(message: MessageStanza)

  /**
   The answer to `r` if `e` fulfils it after the traffic `before`; there is none for a join
   whose room sent its subject without having announced the joining occupant.
   */
  function Expected(r: Request, before: seq<XmppElement>, e: XmppElement): Option<Output>
    requires Fulfils(e, r)
  {
    match r
    case IqRequest(_) => Some(IqOutput(e.payload.payload))
    case MamRequest(_, q) => Some(MamOutput(Select(before, Archived(q)), e.payload.payload.value.fin))
    case JoinRequest(room, nick) =>
      var own := Last(Select(before, OwnPresence(room, nick)));
      if own.None? then None
      else Some(JoinOutput(own.value, Select(before, OtherPresence(room, nick)), Select(before, RoomMessage(room)),
                           if e.message.subject == Some("") then None else e.message.subject))
    case MucMessageRequest(_, _) => Some(MucMessageOutput(e.message))
  }

  // ---- The shared state of one request ----

  datatype Outcome = Done | Failed(error: RequestError)
  type Waker = nat
  datatype FutureState = FutureState(value: Option<ReducerState>, result: Option<Outcome>, waker: Option<Waker>)
  {
    /** Unresolved and still holding its reducer value: what every queued request has to be. */
    predicate Live() { value.Some? && result.None? }
  }

  function NewFuture(r: Request): FutureState { FutureState(Some(Initial(r)), None, None) }

  function FailedFuture(e: RequestError): FutureState { FutureState(None, Some(Failed(e)), None) }

  datatype FuturePoll = StillPending(element: Option<XmppElement>) | Resolved(waker: Option<Waker>) | Panic

  /** `Panic` stands for the "already fulfilled" panic; a resolved state swallows the element. */
  function HandleElement(f: FutureState, e: XmppElement): (FutureState, FuturePoll) {
    if f.result.Some? then (f.(waker := None), Resolved(f.waker))
    else if f.value.None? then (f, Panic)
    else
      var (v, poll) := Reduce(f.value.value, e);
      var g := f.(value := Some(v));
      match poll
      case Failing(err) => (g.(result := Some(Failed(err)), waker := None), Resolved(f.waker))
      case Ready => (g.(result := Some(Done), waker := None), Resolved(f.waker))
      case Pending(left) => (g, StillPending(left))
  }

  function FailWith(f: FutureState, err: RequestError): FutureState {
    f.(result := Some(Failed(err)), waker := None)
  }

  datatype TaskPoll = NotReady | ReadyOk(output: Output) | ReadyErr(error: RequestError) | TaskPanic

  /** The result transformers; `None` stands for their panics about a missing `fin`, self-presence or message. */
  function Transform(s: ReducerState): Option<Output> {
    match s
    case IqState(_, element) => Some(IqOutput(element))
    case MamState(_, _, fin, messages) => if fin.None? then None else Some(MamOutput(messages, fin.value))
    case JoinState(_, _, presences, own, subject, history) =>
      if own.None? then None else Some(JoinOutput(own.value, presences, history, subject))
    case MucMessageState(_, _, received) => if received.None? then None else Some(MucMessageOutput(received.value))
  }

  /** `TaskPanic`: whoever awaits the request panics; the outcome and the value have been taken by then. */
  function PollFuture(f: FutureState, task: Waker): (FutureState, TaskPoll) {
    if f.result.None? then (f.(waker := Some(task)), NotReady)
    else match f.result.value
      case Failed(err) => (f.(result := None), ReadyErr(err))
      case Done =>
        var g := f.(result := None, value := None);
        if f.value.None? || Transform(f.value.value).None? then (g, TaskPanic)
        else (g, ReadyOk(Transform(f.value.value).value))
  }

  // ---- A request's answer is the one it should be ----

  lemma SelectLast<T>(es: seq<XmppElement>, e: XmppElement, pick: XmppElement -> Option<T>)
    ensures Select(es + [e], pick) == if pick(e).Some? then Select(es, pick) + [pick(e).value] else Select(es, pick)
  {
    assert (es + [e])[..|es|] == es;
  }

  lemma ReduceLast(r: Request, es: seq<XmppElement>, e: XmppElement)
    ensures ReduceAll(r, es + [e]) == Reduce(ReduceAll(r, es), e).0
  {
    assert (es + [e])[..|es|] == es;
  }

  lemma {:induction false} QueryCollects(id: string, q: string, es: seq<XmppElement>)
    ensures ReduceAll(MamRequest(id, q), es).messages == Select(es, Archived(q))
  {
    if es != [] { QueryCollects(id, q, es[..|es| - 1]); }
  }

  lemma JoinStep(room: string, nick: string, s: ReducerState, e: XmppElement)
    requires s.Request() == JoinRequest(room, nick)
    ensures var s', live := Reduce(s, e).0, RoomMessage(room)(e);
            var other, own := OtherPresence(room, nick)(e), OwnPresence(room, nick)(e);
            && s'.presences == (if other.Some? then s.presences + [other.value] else s.presences)
            && s'.selfPresence == (if own.Some? then own else s.selfPresence)
            && s'.history == (if live.Some? then s.history + [live.value] else s.history)
  {
  }

  lemma {:induction false} JoinCollects(room: string, nick: string, es: seq<XmppElement>)
    ensures var s := ReduceAll(JoinRequest(room, nick), es);
            && s.presences == Select(es, OtherPresence(room, nick))
            && s.selfPresence == Last(Select(es, OwnPresence(room, nick)))
            && s.history == Select(es, RoomMessage(room))
  {
    if es != [] {
      var front, e := es[..|es| - 1], es[|es| - 1];
      assert es == front + [e];
      JoinCollects(room, nick, front);
      JoinStep(room, nick, ReduceAll(JoinRequest(room, nick), front), e);
      SelectLast(front, e, OtherPresence(room, nick));
      SelectLast(front, e, OwnPresence(room, nick));
      SelectLast(front, e, RoomMessage(room));
    }
  }

  lemma IqAsExpected(id: string, before: seq<XmppElement>, e: XmppElement)
    requires Fulfils(e, IqRequest(id))
    ensures Transform(Reduce(ReduceAll(IqRequest(id), before), e).0) == Expected(IqRequest(id), before, e)
  {
  }

  lemma QueryAsExpected(id: string, q: string, before: seq<XmppElement>, e: XmppElement)
    requires Fulfils(e, MamRequest(id, q))
    ensures Transform(Reduce(ReduceAll(MamRequest(id, q), before), e).0) == Expected(MamRequest(id, q), before, e)
  {
    QueryCollects(id, q, before);
  }

  lemma JoinAsExpected(room: string, nick: string, before: seq<XmppElement>, e: XmppElement)
    requires Fulfils(e, JoinRequest(room, nick))
    ensures Transform(Reduce(ReduceAll(JoinRequest(room, nick), before), e).0) ==
            Expected(JoinRequest(room, nick), before, e)
  {
    JoinCollects(room, nick, before);
  }

  lemma MucMessageAsExpected(room: string, id: string, before: seq<XmppElement>, e: XmppElement)
    requires Fulfils(e, MucMessageRequest(room, id))
    ensures Transform(Reduce(ReduceAll(MucMessageRequest(room, id), before), e).0) ==
            Expected(MucMessageRequest(room, id), before, e)
  {
  }

  /** After any traffic, reducer and transformer together yield the expected answer, or panic if there is none. */
  lemma TransformedAsExpected(r: Request, before: seq<XmppElement>, e: XmppElement)
    requires Fulfils(e, r)
    ensures Transform(ReduceAll(r, before + [e])) == Expected(r, before, e)
  {
    ReduceLast(r, before, e);
    match r
    case IqRequest(id) => IqAsExpected(id, before, e);
    case MamRequest(id, q) => QueryAsExpected(id, q, before, e);
    case JoinRequest(room, nick) => JoinAsExpected(room, nick, before, e);
    case MucMessageRequest(room, id) => MucMessageAsExpected(room, id, before, e);
  }
}
