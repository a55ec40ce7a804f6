/**
 * The `/mcp` endpoint's session table: a process-wide map from session id to transport.
 * A request carrying a known session id goes to that id's transport; a request without
 * one may open a new transport when it is an `initialize` request; anything else gets a
 * 400. A new transport enters the table only when the protocol layer reports the id it
 * generated, and leaves it again when it closes.
 *
 * Transports are opaque: the table numbers them in the order they are created.
 */
module Sessions {
  import opened Wrappers

  type TransportId = nat

  const NoSessionError := "No MCP session. Send initialize request first."

  /** `sid ? sessions[sid] : undefined`, reading only the map's own keys. */
  function BoundTransport(sessions: map<string, TransportId>, sid: Option<string>): (bound: Option<TransportId>)
    ensures bound.Some? <==> sid.Some? && sid.value != "" && sid.value in sessions
    ensures bound.Some? ==> bound.value == sessions[sid.value]
  {
    match sid
    case Some(id) => if id != "" && id in sessions then Some(sessions[id]) else None
    case None => None
  }

  /** What the handler does with a request. */
  datatype Route = Reuse(transport: TransportId) | Create | Reject

  /**
   * The decision of the `/mcp` handler: a bound transport is reused whatever the body is;
   * otherwise an `initialize` body creates a transport and any other body is rejected.
   */
  function RouteRequest(sessions: map<string, TransportId>, sid: Option<string>, isInit: bool): (r: Route)
    ensures r.Reuse? <==> BoundTransport(sessions, sid).Some?
    ensures r.Reuse? ==> r.transport in sessions.Values && r.transport == sessions[sid.value]
    ensures r.Create? <==> BoundTransport(sessions, sid).None? && isInit
    ensures r.Reject? <==> BoundTransport(sessions, sid).None? && !isInit
  {
    match BoundTransport(sessions, sid)
    case Some(t) => Reuse(t)
    case None => if isInit then Create else Reject
  }

  /** A request that the table lets through to a transport, or the 400 answer. */
  datatype Outcome = Handled(transport: TransportId, created: bool) | BadRequest(status: nat, error: string)

  class SessionTable {
    /** The `sessions` record: session id to transport. */
    var sessions: map<string, TransportId>
    /** Each initialised transport's own `sessionId`. */
    var sessionOf: map<TransportId, string>
    /** The number of transports created so far; the next one gets this number. */
    var nextTransport: nat

    /**
     * Every transport exists, and every entry's transport knows the entry's key as its
     * session id, which is what lets its close remove the entry.
     */
    ghost predicate Valid()
      reads this
    {
      && (forall t | t in sessionOf :: t < nextTransport)
      && (forall k | k in sessions :: sessions[k] in sessionOf && sessionOf[sessions[k]] == k)
    }

    constructor ()
      ensures Valid()
      ensures sessions == map[] && sessionOf == map[] && nextTransport == 0
    {
      sessions := map[];
      sessionOf := map[];
      nextTransport := 0;
    }

    /**
     * One request to `/mcp` with session header `sid`: reuses the bound transport, creates
     * a fresh one for an `initialize` body, or answers 400. The table itself is unchanged;
     * a new transport is registered later, by `OnSessionInitialized`.
     */
    method Handle(sid: Option<string>, isInit: bool) returns (o: Outcome)
      requires Valid()
      modifies this
      ensures Valid()
      ensures sessions == old(sessions) && sessionOf == old(sessionOf)
      ensures match RouteRequest(old(sessions), sid, isInit)
        case Reuse(t) => o == Handled(t, false) && nextTransport == old(nextTransport)
        case Create => o == Handled(old(nextTransport), true) && nextTransport == old(nextTransport) + 1
        case Reject => o == BadRequest(400, NoSessionError) && nextTransport == old(nextTransport)
      ensures o.Handled? && o.created ==> o.transport !in sessionOf && o.transport !in sessions.Values
    {
      var route := RouteRequest(sessions, sid, isInit);
      match route {
        case Reuse(t) =>
          o := Handled(t, false);
        case Create =>
          o := Handled(nextTransport, true);
          nextTransport := nextTransport + 1;
        case Reject =>
          o := BadRequest(400, NoSessionError);
      }
    }

    /**
     * `onsessioninitialized(newId)`: binds `newId` to transport `t`, replacing any entry
     * already under that id, and records `newId` as the transport's session id.
     */
    method OnSessionInitialized(newId: string, t: TransportId)
      requires Valid()
      requires t < nextTransport && t !in sessionOf
      modifies this
      ensures Valid()
      ensures sessions == old(sessions)[newId := t]
      ensures sessionOf == old(sessionOf)[t := newId]
      ensures nextTransport == old(nextTransport)
    {
      sessions := sessions[newId := t];
      sessionOf := sessionOf[t := newId];
    }

    /**
     * `transport.onclose`: deletes the key under the transport's session id, whatever
     * transport that key now holds; a transport without a session id changes nothing.
     */
    method OnClose(t: TransportId)
      requires Valid()
      modifies this
      ensures Valid()
      ensures t in old(sessionOf) && old(sessionOf)[t] != "" ==> sessions == old(sessions) - {old(sessionOf)[t]}
      ensures !(t in old(sessionOf) && old(sessionOf)[t] != "") ==> sessions == old(sessions)
      ensures sessionOf == old(sessionOf) && nextTransport == old(nextTransport)
    {
      if t in sessionOf && sessionOf[t] != "" {
        sessions := sessions - {sessionOf[t]};
      }
    }
  }

  // ---------------------------------------------------------------------------
  // Client conversations, each against a fresh table

  /**
   * A client initialises, is given `id`, sends a second request (an `initialize` body
   * again) under that id, and the transport closes; a third request under the id is
   * refused.
   */
  method InitializeReuseClose(id: string) returns (first: Outcome, second: Outcome, third: Outcome)
    requires id != ""
    ensures first == Handled(0, true)
    ensures second == Handled(0, false)
    ensures third == BadRequest(400, NoSessionError)
  {
    var table := new SessionTable();
    first := table.Handle(None, true);
    table.OnSessionInitialized(id, first.transport);
    second := table.Handle(Some(id), true);
    table.OnClose(first.transport);
    third := table.Handle(Some(id), false);
  }

  /** Two clients that initialise get two transports, and each id reaches its own. */
  method TwoClients(a: string, b: string) returns (toA: Outcome, toB: Outcome, unknown: Outcome)
    requires a != "" && b != "" && a != b
    ensures toA == Handled(0, false) && toB == Handled(1, false)
    ensures unknown == BadRequest(400, NoSessionError)
  {
    var table := new SessionTable();
    var openA := table.Handle(None, true);
    var openB := table.Handle(None, true);
    table.OnSessionInitialized(a, openA.transport);
    table.OnSessionInitialized(b, openB.transport);
    toA := table.Handle(Some(a), false);
    toB := table.Handle(Some(b), false);
    table.OnClose(openA.transport);
    unknown := table.Handle(Some(a), false);
  }

  /**
   * Two transports reporting the same id: the later one takes the entry over, and when
   * the earlier one closes it deletes that entry, so the id is refused although the later
   * transport is still open.
   */
  method DuplicateId(id: string) returns (before: Outcome, after: Outcome)
    requires id != ""
    ensures before == Handled(1, false)
    ensures after == BadRequest(400, NoSessionError)
  {
    var table := new SessionTable();
    var first := table.Handle(None, true);
    var second := table.Handle(None, true);
    table.OnSessionInitialized(id, first.transport);
    table.OnSessionInitialized(id, second.transport);
    before := table.Handle(Some(id), false);
    table.OnClose(first.transport);
    after := table.Handle(Some(id), false);
  }

  // ---------------------------------------------------------------------------
  // The lookup as written: `sessions` is a plain object literal, so `sessions[sid]` also
  // finds the members every object inherits from `Object.prototype`.

  /** The names an empty object literal answers to through its prototype. */
  const PrototypeMembers: set<string> := {
    "constructor", "__proto__", "toString", "toLocaleString", "valueOf", "hasOwnProperty",
    "isPrototypeOf", "propertyIsEnumerable", "__defineGetter__", "__defineSetter__",
    "__lookupGetter__", "__lookupSetter__"
  }

  /** What `sessions[sid]` evaluates to. */
  datatype Lookup = Own(transport: TransportId) | Inherited(member: string) | Missing

  function LookupAsWritten(sessions: map<string, TransportId>, sid: Option<string>): (l: Lookup)
    ensures l.Own? <==> BoundTransport(sessions, sid).Some?
    ensures l.Inherited? <==> sid.Some? && sid.value !in sessions && sid.value in PrototypeMembers
  {
    match sid
    case None => Missing
    case Some(id) =>
      if id != "" && id in sessions then Own(sessions[id])
      else if id in PrototypeMembers then Inherited(id)
      else Missing
  }

  /** The handler as written: an inherited member is truthy, so it is used as the transport. */
  datatype WrittenRoute = Dispatch(transport: TransportId) | DispatchToMember(member: string) | Open | Refuse

  function RouteAsWritten(sessions: map<string, TransportId>, sid: Option<string>, isInit: bool): (r: WrittenRoute)
    ensures r.DispatchToMember? <==> sid.Some? && sid.value !in sessions && sid.value in PrototypeMembers
    ensures r.Open? <==> isInit && LookupAsWritten(sessions, sid).Missing?
  {
    match LookupAsWritten(sessions, sid)
    case Own(t) => Dispatch(t)
    case Inherited(m) => DispatchToMember(m)
    case Missing => if isInit then Open else Refuse
  }

  /** The corrected route, in the as-written vocabulary. */
  function AsWritten(r: Route): WrittenRoute {
    match r
    case Reuse(t) => Dispatch(t)
    case Create => Open
    case Reject => Refuse
  }

  /**
   * An `initialize` request whose session header is "constructor" is neither opened nor
   * refused: the handler calls `handleRequest` on `Object`, which has no such method.
   */
  lemma PrototypeKeyIsDispatched()
    ensures RouteAsWritten(map[], Some("constructor"), true) == DispatchToMember("constructor")
    ensures RouteRequest(map[], Some("constructor"), true) == Create
  {
    assert "constructor" in PrototypeMembers;
  }

  /**
   * Off the prototype's member names the handler as written decides exactly as the
   * corrected route does, and it only ever dispatches to a transport in the table.
   */
  lemma {:induction false} AsWrittenAgreesOffPrototype(sessions: map<string, TransportId>, sid: Option<string>, isInit: bool)
    requires sid.None? || sid.value in sessions || sid.value !in PrototypeMembers
    ensures RouteAsWritten(sessions, sid, isInit) == AsWritten(RouteRequest(sessions, sid, isInit))
    ensures RouteAsWritten(sessions, sid, isInit).Dispatch? ==> RouteAsWritten(sessions, sid, isInit).transport in sessions.Values
  {
    var l := LookupAsWritten(sessions, sid);
    assert !l.Inherited?;
  }
}
