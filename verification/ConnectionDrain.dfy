/** Draining the HTTP server's connections at shutdown: the tracker of connection-drain.ts among the
    events of Node's server, in any order of requests, header sends, finishes and aborts. */
module ConnectionDrain {

  /** `closeHeader`: the header is set; `closeSent`: it went out with the headers, so that Node closes the
      connection at the end of the response. `ended`: 'finish' has been emitted, 'close' not yet.
      `finishHook`: a 'finish' listener is attached that schedules closeIdleConnections. */
  datatype Response = Response(conn: int, headersSent: bool, closeHeader: bool, closeSent: bool, finishHook: bool, ended: bool)

  /** `open` are the server's connections, `callbacks` the scheduled closeIdleConnections calls; the
      tracker's own state is `inFlight` and `draining`. */
  datatype State = State(
    open: set<int>,
    responses: map<int, Response>,
    inFlight: set<int>,
    draining: bool,
    closed: bool,
    callbacks: nat)

  datatype Event =
    | Connect(conn: int)
    | Request(id: int, conn: int, headersSent: bool) // headersSent: an earlier listener answered at once
    | SendHeaders(id: int)
    | Finish(id: int)
    | ResponseClosed(id: int)
    | Abort(conn: int)                               // the peer or a timeout ends the connection
    | StartDraining
    | CloseServer                                    // server.close(): stop listening, close idle connections
    | RunCallback                                    // a scheduled closeIdleConnections

  /** The connection is answering a request. */
  predicate Busy(s: State, conn: int) {
    exists id :: id in s.responses && s.responses[id].conn == conn && !s.responses[id].ended
  }

  function BusyConnections(s: State): set<int> {
    set c | c in s.open && Busy(s, c)
  }

  function CloseAfterResponse(r: Response): Response {
    if !r.headersSent then r.(closeHeader := true) else r.(finishHook := true)
  }

  predicate Enabled(s: State, e: Event) {
    match e
    case Connect(c) => !s.closed && c !in s.open && forall id :: id in s.responses ==> s.responses[id].conn != c
    case Request(id, c, _) => c in s.open && !Busy(s, c) && id !in s.responses && id !in s.inFlight
    case SendHeaders(id) => id in s.responses && !s.responses[id].headersSent
    case Finish(id) => id in s.responses && s.responses[id].headersSent && !s.responses[id].ended
    case ResponseClosed(id) => id in s.responses && s.responses[id].ended
    case Abort(c) => c in s.open
    case StartDraining => true
    case CloseServer => true
    case RunCallback => s.callbacks > 0
  }

  function Without(s: State, conn: int): set<int> {
    set id | id in s.responses && s.responses[id].conn == conn
  }

  function Next(s: State, e: Event): State
    requires Enabled(s, e)
  {
    match e
    case Connect(c) => s.(open := s.open + {c})
    case Request(id, c, headersSent) =>
      var r := Response(c, headersSent, false, false, false, false);
      s.(responses := s.responses[id := if s.draining then CloseAfterResponse(r) else r],
      inFlight := s.inFlight + {id})
    case SendHeaders(id) =>
      var r := s.responses[id];
      s.(responses := s.responses[id := r.(headersSent := true, closeSent := r.closeHeader)])
    case Finish(id) =>
      var r := s.responses[id];
      s.(responses := s.responses[id := r.(ended := true)],
      open := if r.closeSent then s.open - {r.conn} else s.open,
      callbacks := if r.finishHook then s.callbacks + 1 else s.callbacks)
    case ResponseClosed(id) => s.(responses := s.responses - {id}, inFlight := s.inFlight - {id})
    case Abort(c) =>
      s.(open := s.open - {c}, responses := s.responses - Without(s, c), inFlight := s.inFlight - Without(s, c))
    case StartDraining =>
      s.(draining := true,
      responses := map id | id in s.responses ::
        if id in s.inFlight then CloseAfterResponse(s.responses[id]) else s.responses[id])
    case CloseServer => s.(closed := true, open := BusyConnections(s))
    case RunCallback => s.(callbacks := s.callbacks - 1, open := BusyConnections(s))
  }

  ghost predicate Start(s: State) {
    s == State({}, map[], {}, false, false, 0)
  }

  ghost predicate Run(trace: seq<State>, events: seq<Event>) {
    && |trace| == |events| + 1
    && Start(trace[0])
    && forall i :: 0 <= i < |events| ==> Enabled(trace[i], events[i]) && trace[i + 1] == Next(trace[i], events[i])
  }

  /** The server is closed only once draining has begun, as `closeApp` orders it. */
  ghost predicate DrainsFirst(trace: seq<State>, events: seq<Event>) {
    forall i :: 0 <= i < |events| && i < |trace| && events[i].CloseServer? ==> trace[i].draining
  }

  /** Its connection will close when it finishes, or a closeIdleConnections will be scheduled then: the header
      is set in time or has gone out, or the hook is attached. */
  predicate Marked(r: Response) {
    if r.headersSent then r.closeSent || r.finishHook else r.closeHeader
  }

  /** Visiting a response in flight marks it, with the header exactly if the headers are not out yet: a header
      set later would throw. */
  lemma VisitMarks(r: Response)
    ensures Marked(CloseAfterResponse(r))
    ensures CloseAfterResponse(r).closeHeader == (r.closeHeader || !r.headersSent)
    ensures CloseAfterResponse(r).finishHook == (r.finishHook || r.headersSent)
  {
  }

  ghost predicate Tracked(s: State) {
    && s.inFlight == s.responses.Keys
    && (forall id :: id in s.responses && !s.responses[id].ended ==> s.responses[id].conn in s.open)
    && (forall i, j :: i in s.responses && j in s.responses && i != j && !s.responses[i].ended && !s.responses[j].ended ==>
          s.responses[i].conn != s.responses[j].conn)
    && (s.draining ==> forall id :: id in s.responses && !s.responses[id].ended ==> Marked(s.responses[id]))
  }

  /** Every open connection is answering a request with a marked response, or a call that closes idle
      connections is scheduled. */
  ghost predicate NothingLingers(s: State) {
    forall c :: c in s.open ==>
      s.callbacks > 0 || exists id :: id in s.responses && s.responses[id].conn == c && !s.responses[id].ended && Marked(s.responses[id])
  }

  lemma StepKeepsTracked(s: State, e: Event)
    requires Tracked(s) && Enabled(s, e)
    ensures Tracked(Next(s, e))
  {
    var s' := Next(s, e);
    match e
    case Request(id, c, _) =>
      forall i | i in s.responses && !s.responses[i].ended ensures s.responses[i].conn != c {
        assert !Busy(s, c);
      }
    case CloseServer =>
      forall id | id in s.responses && !s.responses[id].ended ensures s.responses[id].conn in s'.open {
        assert Busy(s, s.responses[id].conn);
      }
    case RunCallback =>
      forall id | id in s.responses && !s.responses[id].ended ensures s.responses[id].conn in s'.open {
        assert Busy(s, s.responses[id].conn);
      }
    case _ =>
  }

  /** Closed after draining began, and every open connection is busy or about to be collected. */
  ghost predicate Collected(s: State) {
    s.closed ==> s.draining && forall c :: c in s.open ==> s.callbacks > 0 || Busy(s, c)
  }

  lemma BusyStays(s: State, s': State, c: int)
    requires Busy(s, c)
    requires forall id :: id in s.responses && s.responses[id].conn == c && !s.responses[id].ended ==>
               id in s'.responses && s'.responses[id].conn == c && !s'.responses[id].ended
    ensures Busy(s', c)
  {
    var id :| id in s.responses && s.responses[id].conn == c && !s.responses[id].ended;
    assert id in s'.responses && s'.responses[id].conn == c && !s'.responses[id].ended;
  }

  lemma StepKeepsCollected(s: State, e: Event)
    requires Tracked(s) && Collected(s) && Enabled(s, e) && (e.CloseServer? ==> s.draining)
    ensures Collected(Next(s, e))
  {
    var s' := Next(s, e);
    if s'.closed {
      forall c | c in s'.open ensures s'.callbacks > 0 || Busy(s', c) {
        if e.CloseServer? || e.RunCallback? {
          assert Busy(s, c);
          BusyStays(s, s', c);
        } else if e.Finish? && s.responses[e.id].conn == c {
          assert Marked(s.responses[e.id]);
        } else if s'.callbacks == 0 {
          assert Busy(s, c);
          BusyStays(s, s', c);
        }
      }
    }
  }

  lemma {:induction false} RunIsTracked(trace: seq<State>, events: seq<Event>, n: nat)
    requires Run(trace, events) && DrainsFirst(trace, events) && n < |trace|
    ensures Tracked(trace[n]) && Collected(trace[n])
  {
    if n > 0 {
      RunIsTracked(trace, events, n - 1);
      StepKeepsTracked(trace[n - 1], events[n - 1]);
      StepKeepsCollected(trace[n - 1], events[n - 1]);
    }
  }

  /** Once draining has begun and the server has been closed, nothing lingers, whatever happens in whatever order. */
  lemma DrainedServerLeavesNothing(trace: seq<State>, events: seq<Event>, n: nat)
    requires Run(trace, events) && DrainsFirst(trace, events) && n < |trace| && trace[n].closed
    ensures NothingLingers(trace[n])
    ensures trace[n].callbacks == 0 && (forall id :: id in trace[n].responses ==> trace[n].responses[id].ended) ==>
              trace[n].open == {}
  {
    RunIsTracked(trace, events, n);
    var s := trace[n];
    forall c | c in s.open && s.callbacks == 0
      ensures exists id :: id in s.responses && s.responses[id].conn == c && !s.responses[id].ended && Marked(s.responses[id])
    {
      assert Busy(s, c);
      var id :| id in s.responses && s.responses[id].conn == c && !s.responses[id].ended;
      assert Marked(s.responses[id]);
    }
  }

  /** No connection opens after the close, so the number of open ones only falls. */
  lemma {:induction false} NoneOpensAfterClose(trace: seq<State>, events: seq<Event>, m: nat, n: nat)
    requires Run(trace, events) && m <= n < |trace| && trace[m].closed
    ensures trace[n].closed && trace[n].open <= trace[m].open
  {
    if m < n { NoneOpensAfterClose(trace, events, m, n - 1); }
  }

  /** The order matters: closing first, a connection whose answer ends before draining begins lingers, idle
      and with no call scheduled. */
  lemma DrainingAfterCloseLingers(conn: int, id: int) returns (trace: seq<State>, events: seq<Event>)
    ensures Run(trace, events) && !DrainsFirst(trace, events)
    ensures var s := trace[|trace| - 1]; s.draining && s.closed && conn in s.open && !NothingLingers(s)
  {
    events := [Connect(conn), Request(id, conn, false), SendHeaders(id), CloseServer, Finish(id), StartDraining];
    var s0 := State({}, map[], {}, false, false, 0);
    var s1 := Next(s0, events[0]);
    var s2 := Next(s1, events[1]);
    var s3 := Next(s2, events[2]);
    assert s3.responses[id].conn == conn && !s3.responses[id].ended;
    assert Busy(s3, conn);
    var s4 := Next(s3, events[3]);
    var s5 := Next(s4, events[4]);
    var s6 := Next(s5, events[5]);
    trace := [s0, s1, s2, s3, s4, s5, s6];
    assert events[3].CloseServer? && !trace[3].draining;
    assert s6.responses[id].ended && s6.callbacks == 0 && conn in s6.open;
  }

  // ---------------------------------------------------------------- the tracker, in place

  class Tracker {
    var open: set<int>
    var responses: map<int, Response>
    var inFlight: set<int>
    var draining: bool
    var closed: bool
    var callbacks: nat

    ghost function Current(): State
      reads this
    {
      State(open, responses, inFlight, draining, closed, callbacks)
    }

    /** trackConnectionsForDrain, before any connection. */
    constructor ()
      ensures Start(Current())
    {
      open, responses, inFlight, draining, closed, callbacks := {}, map[], {}, false, false, 0;
    }

    method CloseAfter(id: int)
      requires id in responses
      modifies this`responses
      ensures responses == old(responses)[id := CloseAfterResponse(old(responses)[id])]
    {
      var res := responses[id];
      if !res.headersSent {
        responses := responses[id := res.(closeHeader := true)];
        return;
      }
      responses := responses[id := res.(finishHook := true)];
    }

    /** The 'request' listener. */
    method OnRequest(id: int, conn: int, headersSent: bool)
      requires conn in open && !Busy(Current(), conn) && id !in responses && id !in inFlight
      modifies this
      ensures Current() == Next(old(Current()), Request(id, conn, headersSent))
    {
      responses := responses[id := Response(conn, headersSent, false, false, false, false)];
      inFlight := inFlight + {id};
      if draining {
        CloseAfter(id);
      }
    }

    /** The 'close' listener of a response. */
    method OnResponseClosed(id: int)
      requires id in responses && responses[id].ended
      modifies this
      ensures Current() == Next(old(Current()), ResponseClosed(id))
    {
      responses := responses - {id};
      inFlight := inFlight - {id};
    }

    /** What startDrainingConnections calls: every response in flight is visited. */
    method Drain()
      requires inFlight == responses.Keys
      modifies this
      ensures Current() == Next(old(Current()), StartDraining)
    {
      draining := true;
      var rest: set<int> := inFlight;
      while exists id :: id in rest
        invariant rest <= inFlight && inFlight == old(inFlight)
        invariant draining && open == old(open) && closed == old(closed) && callbacks == old(callbacks)
        invariant responses.Keys == old(responses).Keys
        invariant forall id :: id in responses ==>
                    responses[id] == if id in inFlight - rest then CloseAfterResponse(old(responses)[id]) else old(responses)[id]
        decreases rest
      {
        var id :| id in rest;
        CloseAfter(id);
        rest := rest - {id};
      }
      assert inFlight - rest == responses.Keys;
      forall id | id in responses ensures responses[id] == CloseAfterResponse(old(responses)[id]) {
        assert id in inFlight - rest;
      }
    }
  }
}
