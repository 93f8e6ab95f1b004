/**
  src/rnsapi/ws/hub.py, src/rnsapi/ws/connection.py and the connection life cycle of
  src/rnsapi/server.py: the hub scans its connections for a session, while each session keeps a set
  of its connections; the two have to agree at every await of every handler.
*/
module Hub {
  import opened Wrappers

  type Conn = nat
  type SessionId = string
  type Event = int

  /** How far the handler of a connection has come. A rejected one goes from Registered to Detached. */
  datatype Phase = Unknown | Registered | Attached | Detached | Gone

  datatype World = World(
    connections: set<Conn>,
    session: map<Conn, SessionId>,
    members: map<SessionId, set<Conn>>,
    phase: map<Conn, Phase>,
    closed: set<Conn>,
    inbox: map<Conn, seq<Event>>)

  const INIT := World({}, map[], map[], map[], {}, map[])

  datatype Action =
    | Register(c: Conn)
    | Attach(c: Conn, s: SessionId)
    | Detach(c: Conn)
    | Unregister(c: Conn)
    | Close(c: Conn)
    | SendSession(s: SessionId, e: Event)
    | Broadcast(e: Event)

  function PhaseOf(w: World, c: Conn): Phase {
    if c in w.phase then w.phase[c] else Unknown
  }

  function Members(w: World, s: SessionId): set<Conn> {
    if s in w.members then w.members[s] else {}
  }

  function Inbox(w: World, c: Conn): seq<Event> {
    if c in w.inbox then w.inbox[c] else []
  }

  /** `WSHub.session_connections`: a scan of every registered connection. */
  function SessionConnections(w: World, s: SessionId): set<Conn> {
    set c | c in w.connections && c in w.session && w.session[c] == s
  }

  /** `_fanout`: `send_json` on each target; a closed socket is skipped. */
  function Fanout(w: World, targets: set<Conn>, e: Event): World {
    w.(inbox := map c | c in w.inbox.Keys + targets ::
                  if c in targets && c !in w.closed then Inbox(w, c) + [e] else Inbox(w, c))
  }

  /** One step of some handler. Handlers are sequential, so each step needs the phase before it. */
  function Next(w: World, a: Action): World {
    match a
    case Register(c) =>
      if PhaseOf(w, c) != Unknown then w
      else w.(connections := w.connections + {c}, phase := w.phase[c := Registered])
    case Attach(c, s) =>
      if PhaseOf(w, c) != Registered then w
      else w.(session := w.session[c := s], members := w.members[s := Members(w, s) + {c}],
              phase := w.phase[c := Attached])
    case Detach(c) =>
      if PhaseOf(w, c) == Attached && c in w.session
      then w.(members := w.members[w.session[c] := Members(w, w.session[c]) - {c}],
              session := w.session - {c}, phase := w.phase[c := Detached])
      else if PhaseOf(w, c) == Registered then w.(phase := w.phase[c := Detached])
      else w
    case Unregister(c) =>
      if PhaseOf(w, c) != Detached then w
      else w.(connections := w.connections - {c}, phase := w.phase[c := Gone])
    case Close(c) => w.(closed := w.closed + {c})
    case SendSession(s, e) => if s == "" then w else Fanout(w, SessionConnections(w, s), e)
    case Broadcast(e) => Fanout(w, w.connections, e)
  }

  function Run(w: World, acts: seq<Action>): World
    decreases |acts|
  {
    if acts == [] then w else Run(Next(w, acts[0]), acts[1..])
  }

  ghost predicate Inv(w: World) {
    && (forall c :: PhaseOf(w, c) != Unknown && PhaseOf(w, c) != Gone <==> c in w.connections)
    && (forall c :: PhaseOf(w, c) == Attached <==> c in w.session)
    && (forall s, c :: c in Members(w, s) <==> c in w.session && w.session[c] == s)
  }

  lemma AttachKeeps(w: World, c: Conn, s: SessionId)
    requires Inv(w) && PhaseOf(w, c) == Registered
    ensures Inv(Next(w, Attach(c, s)))
  {
    var w' := Next(w, Attach(c, s));
    forall t, d ensures d in Members(w', t) <==> d in w'.session && w'.session[d] == t {
      assert d in Members(w, t) <==> d in w.session && w.session[d] == t;
    }
  }

  lemma DetachKeeps(w: World, c: Conn)
    requires Inv(w) && PhaseOf(w, c) == Attached
    ensures Inv(Next(w, Detach(c)))
  {
    var w' := Next(w, Detach(c));
    forall t, d ensures d in Members(w', t) <==> d in w'.session && w'.session[d] == t {
      assert d in Members(w, t) <==> d in w.session && w.session[d] == t;
    }
  }

  lemma OtherKeeps(w: World, a: Action)
    requires Inv(w) && !a.Attach?
    requires a.Detach? ==> PhaseOf(w, a.c) != Attached
    ensures Inv(Next(w, a))
  {
    assert forall t :: Members(Next(w, a), t) == Members(w, t);
  }

  lemma Step(w: World, a: Action)
    requires Inv(w)
    ensures Inv(Next(w, a))
  {
    if a.Attach? && PhaseOf(w, a.c) == Registered { AttachKeeps(w, a.c, a.s); }
    else if a.Detach? && PhaseOf(w, a.c) == Attached { DetachKeeps(w, a.c); }
    else if !a.Attach? { OtherKeeps(w, a); }
  }

  lemma {:induction false} InvRun(w: World, acts: seq<Action>)
    requires Inv(w)
    ensures Inv(Run(w, acts))
    decreases |acts|
  {
    if acts != [] {
      Step(w, acts[0]);
      InvRun(Next(w, acts[0]), acts[1..]);
    }
  }

  /** Main result. At every point of every interleaving of handlers, closes and sends, the hub's scan
      for a session is that session's own set, a connection is in at most one such set, and a
      connection whose handler has finished is in neither structure. */
  lemma IndexAgrees(acts: seq<Action>, s: SessionId, t: SessionId, c: Conn)
    ensures var w := Run(INIT, acts);
            && SessionConnections(w, s) == Members(w, s)
            && (c in Members(w, s) && c in Members(w, t) ==> s == t)
            && (PhaseOf(w, c) == Gone ==> c !in w.connections && c !in Members(w, s))
            && (PhaseOf(w, c) == Attached ==> c in w.session && c in Members(w, w.session[c]))
  {
    InvRun(INIT, acts);
  }

  /** The session a connection was attached to and not yet detached from. */
  ghost function Joined(acts: seq<Action>, c: Conn): Option<SessionId> {
    if acts == [] then None
    else
      var p, a := acts[..|acts| - 1], acts[|acts| - 1];
      if a.Attach? && a.c == c && PhaseOf(Run(INIT, p), c) == Registered then Some(a.s)
      else if a == Detach(c) then None
      else Joined(p, c)
  }

  lemma {:induction false} RunLast(w: World, acts: seq<Action>)
    requires acts != []
    ensures Run(w, acts) == Next(Run(w, acts[..|acts| - 1]), acts[|acts| - 1])
    decreases |acts|
  {
    if |acts| == 1 {
      assert acts[1..] == [] && acts[..0] == [];
    } else {
      assert acts[1..][..|acts| - 2] == acts[..|acts| - 1][1..];
      RunLast(Next(w, acts[0]), acts[1..]);
    }
  }

  lemma JoinStep(w: World, a: Action, c: Conn, s: SessionId)
    requires Inv(w)
    ensures c in Members(Next(w, a), s) <==>
              if a.Attach? && a.c == c && PhaseOf(w, c) == Registered then a.s == s
              else a != Detach(c) && c in Members(w, s)
  {
    Step(w, a);
    var w' := Next(w, a);
    assert c in Members(w, s) <==> c in w.session && w.session[c] == s;
    assert c in Members(w', s) <==> c in w'.session && w'.session[c] == s;
  }

  /** Main result. In every run a session's set holds exactly the connections whose last accepted attach was to
      that session, with no detach since; and a new connection that is registered and then attached is in it. */
  lemma {:induction false} MembersExactly(acts: seq<Action>, c: Conn, s: SessionId)
    ensures var w := Run(INIT, acts);
            && (c in Members(w, s) <==> Joined(acts, c) == Some(s))
            && (PhaseOf(w, c) == Unknown ==> c in Members(Next(Next(w, Register(c)), Attach(c, s)), s))
  {
    InvRun(INIT, acts);
    if acts != [] {
      var p, a := acts[..|acts| - 1], acts[|acts| - 1];
      RunLast(INIT, acts);
      InvRun(INIT, p);
      MembersExactly(p, c, s);
      JoinStep(Run(INIT, p), a, c, s);
    }
  }

  /** Main result. In every reachable state `send_session` appends the event once to each open
      connection of the session, `broadcast` to each open connection, and both leave every other stream alone. */
  lemma SendReaches(acts: seq<Action>, s: SessionId, e: Event, c: Conn)
    ensures var w := Run(INIT, acts);
            && Inbox(Next(w, SendSession(s, e)), c) ==
                 (if s != "" && c in Members(w, s) && c !in w.closed then Inbox(w, c) + [e] else Inbox(w, c))
            && Inbox(Next(w, Broadcast(e)), c) ==
                 (if c in w.connections && c !in w.closed then Inbox(w, c) + [e] else Inbox(w, c))
  {
    IndexAgrees(acts, s, s, c);
  }

  // ---------- the classes ----------

  class Session {
    const id: SessionId
    var wsConnections: set<WSConnection>

    constructor (id: SessionId)
      ensures this.id == id && wsConnections == {}
    {
      this.id, wsConnections := id, {};
    }
  }

  class WSConnection {
    var session: Session?
    var closed: bool
    var sent: seq<Event>

    constructor ()
      ensures session == null && !closed && sent == []
    {
      session, closed, sent := null, false, [];
    }

    method SendJson(data: Event)
      modifies `sent
      ensures sent == if closed then old(sent) else old(sent) + [data]
    {
      if closed {
        return;
      }
      sent := sent + [data];
    }

    method Attach(session: Session)
      modifies `session, session`wsConnections
      ensures this.session == session
      ensures session.wsConnections == old(session.wsConnections) + {this}
    {
      this.session := session;
      session.wsConnections := session.wsConnections + {this};
    }

    method Detach()
      modifies `session, (if session == null then {} else {session})`wsConnections
      ensures session == null
      ensures old(session) != null ==> old(session).wsConnections == old(session.wsConnections) - {this}
    {
      if session != null {
        session.wsConnections := session.wsConnections - {this};
        session := null;
      }
    }
  }

  class WSHub {
    var connections: set<WSConnection>

    constructor ()
      ensures connections == {}
    {
      connections := {};
    }

    /** What all handlers together keep, over the connections and sessions that exist. */
    ghost predicate Coherent(conns: set<WSConnection>, sessions: set<Session>)
      reads this, conns, sessions
    {
      && connections <= conns
      && (forall s, t | s in sessions && t in sessions && s.id == t.id :: s == t)
      && (forall c | c in conns && c.session != null ::
            c in connections && c.session in sessions && c in c.session.wsConnections)
      && (forall s, c | s in sessions && c in s.wsConnections :: c in conns && c.session == s)
    }

    function SessionConnections(sessionId: SessionId): (r: set<WSConnection>)
      reads this, connections
      ensures r <= connections
      ensures forall c | c in connections :: c in r <==> c.session != null && c.session.id == sessionId
    {
      set c | c in connections && c.session != null && c.session.id == sessionId
    }

    lemma ScanIsIndex(conns: set<WSConnection>, sessions: set<Session>, s: Session)
      requires Coherent(conns, sessions) && s in sessions
      ensures SessionConnections(s.id) == s.wsConnections
    {
    }

    method Register(conn: WSConnection, ghost conns: set<WSConnection>, ghost sessions: set<Session>)
      requires Coherent(conns, sessions) && conn.session == null
      modifies this
      ensures connections == old(connections) + {conn} && Coherent(conns + {conn}, sessions)
    {
      connections := connections + {conn};
    }

    /** What the handler does between `register` and the end of its `finally` block, if no other
        handler runs in between: with a session it is attached and detached again. */
    method Handle(conn: WSConnection, session: Session?, ghost conns: set<WSConnection>, ghost sessions: set<Session>)
      requires Coherent(conns, sessions) && conn in conns && conn.session == null && conn !in connections
      requires session != null ==> session in sessions
      modifies this, conn`session, (if session == null then {} else {session})`wsConnections
      ensures Coherent(conns, sessions) && conn.session == null
      ensures connections == old(connections)
      ensures forall s | s in sessions :: s.wsConnections == old(s.wsConnections)
    {
      assert forall s | s in sessions :: conn !in s.wsConnections;
      connections := connections + {conn};
      if session != null {
        conn.Attach(session);
        assert Coherent(conns, sessions);
      }
      conn.Detach();
      assert Coherent(conns, sessions);
      connections := connections - {conn};
    }

    method Fanout(targets: set<WSConnection>, event: Event)
      modifies targets`sent
      ensures forall c | c in targets :: c.sent == if c.closed then old(c.sent) else old(c.sent) + [event]
    {
      var rest := targets;
      while rest != {}
        invariant rest <= targets
        invariant forall c | c in targets ::
                    c.sent == if c in rest || c.closed then old(c.sent) else old(c.sent) + [event]
        decreases |rest|
      {
        var c :| c in rest;
        c.SendJson(event);
        rest := rest - {c};
      }
    }

    method SendSession(sessionId: SessionId, event: Event)
      modifies connections`sent
      ensures forall c | c in connections ::
                c.sent == if sessionId != "" && c.session != null && c.session.id == sessionId && !c.closed
                          then old(c.sent) + [event] else old(c.sent)
    {
      if sessionId == "" {
        return;
      }
      Fanout(SessionConnections(sessionId), event);
    }

    method Broadcast(event: Event)
      modifies connections`sent
      ensures forall c | c in connections :: c.sent == if c.closed then old(c.sent) else old(c.sent) + [event]
    {
      Fanout(connections, event);
    }
  }
}
