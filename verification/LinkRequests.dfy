/**
  `LinksService.request` of src/rnsapi/rns/links.py with `await_response=False`: each request's future
  is raced by the RNS response and failure callbacks and by the watchdog task.

  A callback runs on an RNS thread and is cut at every line that matters: it hands its event to the
  loop, then reads `done()`, then asks the loop to set the result, which happens later.
*/
module LinkRequests {
  import opened Wrappers

  datatype Kind = Response | Failure | Timeout

  /** What the client is told about a request: the id it chose, the path, and how it ended. */
  datatype Event = Event(req: nat, id: Option<int>, path: string, ok: bool)

  datatype Activation = EmitNext(kind: Kind) | CheckDone(kind: Kind) | Schedule(kind: Kind) | Returned

  datatype Watchdog = Waiting | TimedOut | Sending | Finished

  /** `queued` are the `set_result` calls the loop has yet to run. */
  datatype Request = Request(
    id: Option<int>,
    path: string,
    future: Option<Kind>,
    queued: seq<Kind>,
    activations: map<nat, Activation>,
    watchdog: Watchdog,
    fired: nat,
    sent: nat)

  datatype World = World(requests: seq<Request>, bus: seq<Event>)

  const INIT := World([], [])

  datatype Action =
    | Dispatch(id: Option<int>, path: string)
    | Callback(r: nat, t: nat, ok: bool)
    | Advance(r: nat, t: nat)
    | RunQueued(r: nat)
    | Deadline(r: nat)
    | Watch(r: nat)

  function Fresh(id: Option<int>, path: string): Request {
    Request(id, path, None, [], map[], Waiting, 0, 0)
  }

  function AdvanceStep(q: Request, t: nat): Request
    requires t in q.activations
  {
    var next := match q.activations[t]
      case EmitNext(k) => CheckDone(k)
      case CheckDone(k) => if q.future.Some? then Returned else Schedule(k)
      case _ => Returned;
    q.(activations := q.activations[t := next],
       fired := if q.activations[t].EmitNext? then q.fired + 1 else q.fired,
       queued := if q.activations[t].Schedule? then q.queued + [q.activations[t].kind] else q.queued)
  }

  /** `set_result` on a done future raises in the loop and changes nothing. */
  function RunQueuedStep(q: Request): Request {
    if q.queued == [] then q
    else q.(queued := q.queued[1..], future := if q.future.None? then Some(q.queued[0]) else q.future)
  }

  /** The watchdog task: woken by the future it just ends; after its deadline it looks at the future
      once more, sets it, and sends the failure itself. */
  function WatchStep(q: Request): Request {
    match q.watchdog
    case Waiting => if q.future.Some? then q.(watchdog := Finished) else q
    case TimedOut =>
      if q.future.Some? then q.(watchdog := Finished) else q.(future := Some(Timeout), watchdog := Sending)
    case Sending => q.(watchdog := Finished, sent := q.sent + 1)
    case Finished => q
  }

  /** The event a step of request `r` hands to the session's connections, if any. */
  function Emitted(w: World, a: Action): seq<Event> {
    match a
    case Advance(r, t) =>
      if r < |w.requests| && t in w.requests[r].activations && w.requests[r].activations[t].EmitNext?
      then [Event(r, w.requests[r].id, w.requests[r].path, w.requests[r].activations[t].kind == Response)] else []
    case Watch(r) =>
      if r < |w.requests| && w.requests[r].watchdog == Sending
      then [Event(r, w.requests[r].id, w.requests[r].path, false)] else []
    case _ => []
  }

  function Update(w: World, r: nat, q: Request): World
    requires r < |w.requests|
  {
    w.(requests := w.requests[r := q])
  }

  function Change(w: World, a: Action): World {
    match a
    case Dispatch(id, path) => w.(requests := w.requests + [Fresh(id, path)])
    case Callback(r, t, ok) =>
      if r < |w.requests| && t !in w.requests[r].activations
      then Update(w, r, w.requests[r].(activations :=
             w.requests[r].activations[t := EmitNext(if ok then Response else Failure)]))
      else w
    case Advance(r, t) =>
      if r < |w.requests| && t in w.requests[r].activations
      then Update(w, r, AdvanceStep(w.requests[r], t)) else w
    case RunQueued(r) => if r < |w.requests| then Update(w, r, RunQueuedStep(w.requests[r])) else w
    case Deadline(r) =>
      if r < |w.requests| && w.requests[r].watchdog == Waiting && w.requests[r].future.None?
      then Update(w, r, w.requests[r].(watchdog := TimedOut)) else w
    case Watch(r) => if r < |w.requests| then Update(w, r, WatchStep(w.requests[r])) else w
  }

  function Next(w: World, a: Action): World {
    Change(w, a).(bus := w.bus + Emitted(w, a))
  }

  function Run(w: World, acts: seq<Action>): World
    decreases |acts|
  {
    if acts == [] then w else Run(Next(w, acts[0]), acts[1..])
  }

  // ---------- the invariant ----------

  /** The activations that have handed their event to the loop. */
  function Told(q: Request): set<nat> {
    set t | t in q.activations && !q.activations[t].EmitNext?
  }

  function CountFor(bus: seq<Event>, r: nat): nat {
    if bus == [] then 0 else CountFor(bus[..|bus| - 1], r) + (if bus[|bus| - 1].req == r then 1 else 0)
  }

  ghost predicate RequestInv(q: Request) {
    && q.fired == |Told(q)|
    && (q.queued != [] ==> Told(q) != {})
    && (forall i | 0 <= i < |q.queued| :: q.queued[i] != Timeout)
    && (forall t | t in q.activations && q.activations[t].Schedule? :: q.activations[t].kind != Timeout)
    && (forall t | t in q.activations && q.activations[t].CheckDone? :: q.activations[t].kind != Timeout)
    && (forall t | t in q.activations && q.activations[t].EmitNext? :: q.activations[t].kind != Timeout)
    && (q.future.Some? && q.future.value != Timeout ==> Told(q) != {})
    && (q.future == Some(Timeout) ==> q.watchdog == Sending || q.watchdog == Finished)
    && (q.watchdog == Sending ==> q.future == Some(Timeout))
    && (q.watchdog == Finished ==> q.future.Some?)
    && q.sent == (if q.watchdog == Finished && q.future == Some(Timeout) then 1 else 0)
  }

  ghost predicate Inv(w: World) {
    && (forall r | 0 <= r < |w.requests| :: RequestInv(w.requests[r]))
    && (forall r | 0 <= r < |w.requests| :: CountFor(w.bus, r) == w.requests[r].fired + w.requests[r].sent)
    && (forall i | 0 <= i < |w.bus| ::
          w.bus[i].req < |w.requests| && w.bus[i].id == w.requests[w.bus[i].req].id
          && w.bus[i].path == w.requests[w.bus[i].req].path)
  }

  lemma AdvanceKeeps(q: Request, t: nat)
    requires RequestInv(q) && t in q.activations
    ensures RequestInv(AdvanceStep(q, t))
    ensures AdvanceStep(q, t).fired == q.fired + if q.activations[t].EmitNext? then 1 else 0
  {
    var q' := AdvanceStep(q, t);
    if q.activations[t].EmitNext? {
      assert Told(q') == Told(q) + {t};
    } else {
      assert Told(q') == Told(q);
      assert t in Told(q);
    }
  }

  lemma QuietKeeps(q: Request)
    requires RequestInv(q)
    ensures RequestInv(RunQueuedStep(q)) && RequestInv(WatchStep(q))
    ensures q.watchdog == Waiting && q.future.None? ==> RequestInv(q.(watchdog := TimedOut))
    ensures WatchStep(q).sent == q.sent + if q.watchdog == Sending then 1 else 0
  {
    assert Told(RunQueuedStep(q)) == Told(q);
    assert Told(WatchStep(q)) == Told(q);
    assert Told(q.(watchdog := TimedOut)) == Told(q);
  }

  lemma StartKeeps(q: Request, t: nat, k: Kind)
    requires RequestInv(q) && t !in q.activations && k != Timeout
    ensures RequestInv(q.(activations := q.activations[t := EmitNext(k)]))
  {
    assert Told(q.(activations := q.activations[t := EmitNext(k)])) == Told(q);
  }

  lemma CountAppend(bus: seq<Event>, es: seq<Event>, r: nat)
    requires |es| <= 1
    ensures CountFor(bus + es, r) == CountFor(bus, r) + if es != [] && es[0].req == r then 1 else 0
  {
    if es == [] {
      assert bus + es == bus;
    } else {
      assert (bus + es)[..|bus|] == bus;
    }
  }

  lemma {:induction false} CountNone(bus: seq<Event>, r: nat)
    requires forall i | 0 <= i < |bus| :: bus[i].req != r
    ensures CountFor(bus, r) == 0
  {
    if bus != [] { CountNone(bus[..|bus| - 1], r); }
  }

  /** Replacing request `r` and sending its events keeps the invariant. */
  lemma UpdateKeeps(w: World, r: nat, q: Request, es: seq<Event>)
    requires Inv(w) && r < |w.requests| && RequestInv(q) && |es| <= 1
    requires q.id == w.requests[r].id && q.path == w.requests[r].path
    requires es != [] ==> es[0].req == r && es[0].id == q.id && es[0].path == q.path
    requires q.fired + q.sent == w.requests[r].fired + w.requests[r].sent + |es|
    ensures Inv(Update(w, r, q).(bus := w.bus + es))
  {
    forall k | 0 <= k < |w.requests|
      ensures CountFor(w.bus + es, k) == CountFor(w.bus, k) + if k == r then |es| else 0
    {
      CountAppend(w.bus, es, k);
    }
  }

  lemma DispatchKeeps(w: World, id: Option<int>, path: string)
    requires Inv(w)
    ensures Inv(w.(requests := w.requests + [Fresh(id, path)]))
  {
    CountNone(w.bus, |w.requests|);
    assert Told(Fresh(id, path)) == {};
  }

  lemma CallbackStep(w: World, r: nat, t: nat, ok: bool)
    requires Inv(w)
    ensures Inv(Next(w, Callback(r, t, ok)))
  {
    assert w.bus + [] == w.bus;
    if r < |w.requests| && t !in w.requests[r].activations {
      var k := if ok then Response else Failure;
      StartKeeps(w.requests[r], t, k);
      UpdateKeeps(w, r, w.requests[r].(activations := w.requests[r].activations[t := EmitNext(k)]), []);
    }
  }

  lemma AdvancingStep(w: World, r: nat, t: nat)
    requires Inv(w)
    ensures Inv(Next(w, Advance(r, t)))
  {
    assert w.bus + [] == w.bus;
    if r < |w.requests| && t in w.requests[r].activations {
      AdvanceKeeps(w.requests[r], t);
      UpdateKeeps(w, r, AdvanceStep(w.requests[r], t), Emitted(w, Advance(r, t)));
    }
  }

  lemma DispatchStep(w: World, id: Option<int>, path: string)
    requires Inv(w)
    ensures Inv(Next(w, Dispatch(id, path)))
  {
    assert w.bus + [] == w.bus;
    DispatchKeeps(w, id, path);
  }

  lemma QueuedStep(w: World, r: nat)
    requires Inv(w)
    ensures Inv(Next(w, RunQueued(r)))
  {
    assert w.bus + [] == w.bus;
    if r < |w.requests| {
      QuietKeeps(w.requests[r]);
      UpdateKeeps(w, r, RunQueuedStep(w.requests[r]), []);
    }
  }

  lemma DeadlineStep(w: World, r: nat)
    requires Inv(w)
    ensures Inv(Next(w, Deadline(r)))
  {
    assert w.bus + [] == w.bus;
    if r < |w.requests| && w.requests[r].watchdog == Waiting && w.requests[r].future.None? {
      QuietKeeps(w.requests[r]);
      UpdateKeeps(w, r, w.requests[r].(watchdog := TimedOut), []);
    }
  }

  lemma WatchingStep(w: World, r: nat)
    requires Inv(w)
    ensures Inv(Next(w, Watch(r)))
  {
    assert w.bus + [] == w.bus;
    if r < |w.requests| {
      var q := w.requests[r];
      var es := if q.watchdog == Sending then [Event(r, q.id, q.path, false)] else [];
      WatchKeeps(q);
      WatchIs(w, r, es);
      UpdateKeeps(w, r, WatchStep(q), es);
    }
  }

  lemma WatchIs(w: World, r: nat, es: seq<Event>)
    requires r < |w.requests|
    requires var q := w.requests[r]; es == if q.watchdog == Sending then [Event(r, q.id, q.path, false)] else []
    ensures Next(w, Watch(r)) == Update(w, r, WatchStep(w.requests[r])).(bus := w.bus + es)
  {
  }

  lemma WatchKeeps(q: Request)
    requires RequestInv(q)
    ensures RequestInv(WatchStep(q))
    ensures var q' := WatchStep(q);
            && q'.id == q.id && q'.path == q.path && q'.fired == q.fired
            && q'.sent == q.sent + if q.watchdog == Sending then 1 else 0
  {
    QuietKeeps(q);
    WatchFields(q);
  }

  lemma WatchFields(q: Request)
    ensures WatchStep(q).id == q.id && WatchStep(q).path == q.path && WatchStep(q).fired == q.fired
  {
  }

  lemma Step(w: World, a: Action)
    requires Inv(w)
    ensures Inv(Next(w, a))
  {
    match a
    case Dispatch(id, path) => DispatchStep(w, id, path);
    case Callback(r, t, ok) => CallbackStep(w, r, t, ok);
    case Advance(r, t) => AdvancingStep(w, r, t);
    case RunQueued(r) => QueuedStep(w, r);
    case Deadline(r) => DeadlineStep(w, r);
    case Watch(r) => WatchingStep(w, r);
  }

  lemma {:induction false} InvRun(w: World, acts: seq<Action>)
    requires Inv(w)
    ensures Inv(Run(w, acts))
    decreases |acts|
  {
    if acts != [] {
      Step(w, acts[0]);
      InvRun(Next(w, acts[0]), acts[1..]);
    }
  }

  // ---------- the results ----------

  datatype Asked = Asked(id: Option<int>, path: string)

  /** The requests of a run, as the clients asked for them. */
  function Dispatched(acts: seq<Action>): seq<Asked> {
    if acts == [] then []
    else (if acts[0].Dispatch? then [Asked(acts[0].id, acts[0].path)] else []) + Dispatched(acts[1..])
  }

  function Names(requests: seq<Request>): seq<Asked> {
    seq(|requests|, i requires 0 <= i < |requests| => Asked(requests[i].id, requests[i].path))
  }

  lemma NamesStep(w: World, a: Action)
    ensures Names(Next(w, a).requests) ==
              Names(w.requests) + if a.Dispatch? then [Asked(a.id, a.path)] else []
  {
  }

  lemma {:induction false} NamesRun(w: World, acts: seq<Action>)
    ensures Names(Run(w, acts).requests) == Names(w.requests) + Dispatched(acts)
    decreases |acts|
  {
    if acts == [] {
      assert Names(w.requests) + [] == Names(w.requests);
    } else {
      NamesStep(w, acts[0]);
      NamesRun(Next(w, acts[0]), acts[1..]);
      var now := if acts[0].Dispatch? then [Asked(acts[0].id, acts[0].path)] else [];
      Regroup(Names(w.requests), now, Dispatched(acts[1..]));
    }
  }

  lemma Regroup(a: seq<Asked>, b: seq<Asked>, c: seq<Asked>)
    ensures a + b + c == a + (b + c)
  {
  }

  /** The client was sent an event for request `r` under the id and path it had asked with. */
  ghost predicate ToldOf(bus: seq<Event>, r: nat, asked: Asked) {
    exists i :: 0 <= i < |bus| && bus[i].req == r && bus[i].id == asked.id && bus[i].path == asked.path
  }

  /** Main result. With any number of requests in flight, a done future means that an event with the id and
      path of that request's own dispatch was sent, or that the watchdog is sending it; a finished watchdog
      means it was sent; and no event carries the id or path of another request. */
  lemma DoneMeansTold(acts: seq<Action>, r: nat)
    requires r < |Run(INIT, acts).requests|
    ensures var w := Run(INIT, acts);
            var q := w.requests[r];
            && |w.requests| == |Dispatched(acts)|
            && (q.future.Some? ==> ToldOf(w.bus, r, Dispatched(acts)[r]) || q.watchdog == Sending)
            && (q.watchdog == Finished ==> ToldOf(w.bus, r, Dispatched(acts)[r]))
            && forall i | 0 <= i < |w.bus| && w.bus[i].req == r ::
                 Asked(w.bus[i].id, w.bus[i].path) == Dispatched(acts)[r]
  {
    InvRun(INIT, acts);
    AskedAs(acts, r);
    var w := Run(INIT, acts);
    assert RequestInv(w.requests[r]);
    if CountFor(w.bus, r) >= 1 {
      CountSome(w.bus, r);
    }
  }

  lemma AskedAs(acts: seq<Action>, r: nat)
    requires r < |Run(INIT, acts).requests|
    ensures |Run(INIT, acts).requests| == |Dispatched(acts)|
    ensures var q := Run(INIT, acts).requests[r]; Dispatched(acts)[r] == Asked(q.id, q.path)
  {
    NamesRun(INIT, acts);
    assert Names(INIT.requests) + Dispatched(acts) == Dispatched(acts);
    assert Names(Run(INIT, acts).requests)[r] == Dispatched(acts)[r];
  }

  lemma CountSome(bus: seq<Event>, r: nat)
    requires CountFor(bus, r) >= 1
    ensures exists i :: 0 <= i < |bus| && bus[i].req == r
  {
    if forall i | 0 <= i < |bus| :: bus[i].req != r {
      CountNone(bus, r);
    }
  }

  /** Main result. Once the watchdog has finished, the client has been told exactly once if and only if
      either one callback fired and its result landed before the watchdog gave up, or none fired. */
  lemma ToldExactlyOnce(acts: seq<Action>, r: nat)
    requires r < |Run(INIT, acts).requests| && Run(INIT, acts).requests[r].watchdog == Finished
    ensures var w := Run(INIT, acts);
            var q := w.requests[r];
            CountFor(w.bus, r) == 1 <==>
              (|Told(q)| == 1 && q.future != Some(Timeout)) || Told(q) == {}
  {
    InvRun(INIT, acts);
  }

  /** From any world the deadline and two turns of the watchdog finish it. */
  lemma DeadlineDecides(w: World, r: nat)
    requires Inv(w) && r < |w.requests|
    ensures var w' := Run(w, [Deadline(r), Watch(r), Watch(r)]);
            && r < |w'.requests| && w'.requests[r].watchdog == Finished && CountFor(w'.bus, r) >= 1
  {
    var acts := [Deadline(r), Watch(r), Watch(r)];
    RunThree(w, Deadline(r), Watch(r), Watch(r));
    WatchdogFinishes(w, r);
    InvRun(w, acts);
    assert RequestInv(Run(w, acts).requests[r]);
  }

  lemma RunThree(w: World, a: Action, b: Action, c: Action)
    ensures Run(w, [a, b, c]) == Next(Next(Next(w, a), b), c)
  {
    assert [a, b, c][1..] == [b, c] && [b, c][1..] == [c] && [c][1..] == [];
    assert Run(Next(w, a), [b, c]) == Run(Next(Next(w, a), b), [c]);
  }

  lemma WatchdogFinishes(w: World, r: nat)
    requires Inv(w) && r < |w.requests|
    ensures var w' := Next(Next(Next(w, Deadline(r)), Watch(r)), Watch(r));
            r < |w'.requests| && w'.requests[r].watchdog == Finished
  {
    var w1 := Next(w, Deadline(r));
    assert RequestInv(w.requests[r]);
    assert w1.requests[r].watchdog == Waiting ==> w1.requests[r].future.Some?;
    var w2 := Next(w1, Watch(r));
    assert w2.requests[r].watchdog == Sending || w2.requests[r].watchdog == Finished;
  }

  // ---------- how each event came about ----------

  lemma {:induction false} RunLast(w: World, acts: seq<Action>)
    requires acts != []
    ensures Run(w, acts) == Next(Run(w, acts[..|acts| - 1]), acts[|acts| - 1])
    decreases |acts|
  {
    if |acts| == 1 {
      assert acts[1..] == [] && acts[..0] == [];
    } else {
      assert acts[1..][..|acts| - 2] == acts[..|acts| - 1][1..];
      RunLast(Next(w, acts[0]), acts[1..]);
    }
  }

  /** Which callback RNS started as activation `t` of request `r`: `_on_response` (true) or `_on_failed`. */
  ghost function Started(acts: seq<Action>, r: nat, t: nat): Option<bool> {
    if acts == [] then None
    else
      var p, a := acts[..|acts| - 1], acts[|acts| - 1];
      if Started(p, r, t).Some? then Started(p, r, t)
      else if a.Callback? && a.r == r && a.t == t && r < |Run(INIT, p).requests| then Some(a.ok) else None
  }

  /** That activation has run its first line. */
  ghost predicate Spoke(acts: seq<Action>, r: nat, t: nat) {
    acts != [] &&
    var p, a := acts[..|acts| - 1], acts[|acts| - 1];
    Spoke(p, r, t) || (a == Advance(r, t) && Started(p, r, t).Some?)
  }

  /** Whether the event announces a response. */
  datatype Report = Report(req: nat, ok: bool)

  /** What the clients should have been told: one report by each activation at its first line, a response
      or a failure as it was started, and one failure by each watchdog when it has given up. */
  ghost function Reports(acts: seq<Action>): seq<Report> {
    if acts == [] then []
    else
      var p, a := acts[..|acts| - 1], acts[|acts| - 1];
      Reports(p) +
      if a.Advance? && Started(p, a.r, a.t).Some? && !Spoke(p, a.r, a.t) then [Report(a.r, Started(p, a.r, a.t).value)]
      else if a.Watch? && a.r < |Run(INIT, p).requests| && Run(INIT, p).requests[a.r].watchdog == Sending
      then [Report(a.r, false)]
      else []
  }

  function ReportsOn(bus: seq<Event>): seq<Report> {
    seq(|bus|, i requires 0 <= i < |bus| => Report(bus[i].req, bus[i].ok))
  }

  function KindOf(ok: bool): Kind {
    if ok then Response else Failure
  }

  /** Where activation `t` of request `q` stands after it was `started` so and did or did not speak. */
  ghost predicate Stands(q: Request, t: nat, started: Option<bool>, spoke: bool) {
    && (t in q.activations <==> started.Some?)
    && (spoke ==> started.Some?)
    && (t in q.activations ==>
          match q.activations[t]
          case EmitNext(k) => !spoke && k == KindOf(started.value)
          case CheckDone(k) => spoke && k == KindOf(started.value)
          case Schedule(k) => spoke && k == KindOf(started.value)
          case Returned => spoke)
  }

  ghost predicate StandsAt(acts: seq<Action>, r: nat, t: nat) {
    var w := Run(INIT, acts);
    if r < |w.requests| then Stands(w.requests[r], t, Started(acts, r, t), Spoke(acts, r, t))
    else Started(acts, r, t).None? && !Spoke(acts, r, t)
  }

  /** What one step does to request `r`, which exists. */
  lemma RequestAfter(w: World, a: Action, r: nat)
    requires r < |w.requests|
    ensures r < |Next(w, a).requests|
    ensures var q, q' := w.requests[r], Next(w, a).requests[r];
            && (a.Advance? && a.r == r && a.t in q.activations ==> q' == AdvanceStep(q, a.t))
            && (a.Callback? && a.r == r && a.t !in q.activations ==>
                  q' == q.(activations := q.activations[a.t := EmitNext(KindOf(a.ok))]))
            && (!(a.Advance? && a.r == r) && !(a.Callback? && a.r == r) ==> q'.activations == q.activations)
            && (a.Advance? && a.t !in q.activations ==> q' == q)
            && (a.Callback? && a.t in q.activations ==> q' == q)
            && ((a.Advance? || a.Callback?) && a.r != r ==> q' == q)
  {
  }

  lemma {:induction false} StandsRun(acts: seq<Action>, r: nat, t: nat)
    ensures StandsAt(acts, r, t)
  {
    if acts != [] {
      var p, a := acts[..|acts| - 1], acts[|acts| - 1];
      RunLast(INIT, acts);
      StandsRun(p, r, t);
      if r < |Run(INIT, p).requests| {
        RequestAfter(Run(INIT, p), a, r);
        var q, q' := Run(INIT, p).requests[r], Next(Run(INIT, p), a).requests[r];
        StandsStep(q, q', a, r, t, Started(p, r, t), Spoke(p, r, t));
      }
    }
  }

  /** One step of an existing request keeps what its activation stands for. */
  lemma StandsStep(q: Request, q': Request, a: Action, r: nat, t: nat, started: Option<bool>, spoke: bool)
    requires Stands(q, t, started, spoke)
    requires a.Advance? && a.r == r && a.t in q.activations ==> q' == AdvanceStep(q, a.t)
    requires a.Callback? && a.r == r && a.t !in q.activations ==>
               q' == q.(activations := q.activations[a.t := EmitNext(KindOf(a.ok))])
    requires !(a.Advance? && a.r == r) && !(a.Callback? && a.r == r) ==> q'.activations == q.activations
    requires a.Advance? && a.t !in q.activations ==> q' == q
    requires a.Callback? && a.t in q.activations ==> q' == q
    ensures Stands(q', t,
                   if started.Some? then started else if a.Callback? && a.r == r && a.t == t then Some(a.ok) else None,
                   spoke || (a == Advance(r, t) && started.Some?))
  {
  }

  lemma ReportsJoin(bus: seq<Event>, es: seq<Event>)
    ensures ReportsOn(bus + es) == ReportsOn(bus) + ReportsOn(es)
  {
  }

  /** The report of one step is the one it should make. */
  lemma EmittedReport(p: seq<Action>, a: Action)
    ensures ReportsOn(Emitted(Run(INIT, p), a)) + [] == Reports(p + [a])[|Reports(p)|..]
    ensures Reports(p + [a])[..|Reports(p)|] == Reports(p)
  {
    assert (p + [a])[..|p|] == p;
    if a.Advance? { StandsRun(p, a.r, a.t); }
  }

  /** Main result. In every run the clients are told exactly this, in this order: every activation of a
      callback, at its first line, tells the response if it was started as `_on_response` and the failure if it was
      started as `_on_failed`; a watchdog that has given up, which takes its deadline, tells the failure. */
  lemma {:induction false} EventsTellOutcome(acts: seq<Action>)
    ensures ReportsOn(Run(INIT, acts).bus) == Reports(acts)
    ensures forall r | 0 <= r < |Run(INIT, acts).requests| && Run(INIT, acts).requests[r].watchdog == Sending ::
              Deadline(r) in acts
  {
    if acts != [] {
      var p, a := acts[..|acts| - 1], acts[|acts| - 1];
      assert acts == p + [a];
      RunLast(INIT, acts);
      EventsTellOutcome(p);
      EmittedReport(p, a);
      ReportsJoin(Run(INIT, p).bus, Emitted(Run(INIT, p), a));
    }
    GivenUpRun(acts);
  }

  /** The watchdog has passed its deadline, as its own state or the result it set shows. */
  predicate GaveUp(q: Request) {
    q.watchdog == TimedOut || q.watchdog == Sending || q.future == Some(Timeout)
  }

  ghost predicate GivenUpAt(acts: seq<Action>) {
    forall r | 0 <= r < |Run(INIT, acts).requests| && GaveUp(Run(INIT, acts).requests[r]) :: Deadline(r) in acts
  }

  lemma {:induction false} GivenUpRun(acts: seq<Action>)
    ensures GivenUpAt(acts)
  {
    if acts != [] {
      var p, a := acts[..|acts| - 1], acts[|acts| - 1];
      assert acts == p + [a];
      RunLast(INIT, acts);
      InvRun(INIT, p);
      GivenUpRun(p);
      GivenUpStep(Run(INIT, p), a);
    }
  }

  lemma GivenUpStep(w: World, a: Action)
    requires Inv(w)
    ensures forall r | 0 <= r < |Next(w, a).requests| && GaveUp(Next(w, a).requests[r]) ::
              a == Deadline(r) || (r < |w.requests| && GaveUp(w.requests[r]))
  {
    forall r | 0 <= r < |w.requests| ensures RequestInv(w.requests[r]) {}
  }

  /** An activation of that kind has told its outcome. */
  ghost predicate Caused(acts: seq<Action>, r: nat, k: Kind) {
    exists t :: Spoke(acts, r, t) && Started(acts, r, t).Some? && KindOf(Started(acts, r, t).value) == k
  }

  lemma CausedGrows(acts: seq<Action>, r: nat, k: Kind)
    requires acts != [] && Caused(acts[..|acts| - 1], r, k)
    ensures Caused(acts, r, k)
  {
    var p := acts[..|acts| - 1];
    var t :| Spoke(p, r, t) && Started(p, r, t).Some? && KindOf(Started(p, r, t).value) == k;
    assert Spoke(acts, r, t);
  }

  ghost predicate ResultsAt(acts: seq<Action>, r: nat) {
    r < |Run(INIT, acts).requests| ==>
      var q := Run(INIT, acts).requests[r];
      && (forall k | k in q.queued :: Caused(acts, r, k))
      && (q.future.Some? && q.future != Some(Timeout) ==> Caused(acts, r, q.future.value))
  }

  /** Where the results of a request come from in one step. */
  lemma ResultsStep(w: World, a: Action, r: nat)
    requires r < |w.requests|
    ensures var q, q' := w.requests[r], Next(w, a).requests[r];
            && (forall k | k in q'.queued ::
                  || k in q.queued
                  || (a.Advance? && a.r == r && a.t in q.activations && q.activations[a.t] == Schedule(k)))
            && (q'.future == q.future || q'.future == Some(Timeout)
                || (q'.future.Some? && q'.future.value in q.queued))
  {
    RequestAfter(w, a, r);
  }

  lemma {:induction false} ResultsRun(acts: seq<Action>, r: nat)
    ensures ResultsAt(acts, r)
  {
    if acts != [] && r < |Run(INIT, acts).requests| {
      var p, a := acts[..|acts| - 1], acts[|acts| - 1];
      RunLast(INIT, acts);
      if r < |Run(INIT, p).requests| {
        ResultsRun(p, r);
        ResultsLast(acts, r);
      }
    }
  }

  lemma ResultsLast(acts: seq<Action>, r: nat)
    requires acts != [] && r < |Run(INIT, acts[..|acts| - 1]).requests| && ResultsAt(acts[..|acts| - 1], r)
    requires Run(INIT, acts) == Next(Run(INIT, acts[..|acts| - 1]), acts[|acts| - 1])
    ensures ResultsAt(acts, r)
  {
    var p, a := acts[..|acts| - 1], acts[|acts| - 1];
    ResultsStep(Run(INIT, p), a, r);
    forall k | Caused(p, r, k) ensures Caused(acts, r, k) { CausedGrows(acts, r, k); }
    if a.Advance? && a.r == r {
      StandsRun(p, r, a.t);
      ScheduledCause(acts, r, a.t);
    }
  }

  lemma ScheduledCause(acts: seq<Action>, r: nat, t: nat)
    requires acts != [] && StandsAt(acts[..|acts| - 1], r, t)
    ensures var w := Run(INIT, acts[..|acts| - 1]);
            r < |w.requests| && t in w.requests[r].activations && w.requests[r].activations[t].Schedule? ==>
              Caused(acts, r, w.requests[r].activations[t].kind)
  {
    var p := acts[..|acts| - 1];
    assert Spoke(p, r, t) ==> Spoke(acts, r, t);
    assert Started(p, r, t).Some? ==> Started(acts, r, t) == Started(p, r, t);
  }

  /** In every run, a future that ended as a response or a failure was set for an activation of that very
      callback that had told it, and one that ended as a timeout for a watchdog past its deadline. */
  lemma ResultHasCause(acts: seq<Action>, r: nat)
    requires r < |Run(INIT, acts).requests|
    ensures var f := Run(INIT, acts).requests[r].future;
            && (f == Some(Response) ==> exists t :: Spoke(acts, r, t) && Started(acts, r, t) == Some(true))
            && (f == Some(Failure) ==> exists t :: Spoke(acts, r, t) && Started(acts, r, t) == Some(false))
            && (f == Some(Timeout) ==> Deadline(r) in acts)
  {
    ResultsRun(acts, r);
    GivenUpRun(acts);
  }

  lemma ResultStep(w: World, a: Action, r: nat)
    requires r < |w.requests| && w.requests[r].future.Some?
    ensures r < |Next(w, a).requests| && Next(w, a).requests[r].future == w.requests[r].future
  {
  }

  /** The first result is final: neither a later callback nor the watchdog changes it. */
  lemma {:induction false} ResultStays(w: World, acts: seq<Action>, r: nat)
    requires r < |w.requests| && w.requests[r].future.Some?
    ensures r < |Run(w, acts).requests| && Run(w, acts).requests[r].future == w.requests[r].future
    decreases |acts|
  {
    if acts != [] {
      ResultStep(w, acts[0], r);
      ResultStays(Next(w, acts[0]), acts[1..], r);
    }
  }

  // ---------- the class ----------

  /** How the events for request `r` ended, oldest first: true for a response. */
  function OksOf(bus: seq<Event>, r: nat): seq<bool> {
    if bus == [] then []
    else OksOf(bus[..|bus| - 1], r) + if bus[|bus| - 1].req == r then [bus[|bus| - 1].ok] else []
  }

  lemma OksAppend(bus: seq<Event>, es: seq<Event>, r: nat)
    requires |es| <= 1
    ensures OksOf(bus + es, r) == OksOf(bus, r) + if es != [] && es[0].req == r then [es[0].ok] else []
  {
    if es == [] {
      assert bus + es == bus;
    } else {
      assert (bus + es)[..|bus|] == bus;
    }
  }

  /** One line of an activation of request `r`. */
  lemma AdvanceOnce(w: World, r: nat, t: nat)
    requires r < |w.requests| && t in w.requests[r].activations
    ensures var a, w' := w.requests[r].activations[t], Next(w, Advance(r, t));
            && r < |w'.requests| && w'.requests[r] == AdvanceStep(w.requests[r], t)
            && OksOf(w'.bus, r) == OksOf(w.bus, r) + if a.EmitNext? then [a.kind == Response] else []
  {
    OksAppend(w.bus, Emitted(w, Advance(r, t)), r);
  }

  /** The world after the three lines of an activation, with nothing in between. */
  function Thrice(w: World, r: nat, t: nat): World {
    Next(Next(Next(w, Advance(r, t)), Advance(r, t)), Advance(r, t))
  }

  /** Two more lines after the first send nothing. */
  lemma SilentTwice(w: World, r: nat, t: nat)
    requires r < |w.requests| && t in w.requests[r].activations && w.requests[r].activations[t].CheckDone?
    ensures var w' := Next(Next(w, Advance(r, t)), Advance(r, t));
            && r < |w'.requests| && OksOf(w'.bus, r) == OksOf(w.bus, r)
            && w'.requests[r] == AdvanceStep(AdvanceStep(w.requests[r], t), t)
  {
    AdvanceOnce(w, r, t);
    assert !AdvanceStep(w.requests[r], t).activations[t].EmitNext?;
    AdvanceOnce(Next(w, Advance(r, t)), r, t);
  }

  /** What the three lines come to for the request. */
  lemma TailFields(q: Request, t: nat)
    requires t in q.activations && q.activations[t].CheckDone?
    ensures var q' := AdvanceStep(AdvanceStep(q, t), t);
            && q'.id == q.id && q'.path == q.path && q'.future == q.future
            && t in q'.activations && q'.activations[t] == Returned
            && q'.queued == if q.future.None? then q.queued + [q.activations[t].kind] else q.queued
  {
  }

  lemma ThriceFields(w: World, r: nat, t: nat)
    requires r < |w.requests| && t in w.requests[r].activations && w.requests[r].activations[t].EmitNext?
    ensures var q, k, w' := w.requests[r], w.requests[r].activations[t].kind, Thrice(w, r, t);
            && r < |w'.requests| && t in w'.requests[r].activations
            && OksOf(w'.bus, r) == OksOf(w.bus, r) + [k == Response]
            && var q' := w'.requests[r];
               && q'.id == q.id && q'.path == q.path && q'.future == q.future && q'.activations[t] == Returned
               && q'.queued == if q.future.None? then q.queued + [k] else q.queued
  {
    AdvanceOnce(w, r, t);
    SilentTwice(Next(w, Advance(r, t)), r, t);
    TailFields(AdvanceStep(w.requests[r], t), t);
  }

  lemma WatchOnce(w: World, r: nat)
    requires r < |w.requests|
    ensures var w' := Next(w, Watch(r));
            && r < |w'.requests| && w'.requests[r] == WatchStep(w.requests[r])
            && OksOf(w'.bus, r) == OksOf(w.bus, r) + if w.requests[r].watchdog == Sending then [false] else []
  {
    OksAppend(w.bus, Emitted(w, Watch(r)), r);
  }

  lemma ExpireFields(w: World, r: nat)
    requires r < |w.requests| && w.requests[r].watchdog == TimedOut
    ensures var q, w' := w.requests[r], Next(Next(w, Watch(r)), Watch(r));
            && r < |w'.requests|
            && OksOf(w'.bus, r) == OksOf(w.bus, r) + (if q.future.Some? then [] else [false])
            && var q' := w'.requests[r];
               && q'.id == q.id && q'.path == q.path && q'.queued == q.queued && q'.watchdog == Finished
               && q'.future == if q.future.Some? then q.future else Some(Timeout)
  {
    WatchOnce(w, r);
    WatchOnce(Next(w, Watch(r)), r);
  }

  lemma QueuedFields(w: World, r: nat)
    requires r < |w.requests|
    ensures var w' := Next(w, Action.RunQueued(r));
            && r < |w'.requests| && w'.requests[r] == RunQueuedStep(w.requests[r])
            && OksOf(w'.bus, r) == OksOf(w.bus, r)
  {
    OksAppend(w.bus, [], r);
  }

  /** The state the closures of one `request` call share. `sent` records the terminal events, true for
      a response. */
  class RequestTask {
    const id: Option<int>
    const path: string
    var future: Option<Kind>
    var queued: seq<Kind>
    var sent: seq<bool>

    constructor (id: Option<int>, path: string)
      ensures this.id == id && this.path == path && future == None && queued == [] && sent == []
    {
      this.id, this.path, future, queued, sent := id, path, None, [], [];
    }

    /** The object is request `r` of `w`, and what it has sent is what the bus has for that request. */
    ghost predicate Is(w: World, r: nat)
      reads this
    {
      && r < |w.requests| && sent == OksOf(w.bus, r)
      && var q := w.requests[r]; q.id == id && q.path == path && q.future == future && q.queued == queued
    }

    /** `_on_response` or `_on_failed`, if nothing runs in between. */
    method OnResult(kind: Kind, ghost w: World, ghost r: nat, ghost t: nat)
      requires kind != Timeout && Is(w, r)
      requires t in w.requests[r].activations && w.requests[r].activations[t] == EmitNext(kind)
      modifies `sent, `queued
      ensures sent == old(sent) + [kind == Response]
      ensures queued == if future.None? then old(queued) + [kind] else old(queued)
      ensures Is(Thrice(w, r, t), r)
      ensures t in Thrice(w, r, t).requests[r].activations && Thrice(w, r, t).requests[r].activations[t] == Returned
    {
      ThriceFields(w, r, t);
      sent := sent + [kind == Response];
      if future.None? {
        queued := queued + [kind];
      }
    }

    /** The loop runs the oldest queued `set_result`; `raised` is its InvalidStateError. */
    method RunQueued(ghost w: World, ghost r: nat) returns (raised: bool)
      requires Is(w, r) && queued != []
      modifies `future, `queued
      ensures Is(Next(w, Action.RunQueued(r)), r) && raised == old(future).Some?
      ensures future == if raised then old(future) else Some(old(queued)[0])
      ensures queued == old(queued)[1..]
    {
      QueuedFields(w, r);
      raised := future.Some?;
      if !raised {
        future := Some(queued[0]);
      }
      queued := queued[1..];
    }

    /** The `except TimeoutError` branch of the watchdog. */
    method Expire(ghost w: World, ghost r: nat)
      requires Is(w, r) && w.requests[r].watchdog == TimedOut
      modifies `future, `sent
      ensures Is(Next(Next(w, Watch(r)), Watch(r)), r)
      ensures Next(Next(w, Watch(r)), Watch(r)).requests[r].watchdog == Finished
      ensures sent == if old(future).Some? then old(sent) else old(sent) + [false]
      ensures future == if old(future).Some? then old(future) else Some(Timeout)
    {
      ExpireFields(w, r);
      if future.Some? {
        return;
      }
      future := Some(Timeout);
      sent := sent + [false];
    }
  }
}
