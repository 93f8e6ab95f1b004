/**
  The session registry of src/rnsapi/auth/session.py. A sweep pops one expired session and then awaits
  its teardown, so creates, lookups and revokes run between any two pops.
*/
module Sessions {
  import opened Wrappers

  type Name = nat
  type Token = nat
  type Id = nat

  datatype Config = Config(inactivityTimeout: real, maxLifetime: real)

  datatype Info = Info(id: Id, token: Token, createdAt: real, lastSeenAt: real, isAnonymous: bool)

  /** `_is_expired`. */
  predicate Expired(c: Config, s: Info, now: real) {
    !s.isAnonymous && (now - s.lastSeenAt > c.inactivityTimeout || now - s.createdAt > c.maxLifetime)
  }

  datatype Sweep = Sweep(start: real, todo: seq<Name>)

  /** A `Name` stands for a session object; `store` has every session ever created, registered or not. `sweeps`
      lists the start times of the completed sweeps. */
  datatype Registry = Registry(
    config: Config,
    clock: real,
    store: map<Name, Info>,
    byToken: map<Token, Name>,
    byId: map<Id, Name>,
    anon: Option<Name>,
    sweep: Option<Sweep>,
    sweeps: seq<real>)

  function Empty(c: Config): Registry {
    Registry(c, 0.0, map[], map[], map[], None, None, [])
  }

  datatype Action =
    | Tick(d: real)
    | Create(o: Name, id: Id, token: Token, isAnonymous: bool)
    | Anonymous(o: Name, id: Id, token: Token)
    | GetByToken(token: Token)
    | Touch(o: Name)
    | Revoke(token: Token)
    | SweepBegin(order: seq<Name>)
    | SweepNext
    | SweepEnd

  /** A new object with an id and a token that no session ever had. */
  predicate Fresh(r: Registry, o: Name, id: Id, token: Token) {
    o !in r.store && forall p | p in r.store :: r.store[p].id != id && r.store[p].token != token
  }

  function Created(r: Registry, o: Name, id: Id, token: Token, isAnonymous: bool): Registry {
    r.(store := r.store[o := Info(id, token, r.clock, r.clock, isAnonymous)],
       byToken := r.byToken[token := o],
       byId := r.byId[id := o])
  }

  function Touched(r: Registry, o: Name): Registry {
    if o in r.store then r.(store := r.store[o := r.store[o].(lastSeenAt := r.clock)]) else r
  }

  function Dropped(r: Registry, o: Name): Registry
    requires o in r.store
  {
    r.(byToken := r.byToken - {r.store[o].token}, byId := r.byId - {r.store[o].id})
  }

  predicate Registered(r: Registry, o: Name) {
    o in r.store && r.store[o].token in r.byToken && r.byToken[r.store[o].token] == o
  }

  /** `order` lists the sessions the comprehension of `sweep_once` selects, in any order. */
  predicate Selects(r: Registry, order: seq<Name>) {
    && (forall o | o in order :: Registered(r, o) && Expired(r.config, r.store[o], r.clock))
    && (forall o | o in r.store && Registered(r, o) && Expired(r.config, r.store[o], r.clock) :: o in order)
  }

  function Next(r: Registry, a: Action): Registry {
    match a
    case Tick(d) => if d < 0.0 then r else r.(clock := r.clock + d)
    case Create(o, id, token, isAnonymous) =>
      if Fresh(r, o, id, token) && !isAnonymous then Created(r, o, id, token, false) else r
    case Anonymous(o, id, token) =>
      if r.anon.Some? then Touched(r, r.anon.value)
      else if Fresh(r, o, id, token) then Created(r, o, id, token, true).(anon := Some(o))
      else r
    case GetByToken(token) => if token in r.byToken then Touched(r, r.byToken[token]) else r
    case Touch(o) => Touched(r, o)
    case Revoke(token) =>
      if token !in r.byToken || r.byToken[token] !in r.store then r
      else
        var o := r.byToken[token];
        r.(byToken := r.byToken - {token}, byId := r.byId - {r.store[o].id},
           anon := if r.anon == Some(o) then None else r.anon)
    case SweepBegin(order) =>
      if r.sweep.None? && Selects(r, order) then r.(sweep := Some(Sweep(r.clock, order))) else r
    case SweepNext =>
      if r.sweep.None? || r.sweep.value.todo == [] || r.sweep.value.todo[0] !in r.store then r
      else Dropped(r, r.sweep.value.todo[0]).(sweep := Some(r.sweep.value.(todo := r.sweep.value.todo[1..])))
    case SweepEnd =>
      if r.sweep.Some? && r.sweep.value.todo == []
      then r.(sweep := None, sweeps := r.sweeps + [r.sweep.value.start]) else r
  }

  function Run(r: Registry, acts: seq<Action>): Registry
    decreases |acts|
  {
    if acts == [] then r else Run(Next(r, acts[0]), acts[1..])
  }

  // ---------- the invariant ----------

  /** `_by_token` and `_by_id` hold the same sessions, each under its own token and id. */
  ghost predicate Mirror(r: Registry) {
    && (forall t | t in r.byToken ::
          var o := r.byToken[t];
          o in r.store && r.store[o].token == t && r.store[o].id in r.byId && r.byId[r.store[o].id] == o)
    && (forall i | i in r.byId ::
          var o := r.byId[i];
          o in r.store && r.store[o].id == i && r.store[o].token in r.byToken && r.byToken[r.store[o].token] == o)
  }

  ghost predicate AnonRegistered(r: Registry) {
    && (r.anon.Some? ==> Registered(r, r.anon.value) && r.store[r.anon.value].isAnonymous)
    && (forall o | o in r.store && Registered(r, o) && r.store[o].isAnonymous :: r.anon == Some(o))
  }

  ghost predicate Unique(r: Registry) {
    forall o, p | o in r.store && p in r.store && o != p ::
      r.store[o].token != r.store[p].token && r.store[o].id != r.store[p].id
  }

  ghost predicate Clocked(r: Registry) {
    && (forall o | o in r.store :: r.store[o].createdAt <= r.clock && r.store[o].lastSeenAt <= r.clock)
    && (r.sweep.Some? ==> r.sweep.value.start <= r.clock
                          && forall o | o in r.sweep.value.todo :: o in r.store && !r.store[o].isAnonymous)
    && (forall t | t in r.sweeps :: t <= r.clock)
  }

  /** No registered session was expired when a completed sweep began. */
  ghost predicate Swept(r: Registry) {
    forall o, t | o in r.store && Registered(r, o) && t in r.sweeps :: !Expired(r.config, r.store[o], t)
  }

  /** What the sweep under way still has to drop. */
  ghost predicate Sweeping(r: Registry) {
    r.sweep.Some? ==>
      forall o | o in r.store && Registered(r, o) && Expired(r.config, r.store[o], r.sweep.value.start) ::
        o in r.sweep.value.todo
  }

  ghost predicate Base(r: Registry) {
    Mirror(r) && AnonRegistered(r) && Unique(r) && Clocked(r)
  }

  predicate NonNegative(c: Config) {
    c.inactivityTimeout >= 0.0 && c.maxLifetime >= 0.0
  }

  ghost predicate Inv(r: Registry) {
    Base(r) && (NonNegative(r.config) ==> Swept(r) && Sweeping(r))
  }

  lemma CreatedMirror(r: Registry, o: Name, id: Id, token: Token, b: bool)
    requires Mirror(r) && Unique(r) && Fresh(r, o, id, token)
    ensures var r' := Created(r, o, id, token, b);
            && Mirror(r') && Unique(r') && Registered(r', o)
            && forall p | p in r.store :: p != o && (Registered(r', p) <==> Registered(r, p))
  {
  }

  /** A new session is younger than every sweep. */
  lemma CreatedSwept(r: Registry, o: Name, id: Id, token: Token, b: bool)
    requires Base(r) && Fresh(r, o, id, token)
    requires NonNegative(r.config) ==> Swept(r) && Sweeping(r)
    ensures NonNegative(r.config) ==> Swept(Created(r, o, id, token, b)) && Sweeping(Created(r, o, id, token, b))
  {
    CreatedMirror(r, o, id, token, b);
    var r' := Created(r, o, id, token, b);
    assert NonNegative(r.config) ==> forall t | t <= r.clock :: !Expired(r.config, r'.store[o], t);
  }

  lemma CreatedKeeps(r: Registry, o: Name, id: Id, token: Token)
    requires Inv(r) && Fresh(r, o, id, token)
    ensures Inv(Created(r, o, id, token, false))
  {
    CreatedMirror(r, o, id, token, false);
    CreatedAnon(r, o, id, token);
    CreatedClocked(r, o, id, token, false);
    CreatedSwept(r, o, id, token, false);
  }

  lemma CreatedAnon(r: Registry, o: Name, id: Id, token: Token)
    requires Base(r) && Fresh(r, o, id, token)
    ensures AnonRegistered(Created(r, o, id, token, false))
  {
    CreatedMirror(r, o, id, token, false);
  }

  lemma CreatedClocked(r: Registry, o: Name, id: Id, token: Token, b: bool)
    requires Clocked(r) && Fresh(r, o, id, token)
    ensures Clocked(Created(r, o, id, token, b))
  {
  }

  lemma AnonymousKeeps(r: Registry, o: Name, id: Id, token: Token)
    requires Inv(r) && Fresh(r, o, id, token) && r.anon.None?
    ensures Inv(Created(r, o, id, token, true).(anon := Some(o)))
  {
    CreatedMirror(r, o, id, token, true);
    var r1 := Created(r, o, id, token, true);
    var r' := r1.(anon := Some(o));
    assert Mirror(r') && Unique(r');
    assert forall p | p in r'.store :: Registered(r', p) == Registered(r1, p);
    assert AnonRegistered(r');
    CreatedClocked(r, o, id, token, true);
    CreatedSwept(r, o, id, token, true);
  }

  lemma TouchedMirror(r: Registry, o: Name)
    requires Mirror(r) && Unique(r) && o in r.store
    ensures var r' := Touched(r, o);
            && Mirror(r') && Unique(r')
            && forall p | p in r.store :: Registered(r', p) <==> Registered(r, p)
  {
  }

  lemma TouchedKeeps(r: Registry, o: Name)
    requires Inv(r) && o in r.store
    ensures Inv(Touched(r, o))
  {
    TouchedMirror(r, o);
    var r' := Touched(r, o);
    assert AnonRegistered(r');
    assert Clocked(r');
    assert NonNegative(r.config) ==> Swept(r');
  }

  lemma DroppedMirror(r: Registry, o: Name)
    requires Mirror(r) && Unique(r) && o in r.store
    ensures Mirror(Dropped(r, o))
    ensures forall p | p in r.store :: Registered(Dropped(r, o), p) <==> Registered(r, p) && p != o
  {
  }

  lemma RevokeKeeps(r: Registry, token: Token)
    requires Inv(r)
    ensures Inv(Next(r, Revoke(token)))
  {
    if token in r.byToken {
      DroppedMirror(r, r.byToken[token]);
    }
  }

  lemma SweepNextKeeps(r: Registry)
    requires Inv(r)
    ensures Inv(Next(r, SweepNext))
  {
    if r.sweep.Some? && r.sweep.value.todo != [] && r.sweep.value.todo[0] in r.store {
      DroppedMirror(r, r.sweep.value.todo[0]);
    }
  }

  lemma SameIndexes(r: Registry, r2: Registry)
    requires Base(r) && r2.byToken == r.byToken && r2.byId == r.byId && r2.store == r.store && r2.anon == r.anon
    ensures Mirror(r2) && AnonRegistered(r2) && Unique(r2)
    ensures forall o :: Registered(r2, o) == Registered(r, o)
  {
  }

  lemma TickKeeps(r: Registry, d: real)
    requires Inv(r)
    ensures Inv(Next(r, Tick(d)))
  {
    SameIndexes(r, Next(r, Tick(d)));
  }

  /** What a sweep that starts now selects is all that is expired. */
  lemma SweepBeginKeeps(r: Registry, order: seq<Name>)
    requires Inv(r)
    ensures Inv(Next(r, SweepBegin(order)))
  {
    SameIndexes(r, Next(r, SweepBegin(order)));
  }

  /** When nothing is left to drop, nothing registered was expired at the start. */
  lemma SweepEndKeeps(r: Registry)
    requires Inv(r)
    ensures Inv(Next(r, SweepEnd))
  {
    SameIndexes(r, Next(r, SweepEnd));
  }

  lemma Step(r: Registry, a: Action)
    requires Inv(r)
    ensures Inv(Next(r, a))
  {
    match a
    case Create(o, id, token, isAnonymous) =>
      if Fresh(r, o, id, token) { CreatedKeeps(r, o, id, token); }
    case Anonymous(o, id, token) =>
      if r.anon.Some? { TouchedKeeps(r, r.anon.value); }
      else if Fresh(r, o, id, token) { AnonymousKeeps(r, o, id, token); }
    case GetByToken(token) => if token in r.byToken { TouchedKeeps(r, r.byToken[token]); }
    case Touch(o) => if o in r.store { TouchedKeeps(r, o); }
    case Revoke(token) => RevokeKeeps(r, token);
    case SweepNext => SweepNextKeeps(r);
    case Tick(d) => TickKeeps(r, d);
    case SweepBegin(order) => SweepBeginKeeps(r, order);
    case SweepEnd => SweepEndKeeps(r);
  }

  lemma ConfigStays(r: Registry, a: Action)
    ensures Next(r, a).config == r.config
  {
  }

  lemma {:induction false} InvRun(r: Registry, acts: seq<Action>)
    requires Inv(r)
    ensures Inv(Run(r, acts)) && Run(r, acts).config == r.config
    decreases |acts|
  {
    if acts != [] {
      Step(r, acts[0]);
      ConfigStays(r, acts[0]);
      InvRun(Next(r, acts[0]), acts[1..]);
    }
  }

  /** Main result. With creates, lookups, touches and revokes at every await of a sweep, the two
      indexes stay mirror images and the shared anonymous session is registered in both or absent. */
  lemma IndexesMirror(c: Config, acts: seq<Action>)
    ensures var r := Run(Empty(c), acts);
            && Mirror(r)
            && (r.anon.Some? ==> Registered(r, r.anon.value) && r.byId[r.store[r.anon.value].id] == r.anon.value)
            && (forall o | o in r.store && Registered(r, o) && r.store[o].isAnonymous :: r.anon == Some(o))
  {
    InvRun(Empty(c), acts);
  }

  /** Every completed sweep has dropped what was idle or alive for too long when it began, and nothing
      since is older. */
  ghost predicate SweepsHold(c: Config, acts: seq<Action>) {
    var r := Run(Empty(c), acts);
    forall o, t | o in r.store && Registered(r, o) && t in r.sweeps && !r.store[o].isAnonymous ::
      t - r.store[o].lastSeenAt <= c.inactivityTimeout && t - r.store[o].createdAt <= c.maxLifetime
  }

  /** Main result. When a sweep ends, and ever after, no registered session is one that was expired
      when that sweep began; this holds over all runs exactly for non-negative limits. */
  lemma SweepsHoldExactly(c: Config)
    ensures (forall acts :: SweepsHold(c, acts)) <==> NonNegative(c)
  {
    if NonNegative(c) {
      forall acts ensures SweepsHold(c, acts) {
        InvRun(Empty(c), acts);
      }
    } else {
      BornExpired(c);
    }
  }

  /** With a negative limit a session created during a sweep counts as expired at its start. */
  lemma BornExpired(c: Config)
    requires !NonNegative(c)
    ensures !SweepsHold(c, [SweepBegin([]), Create(0, 0, 0, false), SweepEnd])
  {
    var a, b, d := SweepBegin([]), Create(0, 0, 0, false), SweepEnd;
    var acts := [a, b, d];
    assert acts[1..] == [b, d] && [b, d][1..] == [d] && [d][1..] == [];
    var r1 := Next(Empty(c), a);
    assert Selects(Empty(c), []);
    var r2 := Next(r1, b);
    var r3 := Next(r2, d);
    assert Run(Empty(c), acts) == Run(r1, [b, d]);
    assert Run(r1, [b, d]) == Run(r2, [d]);
    assert Run(r2, [d]) == Run(r3, []) == r3;
    assert r3.sweeps == [0.0] && 0 in r3.store && Registered(r3, 0);
    assert 0.0 in r3.sweeps && Expired(c, r3.store[0], 0.0);
    assert !SweepsHold(c, acts);
  }

  /** A sweep that starts now takes, of the registered sessions, exactly those that are not anonymous and
      have been idle or alive longer than allowed, and nothing else. */
  lemma SweepTakesExactly(r: Registry, order: seq<Name>)
    requires r.sweep.None? && Next(r, SweepBegin(order)).sweep.Some?
    ensures Next(r, SweepBegin(order)).sweep.value.todo == order
    ensures forall o :: o in order <==>
              && Registered(r, o) && !r.store[o].isAnonymous
              && (|| r.clock - r.store[o].lastSeenAt > r.config.inactivityTimeout
                  || r.clock - r.store[o].createdAt > r.config.maxLifetime)
  {
  }

  /** What `get_by_token` returns. */
  function Lookup(r: Registry, token: Token): Option<Name> {
    if token in r.byToken then Some(r.byToken[token]) else None
  }

  /** Main result. If the last `delta` seconds contain a whole sweep, a lookup never returns a
      non-anonymous session older than the maximal lifetime plus `delta`, nor one that had been idle
      longer than the inactivity limit plus `delta`. */
  lemma LookupAgeBound(c: Config, acts: seq<Action>, token: Token, delta: real, start: real)
    requires NonNegative(c)
    requires var r := Run(Empty(c), acts); start in r.sweeps && r.clock - start <= delta
    requires Lookup(Run(Empty(c), acts), token).Some?
    ensures var r := Run(Empty(c), acts);
            var o := Lookup(r, token).value;
            o in r.store &&
            var s := r.store[o];
            && s.token == token
            && (!s.isAnonymous ==> r.clock - s.createdAt <= c.maxLifetime + delta)
            && (!s.isAnonymous ==> r.clock - s.lastSeenAt <= c.inactivityTimeout + delta)
            && Next(r, GetByToken(token)).store[o].lastSeenAt == r.clock
  {
    InvRun(Empty(c), acts);
    var r := Run(Empty(c), acts);
    var o := Lookup(r, token).value;
    assert Registered(r, o);
    assert !Expired(c, r.store[o], start);
  }

  // ---------- what becomes of one session ----------

  lemma {:induction false} RunLast(r: Registry, acts: seq<Action>)
    requires acts != []
    ensures Run(r, acts) == Next(Run(r, acts[..|acts| - 1]), acts[|acts| - 1])
    decreases |acts|
  {
    if |acts| == 1 {
      assert acts[1..] == [] && acts[..0] == [];
    } else {
      assert acts[1..][..|acts| - 2] == acts[..|acts| - 1][1..];
      RunLast(Next(r, acts[0]), acts[1..]);
    }
  }

  /** Does action `a` use session `o`: a lookup that finds it, a touch, or a request of the shared one? */
  predicate Uses(r: Registry, a: Action, o: Name) {
    || (a.GetByToken? && Lookup(r, a.token) == Some(o))
    || (a.Touch? && a.o == o)
    || (a.Anonymous? && r.anon == Some(o))
  }

  /** The time at which `o` came into being. */
  ghost function BornAt(c: Config, acts: seq<Action>, o: Name): real {
    if acts == [] then 0.0
    else
      var p := acts[..|acts| - 1];
      if o in Run(Empty(c), p).store then BornAt(c, p, o) else Run(Empty(c), p).clock
  }

  /** The time at which `o` was last used, or came into being. */
  ghost function UsedAt(c: Config, acts: seq<Action>, o: Name): real {
    if acts == [] then 0.0
    else
      var p, a := acts[..|acts| - 1], acts[|acts| - 1];
      var r := Run(Empty(c), p);
      if o in r.store && !Uses(r, a, o) then UsedAt(c, p, o) else r.clock
  }

  lemma StampsStep(r: Registry, a: Action, o: Name)
    requires Inv(r) && o in Next(r, a).store
    ensures var s := Next(r, a).store[o];
            && s.createdAt == (if o in r.store then r.store[o].createdAt else r.clock)
            && s.lastSeenAt == (if o in r.store && !Uses(r, a, o) then r.store[o].lastSeenAt else r.clock)
  {
  }

  /** The stamps a session carries are the times of its creation and of its last use. */
  lemma {:induction false} StampsTell(c: Config, acts: seq<Action>, o: Name)
    requires o in Run(Empty(c), acts).store
    ensures var s := Run(Empty(c), acts).store[o];
            s.createdAt == BornAt(c, acts, o) && s.lastSeenAt == UsedAt(c, acts, o)
  {
    if acts != [] {
      var p, a := acts[..|acts| - 1], acts[|acts| - 1];
      RunLast(Empty(c), acts);
      InvRun(Empty(c), p);
      StampsStep(Run(Empty(c), p), a, o);
      if o in Run(Empty(c), p).store { StampsTell(c, p, o); }
    }
  }

  /** Action `a` removes `o`: a revoke by its token, or the pop of a sweep that selected it. */
  predicate Removes(r: Registry, a: Action, o: Name) {
    || (a.Revoke? && Lookup(r, a.token) == Some(o))
    || (a.SweepNext? && r.sweep.Some? && r.sweep.value.todo != [] && r.sweep.value.todo[0] == o)
  }

  ghost predicate EverRemoved(c: Config, acts: seq<Action>, o: Name) {
    exists i :: 0 <= i < |acts| && Removes(Run(Empty(c), acts[..i]), acts[i], o)
  }

  lemma RemovedLast(c: Config, acts: seq<Action>, o: Name)
    requires acts != []
    ensures var p := acts[..|acts| - 1];
            EverRemoved(c, acts, o) <==> (EverRemoved(c, p, o) || Removes(Run(Empty(c), p), acts[|acts| - 1], o))
  {
    var p := acts[..|acts| - 1];
    assert forall i | 0 <= i < |p| :: acts[i] == p[i] && acts[..i] == p[..i];
    assert acts[..|p|] == p;
  }

  lemma CreateRegisters(r: Registry, a: Action, o: Name)
    requires Inv(r) && o in r.store && (a.Create? || a.Anonymous?)
    ensures o in Next(r, a).store && (Registered(Next(r, a), o) <==> Registered(r, o))
  {
    if a.Anonymous? && r.anon.Some? {
      TouchedMirror(r, r.anon.value);
    } else if Fresh(r, a.o, a.id, a.token) {
      CreatedMirror(r, a.o, a.id, a.token, a.Anonymous?);
    }
  }

  lemma RegisteredStep(r: Registry, a: Action, o: Name)
    requires Inv(r) && o in r.store
    ensures o in Next(r, a).store && (Registered(Next(r, a), o) <==> Registered(r, o) && !Removes(r, a, o))
  {
    match a
    case Create(p, id, token, _) => CreateRegisters(r, a, o);
    case Anonymous(p, id, token) => CreateRegisters(r, a, o);
    case GetByToken(token) => if token in r.byToken { TouchedMirror(r, r.byToken[token]); }
    case Touch(p) => if p in r.store { TouchedMirror(r, p); }
    case Revoke(token) => if token in r.byToken { DroppedMirror(r, r.byToken[token]); }
    case SweepNext =>
      if r.sweep.Some? && r.sweep.value.todo != [] && r.sweep.value.todo[0] in r.store {
        DroppedMirror(r, r.sweep.value.todo[0]);
      }
    case _ =>
  }

  /** A session comes into being registered, and nothing was about to remove it. */
  lemma NewRegistered(r: Registry, a: Action, o: Name)
    requires Inv(r) && o !in r.store
    ensures !Removes(r, a, o)
    ensures o in Next(r, a).store ==> Registered(Next(r, a), o)
    ensures o in Next(r, a).store && Next(r, a).sweep.Some? ==> o !in Next(r, a).sweep.value.todo
  {
  }

  lemma {:induction false} RegisteredRun(c: Config, acts: seq<Action>, o: Name)
    ensures var r := Run(Empty(c), acts);
            && (o in r.store ==> (Registered(r, o) <==> !EverRemoved(c, acts, o)))
            && (o !in r.store ==> !EverRemoved(c, acts, o))
  {
    if acts != [] {
      var p, a := acts[..|acts| - 1], acts[|acts| - 1];
      RunLast(Empty(c), acts);
      InvRun(Empty(c), p);
      RegisteredRun(c, p, o);
      RemovedLast(c, acts, o);
      if o in Run(Empty(c), p).store { RegisteredStep(Run(Empty(c), p), a, o); }
      else { NewRegistered(Run(Empty(c), p), a, o); }
    }
  }

  /** Main result. In every run a session that was created is found by its token if and only if it has been
      neither revoked nor popped by a sweep; so what is gone never comes back. */
  lemma FoundExactly(c: Config, acts: seq<Action>, o: Name)
    requires o in Run(Empty(c), acts).store
    ensures var r := Run(Empty(c), acts);
            Lookup(r, r.store[o].token) == Some(o) <==> !EverRemoved(c, acts, o)
  {
    RegisteredRun(c, acts, o);
  }

  /** At the start of every sweep of the run `o`, if it exists by then, is anonymous or was used and created
      recently enough. */
  ghost predicate InUseAtSweeps(c: Config, acts: seq<Action>, o: Name) {
    forall i | 0 <= i < |acts| && acts[i].SweepBegin? && o in Run(Empty(c), acts[..i]).store ::
      var r := Run(Empty(c), acts[..i]);
      || r.store[o].isAnonymous
      || (&& r.clock - UsedAt(c, acts[..i], o) <= c.inactivityTimeout
          && r.clock - BornAt(c, acts[..i], o) <= c.maxLifetime)
  }

  /** No revoke of the run names `o`. */
  ghost predicate NeverRevoked(c: Config, acts: seq<Action>, o: Name) {
    forall i | 0 <= i < |acts| && acts[i].Revoke? :: Lookup(Run(Empty(c), acts[..i]), acts[i].token) != Some(o)
  }

  lemma PrefixInUse(c: Config, acts: seq<Action>, o: Name)
    requires acts != [] && InUseAtSweeps(c, acts, o)
    ensures InUseAtSweeps(c, acts[..|acts| - 1], o)
  {
    var p := acts[..|acts| - 1];
    assert forall i | 0 <= i < |p| :: acts[i] == p[i] && acts[..i] == p[..i];
  }

  lemma PrefixNeverRevoked(c: Config, acts: seq<Action>, o: Name)
    requires acts != [] && NeverRevoked(c, acts, o)
    ensures NeverRevoked(c, acts[..|acts| - 1], o)
  {
    var p := acts[..|acts| - 1];
    assert forall i | 0 <= i < |p| :: acts[i] == p[i] && acts[..i] == p[..i];
  }

  /** `o` is registered and the sweep under way will not drop it. */
  predicate Safe(r: Registry, o: Name) {
    Registered(r, o) && (r.sweep.Some? ==> o !in r.sweep.value.todo)
  }

  lemma SafeStays(r: Registry, a: Action, o: Name)
    requires Inv(r) && Safe(r, o)
    requires a.Revoke? ==> Lookup(r, a.token) != Some(o)
    requires a.SweepBegin? ==> !Expired(r.config, r.store[o], r.clock)
    ensures o in Next(r, a).store && Safe(Next(r, a), o)
  {
    RegisteredStep(r, a, o);
  }

  lemma {:induction false} SafeRun(c: Config, acts: seq<Action>, o: Name)
    requires o in Run(Empty(c), acts).store && InUseAtSweeps(c, acts, o) && NeverRevoked(c, acts, o)
    ensures Safe(Run(Empty(c), acts), o)
  {
    if acts != [] {
      var p, a := acts[..|acts| - 1], acts[|acts| - 1];
      var r := Run(Empty(c), p);
      RunLast(Empty(c), acts);
      InvRun(Empty(c), p);
      if o in r.store {
        PrefixInUse(c, acts, o);
        PrefixNeverRevoked(c, acts, o);
        SafeRun(c, p, o);
        StampsTell(c, p, o);
        assert acts[|p|] == a && acts[..|p|] == p;
        SafeStays(r, a, o);
      } else {
        NewRegistered(r, a, o);
      }
    }
  }

  /** Main result. A session that at the start of every sweep had been used and created within the limits,
      and that nobody revoked, is found by its token at every point of every run; so is an anonymous one
      that nobody revoked. */
  lemma UsedSessionStays(c: Config, acts: seq<Action>, o: Name)
    requires o in Run(Empty(c), acts).store && InUseAtSweeps(c, acts, o) && NeverRevoked(c, acts, o)
    ensures var r := Run(Empty(c), acts); Lookup(r, r.store[o].token) == Some(o)
  {
    SafeRun(c, acts, o);
  }

  // ---------- the classes ----------

  class Session {
    ghost const name: Name
    const id: Id
    const token: Token
    const createdAt: real
    const isAnonymous: bool
    var lastSeenAt: real

    constructor (ghost name: Name, id: Id, token: Token, now: real, isAnonymous: bool)
      ensures this.name == name
      ensures View() == Info(id, token, now, now, isAnonymous)
    {
      this.name, this.id, this.token := name, id, token;
      createdAt, lastSeenAt, this.isAnonymous := now, now, isAnonymous;
    }

    function View(): Info
      reads this
    {
      Info(id, token, createdAt, lastSeenAt, isAnonymous)
    }

    method Touch(now: real)
      modifies this
      ensures View() == old(View()).(lastSeenAt := now)
    {
      lastSeenAt := now;
    }
  }

  /** Touching a session that was created at the same instant changes nothing. */
  lemma TouchedNew(r: Registry, o: Name, id: Id, token: Token)
    ensures var r' := Created(r, o, id, token, true).(anon := Some(o)); Touched(r', o) == r'
  {
    var r' := Created(r, o, id, token, true).(anon := Some(o));
    assert r'.store[o].(lastSeenAt := r'.clock) == r'.store[o];
    assert r'.store[o := r'.store[o]] == r'.store;
  }

  ghost function Store(all: map<Name, Session>): map<Name, Info>
    reads all.Values
  {
    map n | n in all :: all[n].View()
  }

  ghost function Names(m: map<nat, Session>): map<nat, Name> {
    map k | k in m :: m[k].name
  }

  lemma NamesUpdate(m: map<nat, Session>, k: nat, s: Session)
    ensures Names(m[k := s]) == Names(m)[k := s.name]
  {
  }

  lemma NamesRemove(m: map<nat, Session>, k: nat)
    ensures Names(m - {k}) == Names(m) - {k}
  {
  }

  lemma StoreUpdate(all: map<Name, Session>, n: Name, s: Session)
    ensures Store(all[n := s]) == Store(all)[n := s.View()]
  {
  }

  /** `n` pops of the sweep under way, with nothing in between. */
  ghost function Pops(r: Registry, n: nat): Registry {
    if n == 0 then r else Next(Pops(r, n - 1), SweepNext)
  }

  ghost function NamesOf(ss: seq<Session>): seq<Name> {
    seq(|ss|, i requires 0 <= i < |ss| => ss[i].name)
  }

  /** `m` after the tokens of `ss` were popped from it one by one. */
  ghost function Popped(m: map<Token, Session>, ss: seq<Session>): map<Token, Session> {
    if ss == [] then m else Popped(m, ss[..|ss| - 1]) - {ss[|ss| - 1].token}
  }

  lemma PoppedOne(m: map<Token, Session>, ss: seq<Session>, i: nat)
    requires i < |ss|
    ensures Popped(m, ss[..i + 1]) == Popped(m, ss[..i]) - {ss[i].token}
  {
    assert ss[..i + 1][..i] == ss[..i];
  }

  lemma {:induction false} PoppedExactly(m: map<Token, Session>, ss: seq<Session>, t: Token)
    ensures t in Popped(m, ss) <==> t in m && forall s | s in ss :: s.token != t
    ensures t in Popped(m, ss) ==> Popped(m, ss)[t] == m[t]
  {
    if ss != [] {
      PoppedExactly(m, ss[..|ss| - 1], t);
      assert ss == ss[..|ss| - 1] + [ss[|ss| - 1]];
    }
  }

  class SessionRegistry {
    const config: Config
    var clock: real
    var byToken: map<Token, Session>
    var byId: map<Id, Session>
    var anon: Session?
    ghost var all: map<Name, Session>
    ghost var sweep: Option<Sweep>
    ghost var sweeps: seq<real>

    ghost predicate Valid()
      reads this
    {
      && (forall n | n in all :: all[n].name == n)
      && (forall t | t in byToken ::
            byToken[t].name in all && all[byToken[t].name] == byToken[t] && byToken[t].token == t)
      && (forall i | i in byId :: byId[i].name in all && all[byId[i].name] == byId[i])
      && (anon != null ==> anon.name in all && all[anon.name] == anon)
    }

    ghost function View(): Registry
      reads this, all.Values
    {
      Registry(config, clock,
               Store(all),
               Names(byToken),
               Names(byId),
               if anon == null then None else Some(anon.name),
               sweep, sweeps)
    }

    constructor (config: Config)
      ensures Valid() && View() == Empty(config)
    {
      this.config, clock := config, 0.0;
      byToken, byId, anon, all := map[], map[], null, map[];
      sweep, sweeps := None, [];
    }

    /** A session that is not anonymous has been idle or alive for longer than allowed. */
    ghost predicate Overdue(s: Session)
      reads this, s
    {
      && !s.isAnonymous
      && (clock - s.lastSeenAt > config.inactivityTimeout || clock - s.createdAt > config.maxLifetime)
    }

    /** A new session object enters the two indexes. */
    method Enter(ghost n: Name, s: Session)
      requires Valid() && n !in all && s.name == n
      modifies `byToken, `byId, `all
      ensures Valid() && all == old(all)[n := s]
      ensures byToken == old(byToken)[s.token := s] && byId == old(byId)[s.id := s]
      ensures View() == old(View()).(store := old(View()).store[n := s.View()],
                                     byToken := old(View()).byToken[s.token := n],
                                     byId := old(View()).byId[s.id := n])
    {
      NamesUpdate(byToken, s.token, s);
      NamesUpdate(byId, s.id, s);
      byToken := byToken[s.token := s];
      byId := byId[s.id := s];
      StoreUpdate(all, n, s);
      all := all[n := s];
    }

    /** `sid` and `token` come from `secrets`; `n` names the new object. */
    method Create(ghost n: Name, sid: Id, token: Token, isAnonymous: bool) returns (s: Session)
      requires Valid() && n !in all
      modifies `byToken, `byId, `all
      ensures Valid() && fresh(s) && s.name == n && all == old(all)[n := s]
      ensures s.View() == Info(sid, token, clock, clock, isAnonymous)
      ensures byToken == old(byToken)[token := s] && byId == old(byId)[sid := s]
      ensures View() == Created(old(View()), n, sid, token, isAnonymous)
    {
      s := new Session(n, sid, token, clock, isAnonymous);
      Enter(n, s);
    }

    method GetByToken(token: Token) returns (s: Session?)
      requires Valid()
      modifies all.Values
      ensures Valid() && View() == Next(old(View()), Action.GetByToken(token))
      ensures (s == null <==> token !in byToken) && (s != null ==> s == byToken[token] && s.lastSeenAt == clock)
    {
      if token !in byToken {
        return null;
      }
      s := byToken[token];
      s.Touch(clock);
    }

    method Anonymous(ghost n: Name, sid: Id, token: Token) returns (s: Session)
      requires Valid() && n !in all
      modifies `byToken, `byId, `all, `anon, anon
      ensures Valid() && anon == s && s.lastSeenAt == clock
      ensures View() == if old(anon) == null then Created(old(View()), n, sid, token, true).(anon := Some(n))
                        else Touched(old(View()), s.name)
    {
      if anon == null {
        s := CreateAnonymous(n, sid, token);
      } else {
        s := anon;
        TouchRegistered(s);
      }
    }

    method CreateAnonymous(ghost n: Name, sid: Id, token: Token) returns (s: Session)
      requires Valid() && n !in all
      modifies `byToken, `byId, `all, `anon
      ensures Valid() && anon == s && s.lastSeenAt == clock
      ensures View() == Created(old(View()), n, sid, token, true).(anon := Some(n))
    {
      ghost var r := View();
      s := Create(n, sid, token, true);
      anon := s;
      TouchRegistered(s);
      TouchedNew(r, n, sid, token);
    }

    method TouchRegistered(s: Session)
      requires Valid() && s.name in all && all[s.name] == s
      modifies s
      ensures Valid() && View() == Touched(old(View()), s.name) && s.lastSeenAt == clock
    {
      s.Touch(clock);
      assert Store(all) == old(Store(all))[s.name := s.View()];
    }

    /** The `pop`s from the two indexes. */
    method Drop(s: Session)
      requires Valid()
      modifies `byToken, `byId
      ensures Valid() && byToken == old(byToken) - {s.token} && byId == old(byId) - {s.id}
      ensures View() == old(View()).(byToken := old(View()).byToken - {s.token}, byId := old(View()).byId - {s.id})
    {
      NamesRemove(byToken, s.token);
      NamesRemove(byId, s.id);
      byToken := byToken - {s.token};
      byId := byId - {s.id};
    }

    /** Returns the session removed, which the caller then tears down. */
    method Revoke(token: Token) returns (s: Session?)
      requires Valid()
      modifies `byToken, `byId, `anon
      ensures Valid() && View() == Next(old(View()), Action.Revoke(token))
      ensures s == if token in old(byToken) then old(byToken)[token] else null
      ensures byToken == old(byToken) - {token}
      ensures byId == if s == null then old(byId) else old(byId) - {s.id}
      ensures anon == if s == old(anon) then null else old(anon)
    {
      if token !in byToken {
        return null;
      }
      s := byToken[token];
      Drop(s);
      if anon == s {
        anon := null;
      }
    }

    /** The comprehension of `sweep_once`, in whatever order the dict has. */
    method SelectExpired() returns (expired: seq<Session>)
      requires Valid()
      ensures forall t | t in byToken :: byToken[t] in expired <==> Overdue(byToken[t])
      ensures forall s | s in expired :: s.token in byToken && byToken[s.token] == s
      ensures forall s | s in expired :: Expired(config, s.View(), clock)
      ensures forall t | t in byToken && Expired(config, byToken[t].View(), clock) :: byToken[t] in expired
    {
      expired := [];
      var rest := byToken.Keys;
      while rest != {}
        invariant rest <= byToken.Keys
        invariant forall s | s in expired :: s.token in byToken && byToken[s.token] == s
        invariant forall s | s in expired :: Expired(config, s.View(), clock)
        invariant forall t | t in byToken && t !in rest && Expired(config, byToken[t].View(), clock) ::
                    byToken[t] in expired
        decreases |rest|
      {
        var t :| t in rest;
        if Expired(config, byToken[t].View(), clock) {
          expired := expired + [byToken[t]];
        }
        rest := rest - {t};
      }
    }

    lemma NamesSelected(expired: seq<Session>)
      requires Valid()
      requires forall s | s in expired :: s.token in byToken && byToken[s.token] == s
      requires forall s | s in expired :: Expired(config, s.View(), clock)
      requires forall t | t in byToken && Expired(config, byToken[t].View(), clock) :: byToken[t] in expired
      ensures Selects(View(), NamesOf(expired))
    {
      var r, order := View(), NamesOf(expired);
      forall o | o in order ensures Registered(r, o) && Expired(r.config, r.store[o], r.clock) {
        var i :| 0 <= i < |order| && order[i] == o;
        assert expired[i] in expired && expired[i].name == o;
        assert all[o] == expired[i] && r.store[o] == expired[i].View();
      }
      forall o | o in r.store && Registered(r, o) && Expired(r.config, r.store[o], r.clock) ensures o in order {
        var s := byToken[r.store[o].token];
        assert s.name == o && all[o] == s;
        var i :| 0 <= i < |expired| && expired[i] == s;
        assert order[i] == o;
      }
    }

    /** The two `pop`s of one round of the sweep's loop. */
    method PopExpired(s: Session)
      requires Valid() && s.name in all && all[s.name] == s
      requires sweep.Some? && sweep.value.todo != [] && sweep.value.todo[0] == s.name
      modifies `byToken, `byId, `sweep
      ensures byToken == old(byToken) - {s.token} && byId == old(byId) - {s.id}
      ensures Valid() && View() == Next(old(View()), SweepNext)
    {
      Drop(s);
      sweep := Some(sweep.value.(todo := sweep.value.todo[1..]));
    }

    method PopAll(expired: seq<Session>)
      requires Valid() && sweep.Some? && sweep.value.todo == NamesOf(expired)
      requires forall s | s in expired :: s.name in all && all[s.name] == s
      modifies `byToken, `byId, `sweep
      ensures Valid() && sweep.Some? && sweep.value.todo == []
      ensures View() == Pops(old(View()), |expired|)
      ensures byToken == Popped(old(byToken), expired)
    {
      ghost var begun, order := View(), NamesOf(expired);
      for i := 0 to |expired|
        invariant Valid() && sweep.Some? && sweep.value.todo == order[i..]
        invariant View() == Pops(begun, i)
        invariant byToken == Popped(old(byToken), expired[..i])
      {
        PopExpired(expired[i]);
        PoppedOne(old(byToken), expired, i);
      }
      assert expired[..|expired|] == expired;
    }

    method BeginSweep() returns (expired: seq<Session>)
      requires Valid() && sweep.None?
      modifies `sweep
      ensures Valid() && Selects(old(View()), NamesOf(expired))
      ensures forall t | t in byToken :: byToken[t] in expired <==> Overdue(byToken[t])
      ensures forall s | s in expired :: s.token in byToken && byToken[s.token] == s
      ensures View() == Next(old(View()), SweepBegin(NamesOf(expired)))
      ensures sweep.Some? && sweep.value.todo == NamesOf(expired)
      ensures forall s | s in expired :: s.name in all && all[s.name] == s
    {
      expired := SelectExpired();
      NamesSelected(expired);
      sweep := Some(Sweep(clock, NamesOf(expired)));
    }

    ghost method FinishSweep()
      requires Valid() && sweep.Some? && sweep.value.todo == []
      modifies `sweep, `sweeps
      ensures Valid() && View() == Next(old(View()), SweepEnd)
    {
      sweeps := sweeps + [sweep.value.start];
      sweep := None;
    }

    lemma OverdueGo(m: map<Token, Session>, expired: seq<Session>)
      requires forall t | t in m :: m[t].token == t && (m[t] in expired <==> Overdue(m[t]))
      requires forall s | s in expired :: s.token in m && m[s.token] == s
      ensures forall t :: t in Popped(m, expired) <==> t in m && !Overdue(m[t])
      ensures forall t | t in Popped(m, expired) :: Popped(m, expired)[t] == m[t]
    {
      forall t {
        PoppedExactly(m, expired, t);
      }
    }

    /** A whole sweep during which nothing else runs: of the registered sessions exactly the overdue ones go. */
    method SweepOnce() returns (expired: seq<Session>)
      requires Valid() && sweep.None?
      modifies `byToken, `byId, `sweep, `sweeps
      ensures Valid() && Selects(old(View()), NamesOf(expired))
      ensures forall t :: t in byToken <==> t in old(byToken) && !Overdue(old(byToken)[t])
      ensures forall t | t in byToken :: byToken[t] == old(byToken)[t]
      ensures View() == Next(Pops(Next(old(View()), SweepBegin(NamesOf(expired))), |expired|), SweepEnd)
    {
      expired := BeginSweep();
      PopAll(expired);
      OverdueGo(old(byToken), expired);
      FinishSweep();
    }
  }
}
