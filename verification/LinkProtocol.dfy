/**
  The link-open protocol of src/rnsapi/rns/links.py and src/rnsapi/handlers/links.py as a
  transition system over one session.

  Two kinds of thread share the state. The asyncio loop runs one continuation per open, and is
  cut here at least at every `await`; RNS worker threads run the wired callbacks, cut here at every
  line that touches shared state. A run is any sequence of actions, so every interleaving of those
  lines is a run. An action that is not enabled leaves the world unchanged.
*/
module LinkProtocol {
  import opened Text
  import opened Wrappers

  datatype Status = PENDING | HANDSHAKE | ACTIVE | STALE | CLOSED

  /** A `Token` stands for one act of storing a client id into an entry. */
  type Token = nat

  /** How an open was requested. REST opens have no ack, phase or failure events. */
  datatype Mode = Mode(ws: bool, autoIdentify: bool, awaited: bool)

  /** The value `_create_link_entry` stores in `suppress_initial_established`. */
  predicate Gated(m: Mode) {
    m.autoIdentify && (m.ws || m.awaited)
  }

  datatype Source = Loop | Rns(thread: nat)

  /** What an open leaves behind: the events sent for it, and the silent acts they depend on. */
  datatype Mark =
    | Ack
    | FindingPath
    | EstablishingLink
    | Identifying
    | Failed
    | Established(src: Source, id: Option<Token>)
    | ClosedEvent
    | IdentifyDone
    | ReadId(src: Source, id: Option<Token>)

  /** Where a continuation stands: the statement it runs next. */
  datatype Pc =
    | Reserved
    | Start
    | PathWait
    | Resolve
    | Announce
    | Construct
    | SetSuppress
    | Store
    | Wire
    | Wait
    | Judge
    | Evict
    | AnnounceIdentify
    | Identify
    | EmitRead
    | EmitClear(held: Option<Token>)
    | EmitUnsuppress(held: Option<Token>)
    | EmitSend(held: Option<Token>)
    | Failing
    | Ended

  /** Where one activation of `_on_established` or `_on_closed` stands. */
  datatype Callback =
    | CheckSuppress
    | ReadOpenId
    | ClearOpenId(held: Option<Token>)
    | Fire(held: Option<Token>)
    | FireClosed
    | CheckSlot
    | PopSlot(mine: bool)
    | Returned

  /** One non-reused open: its `_LinkEntry`, its continuation and the activations of its callbacks. */
  datatype Open = Open(
    hash: Bytes,
    mode: Mode,
    pc: Pc,
    link: Option<Status>,
    wired: bool,
    identified: bool,
    firstId: Option<Token>,
    openId: Option<Token>,
    overwritten: bool,
    suppress: bool,
    tokens: set<Token>,
    callbacks: map<nat, Callback>,
    hist: seq<Mark>)

  /** The outcome the environment gives to the statement a continuation runs. */
  datatype Choice = Choice(hasPath: bool, ok: bool, deadline: bool)

  datatype LocalAction =
    | Continue(choice: Choice)
    | SetStatus(status: Status)
    | Spawn(thread: nat, established: bool)
    | Advance(thread: nat, slotIsMine: bool)
    | Overwrite(id: Option<Token>)
    | IdentifyCall(ok: bool)

  /** The mark, if any, left by the statement a continuation runs next: `ws_open` after its slot is
      reserved, then `continue_open_link_ws`, or `open_link` for REST, which sends no events. */
  function ContinueMark(o: Open, c: Choice): seq<Mark> {
    match o.pc
    case Reserved => [Ack]
    case Start => if o.mode.ws && !c.hasPath then [FindingPath] else []
    case Announce => if o.mode.ws then [EstablishingLink] else []
    case AnnounceIdentify => if o.mode.ws then [Identifying] else []
    case Identify => if c.ok then [IdentifyDone] else []
    case EmitRead => [ReadId(Loop, o.openId)]
    case EmitSend(held) => [Established(Loop, held)]
    case Failing => if o.mode.ws then [Failed] else []
    case _ => []
  }

  /** Where that statement leads. */
  function NextPc(o: Open, c: Choice): Pc {
    match o.pc
    case Reserved => Start
    case Start => if c.hasPath then Resolve else PathWait
    case PathWait => Resolve
    case Resolve => if c.ok then Announce else Failing
    case Announce => Construct
    case Construct => if !c.ok then Failing else if o.mode.ws then SetSuppress else Store
    case SetSuppress => Store
    case Store => Wire
    case Wire => if o.mode.ws || o.mode.awaited then Wait else Ended
    case Wait =>
      if o.link == Some(ACTIVE) || o.link == Some(CLOSED) || c.deadline then Judge else Wait
    case Judge =>
      if o.link != Some(ACTIVE) then Evict else if o.mode.autoIdentify then AnnounceIdentify else Ended
    case Evict => Failing
    case AnnounceIdentify => Identify
    case Identify => if c.ok then EmitRead else Failing
    case EmitRead => EmitClear(o.openId)
    case EmitClear(held) => EmitUnsuppress(held)
    case EmitUnsuppress(held) => EmitSend(held)
    case EmitSend(_) => Ended
    case Failing => Ended
    case Ended => Ended
  }

  /** Does that statement store the suppress flag? REST builds its entry with the flag already set. */
  predicate SetsSuppress(o: Open, c: Choice) {
    o.pc.SetSuppress? || (o.pc.Construct? && c.ok && !o.mode.ws)
  }

  /** The entry after that statement. */
  function ContinueStep(o: Open, c: Choice): Open {
    o.(pc := NextPc(o, c),
       link := if o.pc.Construct? && c.ok then Some(PENDING) else o.link,
       suppress := if SetsSuppress(o, c) then Gated(o.mode) else o.suppress && !o.pc.EmitUnsuppress?,
       wired := o.wired || o.pc.Wire?,
       identified := o.identified || (o.pc.Identify? && c.ok),
       openId := if o.pc.EmitClear? then None else o.openId)
  }

  /** The mark left by one line of `_on_established` or `_on_closed` in RNS thread `t`. */
  function CallbackMark(o: Open, t: nat): seq<Mark>
    requires t in o.callbacks
  {
    match o.callbacks[t]
    case ReadOpenId => [ReadId(Rns(t), o.openId)]
    case Fire(held) => [Established(Rns(t), held)]
    case FireClosed => [ClosedEvent]
    case _ => []
  }

  /** Where that line leaves the activation. */
  function CallbackNext(o: Open, t: nat, slotIsMine: bool): Callback
    requires t in o.callbacks
  {
    match o.callbacks[t]
    case CheckSuppress => if o.suppress then Returned else ReadOpenId
    case ReadOpenId => ClearOpenId(o.openId)
    case ClearOpenId(held) => Fire(held)
    case FireClosed => CheckSlot
    case CheckSlot => PopSlot(slotIsMine)
    case _ => Returned
  }

  function LocalMark(o: Open, a: LocalAction): (ms: seq<Mark>)
    ensures |ms| <= 1
  {
    match a
    case Continue(c) => ContinueMark(o, c)
    case Advance(t, _) => if t in o.callbacks then CallbackMark(o, t) else []
    case _ => []
  }

  function LocalFields(o: Open, a: LocalAction): Open {
    match a
    case Continue(c) => ContinueStep(o, c)
    case SetStatus(st) => if o.link.Some? then o.(link := Some(st)) else o
    case Spawn(t, est) =>
      if o.wired && t !in o.callbacks
      then o.(callbacks := o.callbacks[t := if est then CheckSuppress else FireClosed]) else o
    case Advance(t, mine) =>
      if t !in o.callbacks then o
      else o.(callbacks := o.callbacks[t := CallbackNext(o, t, mine)],
              openId := if o.callbacks[t].ClearOpenId? then None else o.openId)
    case Overwrite(id) =>
      o.(openId := id, overwritten := true, tokens := if id.Some? then o.tokens + {id.value} else o.tokens)
    case IdentifyCall(ok) => if o.link.Some? && ok then o.(identified := true) else o
  }

  function LocalStep(o: Open, a: LocalAction): Open {
    LocalFields(o, a).(hist := o.hist + LocalMark(o, a))
  }

  // ---------- the session ----------

  /** `cache` is `session.open_links`: destination hash to the open that owns the entry. */
  datatype World = World(opens: seq<Open>, cache: map<Bytes, nat>, next: Token)

  const INIT := World([], map[], 0)

  datatype Action =
    | RequestOpen(hash: Bytes, mode: Mode, hasId: bool)
    | Step(k: nat, choice: Choice)
    | MoveLink(k: nat, status: Status)
    | StartCallback(k: nat, thread: nat, established: bool)
    | RunCallback(k: nat, thread: nat)
    | IdentifyLink(k: nat, ok: bool)
    | CloseLink(hash: Bytes)
    | Cleanup

  /** `_reuse_active_link`: the cached open for `hash`, if its link is ACTIVE right now. */
  function Reusable(w: World, hash: Bytes): (r: Option<nat>)
    ensures r.Some? ==> r.value < |w.opens| && w.opens[r.value].link == Some(ACTIVE)
  {
    if hash in w.cache && w.cache[hash] < |w.opens| && w.opens[w.cache[hash]].link == Some(ACTIVE)
    then Some(w.cache[hash]) else None
  }

  /** The entry a fresh open starts from: a placeholder on WS, not yet constructed on REST. */
  function FreshOpen(hash: Bytes, mode: Mode, id: Option<Token>): Open {
    Open(hash, mode, if mode.ws then Reserved else Start, None, false, false, id, id, false, false,
         if id.Some? then {id.value} else {}, map[], [])
  }

  function Local(w: World, k: nat, a: LocalAction): World {
    if k < |w.opens| then w.(opens := w.opens[k := LocalStep(w.opens[k], a)]) else w
  }

  /** Does slot `hash` hold open `k`? */
  predicate Holds(cache: map<Bytes, nat>, hash: Bytes, k: nat) {
    hash in cache && cache[hash] == k
  }

  /** The effect on the cache of the statement open `k` runs next. */
  function CacheAfterStep(cache: map<Bytes, nat>, o: Open, k: nat): map<Bytes, nat> {
    match o.pc
    case Store => cache[o.hash := k]
    case Evict => cache - {o.hash}
    case _ => cache
  }

  /** The effect on the cache of the line callback `t` of open `o` runs next. */
  function CacheAfterCallback(cache: map<Bytes, nat>, o: Open, t: nat): map<Bytes, nat> {
    if t in o.callbacks && o.callbacks[t] == PopSlot(true) then cache - {o.hash} else cache
  }

  function Next(w: World, a: Action): World {
    match a
    case RequestOpen(hash, mode, hasId) =>
      var id := if hasId then Some(w.next) else None;
      var w' := w.(next := w.next + 1);
      var reuse := Reusable(w, hash);
      if reuse.Some? then Local(w', reuse.value, Overwrite(id))
      else w'.(opens := w.opens + [FreshOpen(hash, mode, id)],
               cache := if mode.ws then w.cache[hash := |w.opens|] else w.cache)
    case Step(k, c) =>
      if k < |w.opens|
      then Local(w, k, Continue(c)).(cache := CacheAfterStep(w.cache, w.opens[k], k)) else w
    case MoveLink(k, st) => Local(w, k, SetStatus(st))
    case StartCallback(k, t, est) => Local(w, k, Spawn(t, est))
    case RunCallback(k, t) =>
      if k < |w.opens|
      then Local(w, k, Advance(t, Holds(w.cache, w.opens[k].hash, k)))
           .(cache := CacheAfterCallback(w.cache, w.opens[k], t)) else w
    case IdentifyLink(k, ok) => Local(w, k, IdentifyCall(ok))
    case CloseLink(hash) => w.(cache := w.cache - {hash})
    case Cleanup => w.(cache := map[])
  }

  function Run(w: World, acts: seq<Action>): World
    decreases |acts|
  {
    if acts == [] then w else Run(Next(w, acts[0]), acts[1..])
  }
}
