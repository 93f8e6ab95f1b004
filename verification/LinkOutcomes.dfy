/**
  Exactly when an open does less than its documentation says, over every run: both terminal events, an
  entry left behind by a failure, an id echoed twice.
*/
module LinkOutcomes {
  import opened Text
  import opened LinkProtocol
  import opened LinkSafety
  import opened LinkEcho
  import opened Wrappers

  // ---------- one open within a run ----------

  lemma {:induction false} RunLast(w: World, acts: seq<Action>)
    requires acts != []
    ensures Run(w, acts) == Next(Run(w, acts[..|acts| - 1]), acts[|acts| - 1])
    decreases |acts|
  {
    if |acts| == 1 {
      assert acts[1..] == [] && acts[..0] == [];
    } else {
      var p := acts[..|acts| - 1];
      assert acts[1..][..|acts| - 2] == p[1..];
      RunLast(Next(w, acts[0]), acts[1..]);
    }
  }

  /** The local action, if any, that a step of the session is for open `k`. */
  function Does(w: World, a: Action, k: nat): Option<LocalAction>
    requires k < |w.opens|
  {
    match a
    case RequestOpen(hash, _, hasId) =>
      if Reusable(w, hash) == Some(k) then Some(Overwrite(if hasId then Some(w.next) else None)) else None
    case Step(j, c) => if j == k then Some(Continue(c)) else None
    case MoveLink(j, st) => if j == k then Some(SetStatus(st)) else None
    case StartCallback(j, t, est) => if j == k then Some(Spawn(t, est)) else None
    case RunCallback(j, t) => if j == k then Some(Advance(t, Holds(w.cache, w.opens[k].hash, k))) else None
    case IdentifyLink(j, ok) => if j == k then Some(IdentifyCall(ok)) else None
    case _ => None
  }

  lemma DoesSo(w: World, a: Action, k: nat)
    requires k < |w.opens|
    ensures |w.opens| <= |Next(w, a).opens|
    ensures Next(w, a).opens[k]
         == if Does(w, a, k).Some? then LocalStep(w.opens[k], Does(w, a, k).value) else w.opens[k]
  {
  }

  /** A step can only add one open, the one it was asked for. */
  lemma AddsFresh(w: World, a: Action, k: nat)
    requires |w.opens| <= k < |Next(w, a).opens|
    ensures k == |w.opens| && a.RequestOpen?
    ensures Next(w, a).opens[k] == FreshOpen(a.hash, a.mode, if a.hasId then Some(w.next) else None)
    ensures a.mode.ws ==> Holds(Next(w, a).cache, a.hash, k)
  {
  }

  // ---------- what may happen to an open ----------

  /** `Fires`: an activation of `_on_established` sends its event. `JudgesDown`: the last reading of the
      poll is not ACTIVE. `OverwritesUnread`: another request reuses the entry before anyone, the
      continuation or a callback, has read its id for a success event. `SeeksPath`: the continuation starts
      without a known path. `MeetsFailure`: the destination or the link cannot be constructed, the last reading
      is not ACTIVE, or identify fails. `TellsClosed`: an activation of `_on_closed` runs its first line. */
  datatype Deed = Fires | JudgesDown | OverwritesUnread | SeeksPath | MeetsFailure | TellsClosed

  ghost predicate Unread(h: seq<Mark>) {
    forall i | 0 <= i < |h| :: !h[i].ReadId?
  }

  ghost predicate Is(o: Open, l: LocalAction, d: Deed) {
    match d
    case Fires => l.Advance? && l.thread in o.callbacks && o.callbacks[l.thread].Fire?
    case JudgesDown => l.Continue? && o.pc == Judge && o.link != Some(ACTIVE)
    case OverwritesUnread => l.Overwrite? && Unread(o.hist)
    case SeeksPath => l.Continue? && o.pc == Start && !l.choice.hasPath
    case MeetsFailure =>
      l.Continue? && (((o.pc == Resolve || o.pc == Construct || o.pc == Identify) && !l.choice.ok)
                      || (o.pc == Judge && o.link != Some(ACTIVE)))
    case TellsClosed => l.Advance? && l.thread in o.callbacks && o.callbacks[l.thread] == FireClosed
  }

  ghost predicate Happens(w: World, a: Action, k: nat, d: Deed) {
    k < |w.opens| && Does(w, a, k).Some? && Is(w.opens[k], Does(w, a, k).value, d)
  }

  /** It happens at some step of the run. */
  ghost predicate Ever(acts: seq<Action>, k: nat, d: Deed) {
    exists i :: 0 <= i < |acts| && Happens(Run(INIT, acts[..i]), acts[i], k, d)
  }

  lemma EverGrows(acts: seq<Action>, k: nat, d: Deed)
    requires acts != [] && Ever(acts[..|acts| - 1], k, d)
    ensures Ever(acts, k, d)
  {
    var p := acts[..|acts| - 1];
    var i :| 0 <= i < |p| && Happens(Run(INIT, p[..i]), p[i], k, d);
    assert acts[..i] == p[..i] && acts[i] == p[i];
  }

  lemma EverSplits(acts: seq<Action>, k: nat, d: Deed)
    requires acts != [] && Ever(acts, k, d)
    ensures var p := acts[..|acts| - 1]; Ever(p, k, d) || Happens(Run(INIT, p), acts[|acts| - 1], k, d)
  {
    var p := acts[..|acts| - 1];
    var i :| 0 <= i < |acts| && Happens(Run(INIT, acts[..i]), acts[i], k, d);
    if i < |p| {
      assert p[..i] == acts[..i] && p[i] == acts[i];
    }
  }

  lemma EverLast(acts: seq<Action>, k: nat, d: Deed)
    requires acts != []
    ensures var p := acts[..|acts| - 1];
            Ever(acts, k, d) <==> (Ever(p, k, d) || Happens(Run(INIT, p), acts[|acts| - 1], k, d))
  {
    if Ever(acts, k, d) {
      EverSplits(acts, k, d);
    } else if Ever(acts[..|acts| - 1], k, d) {
      EverGrows(acts, k, d);
    }
  }

  // ---------- both terminal events ----------

  predicate Downed(pc: Pc) {
    pc.Evict? || pc.Failing? || pc.Ended?
  }

  /** A wired open fails through the poll and no other way, unless it is to identify. */
  ghost predicate PlainInv(o: Open, d: Digest, fired: bool, down: bool) {
    && (down ==> Downed(o.pc)) && (o.pc.Evict? ==> down)
    && (o.mode.ws && !o.mode.autoIdentify ==>
          && (d.established <==> fired)
          && (down ==> o.wired && (o.pc.Ended? ==> d.failed))
          && (o.wired && (o.pc.Failing? || d.failed) ==> down))
  }

  lemma PlainContinue(o: Open, d: Digest, c: Choice, fired: bool, down: bool)
    requires Wiring(o, d) && Gate(o, d) && PlainInv(o, d, fired, down)
    ensures PlainInv(ContinueStep(o, c), NoteAll(d, ContinueMark(o, c)), fired, down || Is(o, Continue(c), JudgesDown))
  {
  }

  lemma PlainAdvance(o: Open, d: Digest, a: LocalAction, fired: bool, down: bool)
    requires PlainInv(o, d, fired, down) && a.Advance?
    ensures PlainInv(LocalFields(o, a), NoteAll(d, LocalMark(o, a)), fired || Is(o, a, Fires), down)
  {
  }

  lemma PlainOther(o: Open, d: Digest, a: LocalAction, fired: bool, down: bool)
    requires PlainInv(o, d, fired, down) && !a.Advance? && !a.Continue?
    ensures PlainInv(LocalFields(o, a), d, fired, down)
  {
  }

  lemma PlainFields(o: Open, d: Digest, a: LocalAction, fired: bool, down: bool)
    requires Wiring(o, d) && Gate(o, d) && PlainInv(o, d, fired, down)
    ensures PlainInv(LocalFields(o, a), NoteAll(d, LocalMark(o, a)),
                     fired || Is(o, a, Fires), down || Is(o, a, JudgesDown))
  {
    if a.Continue? { PlainContinue(o, d, a.choice, fired, down); }
    else if a.Advance? { PlainAdvance(o, d, a, fired, down); }
    else { PlainOther(o, d, a, fired, down); }
  }

  /** The predicate reads a history only through its digest. */
  lemma PlainStep(o: Open, a: LocalAction, fired: bool, down: bool)
    requires OpenInv(o) && PlainInv(o, Summary(o.hist), fired, down)
    ensures PlainInv(LocalStep(o, a), Summary(LocalStep(o, a).hist),
                     fired || Is(o, a, Fires), down || Is(o, a, JudgesDown))
  {
    PlainFields(o, Summary(o.hist), a, fired, down);
    SummaryAppend(o.hist, LocalMark(o, a));
  }

  ghost predicate PlainAt(acts: seq<Action>, k: nat) {
    var w := Run(INIT, acts);
    k < |w.opens| ==>
      PlainInv(w.opens[k], Summary(w.opens[k].hist), Ever(acts, k, Fires), Ever(acts, k, JudgesDown))
  }

  lemma {:induction false} NothingYet(acts: seq<Action>, k: nat, d: Deed)
    requires |Run(INIT, acts).opens| <= k
    ensures !Ever(acts, k, d)
  {
    if acts != [] {
      RunLast(INIT, acts);
      HashesStay(Run(INIT, acts[..|acts| - 1]), acts[|acts| - 1]);
      NothingYet(acts[..|acts| - 1], k, d);
      EverLast(acts, k, d);
    }
  }

  lemma OpenKept(acts: seq<Action>, k: nat)
    requires k < |Run(INIT, acts).opens|
    ensures OpenInv(Run(INIT, acts).opens[k])
  {
    WorldRun(INIT, acts);
  }

  lemma {:induction false} PlainRun(acts: seq<Action>, k: nat)
    ensures PlainAt(acts, k)
  {
    if acts != [] && k < |Run(INIT, acts).opens| {
      var p, a := acts[..|acts| - 1], acts[|acts| - 1];
      var w := Run(INIT, p);
      RunLast(INIT, acts);
      EverLast(acts, k, Fires);
      EverLast(acts, k, JudgesDown);
      if k < |w.opens| {
        PlainRun(p, k);
        OpenKept(p, k);
        DoesSo(w, a, k);
        if Does(w, a, k).Some? {
          PlainStep(w.opens[k], Does(w, a, k).value, Ever(p, k, Fires), Ever(p, k, JudgesDown));
        }
      } else {
        NothingYet(p, k, Fires);
        NothingYet(p, k, JudgesDown);
        AddsFresh(w, a, k);
      }
    }
  }

  /** Success and failure both reported. */
  ghost predicate ReportedBoth(h: seq<Mark>) {
    Failed in h && !NeverEstablished(h)
  }

  /** Main result. In every run, a WebSocket open without auto_identify reports both terminal events if
      and only if an activation of `_on_established` sent its event, the poll's last reading was not
      ACTIVE, and the continuation has come to its end. */
  lemma BothExactly(acts: seq<Action>, k: nat)
    requires k < |Run(INIT, acts).opens|
    requires var m := Run(INIT, acts).opens[k].mode; m.ws && !m.autoIdentify
    ensures var o := Run(INIT, acts).opens[k];
            ReportedBoth(o.hist) <==> Ever(acts, k, Fires) && Ever(acts, k, JudgesDown) && o.pc == Ended
  {
    PlainRun(acts, k);
    OpenKept(acts, k);
    SummaryMeans(Run(INIT, acts).opens[k].hist);
  }

  // ---------- an entry left behind ----------

  /** Something else than the continuation of open `k` takes the slot of its destination away from it. */
  predicate Takes(w: World, a: Action, k: nat) {
    && k < |w.opens| && !(a.Step? && a.k == k)
    && Holds(w.cache, w.opens[k].hash, k) && !Holds(Next(w, a).cache, w.opens[k].hash, k)
  }

  /** The continuation of open `k` stores its entry. */
  predicate Stores(w: World, a: Action, k: nat) {
    k < |w.opens| && a.Step? && a.k == k && w.opens[k].pc.Store?
  }

  /** The slot was taken away and the entry has not been stored since. */
  ghost predicate TakenSinceStore(acts: seq<Action>, k: nat) {
    acts != [] &&
    var p, a := acts[..|acts| - 1], acts[|acts| - 1];
    Takes(Run(INIT, p), a, k) || (TakenSinceStore(p, k) && !Stores(Run(INIT, p), a, k))
  }

  /** An entry is in its slot from the request on, unless it was taken away or its continuation emptied
      the slot. */
  ghost predicate SlotInv(w: World, k: nat, down: bool, taken: bool) {
    k < |w.opens| && w.opens[k].mode.ws ==>
      (Holds(w.cache, w.opens[k].hash, k) <==> (!down || w.opens[k].pc.Evict?) && !taken)
  }

  /** The continuation's own steps: only `Store` fills the slot and only `Evict` empties it. */
  lemma SlotOwnStep(w: World, c: Choice, k: nat, down: bool, taken: bool)
    requires k < |w.opens| && SlotInv(w, k, down, taken)
    requires (down ==> Downed(w.opens[k].pc)) && (w.opens[k].pc.Evict? ==> down)
    ensures SlotInv(Next(w, Step(k, c)), k, down || Is(w.opens[k], Continue(c), JudgesDown),
                    taken && !w.opens[k].pc.Store?)
  {
    var o, w' := w.opens[k], Next(w, Step(k, c));
    assert w'.cache == CacheAfterStep(w.cache, o, k);
    assert w'.opens[k].hash == o.hash && w'.opens[k].mode == o.mode && w'.opens[k].pc == NextPc(o, c);
  }

  /** What others do leaves the continuation where it stands. */
  lemma StandsStill(w: World, a: Action, k: nat)
    requires k < |w.opens| && !(a.Step? && a.k == k)
    ensures k < |Next(w, a).opens| && !Happens(w, a, k, JudgesDown)
    ensures var o, o' := w.opens[k], Next(w, a).opens[k]; o'.pc == o.pc && o'.hash == o.hash && o'.mode == o.mode
  {
    DoesSo(w, a, k);
  }

  /** Nobody else puts an entry into a slot. */
  lemma NeverGiven(w: World, a: Action, k: nat)
    requires k < |w.opens| && !(a.Step? && a.k == k) && Holds(Next(w, a).cache, w.opens[k].hash, k)
    ensures Holds(w.cache, w.opens[k].hash, k)
  {
  }

  lemma SlotStep(w: World, a: Action, k: nat, down: bool, taken: bool)
    requires k < |w.opens| && SlotInv(w, k, down, taken)
    requires (down ==> Downed(w.opens[k].pc)) && (w.opens[k].pc.Evict? ==> down)
    ensures SlotInv(Next(w, a), k, down || Happens(w, a, k, JudgesDown), Takes(w, a, k) || (taken && !Stores(w, a, k)))
  {
    if a.Step? && a.k == k {
      SlotOwnStep(w, a.choice, k, down, taken);
    } else {
      StandsStill(w, a, k);
      if Holds(Next(w, a).cache, w.opens[k].hash, k) { NeverGiven(w, a, k); }
    }
  }

  lemma {:induction false} NothingTaken(acts: seq<Action>, k: nat)
    requires |Run(INIT, acts).opens| <= k
    ensures !TakenSinceStore(acts, k)
  {
    if acts != [] {
      RunLast(INIT, acts);
      HashesStay(Run(INIT, acts[..|acts| - 1]), acts[|acts| - 1]);
      NothingTaken(acts[..|acts| - 1], k);
    }
  }

  lemma {:induction false} SlotRun(acts: seq<Action>, k: nat)
    ensures SlotInv(Run(INIT, acts), k, Ever(acts, k, JudgesDown), TakenSinceStore(acts, k))
  {
    if acts != [] && k < |Run(INIT, acts).opens| {
      var p, a := acts[..|acts| - 1], acts[|acts| - 1];
      var w := Run(INIT, p);
      RunLast(INIT, acts);
      EverLast(acts, k, JudgesDown);
      if k < |w.opens| {
        SlotRun(p, k);
        PlainRun(p, k);
        SlotStep(w, a, k, Ever(p, k, JudgesDown), TakenSinceStore(p, k));
      } else {
        NothingYet(p, k, JudgesDown);
        NothingTaken(p, k);
        AddsFresh(w, a, k);
      }
    }
  }

  /** Main result. In every run, the entry of a WebSocket open that has failed is still cached if and only
      if it failed anywhere but at a last reading other than ACTIVE, and nobody has taken its slot away
      since it was stored. A failed poll always empties the slot, whoever comes first: the continuation or
      the closed callback of the link it tears down. */
  lemma FailedEntryStaysExactly(acts: seq<Action>, k: nat)
    requires k < |Run(INIT, acts).opens|
    requires var o := Run(INIT, acts).opens[k]; o.mode.ws && Failed in o.hist
    ensures var w := Run(INIT, acts);
            Holds(w.cache, w.opens[k].hash, k) <==> !Ever(acts, k, JudgesDown) && !TakenSinceStore(acts, k)
  {
    SlotRun(acts, k);
    OpenKept(acts, k);
    SummaryMeans(Run(INIT, acts).opens[k].hist);
  }

  // ---------- an id echoed twice ----------

  /** Activation `t` of `_on_established` has read `x` and has sent its event with it or is about to. */
  predicate Owes(o: Open, t: nat, x: Token) {
    && t in o.callbacks
    && var c := o.callbacks[t];
       c == ClearOpenId(Some(x)) || c == Fire(Some(x)) || (c == Returned && Established(Rns(t), Some(x)) in o.hist)
  }

  lemma OwesStays(o: Open, a: LocalAction, t: nat, x: Token)
    requires Owes(o, t, x)
    ensures Owes(LocalStep(o, a), t, x)
  {
    var o' := LocalStep(o, a);
    assert forall m | m in o.hist :: m in o'.hist;
    if a == Advance(t, true) || a == Advance(t, false) {
      assert LocalMark(o, a) == CallbackMark(o, t);
    }
  }

  lemma {:induction false} OwesRun(w: World, acts: seq<Action>, k: nat, t: nat, x: Token)
    requires k < |w.opens| && Owes(w.opens[k], t, x)
    ensures k < |Run(w, acts).opens| && Owes(Run(w, acts).opens[k], t, x)
    decreases |acts|
  {
    if acts != [] {
      DoesSo(w, acts[0], k);
      if Does(w, acts[0], k).Some? { OwesStays(w.opens[k], Does(w, acts[0], k).value, t, x); }
      OwesRun(Next(w, acts[0]), acts[1..], k, t, x);
    }
  }

  /** Every activation of every open has returned. */
  ghost predicate AllReturned(w: World) {
    forall k | 0 <= k < |w.opens| :: Idle(w.opens[k])
  }

  ghost predicate Idle(o: Open) {
    forall t | t in o.callbacks :: o.callbacks[t].Returned?
  }

  lemma TwoOwers(o: Open, t: nat, u: nat, x: Token)
    requires t != u && Owes(o, t, x) && Owes(o, u, x) && Idle(o)
    ensures EchoedTwice(o.hist)
  {
    var i :| 0 <= i < |o.hist| && o.hist[i] == Established(Rns(t), Some(x));
    var j :| 0 <= j < |o.hist| && o.hist[j] == Established(Rns(u), Some(x));
    assert i != j;
    if j < i { assert o.hist[j].Established? && o.hist[i].Established?; }
  }

  lemma OverlapOwes(w: World, k: nat, t: nat) returns (u: nat)
    requires Overlapping(w, RunCallback(k, t))
    ensures var o, o' := w.opens[k], Next(w, RunCallback(k, t)).opens[k];
            t != u && Owes(o', t, o.openId.value) && Owes(o', u, o.openId.value)
  {
    var o := w.opens[k];
    u :| u in o.callbacks && o.callbacks[u] == ClearOpenId(o.openId);
    DoesSo(w, RunCallback(k, t), k);
  }

  /** Whatever follows an overlapping read, once all activations have returned the id was echoed twice. */
  lemma {:induction false} OverlapEchoes(w: World, acts: seq<Action>)
    requires !OverlapFree(w, acts) && AllReturned(Run(w, acts))
    ensures exists k: nat :: EchoedTwice(HistOf(Run(w, acts), k))
    decreases |acts|
  {
    var a, w1 := acts[0], Next(w, acts[0]);
    if Overlapping(w, a) {
      var x := w.opens[a.k].openId.value;
      var u := OverlapOwes(w, a.k, a.thread);
      DoesSo(w, a, a.k);
      OwesRun(w1, acts[1..], a.k, a.thread, x);
      OwesRun(w1, acts[1..], a.k, u, x);
      TwoOwers(Run(w, acts).opens[a.k], a.thread, u, x);
      assert EchoedTwice(HistOf(Run(w, acts), a.k));
    } else {
      OverlapEchoes(w1, acts[1..]);
    }
  }

  /** Main result. In every run whose activations have all returned, some id was echoed twice by its entry if
      and only if an activation read an id that another one was about to clear. */
  lemma EchoedTwiceExactly(acts: seq<Action>)
    requires AllReturned(Run(INIT, acts))
    ensures (exists k: nat :: EchoedTwice(HistOf(Run(INIT, acts), k))) <==> !OverlapFree(INIT, acts)
  {
    if !OverlapFree(INIT, acts) {
      OverlapEchoes(INIT, acts);
    } else {
      forall k: nat ensures !EchoedTwice(HistOf(Run(INIT, acts), k)) {
        EchoRun(INIT, acts);
        BookMeans(HistOf(Run(INIT, acts), k));
      }
    }
  }
}
