/**
  Which `link.established` may echo a client id. Each act of storing an id into an entry has its own
  token; the question is how many events can carry one token.
*/
module LinkEcho {
  import opened Text
  import opened LinkProtocol
  import opened LinkSafety
  import opened Wrappers

  /** Two events of one history carry the same stored id. */
  ghost predicate EchoedTwice(h: seq<Mark>) {
    exists i, j :: 0 <= i < j < |h| && h[i].Established? && h[j].Established? && h[i].id.Some? && h[i].id == h[j].id
  }

  ghost predicate Echoes(h: seq<Mark>, x: Token) {
    exists i :: 0 <= i < |h| && h[i].Established? && h[i].id == Some(x)
  }

  /** Activation `t` of `_on_established` is about to read an id that another activation has read and
      not yet cleared. */
  ghost predicate Overlap(o: Open, t: nat) {
    && t in o.callbacks && o.callbacks[t].ReadOpenId? && o.openId.Some?
    && exists u :: u in o.callbacks && o.callbacks[u] == ClearOpenId(o.openId)
  }

  /** Who has read which id, who has emitted, and which ids have been echoed. */
  datatype Ledger = Ledger(reader: map<Token, Source>, emitters: set<Source>, echoed: set<Token>, twice: bool)

  function Enter(l: Ledger, m: Mark): Ledger {
    if m.ReadId? && m.id.Some? then l.(reader := l.reader[m.id.value := m.src])
    else if m.Established? && m.id.Some? then
      l.(emitters := l.emitters + {m.src}, echoed := l.echoed + {m.id.value},
         twice := l.twice || m.id.value in l.echoed)
    else if m.Established? then l.(emitters := l.emitters + {m.src})
    else l
  }

  function Book(h: seq<Mark>): Ledger {
    if h == [] then Ledger(map[], {}, {}, false) else Enter(Book(h[..|h| - 1]), h[|h| - 1])
  }

  lemma BookAppend(h: seq<Mark>, ms: seq<Mark>)
    requires |ms| <= 1
    ensures Book(h + ms) == if ms == [] then Book(h) else Enter(Book(h), ms[0])
  {
    if ms == [] {
      assert h + ms == h;
    } else {
      assert (h + ms)[..|h|] == h;
    }
  }

  lemma {:induction false} BookMeans(h: seq<Mark>)
    ensures Book(h).twice <==> EchoedTwice(h)
    ensures forall x: Token :: x in Book(h).echoed <==> Echoes(h, x)
  {
    if h != [] {
      var p, m := h[..|h| - 1], h[|h| - 1];
      BookMeans(p);
      assert forall i | 0 <= i < |p| :: p[i] == h[i];
      forall x: Token ensures Echoes(h, x) <==> Echoes(p, x) || (m.Established? && m.id == Some(x)) {
        if Echoes(p, x) {
          var i :| 0 <= i < |p| && p[i].Established? && p[i].id == Some(x);
          assert h[i].Established?;
        }
      }
      if EchoedTwice(p) {
        var i, j :| 0 <= i < j < |p| && p[i].Established? && p[j].Established? && p[i].id.Some? && p[i].id == p[j].id;
        assert h[i].Established? && h[j].Established?;
      }
      if Book(h).twice && !Book(p).twice {
        var i :| 0 <= i < |p| && p[i].Established? && p[i].id == m.id;
        assert h[i].Established? && h[|p|].Established?;
      }
    }
  }

  /** The id activation `c` has read and not yet emitted. */
  function Held(c: Callback): Option<Token> {
    match c
    case ClearOpenId(held) => held
    case Fire(held) => held
    case _ => None
  }

  /** The same for a continuation at `pc`. */
  function HeldByLoop(pc: Pc): Option<Token> {
    match pc
    case EmitClear(held) => held
    case EmitUnsuppress(held) => held
    case EmitSend(held) => held
    case _ => None
  }

  predicate AboutToClear(o: Open, s: Source, x: Token) {
    match s
    case Loop => o.pc == EmitClear(Some(x))
    case Rns(t) => t in o.callbacks && o.callbacks[t] == ClearOpenId(Some(x))
  }

  predicate Finished(o: Open, s: Source) {
    match s
    case Loop => o.pc.Ended?
    case Rns(t) => t in o.callbacks && o.callbacks[t].Returned?
  }

  predicate Registered(l: Ledger, id: Option<Token>, s: Source) {
    id.Some? ==> id.value in l.reader && l.reader[id.value] == s
  }

  /** One reader per id, one event per reader. */
  ghost predicate EchoInv(o: Open, l: Ledger) {
    && !l.twice
    && (o.openId.Some? ==> o.openId.value in o.tokens)
    && l.reader.Keys <= o.tokens
    && l.echoed <= l.reader.Keys
    && (forall x | x in l.reader && o.openId == Some(x) :: AboutToClear(o, l.reader[x], x))
    && Registered(l, HeldByLoop(o.pc), Loop)
    && (forall t | t in o.callbacks :: Registered(l, Held(o.callbacks[t]), Rns(t)))
    && (forall x | x in l.echoed :: l.reader[x] in l.emitters)
    && (forall s | s in l.emitters :: Finished(o, s))
  }

  function EnterAll(l: Ledger, ms: seq<Mark>): Ledger
    requires |ms| <= 1
  {
    if ms == [] then l else Enter(l, ms[0])
  }

  lemma EchoEmits(o: Open, d: Digest, l: Ledger, c: Choice)
    requires Wiring(o, d) && Gate(o, d) && EchoInv(o, l) && Emitting(o.pc)
    ensures EchoInv(ContinueStep(o, c), EnterAll(l, ContinueMark(o, c)))
  {
  }

  /** A statement outside `_emit_established` holds no id and does not touch the entry's. */
  lemma QuietStep(o: Open, c: Choice)
    requires !Emitting(o.pc)
    ensures var o2 := ContinueStep(o, c);
            && HeldByLoop(o2.pc) == None && !o2.pc.EmitClear? && (o.pc.Ended? ==> o2.pc.Ended?)
            && o2.openId == o.openId && o2.tokens == o.tokens && o2.callbacks == o.callbacks
  {
  }

  lemma EchoSame(o: Open, o2: Open, l: Ledger)
    requires EchoInv(o, l) && !o.pc.EmitClear?
    requires HeldByLoop(o2.pc) == None && (o.pc.Ended? ==> o2.pc.Ended?)
    requires o2.openId == o.openId && o2.tokens == o.tokens && o2.callbacks == o.callbacks
    ensures EchoInv(o2, l)
  {
  }

  lemma EchoContinue(o: Open, d: Digest, l: Ledger, c: Choice)
    requires Wiring(o, d) && Gate(o, d) && EchoInv(o, l)
    ensures EchoInv(ContinueStep(o, c), EnterAll(l, ContinueMark(o, c)))
  {
    if Emitting(o.pc) {
      EchoEmits(o, d, l, c);
    } else {
      assert EnterAll(l, ContinueMark(o, c)) == l;
      QuietStep(o, c);
      EchoSame(o, ContinueStep(o, c), l);
    }
  }

  lemma EchoCallback(o: Open, d: Digest, l: Ledger, t: nat, mine: bool)
    requires Wiring(o, d) && Gate(o, d) && EchoInv(o, l) && t in o.callbacks && !Overlap(o, t)
    ensures EchoInv(LocalFields(o, Advance(t, mine)), EnterAll(l, CallbackMark(o, t)))
  {
    if o.callbacks[t].Fire? { EchoFire(o, d, l, t, mine); }
    else if o.callbacks[t].ReadOpenId? { EchoRead(o, d, l, t, mine); }
    else { EchoQuiet(o, l, t, mine); }
  }

  lemma EchoFire(o: Open, d: Digest, l: Ledger, t: nat, mine: bool)
    requires Wiring(o, d) && Gate(o, d) && EchoInv(o, l) && t in o.callbacks && o.callbacks[t].Fire?
    ensures EchoInv(LocalFields(o, Advance(t, mine)), EnterAll(l, CallbackMark(o, t)))
  {
  }

  lemma EchoRead(o: Open, d: Digest, l: Ledger, t: nat, mine: bool)
    requires Wiring(o, d) && Gate(o, d) && EchoInv(o, l)
    requires t in o.callbacks && o.callbacks[t].ReadOpenId? && !Overlap(o, t)
    ensures EchoInv(LocalFields(o, Advance(t, mine)), EnterAll(l, CallbackMark(o, t)))
  {
  }

  lemma EchoQuiet(o: Open, l: Ledger, t: nat, mine: bool)
    requires EchoInv(o, l) && t in o.callbacks && !o.callbacks[t].Fire? && !o.callbacks[t].ReadOpenId?
    ensures EchoInv(LocalFields(o, Advance(t, mine)), EnterAll(l, CallbackMark(o, t)))
  {
  }

  lemma EchoOther(o: Open, l: Ledger, a: LocalAction)
    requires EchoInv(o, l) && !a.Advance? && !a.Continue?
    requires a.Overwrite? && a.id.Some? ==> a.id.value !in o.tokens
    ensures EchoInv(LocalFields(o, a), l)
  {
  }

  // ---------- every run ----------

  ghost predicate EchoesInv(w: World) {
    forall k | 0 <= k < |w.opens| :: EchoInv(w.opens[k], Book(w.opens[k].hist))
  }

  /** Every stored id is fresh and lives in one entry. */
  ghost predicate TokensApart(w: World) {
    && (forall k, x | 0 <= k < |w.opens| && x in w.opens[k].tokens :: x < w.next)
    && (forall k, m, x | 0 <= k < m < |w.opens| && x in w.opens[k].tokens :: x !in w.opens[m].tokens)
  }

  /** The action makes an activation read an id that another activation is about to clear. */
  ghost predicate Overlapping(w: World, a: Action) {
    a.RunCallback? && a.k < |w.opens| && Overlap(w.opens[a.k], a.thread)
  }

  ghost predicate OverlapFree(w: World, acts: seq<Action>)
    decreases |acts|
  {
    acts == [] || (!Overlapping(w, acts[0]) && OverlapFree(Next(w, acts[0]), acts[1..]))
  }

  lemma EchoLocal(o: Open, a: LocalAction)
    requires OpenInv(o) && EchoInv(o, Book(o.hist))
    requires a.Overwrite? && a.id.Some? ==> a.id.value !in o.tokens
    requires a.Advance? ==> !Overlap(o, a.thread)
    ensures EchoInv(LocalStep(o, a), Book(LocalStep(o, a).hist))
  {
    var d, l := Summary(o.hist), Book(o.hist);
    BookAppend(o.hist, LocalMark(o, a));
    var o' := LocalFields(o, a);
    if a.Continue? { EchoContinue(o, d, l, a.choice); }
    else if a.Advance? && a.thread in o.callbacks { EchoCallback(o, d, l, a.thread, a.slotIsMine); }
    else if !a.Advance? { EchoOther(o, l, a); }
    EchoRehist(o', EnterAll(l, LocalMark(o, a)), o.hist + LocalMark(o, a));
  }

  lemma EchoRehist(o: Open, l: Ledger, h: seq<Mark>)
    requires EchoInv(o, l)
    ensures EchoInv(o.(hist := h), l)
  {
  }

  lemma EchoAt(w: World, k: nat, a: LocalAction)
    requires OpensInv(w) && EchoesInv(w)
    requires k < |w.opens| && a.Overwrite? && a.id.Some? ==> a.id.value !in w.opens[k].tokens
    requires k < |w.opens| && a.Advance? ==> !Overlap(w.opens[k], a.thread)
    ensures EchoesInv(Local(w, k, a))
  {
    if k < |w.opens| { EchoLocal(w.opens[k], a); }
  }

  lemma EchoStep(w: World, a: Action)
    requires OpensInv(w) && EchoesInv(w) && TokensApart(w) && !Overlapping(w, a)
    ensures EchoesInv(Next(w, a))
  {
    match a
    case RequestOpen(hash, mode, hasId) =>
      var id := if hasId then Some(w.next) else None;
      assert EchoInv(FreshOpen(hash, mode, id), Book([]));
      if Reusable(w, hash).Some? {
        EchoAt(w.(next := w.next + 1), Reusable(w, hash).value, Overwrite(id));
      }
    case Step(k, c) => EchoAt(w, k, Continue(c));
    case MoveLink(k, st) => EchoAt(w, k, SetStatus(st));
    case StartCallback(k, t, est) => EchoAt(w, k, Spawn(t, est));
    case RunCallback(k, t) =>
      if k < |w.opens| { EchoAt(w, k, Advance(t, Holds(w.cache, w.opens[k].hash, k))); }
    case IdentifyLink(k, ok) => EchoAt(w, k, IdentifyCall(ok));
    case _ =>
  }

  lemma TokensRequest(w: World, hash: Bytes, mode: Mode, hasId: bool)
    requires TokensApart(w)
    ensures TokensApart(Next(w, RequestOpen(hash, mode, hasId)))
  {
  }

  lemma TokensStep(w: World, a: Action)
    requires TokensApart(w)
    ensures TokensApart(Next(w, a))
  {
    if a.RequestOpen? {
      TokensRequest(w, a.hash, a.mode, a.hasId);
    } else {
      assert |Next(w, a).opens| == |w.opens| && Next(w, a).next == w.next;
      assert forall k | 0 <= k < |w.opens| :: Next(w, a).opens[k].tokens == w.opens[k].tokens;
    }
  }

  lemma {:induction false} EchoRun(w: World, acts: seq<Action>)
    requires OpensInv(w) && EchoesInv(w) && TokensApart(w) && OverlapFree(w, acts)
    ensures var w' := Run(w, acts); OpensInv(w') && EchoesInv(w') && TokensApart(w')
    decreases |acts|
  {
    if acts != [] {
      OpensStep(w, acts[0]);
      EchoStep(w, acts[0]);
      TokensStep(w, acts[0]);
      EchoRun(Next(w, acts[0]), acts[1..]);
    }
  }

  /** Main result. While no activation of `_on_established` reads an id that another one on the same
      link is about to clear, each stored client id is echoed by at most one `link.established` of
      the whole session, however the loop's `_emit_established` and the RNS threads interleave. */
  lemma EchoedAtMostOnce(acts: seq<Action>, k: nat, m: nat, i: nat, j: nat, x: Token)
    requires OverlapFree(INIT, acts)
    requires var os := Run(INIT, acts).opens;
             k < |os| && m < |os| && i < |os[k].hist| && j < |os[m].hist|
             && os[k].hist[i].Established? && os[k].hist[i].id == Some(x)
             && os[m].hist[j].Established? && os[m].hist[j].id == Some(x)
    ensures k == m && i == j
  {
    EchoRun(INIT, acts);
    var os := Run(INIT, acts).opens;
    BookMeans(os[k].hist);
    BookMeans(os[m].hist);
    assert Echoes(os[k].hist, x) && Echoes(os[m].hist, x);
    assert x in os[k].tokens && x in os[m].tokens;
    assert !EchoedTwice(os[k].hist);
  }

  function HistOf(w: World, k: nat): seq<Mark> {
    if k < |w.opens| then w.opens[k].hist else []
  }

  /** Lets activations `t` and `u`, of which `t` still has to read, both finish. */
  function BothFinish(k: nat, t: nat, u: nat): seq<Action> {
    [RunCallback(k, t), RunCallback(k, t), RunCallback(k, t), RunCallback(k, u), RunCallback(k, u)]
  }

  lemma RunSplit(w: World, acts: seq<Action>, a: Action)
    ensures Run(w, [a] + acts) == Run(Next(w, a), acts)
  {
    assert ([a] + acts)[1..] == acts;
  }

  function Once(o: Open, t: nat): Open {
    LocalStep(o, Advance(t, false))
  }

  /** Running one established activation changes its own open as `Once` says. */
  lemma CallbackOpen(w: World, k: nat, t: nat, acts: seq<Action>)
    requires k < |w.opens| && t in w.opens[k].callbacks && !w.opens[k].callbacks[t].CheckSlot?
    ensures var w' := Next(w, RunCallback(k, t));
            && k < |w'.opens| && w'.opens[k] == Once(w.opens[k], t)
            && Run(w, [RunCallback(k, t)] + acts) == Run(w', acts)
  {
    RunSplit(w, acts, RunCallback(k, t));
  }

  lemma OverlapEvents(o: Open, t: nat, u: nat)
    requires t in o.callbacks && o.callbacks[t].ReadOpenId?
    requires u in o.callbacks && o.callbacks[u] == ClearOpenId(o.openId)
    ensures Once(Once(Once(Once(Once(o, t), t), t), u), u).hist
         == o.hist + [ReadId(Rns(t), o.openId), Established(Rns(t), o.openId), Established(Rns(u), o.openId)]
  {
    assert Once(Once(Once(o, t), t), t).callbacks[u] == o.callbacks[u];
  }

  lemma BothFinishOpen(w: World, k: nat, t: nat, u: nat)
    requires k < |w.opens| && t in w.opens[k].callbacks && w.opens[k].callbacks[t].ReadOpenId?
    requires u in w.opens[k].callbacks && w.opens[k].callbacks[u] == ClearOpenId(w.opens[k].openId)
    ensures HistOf(Run(w, BothFinish(k, t, u)), k)
         == Once(Once(Once(Once(Once(w.opens[k], t), t), t), u), u).hist
  {
    var a, b := RunCallback(k, t), RunCallback(k, u);
    var w1 := Next(w, a);
    CallbackOpen(w, k, t, [a, a, b, b]);
    var w2 := Next(w1, a);
    CallbackOpen(w1, k, t, [a, b, b]);
    var w3 := Next(w2, a);
    CallbackOpen(w2, k, t, [b, b]);
    var w4 := Next(w3, b);
    CallbackOpen(w3, k, u, [b]);
    CallbackOpen(w4, k, u, []);
    assert [a] + [a, a, b, b] == BothFinish(k, t, u) && [a] + [a, b, b] == [a, a, b, b];
    assert [a] + [b, b] == [a, b, b] && [b] + [b] == [b, b] && [b] + [] == [b];
  }

  /** The condition is exact: from any world in which an overlapping read can happen, letting both
      activations finish echoes the id twice. */
  lemma OverlapDuplicates(w: World, k: nat, t: nat)
    requires Overlapping(w, RunCallback(k, t))
    ensures exists u :: EchoedTwice(HistOf(Run(w, BothFinish(k, t, u)), k))
  {
    var o := w.opens[k];
    var u :| u in o.callbacks && o.callbacks[u] == ClearOpenId(o.openId);
    BothFinishOpen(w, k, t, u);
    OverlapEvents(o, t, u);
    var h := HistOf(Run(w, BothFinish(k, t, u)), k);
    assert h[|o.hist| + 1].Established? && h[|o.hist| + 2].Established?;
  }
}
