/**
  What every run of the link-open protocol keeps: identify before `link.established`, the
  conversation of a WebSocket open, and the correlation of its client id.
*/
module LinkSafety {
  import opened Text
  import opened LinkProtocol
  import opened Wrappers

  // ---------- what a history says ----------

  /** Every `link.established` in `h`, by whichever thread, comes after `first`. */
  ghost predicate EstablishedOnlyAfter(h: seq<Mark>, first: Mark) {
    forall i | 0 <= i < |h| && h[i].Established? :: first in h[..i]
  }

  ghost predicate NeverEstablished(h: seq<Mark>) {
    forall i | 0 <= i < |h| :: !h[i].Established?
  }

  /** A mark that is an event sent by the continuation itself. */
  predicate Spoken(m: Mark) {
    || m.Ack? || m.FindingPath? || m.EstablishingLink? || m.Identifying? || m.Failed?
    || (m.Established? && m.src == Loop)
  }

  /** The events of `h` sent by the continuation, in order. */
  function Said(h: seq<Mark>): seq<Mark> {
    if h == [] then []
    else
      var m := h[|h| - 1];
      if Spoken(m) then Said(h[..|h| - 1]) + [m] else Said(h[..|h| - 1])
  }

  lemma {:induction false} SaidExactly(h: seq<Mark>, m: Mark)
    ensures m in Said(h) <==> m in h && Spoken(m)
  {
    if h != [] {
      SaidExactly(h[..|h| - 1], m);
      assert h == h[..|h| - 1] + [h[|h| - 1]];
    }
  }

  /** The conversations a continuation may have had, complete or not; `found` records finding_path. */
  datatype Talk =
    | Silent
    | Acked(found: bool)
    | Linking(found: bool)
    | Naming(found: bool)
    | FailedResolving(found: bool)
    | FailedLinking(found: bool)
    | FailedNaming(found: bool)
    | Succeeded(found: bool, id: Option<Token>)
    | Garbled

  predicate Complete(t: Talk) {
    t.FailedResolving? || t.FailedLinking? || t.FailedNaming? || t.Succeeded?
  }

  /** The exact event sequence of a conversation. */
  function Spell(t: Talk): seq<Mark>
    requires t != Garbled
  {
    if t == Silent then []
    else
      (if t.found then [Ack, FindingPath] else [Ack]) +
      match t
      case Acked(_) => []
      case Linking(_) => [EstablishingLink]
      case Naming(_) => [EstablishingLink, Identifying]
      case FailedResolving(_) => [Failed]
      case FailedLinking(_) => [EstablishingLink, Failed]
      case FailedNaming(_) => [EstablishingLink, Identifying, Failed]
      case Succeeded(_, id) => [EstablishingLink, Identifying, Established(Loop, id)]
  }

  function Hear(t: Talk, m: Mark): Talk {
    if !Spoken(m) then t
    else if m.Ack? then (if t.Silent? then Acked(false) else Garbled)
    else if m.FindingPath? then (if t == Acked(false) then Acked(true) else Garbled)
    else if m.EstablishingLink? then (if t.Acked? then Linking(t.found) else Garbled)
    else if m.Identifying? then (if t.Linking? then Naming(t.found) else Garbled)
    else if m.Established? then (if t.Naming? then Succeeded(t.found, m.id) else Garbled)
    else if t.Acked? then FailedResolving(t.found)
    else if t.Linking? then FailedLinking(t.found)
    else if t.Naming? then FailedNaming(t.found)
    else Garbled
  }

  /** A finite summary of a history, enough for the invariants below. */
  datatype Digest = Digest(
    talk: Talk,
    linking: bool,
    identified: bool,
    failed: bool,
    established: bool,
    afterLinking: bool,
    afterIdentify: bool)

  function Note(d: Digest, m: Mark): Digest {
    Digest(
      Hear(d.talk, m),
      d.linking || m.EstablishingLink?,
      d.identified || m.IdentifyDone?,
      d.failed || m.Failed?,
      d.established || m.Established?,
      d.afterLinking && (m.Established? ==> d.linking),
      d.afterIdentify && (m.Established? ==> d.identified))
  }

  function Summary(h: seq<Mark>): Digest {
    if h == [] then Digest(Silent, false, false, false, false, true, true)
    else Note(Summary(h[..|h| - 1]), h[|h| - 1])
  }

  lemma SummaryAppend(h: seq<Mark>, ms: seq<Mark>)
    requires |ms| <= 1
    ensures Summary(h + ms) == if ms == [] then Summary(h) else Note(Summary(h), ms[0])
  {
    if ms == [] {
      assert h + ms == h;
    } else {
      assert (h + ms)[..|h|] == h;
    }
  }

  lemma {:induction false} SummaryMeans(h: seq<Mark>)
    ensures var d := Summary(h);
            && (d.linking <==> EstablishingLink in h)
            && (d.identified <==> IdentifyDone in h)
            && (d.failed <==> Failed in h)
            && (d.established <==> !NeverEstablished(h))
            && (d.afterLinking <==> EstablishedOnlyAfter(h, EstablishingLink))
            && (d.afterIdentify <==> EstablishedOnlyAfter(h, IdentifyDone))
  {
    if h != [] {
      var p, m := h[..|h| - 1], h[|h| - 1];
      SummaryMeans(p);
      assert h == p + [m];
      NeverLast(p, m);
      OnlyAfterLast(p, m, EstablishingLink);
      OnlyAfterLast(p, m, IdentifyDone);
    }
  }

  lemma NeverLast(p: seq<Mark>, m: Mark)
    ensures NeverEstablished(p + [m]) <==> NeverEstablished(p) && !m.Established?
  {
    if NeverEstablished(p + [m]) {
      assert forall i | 0 <= i < |p| :: p[i] == (p + [m])[i];
    }
    assert (p + [m])[|p|] == m;
  }

  lemma OnlyAfterLast(p: seq<Mark>, m: Mark, first: Mark)
    ensures EstablishedOnlyAfter(p + [m], first) <==> EstablishedOnlyAfter(p, first) && (m.Established? ==> first in p)
  {
    var h := p + [m];
    assert forall i | 0 <= i < |p| :: h[..i] == p[..i] && h[i] == p[i];
    assert h[..|p|] == p && h[|p|] == m;
  }

  lemma {:induction false} TalkSpells(h: seq<Mark>)
    ensures Summary(h).talk == Garbled || Said(h) == Spell(Summary(h).talk)
  {
    if h != [] {
      var p, m := h[..|h| - 1], h[|h| - 1];
      TalkSpells(p);
      if Spoken(m) && Summary(p).talk != Garbled { HearSpells(Summary(p).talk, m); }
    }
  }

  /** Hearing one more event either breaks off the conversation or lengthens its spelling by it. */
  lemma HearSpells(t: Talk, m: Mark)
    requires t != Garbled && Spoken(m)
    ensures Hear(t, m) == Garbled || Spell(Hear(t, m)) == Spell(t) + [m]
  {
  }

  // ---------- the invariant of one open ----------

  predicate BeforeWiring(pc: Pc) {
    || pc.Reserved? || pc.Start? || pc.PathWait? || pc.Resolve? || pc.Announce?
    || pc.Construct? || pc.SetSuppress? || pc.Store? || pc.Wire?
  }

  predicate Emitting(pc: Pc) {
    pc.EmitRead? || pc.EmitClear? || pc.EmitUnsuppress? || pc.EmitSend?
  }

  predicate PastSuppressCheck(c: Callback) {
    c.ReadOpenId? || c.ClearOpenId? || c.Fire?
  }

  /** Callbacks exist only once wired; wiring comes after `establishing_link` was sent. */
  ghost predicate Wiring(o: Open, d: Digest) {
    && (o.wired ==> !BeforeWiring(o.pc) && o.link.Some?)
    && (!o.wired ==> BeforeWiring(o.pc) || o.pc.Failing? || o.pc.Ended?)
    && (!o.wired ==> o.callbacks == map[] && !d.established)
    && (o.pc.SetSuppress? || o.pc.Store? || o.pc.Wire? ==> o.link.Some?)
    && (o.pc.Reserved? || o.pc.SetSuppress? ==> o.mode.ws)
    && (o.pc.Wait? || o.pc.Judge? || o.pc.Evict? ==> o.mode.ws || o.mode.awaited)
    && (o.pc.AnnounceIdentify? || o.pc.Identify? || Emitting(o.pc) ==> Gated(o.mode))
    && (o.mode.ws && (o.wired || o.pc.Construct? || o.pc.SetSuppress? || o.pc.Store? || o.pc.Wire?) ==> d.linking)
    && (o.mode.ws ==> d.afterLinking)
  }

  /** The wired callback is suppressed and no activation got past the check. */
  ghost predicate Held(o: Open) {
    && (o.wired || o.pc.Store? || o.pc.Wire? ==> o.suppress)
    && (forall t | t in o.callbacks :: !PastSuppressCheck(o.callbacks[t]))
  }

  ghost predicate Gate(o: Open, d: Digest) {
    && (Gated(o.mode) ==> Held(o) || (d.identified && (o.pc.EmitSend? || o.pc.Ended?)))
    && (Gated(o.mode) && !d.identified ==> !d.established && !Emitting(o.pc))
    && (Gated(o.mode) ==> d.afterIdentify)
    && (d.identified ==> Emitting(o.pc) || o.pc.Ended?)
    && (d.identified ==> o.identified)
    && (d.failed ==> o.pc.Ended? && !d.identified)
  }

  /** What a WebSocket continuation standing at `pc` has said so far. */
  predicate Script(pc: Pc, auto: bool, t: Talk) {
    match pc
    case Reserved => t == Silent
    case Start => t == Acked(false)
    case PathWait | Resolve | Announce => t.Acked?
    case Identify | EmitRead | EmitClear(_) | EmitUnsuppress(_) | EmitSend(_) => t.Naming?
    case Failing => t.Acked? || t.Linking? || (auto && t.Naming?)
    case Ended =>
      if auto then Complete(t) else t.FailedResolving? || t.FailedLinking? || t.Linking?
    case _ => t.Linking?
  }

  /** Until a later open for the destination overwrites it, a gated open's id is carried unchanged. */
  ghost predicate Carried(o: Open, d: Digest) {
    Gated(o.mode) && !o.overwritten ==>
      && (!d.identified || o.pc.EmitRead? ==> o.openId == o.firstId)
      && (o.pc.EmitClear? || o.pc.EmitUnsuppress? || o.pc.EmitSend? ==> o.pc.held == o.firstId)
      && (d.talk.Succeeded? ==> d.talk.id == o.firstId)
  }

  ghost predicate InvWith(o: Open, d: Digest) {
    && Wiring(o, d)
    && Gate(o, d)
    && (o.mode.ws ==> Script(o.pc, o.mode.autoIdentify, d.talk))
    && (o.mode.ws ==> Carried(o, d))
  }

  ghost predicate OpenInv(o: Open) {
    InvWith(o, Summary(o.hist))
  }

  function NoteAll(d: Digest, ms: seq<Mark>): Digest
    requires |ms| <= 1
  {
    if ms == [] then d else Note(d, ms[0])
  }

  lemma WiringContinue(o: Open, d: Digest, c: Choice)
    requires Wiring(o, d)
    ensures Wiring(ContinueStep(o, c), NoteAll(d, ContinueMark(o, c)))
  {
  }

  lemma GateContinue(o: Open, d: Digest, c: Choice)
    requires Wiring(o, d) && Gate(o, d)
    ensures Gate(ContinueStep(o, c), NoteAll(d, ContinueMark(o, c)))
  {
  }

  lemma ScriptEarly(o: Open, c: Choice, t: Talk)
    requires BeforeWiring(o.pc) && Script(o.pc, o.mode.autoIdentify, t) && o.mode.ws
    ensures Script(NextPc(o, c), o.mode.autoIdentify, NoteTalk(t, ContinueMark(o, c)))
  {
  }

  lemma ScriptLate(o: Open, c: Choice, t: Talk)
    requires !BeforeWiring(o.pc) && Script(o.pc, o.mode.autoIdentify, t) && o.mode.ws
    requires o.pc.AnnounceIdentify? || o.pc.Identify? || Emitting(o.pc) ==> o.mode.autoIdentify
    ensures Script(NextPc(o, c), o.mode.autoIdentify, NoteTalk(t, ContinueMark(o, c)))
  {
  }

  function NoteTalk(t: Talk, ms: seq<Mark>): Talk
    requires |ms| <= 1
  {
    if ms == [] then t else Hear(t, ms[0])
  }

  lemma ScriptContinue(o: Open, d: Digest, c: Choice)
    requires o.mode.ws && Wiring(o, d) && Script(o.pc, o.mode.autoIdentify, d.talk)
    ensures Script(ContinueStep(o, c).pc, o.mode.autoIdentify, NoteAll(d, ContinueMark(o, c)).talk)
  {
    if BeforeWiring(o.pc) { ScriptEarly(o, c, d.talk); } else { ScriptLate(o, c, d.talk); }
  }

  lemma CarriedContinue(o: Open, d: Digest, c: Choice)
    requires o.mode.ws && InvWith(o, d)
    ensures Carried(ContinueStep(o, c), NoteAll(d, ContinueMark(o, c)))
  {
  }

  lemma ContinueKeeps(o: Open, d: Digest, c: Choice)
    requires InvWith(o, d)
    ensures InvWith(ContinueStep(o, c), NoteAll(d, ContinueMark(o, c)))
  {
    WiringContinue(o, d, c);
    GateContinue(o, d, c);
    if o.mode.ws {
      ScriptContinue(o, d, c);
      CarriedContinue(o, d, c);
    }
  }

  lemma CallbackKeeps(o: Open, d: Digest, a: LocalAction)
    requires InvWith(o, d) && a.Advance?
    ensures InvWith(LocalFields(o, a), NoteAll(d, LocalMark(o, a)))
  {
  }

  lemma OtherKeeps(o: Open, d: Digest, a: LocalAction)
    requires InvWith(o, d) && !a.Advance? && !a.Continue?
    ensures InvWith(LocalFields(o, a), d)
  {
  }

  /** The invariant reads a history only through its digest. */
  lemma Rehist(o: Open, d: Digest, h: seq<Mark>)
    requires InvWith(o, d)
    ensures InvWith(o.(hist := h), d)
  {
  }

  lemma FieldsKeep(o: Open, d: Digest, a: LocalAction)
    requires InvWith(o, d)
    ensures InvWith(LocalFields(o, a), NoteAll(d, LocalMark(o, a)))
  {
    if a.Continue? { ContinueKeeps(o, d, a.choice); }
    else if a.Advance? { CallbackKeeps(o, d, a); }
    else { OtherKeeps(o, d, a); }
  }

  lemma OpenInvStep(o: Open, a: LocalAction)
    requires OpenInv(o)
    ensures OpenInv(LocalStep(o, a))
  {
    var d := Summary(o.hist);
    var d' := NoteAll(d, LocalMark(o, a));
    FieldsKeep(o, d, a);
    Rehist(LocalFields(o, a), d', o.hist + LocalMark(o, a));
    SummaryAppend(o.hist, LocalMark(o, a));
  }

  lemma FreshInv(hash: Bytes, mode: Mode, id: Option<Token>)
    ensures OpenInv(FreshOpen(hash, mode, id))
  {
  }

  // ---------- every run ----------

  ghost predicate OpensInv(w: World) {
    forall k | 0 <= k < |w.opens| :: OpenInv(w.opens[k])
  }

  /** `_entry` and the cache: every key of `session.open_links` is its entry's destination hash. */
  ghost predicate CacheInv(w: World) {
    forall h | h in w.cache :: w.cache[h] < |w.opens| && w.opens[w.cache[h]].hash == h
  }

  ghost predicate WorldInv(w: World) {
    OpensInv(w) && CacheInv(w)
  }

  lemma LocalKeeps(w: World, k: nat, l: LocalAction)
    requires OpensInv(w)
    ensures OpensInv(Local(w, k, l))
  {
    if k < |w.opens| { OpenInvStep(w.opens[k], l); }
  }

  lemma OpensStep(w: World, a: Action)
    requires OpensInv(w)
    ensures OpensInv(Next(w, a))
  {
    match a
    case RequestOpen(hash, mode, hasId) =>
      var id := if hasId then Some(w.next) else None;
      FreshInv(hash, mode, id);
      if Reusable(w, hash).Some? {
        LocalKeeps(w.(next := w.next + 1), Reusable(w, hash).value, Overwrite(id));
      }
    case Step(k, c) => LocalKeeps(w, k, Continue(c));
    case MoveLink(k, st) => LocalKeeps(w, k, SetStatus(st));
    case StartCallback(k, t, est) => LocalKeeps(w, k, Spawn(t, est));
    case RunCallback(k, t) =>
      if k < |w.opens| { LocalKeeps(w, k, Advance(t, Holds(w.cache, w.opens[k].hash, k))); }
    case IdentifyLink(k, ok) => LocalKeeps(w, k, IdentifyCall(ok));
    case _ =>
  }

  /** No step renames or forgets an open. */
  lemma HashesStay(w: World, a: Action)
    ensures |w.opens| <= |Next(w, a).opens|
    ensures forall k | 0 <= k < |w.opens| :: Next(w, a).opens[k].hash == w.opens[k].hash
  {
  }

  lemma RequestCache(w: World, hash: Bytes, mode: Mode, hasId: bool)
    requires CacheInv(w)
    ensures CacheInv(Next(w, RequestOpen(hash, mode, hasId)))
  {
    var w' := Next(w, RequestOpen(hash, mode, hasId));
    HashesStay(w, RequestOpen(hash, mode, hasId));
    assert w'.cache == w.cache || (w'.cache == w.cache[hash := |w.opens|] && w'.opens[|w.opens|].hash == hash);
  }

  /** Only the continuation of an open that stands at `Store` adds to the cache, and only its own hash. */
  lemma CacheFrom(w: World, a: Action)
    requires !a.RequestOpen?
    ensures forall h | h in Next(w, a).cache ::
              || (h in w.cache && Next(w, a).cache[h] == w.cache[h])
              || (a.Step? && a.k < |w.opens| && w.opens[a.k].hash == h && Next(w, a).cache[h] == a.k)
  {
  }

  lemma CacheStep(w: World, a: Action)
    requires CacheInv(w)
    ensures CacheInv(Next(w, a))
  {
    HashesStay(w, a);
    if a.RequestOpen? { RequestCache(w, a.hash, a.mode, a.hasId); } else { CacheFrom(w, a); }
  }

  lemma WorldStep(w: World, a: Action)
    requires WorldInv(w)
    ensures WorldInv(Next(w, a))
  {
    OpensStep(w, a);
    CacheStep(w, a);
  }

  lemma {:induction false} WorldRun(w: World, acts: seq<Action>)
    requires WorldInv(w)
    ensures WorldInv(Run(w, acts))
    decreases |acts|
  {
    if acts != [] {
      WorldStep(w, acts[0]);
      WorldRun(Next(w, acts[0]), acts[1..]);
    }
  }

  /** In every run a request is offered open `k` for reuse exactly when `k`'s entry is the cached one for
      that destination and its link is ACTIVE at that moment. */
  lemma ReuseExactly(acts: seq<Action>, hash: Bytes, k: nat)
    requires k < |Run(INIT, acts).opens|
    ensures var w := Run(INIT, acts);
            && (Reusable(w, hash) == Some(k) <==> Holds(w.cache, hash, k) && w.opens[k].link == Some(ACTIVE))
            && (Reusable(w, hash) == Some(k) ==> w.opens[k].hash == hash)
            && (hash in w.cache ==> w.cache[hash] < |w.opens|)
  {
    WorldRun(INIT, acts);
  }

  /** Main result. For an open with auto_identify, on WS or awaited on REST: in every interleaving
      each `link.established`, by the loop or by an RNS thread, comes after `link.identify()`
      succeeded; and an open that ended without a successful identify never establishes. */
  lemma IdentifyBeforeEstablished(acts: seq<Action>, k: nat)
    requires k < |Run(INIT, acts).opens|
    requires var m := Run(INIT, acts).opens[k].mode; m.autoIdentify && (m.ws || m.awaited)
    ensures var o := Run(INIT, acts).opens[k];
            && EstablishedOnlyAfter(o.hist, IdentifyDone)
            && (IdentifyDone !in o.hist ==> NeverEstablished(o.hist))
            && (Failed in o.hist ==> NeverEstablished(o.hist))
            && (IdentifyDone in o.hist ==> o.identified)
  {
    WorldRun(INIT, acts);
    SummaryMeans(Run(INIT, acts).opens[k].hist);
  }

  /** Exactly one terminal event, the last one, in a conversation that opens with the ack. */
  ghost predicate OneTerminalLast(s: seq<Mark>) {
    && |s| > 0 && s[0] == Ack && Terminal(s[|s| - 1])
    && forall i | 0 <= i < |s| - 1 :: !Terminal(s[i])
  }

  predicate Terminal(m: Mark) {
    m.Failed? || m.Established?
  }

  /** What a WebSocket continuation has said is the spelling of one conversation. With auto_identify it
      is complete, with its one terminal event, exactly when the continuation has ended, and unless a
      later open for the same destination wrote over the entry, the success event carries this open's
      id. Without auto_identify it ends silently or with one failure. No `link.established`, not even by
      an RNS thread, precedes `establishing_link`. */
  ghost predicate Conversed(o: Open) {
    && EstablishedOnlyAfter(o.hist, EstablishingLink)
    && exists t :: t != Garbled && Said(o.hist) == Spell(t)
         && (o.mode.autoIdentify ==> (o.pc == Ended <==> Complete(t)))
         && (o.mode.autoIdentify && o.pc == Ended ==> OneTerminalLast(Said(o.hist)))
         && (o.mode.autoIdentify && t.Succeeded? && !o.overwritten ==> t.id == o.firstId)
         && (!o.mode.autoIdentify && o.pc == Ended ==>
               t.FailedResolving? || t.FailedLinking? || t.Linking?)
  }

  lemma InvConverses(o: Open)
    requires OpenInv(o) && o.mode.ws
    ensures Conversed(o)
  {
    SummaryMeans(o.hist);
    TalkSpells(o.hist);
    var t := Summary(o.hist).talk;
    assert Script(o.pc, o.mode.autoIdentify, t);
  }

  /** Main result. Every WebSocket open has conversed so at every point of every run. */
  lemma OpenConversation(acts: seq<Action>, k: nat)
    requires k < |Run(INIT, acts).opens| && Run(INIT, acts).opens[k].mode.ws
    ensures Conversed(Run(INIT, acts).opens[k])
  {
    WorldRun(INIT, acts);
    InvConverses(Run(INIT, acts).opens[k]);
  }

  /** How far a continuation still has to go. */
  function Distance(pc: Pc): nat {
    match pc
    case Reserved => 18
    case Start => 17
    case PathWait => 16
    case Resolve => 15
    case Announce => 14
    case Construct => 13
    case SetSuppress => 12
    case Store => 11
    case Wire => 10
    case Wait => 9
    case Judge => 8
    case AnnounceIdentify => 7
    case Identify => 6
    case EmitRead => 5
    case EmitClear(_) => 4
    case EmitUnsuppress(_) => 3
    case EmitSend(_) => 2
    case Evict => 2
    case Failing => 1
    case Ended => 0
  }

  /** A continuation that keeps being scheduled ends: only the poll for ACTIVE can stay in place,
      and only while its deadline is ahead. */
  lemma ContinuationEnds(o: Open, c: Choice)
    ensures Distance(ContinueStep(o, c).pc) < Distance(o.pc) || o.pc == Ended
            || (o.pc == Wait && !c.deadline && o.link != Some(ACTIVE) && o.link != Some(CLOSED))
  {
  }
}
