/**
  Whose id a success event carries, over every run and for every kind of open: who read the entry's id, what
  each reader sends, and when that is the id the open was asked with.
*/
module LinkIds {
  import opened Text
  import opened LinkProtocol
  import opened LinkSafety
  import opened LinkOutcomes
  import opened Wrappers

  // ---------- who read what ----------

  /** `first` is the first reading; `readings` what each source read; `sent` the sources whose event was sent;
      `fine` says that each source read once and sent what it had read. */
  datatype Log = Log(first: Option<Mark>, readings: map<Source, Option<Token>>, sent: set<Source>, fine: bool)

  function Record(l: Log, m: Mark): Log {
    if m.ReadId? then
      Log(if l.first.None? then Some(m) else l.first, l.readings[m.src := m.id], l.sent, l.fine && m.src !in l.readings)
    else if m.Established? then
      l.(sent := l.sent + {m.src}, fine := l.fine && m.src in l.readings && l.readings[m.src] == m.id)
    else l
  }

  function LogOf(h: seq<Mark>): Log {
    if h == [] then Log(None, map[], {}, true) else Record(LogOf(h[..|h| - 1]), h[|h| - 1])
  }

  function RecordAll(l: Log, ms: seq<Mark>): Log
    requires |ms| <= 1
  {
    if ms == [] then l else Record(l, ms[0])
  }

  lemma LogAppend(h: seq<Mark>, ms: seq<Mark>)
    requires |ms| <= 1
    ensures LogOf(h + ms) == RecordAll(LogOf(h), ms)
  {
    if ms == [] {
      assert h + ms == h;
    } else {
      assert (h + ms)[..|h|] == h;
    }
  }

  /** The first reading of a history. */
  ghost predicate FirstRead(h: seq<Mark>, m: Mark) {
    exists i :: 0 <= i < |h| && h[i] == m && m.ReadId? && Unread(h[..i])
  }

  lemma {:induction false} FirstMeans(h: seq<Mark>)
    ensures LogOf(h).first.None? <==> Unread(h)
    ensures LogOf(h).first.Some? ==> FirstRead(h, LogOf(h).first.value)
  {
    if h != [] {
      var p, m := h[..|h| - 1], h[|h| - 1];
      FirstMeans(p);
      assert h == p + [m];
      if LogOf(p).first.Some? {
        var i :| 0 <= i < |p| && p[i] == LogOf(p).first.value && p[i].ReadId? && Unread(p[..i]);
        assert h[i] == p[i] && h[..i] == p[..i];
      } else if m.ReadId? {
        assert h[|p|] == m && h[..|p|] == p;
      }
    }
  }

  lemma FirstOnly(h: seq<Mark>, m: Mark, n: Mark)
    requires FirstRead(h, m) && FirstRead(h, n)
    ensures m == n
  {
    var i :| 0 <= i < |h| && h[i] == m && m.ReadId? && Unread(h[..i]);
    var j :| 0 <= j < |h| && h[j] == n && n.ReadId? && Unread(h[..j]);
    assert forall x | 0 <= x < j :: h[..j][x] == h[x];
    assert forall x | 0 <= x < i :: h[..i][x] == h[x];
  }

  /** A source sends what it read, and reads once. */
  ghost predicate SendsWhatItRead(h: seq<Mark>) {
    && (forall i | 0 <= i < |h| && h[i].Established? :: ReadId(h[i].src, h[i].id) in h[..i])
    && (forall i, j | 0 <= i < j < |h| && h[i].ReadId? && h[j].ReadId? :: h[i].src != h[j].src)
  }

  lemma {:induction false} LogMeans(h: seq<Mark>)
    requires LogOf(h).fine
    ensures var l := LogOf(h);
            && (forall i | 0 <= i < |h| && h[i].ReadId? :: h[i].src in l.readings && l.readings[h[i].src] == h[i].id)
            && (forall i | 0 <= i < |h| && h[i].Established? ::
                  h[i].src in l.readings && l.readings[h[i].src] == h[i].id)
            && (forall s | s in l.readings :: ReadId(s, l.readings[s]) in h)
            && (forall s | s in l.sent :: s in l.readings && Established(s, l.readings[s]) in h)
  {
    if h != [] {
      var p, m := h[..|h| - 1], h[|h| - 1];
      LogMeans(p);
      assert h == p + [m];
    }
  }

  lemma {:induction false} FineSends(h: seq<Mark>)
    requires LogOf(h).fine
    ensures SendsWhatItRead(h)
  {
    if h != [] {
      var p, m := h[..|h| - 1], h[|h| - 1];
      FineSends(p);
      LogMeans(p);
      assert h == p + [m];
      SendsOneMore(p, m);
    }
  }

  lemma SendsOneMore(p: seq<Mark>, m: Mark)
    requires SendsWhatItRead(p)
    requires m.Established? ==> ReadId(m.src, m.id) in p
    requires m.ReadId? ==> forall i | 0 <= i < |p| && p[i].ReadId? :: p[i].src != m.src
    ensures SendsWhatItRead(p + [m])
  {
    var h := p + [m];
    assert forall i | 0 <= i < |p| :: h[i] == p[i] && h[..i] == p[..i];
    assert h[|p|] == m && h[..|p|] == p;
  }

  // ---------- the invariant ----------

  /** The continuation has read the id and not yet sent it. */
  predicate Holding(pc: Pc) {
    pc.EmitClear? || pc.EmitUnsuppress? || pc.EmitSend?
  }

  predicate HasRead(o: Open, s: Source) {
    match s
    case Loop => Holding(o.pc) || o.pc.Ended?
    case Rns(t) => t in o.callbacks && (o.callbacks[t].ClearOpenId? || o.callbacks[t].Fire? || o.callbacks[t].Returned?)
  }

  /** It has read and has nothing left to do. */
  predicate Finished(o: Open, s: Source) {
    match s
    case Loop => o.pc.Ended?
    case Rns(t) => t in o.callbacks && o.callbacks[t].Returned?
  }

  predicate Noted(l: Log, s: Source, id: Option<Token>) {
    s in l.readings && l.readings[s] == id
  }

  predicate HeldNoted(o: Open, l: Log, t: nat)
    requires t in o.callbacks
  {
    match o.callbacks[t]
    case ClearOpenId(held) => Noted(l, Rns(t), held)
    case Fire(held) => Noted(l, Rns(t), held)
    case _ => true
  }

  ghost predicate ReadInv(o: Open, l: Log) {
    && l.fine
    && (forall s | s in l.readings :: HasRead(o, s) && (Finished(o, s) ==> s in l.sent))
    && (Holding(o.pc) ==> Noted(l, Loop, o.pc.held))
    && (forall t | t in o.callbacks :: HeldNoted(o, l, t))
    && (l.first.None? ==> l.readings == map[])
    && (l.first.Some? ==> l.first.value.ReadId? && Noted(l, l.first.value.src, l.first.value.id))
  }

  /** The open's own id is the entry's until someone overwrites it, and is read by nobody afterwards. */
  ghost predicate OwnInv(o: Open, l: Log, early: bool) {
    o.firstId.Some? ==>
      && (l.first.None? ==> (o.openId == o.firstId <==> !early))
      && (l.first.Some? ==> l.first.value.ReadId? && (l.first.value.id == o.firstId <==> !early))
      && (early ==> o.openId != o.firstId && forall s | s in l.readings :: l.readings[s] != o.firstId)
  }

  lemma ReadEmits(o: Open, l: Log, c: Choice)
    requires ReadInv(o, l) && Emitting(o.pc)
    ensures ReadInv(ContinueStep(o, c), RecordAll(l, ContinueMark(o, c)))
  {
  }

  lemma ReadQuiet(o: Open, l: Log, c: Choice)
    requires ReadInv(o, l) && !Emitting(o.pc)
    ensures ReadInv(ContinueStep(o, c), l) && RecordAll(l, ContinueMark(o, c)) == l
  {
    var o' := ContinueStep(o, c);
    assert o'.callbacks == o.callbacks && !Holding(o'.pc) && (o.pc.Ended? ==> o'.pc.Ended?);
  }

  lemma ReadContinue(o: Open, l: Log, c: Choice)
    requires ReadInv(o, l)
    ensures ReadInv(ContinueStep(o, c), RecordAll(l, ContinueMark(o, c)))
  {
    if Emitting(o.pc) { ReadEmits(o, l, c); } else { ReadQuiet(o, l, c); }
  }

  lemma ReadReads(o: Open, l: Log, t: nat, mine: bool)
    requires ReadInv(o, l) && t in o.callbacks && o.callbacks[t].ReadOpenId?
    ensures ReadInv(LocalFields(o, Advance(t, mine)), Record(l, ReadId(Rns(t), o.openId)))
  {
  }

  lemma ReadFires(o: Open, l: Log, t: nat, mine: bool)
    requires ReadInv(o, l) && t in o.callbacks && o.callbacks[t].Fire?
    ensures ReadInv(LocalFields(o, Advance(t, mine)), Record(l, Established(Rns(t), o.callbacks[t].held)))
  {
  }

  lemma ReadMoves(o: Open, l: Log, t: nat, mine: bool)
    requires ReadInv(o, l) && t in o.callbacks && !o.callbacks[t].ReadOpenId? && !o.callbacks[t].Fire?
    ensures ReadInv(LocalFields(o, Advance(t, mine)), l)
  {
  }

  lemma ReadAdvance(o: Open, l: Log, a: LocalAction)
    requires ReadInv(o, l) && a.Advance?
    ensures ReadInv(LocalFields(o, a), RecordAll(l, LocalMark(o, a)))
  {
    if a.thread in o.callbacks {
      var c := o.callbacks[a.thread];
      if c.ReadOpenId? {
        ReadReads(o, l, a.thread, a.slotIsMine);
      } else if c.Fire? {
        ReadFires(o, l, a.thread, a.slotIsMine);
      } else {
        ReadMoves(o, l, a.thread, a.slotIsMine);
        assert RecordAll(l, CallbackMark(o, a.thread)) == l;
      }
    }
  }

  lemma ReadSpawn(o: Open, l: Log, t: nat, established: bool)
    requires ReadInv(o, l)
    ensures ReadInv(LocalFields(o, Spawn(t, established)), l)
  {
  }

  lemma ReadOther(o: Open, l: Log, a: LocalAction)
    requires ReadInv(o, l) && !a.Advance? && !a.Continue?
    ensures ReadInv(LocalFields(o, a), l)
  {
    if a.Spawn? {
      ReadSpawn(o, l, a.thread, a.established);
    } else {
      assert LocalFields(o, a).callbacks == o.callbacks && LocalFields(o, a).pc == o.pc;
    }
  }

  lemma OwnContinue(o: Open, l: Log, c: Choice, early: bool)
    requires ReadInv(o, l) && OwnInv(o, l, early)
    ensures OwnInv(ContinueStep(o, c), RecordAll(l, ContinueMark(o, c)), early)
  {
  }

  lemma OwnAdvance(o: Open, l: Log, a: LocalAction, early: bool)
    requires ReadInv(o, l) && OwnInv(o, l, early) && a.Advance?
    ensures OwnInv(LocalFields(o, a), RecordAll(l, LocalMark(o, a)), early)
  {
  }

  lemma OwnOther(o: Open, l: Log, a: LocalAction, early: bool)
    requires ReadInv(o, l) && OwnInv(o, l, early) && !a.Advance? && !a.Continue?
    requires a.Overwrite? && o.firstId.Some? ==> a.id != o.firstId
    ensures OwnInv(LocalFields(o, a), l, early || (a.Overwrite? && l.first.None?))
  {
  }

  /** Both predicates read a history only through its log. */
  lemma IdStep(o: Open, a: LocalAction, early: bool)
    requires ReadInv(o, LogOf(o.hist)) && OwnInv(o, LogOf(o.hist), early)
    requires a.Overwrite? && o.firstId.Some? ==> a.id != o.firstId
    ensures var o' := LocalStep(o, a);
            ReadInv(o', LogOf(o'.hist)) && OwnInv(o', LogOf(o'.hist), early || Is(o, a, OverwritesUnread))
  {
    var l := LogOf(o.hist);
    FirstMeans(o.hist);
    LogAppend(o.hist, LocalMark(o, a));
    if a.Continue? {
      ReadContinue(o, l, a.choice);
      OwnContinue(o, l, a.choice, early);
    } else if a.Advance? {
      ReadAdvance(o, l, a);
      OwnAdvance(o, l, a, early);
    } else {
      ReadOther(o, l, a);
      OwnOther(o, l, a, early);
    }
    Rehist(LocalFields(o, a), RecordAll(l, LocalMark(o, a)), early || Is(o, a, OverwritesUnread),
           o.hist + LocalMark(o, a));
  }

  lemma Rehist(o: Open, l: Log, early: bool, h: seq<Mark>)
    requires ReadInv(o, l) && OwnInv(o, l, early)
    ensures ReadInv(o.(hist := h), l) && OwnInv(o.(hist := h), l, early)
  {
  }

  lemma NextGrows(w: World, a: Action)
    ensures Next(w, a).next == if a.RequestOpen? then w.next + 1 else w.next
  {
  }

  lemma FirstIdStays(w: World, a: Action, k: nat)
    requires k < |w.opens|
    ensures k < |Next(w, a).opens| && Next(w, a).opens[k].firstId == w.opens[k].firstId
  {
    DoesSo(w, a, k);
  }

  /** An open's own id is older than any id still to be drawn. */
  lemma {:induction false} FirstIdOld(acts: seq<Action>, k: nat)
    requires k < |Run(INIT, acts).opens| && Run(INIT, acts).opens[k].firstId.Some?
    ensures Run(INIT, acts).opens[k].firstId.value < Run(INIT, acts).next
  {
    if acts != [] {
      var p, a := acts[..|acts| - 1], acts[|acts| - 1];
      var w := Run(INIT, p);
      RunLast(INIT, acts);
      NextGrows(w, a);
      if k < |w.opens| {
        FirstIdStays(w, a, k);
        FirstIdOld(p, k);
      } else {
        AddsFresh(w, a, k);
      }
    }
  }

  ghost predicate IdsAt(acts: seq<Action>, k: nat) {
    var w := Run(INIT, acts);
    k < |w.opens| ==>
      && ReadInv(w.opens[k], LogOf(w.opens[k].hist))
      && OwnInv(w.opens[k], LogOf(w.opens[k].hist), Ever(acts, k, OverwritesUnread))
  }

  lemma {:induction false} IdsRun(acts: seq<Action>, k: nat)
    ensures IdsAt(acts, k)
  {
    if acts != [] && k < |Run(INIT, acts).opens| {
      var p, a := acts[..|acts| - 1], acts[|acts| - 1];
      var w := Run(INIT, p);
      RunLast(INIT, acts);
      EverLast(acts, k, OverwritesUnread);
      if k < |w.opens| {
        IdsRun(p, k);
        DoesSo(w, a, k);
        if w.opens[k].firstId.Some? { FirstIdOld(p, k); }
        if Does(w, a, k).Some? { IdStep(w.opens[k], Does(w, a, k).value, Ever(p, k, OverwritesUnread)); }
      } else {
        NothingYet(p, k, OverwritesUnread);
        AddsFresh(w, a, k);
      }
    }
  }

  // ---------- the results ----------

  /** Main result. In every run, for every open, each success event carries what its own source, the
      continuation or one activation of `_on_established`, had read before, and no source reads twice. */
  lemma EventsCarryReadings(acts: seq<Action>, k: nat)
    requires k < |Run(INIT, acts).opens|
    ensures SendsWhatItRead(Run(INIT, acts).opens[k].hist)
  {
    IdsRun(acts, k);
    FineSends(Run(INIT, acts).opens[k].hist);
  }

  /** Main result. In every run, for every open with an id of its own, of any mode, the first reading of the
      entry yields that id if and only if no request reused the entry before it. */
  lemma FirstReadingExactly(acts: seq<Action>, k: nat, m: Mark)
    requires k < |Run(INIT, acts).opens| && Run(INIT, acts).opens[k].firstId.Some?
    requires FirstRead(Run(INIT, acts).opens[k].hist, m)
    ensures m.id == Run(INIT, acts).opens[k].firstId <==> !Ever(acts, k, OverwritesUnread)
  {
    var h := Run(INIT, acts).opens[k].hist;
    IdsRun(acts, k);
    FirstMeans(h);
    var i :| 0 <= i < |h| && h[i] == m && m.ReadId?;
    FirstOnly(h, m, LogOf(h).first.value);
  }

  /** The open's own id is echoed by one of its success events. */
  ghost predicate OwnIdEchoed(o: Open) {
    exists s: Source :: Established(s, o.firstId) in o.hist
  }

  /** Main result. In every run, for every open with an id of its own, of any mode: an event can echo that id
      only if no request reused the entry before its first reading; and once the continuation has ended and
      the callbacks have returned, an entry that was read at all has echoed it if and only if that is so. */
  lemma OwnIdEchoedExactly(acts: seq<Action>, k: nat)
    requires k < |Run(INIT, acts).opens| && Run(INIT, acts).opens[k].firstId.Some?
    ensures var o := Run(INIT, acts).opens[k];
            && (OwnIdEchoed(o) ==> !Ever(acts, k, OverwritesUnread))
            && (o.pc == Ended && Idle(o) && !Unread(o.hist) ==> (OwnIdEchoed(o) <==> !Ever(acts, k, OverwritesUnread)))
  {
    var o := Run(INIT, acts).opens[k];
    var l := LogOf(o.hist);
    IdsRun(acts, k);
    FirstMeans(o.hist);
    LogMeans(o.hist);
    if OwnIdEchoed(o) {
      var s :| Established(s, o.firstId) in o.hist;
      assert l.readings[s] == o.firstId;
    }
    if o.pc == Ended && Idle(o) && !Unread(o.hist) && !Ever(acts, k, OverwritesUnread) {
      var s := l.first.value.src;
      assert Finished(o, s) && l.readings[s] == o.firstId;
      assert Established(s, o.firstId) in o.hist;
    }
  }

  // ---------- opens that are to identify ----------

  /** In a gated open nobody reads before the continuation. */
  ghost predicate LoopFirst(o: Open, d: Digest, l: Log) {
    Gated(o.mode) ==>
      && (l.first.Some? ==> l.first.value.ReadId? && l.first.value.src == Loop)
      && (d.identified && !o.pc.EmitRead? ==> l.first.Some?)
  }

  lemma LoopFirstContinue(o: Open, d: Digest, l: Log, c: Choice)
    requires Wiring(o, d) && Gate(o, d) && ReadInv(o, l) && LoopFirst(o, d, l)
    ensures LoopFirst(ContinueStep(o, c), NoteAll(d, ContinueMark(o, c)), RecordAll(l, ContinueMark(o, c)))
  {
  }

  lemma LoopFirstOther(o: Open, d: Digest, l: Log, a: LocalAction)
    requires Wiring(o, d) && Gate(o, d) && ReadInv(o, l) && LoopFirst(o, d, l) && !a.Continue?
    ensures LoopFirst(LocalFields(o, a), NoteAll(d, LocalMark(o, a)), RecordAll(l, LocalMark(o, a)))
  {
  }

  lemma LoopFirstStep(o: Open, a: LocalAction)
    requires OpenInv(o) && ReadInv(o, LogOf(o.hist)) && LoopFirst(o, Summary(o.hist), LogOf(o.hist))
    ensures var o' := LocalStep(o, a); LoopFirst(o', Summary(o'.hist), LogOf(o'.hist))
  {
    SummaryAppend(o.hist, LocalMark(o, a));
    LogAppend(o.hist, LocalMark(o, a));
    if a.Continue? {
      LoopFirstContinue(o, Summary(o.hist), LogOf(o.hist), a.choice);
    } else {
      LoopFirstOther(o, Summary(o.hist), LogOf(o.hist), a);
    }
  }

  lemma {:induction false} LoopFirstRun(acts: seq<Action>, k: nat)
    requires k < |Run(INIT, acts).opens|
    ensures var o := Run(INIT, acts).opens[k]; LoopFirst(o, Summary(o.hist), LogOf(o.hist))
  {
    if acts != [] {
      var p, a := acts[..|acts| - 1], acts[|acts| - 1];
      var w := Run(INIT, p);
      RunLast(INIT, acts);
      if k < |w.opens| {
        LoopFirstRun(p, k);
        IdsRun(p, k);
        OpenKept(p, k);
        DoesSo(w, a, k);
        if Does(w, a, k).Some? { LoopFirstStep(w.opens[k], Does(w, a, k).value); }
      } else {
        AddsFresh(w, a, k);
      }
    }
  }

  /** Main result. In every run, the success event that the continuation of an open to be identified sends
      carries the open's own id if and only if no request reused the entry, which takes a link that was
      ACTIVE at that moment, before the continuation read it. */
  lemma OwnIdExactly(acts: seq<Action>, k: nat, id: Option<Token>)
    requires k < |Run(INIT, acts).opens|
    requires var o := Run(INIT, acts).opens[k];
             o.mode.autoIdentify && (o.mode.ws || o.mode.awaited) && o.firstId.Some? && Established(Loop, id) in o.hist
    ensures id == Run(INIT, acts).opens[k].firstId <==> !Ever(acts, k, OverwritesUnread)
  {
    var h := Run(INIT, acts).opens[k].hist;
    IdsRun(acts, k);
    LoopFirstRun(acts, k);
    LogMeans(h);
    assert LogOf(h).readings[Loop] == id;
  }
}
