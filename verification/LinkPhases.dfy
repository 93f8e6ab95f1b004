/**
  Exactly when an open sends `finding_path`, its failure, its success and `link.closed`, over every run.
*/
module LinkPhases {
  import opened Text
  import opened LinkProtocol
  import opened LinkSafety
  import opened LinkOutcomes
  import opened Wrappers

  // ---------- finding_path ----------

  lemma SeekStep(o: Open, l: LocalAction)
    ensures FindingPath in LocalStep(o, l).hist <==> FindingPath in o.hist || (o.mode.ws && Is(o, l, SeeksPath))
    ensures LocalStep(o, l).mode == o.mode
  {
    var ms := LocalMark(o, l);
    assert forall m :: m in o.hist + ms <==> m in o.hist || m in ms;
  }

  /** Main result. In every run, an open has sent `finding_path` if and only if it is a WebSocket open and its
      continuation started without a known path. */
  lemma {:induction false} FindingPathExactly(acts: seq<Action>, k: nat)
    requires k < |Run(INIT, acts).opens|
    ensures var o := Run(INIT, acts).opens[k]; FindingPath in o.hist <==> o.mode.ws && Ever(acts, k, SeeksPath)
  {
    if acts != [] {
      var p, a := acts[..|acts| - 1], acts[|acts| - 1];
      var w := Run(INIT, p);
      RunLast(INIT, acts);
      EverLast(acts, k, SeeksPath);
      if k < |w.opens| {
        FindingPathExactly(p, k);
        DoesSo(w, a, k);
        if Does(w, a, k).Some? { SeekStep(w.opens[k], Does(w, a, k).value); }
      } else {
        NothingYet(p, k, SeeksPath);
        AddsFresh(w, a, k);
      }
    }
  }

  // ---------- failure and success ----------

  /** The continuation is on its way to its failure event, or has sent it. */
  predicate Falling(o: Open) {
    o.pc.Evict? || o.pc.Failing? || Failed in o.hist
  }

  lemma FailedStep(o: Open, l: LocalAction)
    ensures Failed in LocalStep(o, l).hist <==> Failed in o.hist || (l.Continue? && o.pc.Failing? && o.mode.ws)
  {
    var ms := LocalMark(o, l);
    assert forall m :: m in o.hist + ms <==> m in o.hist || m in ms;
  }

  lemma FallStep(o: Open, l: LocalAction)
    requires o.mode.ws && (Failed in o.hist ==> o.pc.Ended?)
    ensures Falling(LocalStep(o, l)) <==> Falling(o) || Is(o, l, MeetsFailure)
  {
    FailedStep(o, l);
  }

  lemma FailedEnds(o: Open)
    requires OpenInv(o)
    ensures Failed in o.hist ==> o.pc.Ended?
  {
    SummaryMeans(o.hist);
  }

  lemma {:induction false} FallRun(acts: seq<Action>, k: nat)
    requires k < |Run(INIT, acts).opens| && Run(INIT, acts).opens[k].mode.ws
    ensures Falling(Run(INIT, acts).opens[k]) <==> Ever(acts, k, MeetsFailure)
  {
    if acts != [] {
      var p, a := acts[..|acts| - 1], acts[|acts| - 1];
      var w := Run(INIT, p);
      RunLast(INIT, acts);
      EverLast(acts, k, MeetsFailure);
      if k < |w.opens| {
        DoesSo(w, a, k);
        if Does(w, a, k).Some? { SeekStep(w.opens[k], Does(w, a, k).value); }
        FallRun(p, k);
        OpenKept(p, k);
        FailedEnds(w.opens[k]);
        if Does(w, a, k).Some? { FallStep(w.opens[k], Does(w, a, k).value); }
      } else {
        NothingYet(p, k, MeetsFailure);
        AddsFresh(w, a, k);
      }
    }
  }

  /** The continuation itself reported success. */
  ghost predicate Succeeds(h: seq<Mark>) {
    exists id :: Established(Loop, id) in h
  }

  lemma SpeltEnd(t: Talk)
    requires Complete(t)
    ensures Failed in Spell(t) <==> !t.Succeeded?
    ensures forall m | m in Spell(t) && m.Established? :: t.Succeeded? && m == Established(Loop, t.id)
    ensures t.Succeeded? ==> Established(Loop, t.id) in Spell(t)
  {
    var s := Spell(t);
    assert s[|s| - 1] == if t.Succeeded? then Established(Loop, t.id) else Failed;
  }

  /** With auto_identify the end of a continuation is the one event or the other. */
  lemma EndsOneWay(o: Open)
    requires OpenInv(o) && o.mode.ws && o.mode.autoIdentify && o.pc == Ended
    ensures Failed in o.hist <==> !Succeeds(o.hist)
  {
    TalkSpells(o.hist);
    var t := Summary(o.hist).talk;
    assert Script(o.pc, o.mode.autoIdentify, t);
    SpeltEnd(t);
    SaidExactly(o.hist, Failed);
    if t.Succeeded? { SaidExactly(o.hist, Established(Loop, t.id)); }
    forall id ensures Established(Loop, id) in o.hist ==> t.Succeeded? { SaidExactly(o.hist, Established(Loop, id)); }
  }

  lemma SucceedsLate(o: Open)
    requires OpenInv(o) && o.mode.ws && o.mode.autoIdentify && o.pc != Ended
    ensures !Succeeds(o.hist)
  {
    TalkSpells(o.hist);
    var t := Summary(o.hist).talk;
    assert Script(o.pc, o.mode.autoIdentify, t);
    forall id ensures Established(Loop, id) !in o.hist { SaidExactly(o.hist, Established(Loop, id)); }
  }

  /** Main result. In every run, a WebSocket open has reported its failure if and only if its continuation has
      ended and met one: a destination or link that could not be constructed, a last reading other than
      ACTIVE, a failed identify. With auto_identify it has reported its success if and only if it has ended and
      met none. */
  lemma EndsExactly(acts: seq<Action>, k: nat)
    requires k < |Run(INIT, acts).opens| && Run(INIT, acts).opens[k].mode.ws
    ensures var o := Run(INIT, acts).opens[k];
            && (Failed in o.hist <==> o.pc == Ended && Ever(acts, k, MeetsFailure))
            && (o.mode.autoIdentify ==> (Succeeds(o.hist) <==> o.pc == Ended && !Ever(acts, k, MeetsFailure)))
  {
    var o := Run(INIT, acts).opens[k];
    FallRun(acts, k);
    OpenKept(acts, k);
    FailedEnds(o);
    if o.mode.autoIdentify {
      if o.pc == Ended { EndsOneWay(o); } else { SucceedsLate(o); }
    }
  }

  // ---------- the suppress flag ----------

  /** Once the continuation has reported success it is over and later callbacks are not suppressed. */
  ghost predicate Unmuted(o: Open) {
    && (o.pc.EmitSend? ==> !o.suppress)
    && (Succeeds(o.hist) ==> o.pc.Ended? && !o.suppress)
  }

  lemma SucceedsStep(o: Open, l: LocalAction)
    requires Succeeds(LocalStep(o, l).hist)
    ensures Succeeds(o.hist) || (l.Continue? && o.pc.EmitSend?)
  {
    var ms := LocalMark(o, l);
    var id :| Established(Loop, id) in LocalStep(o, l).hist;
    assert Established(Loop, id) in o.hist || Established(Loop, id) in ms;
  }

  lemma UnmutedStep(o: Open, l: LocalAction)
    requires Unmuted(o)
    ensures Unmuted(LocalStep(o, l))
  {
    if Succeeds(LocalStep(o, l).hist) { SucceedsStep(o, l); }
  }

  lemma {:induction false} UnmutedRun(acts: seq<Action>, k: nat)
    requires k < |Run(INIT, acts).opens|
    ensures Unmuted(Run(INIT, acts).opens[k])
  {
    if acts != [] {
      var p, a := acts[..|acts| - 1], acts[|acts| - 1];
      var w := Run(INIT, p);
      RunLast(INIT, acts);
      if k < |w.opens| {
        UnmutedRun(p, k);
        DoesSo(w, a, k);
        if Does(w, a, k).Some? { UnmutedStep(w.opens[k], Does(w, a, k).value); }
      } else {
        AddsFresh(w, a, k);
      }
    }
  }

  /** In every run, an open whose continuation has reported success has ended and its flag is cleared: every
      later `_on_established` sends its event. */
  lemma UnmutedAfterSuccess(acts: seq<Action>, k: nat)
    requires k < |Run(INIT, acts).opens| && Succeeds(Run(INIT, acts).opens[k].hist)
    ensures var o := Run(INIT, acts).opens[k]; o.pc == Ended && !o.suppress
  {
    UnmutedRun(acts, k);
  }

  // ---------- link.closed ----------

  /** How often it happens in the run. */
  ghost function Times(acts: seq<Action>, k: nat, d: Deed): nat {
    if acts == [] then 0
    else
      var p := acts[..|acts| - 1];
      Times(p, k, d) + if Happens(Run(INIT, p), acts[|acts| - 1], k, d) then 1 else 0
  }

  lemma CloseStep(o: Open, l: LocalAction)
    ensures multiset(LocalStep(o, l).hist)[ClosedEvent] ==
              multiset(o.hist)[ClosedEvent] + if Is(o, l, TellsClosed) then 1 else 0
  {
  }

  lemma {:induction false} NoTimesYet(acts: seq<Action>, k: nat, d: Deed)
    requires |Run(INIT, acts).opens| <= k
    ensures Times(acts, k, d) == 0
  {
    if acts != [] {
      RunLast(INIT, acts);
      HashesStay(Run(INIT, acts[..|acts| - 1]), acts[|acts| - 1]);
      NoTimesYet(acts[..|acts| - 1], k, d);
    }
  }

  /** In every run, `link.closed` is sent for an open once by each activation of its `_on_closed`, and by
      nothing else. */
  lemma {:induction false} ClosedExactly(acts: seq<Action>, k: nat)
    requires k < |Run(INIT, acts).opens|
    ensures multiset(Run(INIT, acts).opens[k].hist)[ClosedEvent] == Times(acts, k, TellsClosed)
  {
    if acts != [] {
      var p, a := acts[..|acts| - 1], acts[|acts| - 1];
      var w := Run(INIT, p);
      RunLast(INIT, acts);
      if k < |w.opens| {
        ClosedExactly(p, k);
        DoesSo(w, a, k);
        if Does(w, a, k).Some? { CloseStep(w.opens[k], Does(w, a, k).value); }
      } else {
        NoTimesYet(p, k, TellsClosed);
        AddsFresh(w, a, k);
      }
    }
  }
}
