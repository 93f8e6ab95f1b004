/**
  src/rnsapi/async_bridge.py: coroutines handed from RNS threads to the event loop, or buffered while
  no loop runs.

  `Bridge` is the state under its two locks. A thread inside `run_async` first reads whether a loop
  runs and only then takes a lock, so a coroutine can be in flight between the two; `draining` holds
  the coroutines `set_main_loop` has taken out of the backlog and not yet resubmitted.
*/
module Bridge {
  const COROUTINES_MAX := 256
  const FUTURES_SWEEP_THRESHOLD := 32

  type Coroutine = nat

  datatype State = State(
    loopRunning: bool,
    inFlight: seq<(Coroutine, bool)>,
    draining: seq<Coroutine>,
    backlog: seq<Coroutine>,
    appended: seq<Coroutine>,
    submitted: seq<Coroutine>,
    dispatched: seq<Coroutine>,
    dropped: seq<Coroutine>)

  const INIT := State(false, [], [], [], [], [], [], [])

  datatype Action =
    | Loop(running: bool)
    | Submit(c: Coroutine)
    | Land(i: nat)
    | TakeBacklog
    | Resubmit

  /** The last `n` elements. */
  function Last<T>(s: seq<T>, n: nat): (r: seq<T>)
    ensures |r| == if |s| <= n then |s| else n
  {
    if |s| <= n then s else s[|s| - n..]
  }

  function Without<T>(s: seq<T>, i: nat): seq<T>
    requires i < |s|
  {
    s[..i] + s[i + 1..]
  }

  /** Append to the backlog and trim it, as under `_coroutines_lock`. */
  function Buffer(s: State, c: Coroutine): State {
    var all := s.backlog + [c];
    var kept := Last(all, COROUTINES_MAX);
    s.(backlog := kept, appended := s.appended + [c], dropped := s.dropped + all[..|all| - |kept|])
  }

  function Next(s: State, a: Action): State {
    match a
    case Loop(running) => s.(loopRunning := running)
    case Submit(c) => s.(submitted := s.submitted + [c], inFlight := s.inFlight + [(c, s.loopRunning)])
    case Land(i) =>
      if i >= |s.inFlight| then s
      else
        var (c, toLoop) := s.inFlight[i];
        var t := s.(inFlight := Without(s.inFlight, i));
        if toLoop then t.(dispatched := t.dispatched + [c]) else Buffer(t, c)
    case TakeBacklog => s.(draining := s.draining + s.backlog, backlog := [], appended := [])
    case Resubmit =>
      if s.draining == [] then s
      else s.(draining := s.draining[1..], inFlight := s.inFlight + [(s.draining[0], s.loopRunning)])
  }

  function Run(s: State, acts: seq<Action>): State
    decreases |acts|
  {
    if acts == [] then s else Run(Next(s, acts[0]), acts[1..])
  }

  function Coroutines(fs: seq<(Coroutine, bool)>): seq<Coroutine> {
    seq(|fs|, i requires 0 <= i < |fs| => fs[i].0)
  }

  /** Every submitted coroutine is in exactly one place. */
  ghost predicate Conserved(s: State) {
    multiset(s.submitted) ==
      multiset(s.dispatched) + (multiset(s.backlog) + multiset(s.dropped))
      + multiset(Coroutines(s.inFlight)) + multiset(s.draining)
  }

  ghost predicate Inv(s: State) {
    && Conserved(s)
    && |s.backlog| <= COROUTINES_MAX
    && s.backlog == Last(s.appended, COROUTINES_MAX)
  }

  lemma WithoutMultiset<T>(s: seq<T>, i: nat)
    requires i < |s|
    ensures multiset(s) == multiset(Without(s, i)) + multiset{s[i]}
  {
    assert s == s[..i] + [s[i]] + s[i + 1..];
  }

  lemma CoroutinesWithout(fs: seq<(Coroutine, bool)>, i: nat)
    requires i < |fs|
    ensures multiset(Coroutines(fs)) == multiset(Coroutines(Without(fs, i))) + multiset{fs[i].0}
  {
    WithoutMultiset(Coroutines(fs), i);
    assert Coroutines(Without(fs, i)) == Without(Coroutines(fs), i);
  }

  lemma LastAppend<T>(s: seq<T>, x: T, n: nat)
    requires n > 0
    ensures Last(s + [x], n) == Last(Last(s, n) + [x], n)
  {
  }

  lemma BufferKeeps(s: State, c: Coroutine)
    requires s.backlog == Last(s.appended, COROUTINES_MAX)
    ensures var t := Buffer(s, c);
            && t.backlog == Last(t.appended, COROUTINES_MAX)
            && multiset(t.backlog) + multiset(t.dropped) == multiset(s.backlog) + multiset(s.dropped) + multiset{c}
  {
    LastAppend(s.appended, c, COROUTINES_MAX);
    var all, kept := s.backlog + [c], Last(s.backlog + [c], COROUTINES_MAX);
    var cut := all[..|all| - |kept|];
    var t := Buffer(s, c);
    assert t.backlog == kept && t.dropped == s.dropped + cut;
    calc {
      multiset(t.backlog) + multiset(t.dropped);
      multiset(kept) + (multiset(s.dropped) + multiset(cut));
      (multiset(cut) + multiset(kept)) + multiset(s.dropped);
      { assert all == cut + kept; }
      multiset(all) + multiset(s.dropped);
      multiset(s.backlog) + multiset{c} + multiset(s.dropped);
    }
  }

  lemma LandKeeps(s: State, i: nat)
    requires Inv(s) && i < |s.inFlight|
    ensures Inv(Next(s, Land(i)))
  {
    CoroutinesWithout(s.inFlight, i);
    var t := s.(inFlight := Without(s.inFlight, i));
    var c := s.inFlight[i].0;
    BufferKeeps(t, c);
    var u := Next(s, Land(i));
    if s.inFlight[i].1 {
      assert multiset(u.dispatched) == multiset(s.dispatched) + multiset{c};
      assert Conserved(u);
    } else {
      assert u == Buffer(t, c);
      assert multiset(Coroutines(s.inFlight)) == multiset(Coroutines(u.inFlight)) + multiset{c};
    }
  }

  lemma SubmitKeeps(s: State, c: Coroutine)
    requires Inv(s)
    ensures Inv(Next(s, Submit(c)))
  {
    assert Coroutines(Next(s, Submit(c)).inFlight) == Coroutines(s.inFlight) + [c];
  }

  lemma TakeKeeps(s: State)
    requires Inv(s)
    ensures Inv(Next(s, TakeBacklog))
  {
  }

  lemma ResubmitKeeps(s: State)
    requires Inv(s)
    ensures Inv(Next(s, Resubmit))
  {
    if s.draining != [] {
      assert Coroutines(Next(s, Resubmit).inFlight) == Coroutines(s.inFlight) + [s.draining[0]];
      assert s.draining == [s.draining[0]] + s.draining[1..];
    }
  }

  lemma Step(s: State, a: Action)
    requires Inv(s)
    ensures Inv(Next(s, a))
  {
    match a
    case Loop(_) =>
    case Submit(c) => SubmitKeeps(s, c);
    case Land(i) => if i < |s.inFlight| { LandKeeps(s, i); }
    case TakeBacklog => TakeKeeps(s);
    case Resubmit => ResubmitKeeps(s);
  }

  /** The coroutines handed to `run_async` in a run. */
  function Submitted(acts: seq<Action>): seq<Coroutine> {
    if acts == [] then []
    else (if acts[0].Submit? then [acts[0].c] else []) + Submitted(acts[1..])
  }

  lemma {:induction false} InvRun(s: State, acts: seq<Action>)
    requires Inv(s)
    ensures Inv(Run(s, acts))
    decreases |acts|
  {
    if acts != [] {
      Step(s, acts[0]);
      InvRun(Next(s, acts[0]), acts[1..]);
    }
  }

  lemma {:induction false} SubmittedRun(s: State, acts: seq<Action>)
    ensures Run(s, acts).submitted == s.submitted + Submitted(acts)
    decreases |acts|
  {
    if acts != [] {
      var a := acts[0];
      assert Next(s, a).submitted == if a.Submit? then s.submitted + [a.c] else s.submitted;
      SubmittedRun(Next(s, a), acts[1..]);
    }
  }

  /** A coroutine whose submission saw no loop reaches the backlog. */
  predicate LandsInBacklog(s: State, a: Action) {
    a.Land? && a.i < |s.inFlight| && !s.inFlight[a.i].1
  }

  /** The coroutines that have reached the backlog since it was last taken, oldest first. */
  ghost function LandedSince(acts: seq<Action>): seq<Coroutine> {
    if acts == [] then []
    else
      var p, a := acts[..|acts| - 1], acts[|acts| - 1];
      var s := Run(INIT, p);
      if a == TakeBacklog then []
      else if LandsInBacklog(s, a) then LandedSince(p) + [s.inFlight[a.i].0]
      else LandedSince(p)
  }

  lemma {:induction false} AppendedRun(acts: seq<Action>)
    ensures Run(INIT, acts).appended == LandedSince(acts)
  {
    if acts != [] {
      RunLast(INIT, acts);
      AppendedRun(acts[..|acts| - 1]);
    }
  }

  /** Main result. However submissions, landings, drains and loop changes interleave, every submitted
      coroutine is dispatched, buffered, dropped, on its way or being drained, as often as it was
      submitted; and the backlog is the end, in order, of what was buffered since the last drain: all of it,
      or the latest 256. */
  lemma Conservation(acts: seq<Action>)
    ensures var s := Run(INIT, acts);
            multiset(Submitted(acts)) == multiset(s.dispatched) + (multiset(s.backlog) + multiset(s.dropped))
                                         + multiset(Coroutines(s.inFlight)) + multiset(s.draining)
    ensures var kept, all := Run(INIT, acts).backlog, LandedSince(acts);
            && |kept| == (if |all| <= COROUTINES_MAX then |all| else COROUTINES_MAX)
            && kept == all[|all| - |kept|..]
  {
    InvRun(INIT, acts);
    SubmittedRun(INIT, acts);
    AppendedRun(acts);
    assert LandedSince(acts)[0..] == LandedSince(acts);
    assert INIT.submitted + Submitted(acts) == Submitted(acts);
  }

  /** That has happened since the backlog was last taken. */
  ghost predicate LandedSinceDrain(acts: seq<Action>) {
    exists i :: 0 <= i < |acts| && LandsInBacklog(Run(INIT, acts[..i]), acts[i]) && TakeBacklog !in acts[i + 1..]
  }

  lemma {:induction false} RunLast(s: State, acts: seq<Action>)
    requires acts != []
    ensures Run(s, acts) == Next(Run(s, acts[..|acts| - 1]), acts[|acts| - 1])
    decreases |acts|
  {
    if |acts| == 1 {
      assert acts[1..] == [] && acts[..0] == [];
    } else {
      assert acts[1..][..|acts| - 2] == acts[..|acts| - 1][1..];
      RunLast(Next(s, acts[0]), acts[1..]);
    }
  }

  lemma LandedNow(acts: seq<Action>)
    requires acts != [] && LandsInBacklog(Run(INIT, acts[..|acts| - 1]), acts[|acts| - 1])
    ensures LandedSinceDrain(acts)
  {
    assert acts[|acts| - 1 + 1..] == [];
  }

  lemma LandedStays(acts: seq<Action>)
    requires acts != [] && LandedSinceDrain(acts[..|acts| - 1]) && acts[|acts| - 1] != TakeBacklog
    ensures LandedSinceDrain(acts)
  {
    var p, a := acts[..|acts| - 1], acts[|acts| - 1];
    var i :| 0 <= i < |p| && LandsInBacklog(Run(INIT, p[..i]), p[i]) && TakeBacklog !in p[i + 1..];
    assert acts[..i] == p[..i] && acts[i] == p[i] && acts[i + 1..] == p[i + 1..] + [a];
  }

  lemma LandedBefore(acts: seq<Action>)
    requires acts != [] && LandedSinceDrain(acts)
    ensures var p, a := acts[..|acts| - 1], acts[|acts| - 1];
            LandsInBacklog(Run(INIT, p), a) || (LandedSinceDrain(p) && a != TakeBacklog)
  {
    var p, a := acts[..|acts| - 1], acts[|acts| - 1];
    var i :| 0 <= i < |acts| && LandsInBacklog(Run(INIT, acts[..i]), acts[i]) && TakeBacklog !in acts[i + 1..];
    if i < |p| {
      assert acts[..i] == p[..i] && acts[i] == p[i] && acts[i + 1..] == p[i + 1..] + [a];
      assert a in acts[i + 1..];
    }
  }

  lemma LandedLast(acts: seq<Action>)
    requires acts != []
    ensures var p, a := acts[..|acts| - 1], acts[|acts| - 1];
            LandedSinceDrain(acts) <==> (LandsInBacklog(Run(INIT, p), a) || (LandedSinceDrain(p) && a != TakeBacklog))
  {
    var p, a := acts[..|acts| - 1], acts[|acts| - 1];
    if LandedSinceDrain(acts) { LandedBefore(acts); }
    if LandsInBacklog(Run(INIT, p), a) { LandedNow(acts); }
    if LandedSinceDrain(p) && a != TakeBacklog { LandedStays(acts); }
  }

  /** The backlog holds something if and only if a coroutine whose submission saw no loop has landed since
      the backlog was last taken: `BufferedAfterDrain` below is the way that happens under a running loop. */
  lemma {:induction false} StrandedExactly(acts: seq<Action>)
    ensures Run(INIT, acts).backlog != [] <==> LandedSinceDrain(acts)
  {
    if acts != [] {
      var p := acts[..|acts| - 1];
      StrandedExactly(p);
      RunLast(INIT, acts);
      LandedLast(acts);
    }
  }

  /** A running loop does not imply an empty backlog: a thread that saw no loop may buffer after the
      drain, and its coroutine then waits for the next `set_main_loop`. */
  lemma BufferedAfterDrain(c: Coroutine)
    ensures var s := Run(INIT, [Submit(c), Loop(true), TakeBacklog, Land(0)]);
            s.loopRunning && s.draining == [] && s.inFlight == [] && s.backlog == [c]
  {
    var s1 := Next(INIT, Submit(c));
    var s2 := Next(s1, Loop(true));
    var s3 := Next(s2, TakeBacklog);
    var s4 := Next(s3, Land(0));
    var acts := [Submit(c), Loop(true), TakeBacklog, Land(0)];
    assert acts[1..] == [Loop(true), TakeBacklog, Land(0)] && acts[1..][1..] == [TakeBacklog, Land(0)];
    assert [TakeBacklog, Land(0)][1..] == [Land(0)] && [Land(0)][1..] == [];
    assert Run(INIT, acts) == Run(s1, [Loop(true), TakeBacklog, Land(0)]);
    assert Run(s1, [Loop(true), TakeBacklog, Land(0)]) == Run(s2, [TakeBacklog, Land(0)]);
    assert Run(s2, [TakeBacklog, Land(0)]) == Run(s3, [Land(0)]);
    assert Run(s3, [Land(0)]) == Run(s4, []) == s4;
    assert Without(s3.inFlight, 0) == [];
  }

  // ---------- the class ----------

  /** The futures of `fs` that have not finished, in order. */
  function Unfinished(fs: seq<nat>, finished: set<nat>): (r: seq<nat>)
    ensures forall f :: f in r <==> f in fs && f !in finished
    ensures |r| <= |fs|
  {
    if fs == [] then []
    else if fs[0] in finished then Unfinished(fs[1..], finished)
    else [fs[0]] + Unfinished(fs[1..], finished)
  }

  /** What one uninterrupted `run_async` does with coroutine `c`. */
  function Routed(s: State, c: Coroutine): State {
    if s.loopRunning then s.(dispatched := s.dispatched + [c]) else Buffer(s, c)
  }

  /** How a coroutine enters: from a caller, or back from a drained backlog. */
  predicate MayEnter(s: State, c: Coroutine, drained: bool) {
    s.inFlight == [] && (drained ==> s.draining != [] && s.draining[0] == c)
  }

  function Entered(s: State, c: Coroutine, drained: bool): State
    requires MayEnter(s, c, drained)
  {
    if drained then s.(draining := s.draining[1..]) else s.(submitted := s.submitted + [c])
  }

  lemma RoutedKeeps(s: State, c: Coroutine, drained: bool)
    requires Inv(s) && MayEnter(s, c, drained)
    ensures Routed(Entered(s, c, drained), c) == Next(Next(s, if drained then Resubmit else Submit(c)), Land(0))
    ensures Inv(Routed(Entered(s, c, drained), c))
  {
    var a := if drained then Resubmit else Submit(c);
    assert Next(s, a).inFlight == [(c, s.loopRunning)];
    Step(s, a);
    LandKeeps(Next(s, a), 0);
  }

  /** What resubmitting a drained coroutine changes. */
  lemma DrainedFields(s: State, c: Coroutine)
    requires MayEnter(s, c, true) && |s.backlog| < COROUTINES_MAX
    ensures var t := Routed(Entered(s, c, true), c);
            && t.loopRunning == s.loopRunning && t.draining == s.draining[1..]
            && t.submitted == s.submitted && t.dropped == s.dropped
            && t.dispatched == (if s.loopRunning then s.dispatched + [c] else s.dispatched)
            && t.backlog == if s.loopRunning then s.backlog else s.backlog + [c]
  {
    assert s.dropped + [] == s.dropped;
  }

  /** `AsyncBridge` as one thread sees it. The future of a dispatched coroutine is named by its position
      in `dispatched`; `finished` is what the loop has completed. */
  class AsyncBridge {
    var loopRunning: bool
    var pendingFutures: seq<nat>
    var pendingCoroutines: seq<Coroutine>
    var dispatched: seq<Coroutine>
    var dropped: seq<Coroutine>
    var finished: set<nat>
    ghost var submitted: seq<Coroutine>
    ghost var appended: seq<Coroutine>
    ghost var draining: seq<Coroutine>

    ghost function View(): State
      reads this
    {
      State(loopRunning, [], draining, pendingCoroutines, appended, submitted, dispatched, dropped)
    }

    /** No unfinished future has lost its reference. */
    ghost predicate Tracked()
      reads this
    {
      forall k | 0 <= k < |dispatched| && k !in finished :: k in pendingFutures
    }

    ghost predicate Valid()
      reads this
    {
      |pendingCoroutines| <= COROUTINES_MAX && Tracked()
    }

    /** Of `all` the latest 256 are buffered, and what came before them was added to what was dropped. */
    ghost predicate KeptLatest(all: seq<Coroutine>, wasDropped: seq<Coroutine>)
      reads this
    {
      var kept := |pendingCoroutines|;
      && kept == (if |all| <= COROUTINES_MAX then |all| else COROUTINES_MAX)
      && pendingCoroutines == all[|all| - kept..]
      && dropped == wasDropped + all[..|all| - kept]
    }

    constructor ()
      ensures Valid() && View() == INIT && pendingFutures == [] && finished == {}
    {
      loopRunning, pendingFutures, pendingCoroutines := false, [], [];
      dispatched, dropped, finished := [], [], {};
      submitted, appended, draining := [], [], [];
    }

    /** The loop completes future `k`. */
    method Finish(k: nat)
      requires Valid()
      modifies `finished
      ensures Valid() && finished == old(finished) + {k}
    {
      finished := finished + {k};
    }

    /** Track the future of the coroutine just dispatched, sweeping finished ones when there are many. */
    method Track(future: nat)
      modifies `pendingFutures
      ensures forall f | f in old(pendingFutures) + [future] && f !in finished :: f in pendingFutures
      ensures forall f | f in pendingFutures :: f in old(pendingFutures) + [future]
      ensures |pendingFutures| < FUTURES_SWEEP_THRESHOLD || forall f | f in pendingFutures :: f !in finished
    {
      pendingFutures := pendingFutures + [future];
      if |pendingFutures| >= FUTURES_SWEEP_THRESHOLD {
        pendingFutures := Unfinished(pendingFutures, finished);
      }
    }

    /** Append to the backlog under its lock and cut it to its cap. */
    method Hold(coroutine: Coroutine)
      modifies `pendingCoroutines, `appended, `dropped
      ensures View() == Buffer(old(View()), coroutine)
      ensures KeptLatest(old(pendingCoroutines) + [coroutine], old(dropped))
    {
      pendingCoroutines, appended := pendingCoroutines + [coroutine], appended + [coroutine];
      if |pendingCoroutines| > COROUTINES_MAX {
        var excess := |pendingCoroutines| - COROUTINES_MAX;
        dropped := dropped + pendingCoroutines[..excess];
        pendingCoroutines := pendingCoroutines[excess..];
      }
      assert dropped + [] == dropped;
    }

    method RunAsync(coroutine: Coroutine, ghost drained: bool)
      requires Valid() && MayEnter(View(), coroutine, drained)
      modifies this
      ensures View() == Routed(Entered(old(View()), coroutine, drained), coroutine)
      ensures Valid() && finished == old(finished)
      ensures loopRunning ==> dispatched == old(dispatched) + [coroutine]
                              && pendingCoroutines == old(pendingCoroutines) && dropped == old(dropped)
      ensures !loopRunning ==> dispatched == old(dispatched)
                               && KeptLatest(old(pendingCoroutines) + [coroutine], old(dropped))
      ensures loopRunning ==> |pendingFutures| < FUTURES_SWEEP_THRESHOLD
                              || forall f | f in pendingFutures :: f !in finished
      ensures !loopRunning ==> pendingFutures == old(pendingFutures)
    {
      if drained {
        draining := draining[1..];
      } else {
        submitted := submitted + [coroutine];
      }
      if loopRunning {
        var future := |dispatched|;
        dispatched := dispatched + [coroutine];
        Track(future);
      } else {
        Hold(coroutine);
      }
    }

    /** One round of the drain. */
    method Resubmit(coroutine: Coroutine)
      requires Valid() && |pendingCoroutines| < COROUTINES_MAX
      requires draining != [] && draining[0] == coroutine
      modifies this
      ensures Valid() && loopRunning == old(loopRunning) && finished == old(finished)
      ensures draining == old(draining)[1..] && submitted == old(submitted) && dropped == old(dropped)
      ensures dispatched == if loopRunning then old(dispatched) + [coroutine] else old(dispatched)
      ensures pendingCoroutines == if loopRunning then old(pendingCoroutines) else old(pendingCoroutines) + [coroutine]
    {
      DrainedFields(View(), coroutine);
      RunAsync(coroutine, true);
    }

    /** Drains the backlog into the new loop: in order and completely when it runs, and back into an
        unchanged backlog, dropping nothing, when it does not. */
    method SetMainLoop(running: bool)
      requires Valid() && draining == []
      modifies this
      ensures Valid() && draining == [] && loopRunning == running && finished == old(finished)
      ensures dropped == old(dropped) && submitted == old(submitted)
      ensures running ==> dispatched == old(dispatched) + old(pendingCoroutines) && pendingCoroutines == []
      ensures !running ==> dispatched == old(dispatched) && pendingCoroutines == old(pendingCoroutines)
    {
      loopRunning := running;
      var pending := pendingCoroutines;
      pendingCoroutines, appended, draining := [], [], pending;
      assert [] + pending == pending;
      for i := 0 to |pending|
        invariant Valid() && loopRunning == running && finished == old(finished)
        invariant pending == old(pendingCoroutines) && |pending| <= COROUTINES_MAX
        invariant draining == pending[i..]
        invariant dropped == old(dropped) && submitted == old(submitted)
        invariant running ==> dispatched == old(dispatched) + pending[..i] && pendingCoroutines == []
        invariant !running ==> dispatched == old(dispatched) && pendingCoroutines == pending[..i]
      {
        Resubmit(pending[i]);
        assert pending[..i + 1] == pending[..i] + [pending[i]];
      }
      assert pending[..|pending|] == pending;
    }
  }
}
