/**
  The link cache under a late `_on_closed`, and the runs in which the protocol does less than its
  documentation says.
*/
module LinkRaces {
  import opened Text
  import opened LinkProtocol
  import opened LinkSafety
  import opened LinkEcho
  import opened Wrappers

  // ---------- a late closed callback ----------

  /** The action stores some open's entry in slot `hash`. */
  predicate Assigns(w: World, a: Action, hash: Bytes) {
    match a
    case RequestOpen(h, mode, _) => h == hash && mode.ws && Reusable(w, h).None?
    case Step(k, _) => k < |w.opens| && w.opens[k].pc.Store? && w.opens[k].hash == hash
    case _ => false
  }

  ghost predicate AssignsWithin(w: World, acts: seq<Action>, hash: Bytes)
    decreases |acts|
  {
    acts != [] && (Assigns(w, acts[0], hash) || AssignsWithin(Next(w, acts[0]), acts[1..], hash))
  }

  /** Activation `t` of `_on_closed` of open `k` stands between its check and its pop. */
  predicate BetweenCheckAndPop(w: World, k: nat, t: nat) {
    k < |w.opens| && t in w.opens[k].callbacks && w.opens[k].callbacks[t].PopSlot?
  }

  /** The pop of activation `t` throws out an entry that is not open `k`'s. */
  predicate EvictsOther(w: World, k: nat, t: nat)
    requires BetweenCheckAndPop(w, k, t)
  {
    var hash := w.opens[k].hash;
    hash in w.cache && w.cache[hash] != k && hash !in Next(w, RunCallback(k, t)).cache
  }

  lemma CallbackStays(w: World, k: nat, t: nat, a: Action)
    requires BetweenCheckAndPop(w, k, t) && a != RunCallback(k, t)
    ensures var w' := Next(w, a);
            && BetweenCheckAndPop(w', k, t)
            && w'.opens[k].hash == w.opens[k].hash
            && w'.opens[k].callbacks[t] == w.opens[k].callbacks[t]
  {
  }

  lemma {:induction false} BetweenStays(w: World, acts: seq<Action>, k: nat, t: nat)
    requires BetweenCheckAndPop(w, k, t) && RunCallback(k, t) !in acts
    ensures var w' := Run(w, acts);
            && BetweenCheckAndPop(w', k, t)
            && w'.opens[k].hash == w.opens[k].hash
            && w'.opens[k].callbacks[t] == w.opens[k].callbacks[t]
    decreases |acts|
  {
    if acts != [] {
      CallbackStays(w, k, t, acts[0]);
      BetweenStays(Next(w, acts[0]), acts[1..], k, t);
    }
  }

  lemma {:induction false} SlotKept(w: World, acts: seq<Action>, hash: Bytes, k: nat)
    requires hash !in w.cache || w.cache[hash] == k
    requires !AssignsWithin(w, acts, hash)
    ensures var c := Run(w, acts).cache; hash !in c || c[hash] == k
    decreases |acts|
  {
    if acts != [] {
      SlotKept(Next(w, acts[0]), acts[1..], hash, k);
    }
  }

  /** Main result. An `_on_closed` of open `k` checks the slot, anything happens, and it pops. The pop
      throws out another open's entry exactly when the check found `k`'s entry there and the slot has
      another one by then, which takes a store into the slot in between. In particular a callback that
      comes late, when the slot already belongs to a newer open, never evicts it. */
  lemma LateCloseEvictsOnlyAcrossStore(w: World, k: nat, t: nat, acts: seq<Action>)
    requires k < |w.opens| && t in w.opens[k].callbacks && w.opens[k].callbacks[t].CheckSlot?
    requires RunCallback(k, t) !in acts
    ensures var hash, w1 := w.opens[k].hash, Next(w, RunCallback(k, t));
            var w2 := Run(w1, acts);
            && BetweenCheckAndPop(w2, k, t)
            && (EvictsOther(w2, k, t) <==> Holds(w.cache, hash, k) && hash in w2.cache && w2.cache[hash] != k)
            && (EvictsOther(w2, k, t) ==> AssignsWithin(w1, acts, hash))
  {
    var w1 := Next(w, RunCallback(k, t));
    assert w1.opens[k].callbacks[t] == PopSlot(Holds(w.cache, w.opens[k].hash, k)) && w1.cache == w.cache;
    BetweenStays(w1, acts, k, t);
    var w2 := Run(w1, acts);
    if EvictsOther(w2, k, t) && !AssignsWithin(w1, acts, w.opens[k].hash) {
      SlotKept(w1, acts, w.opens[k].hash, k);
      assert false;
    }
  }

  /** Reuse writes only into an entry whose link is ACTIVE at that moment, and only the cached one. */
  lemma ReuseOnlyActive(w: World, a: Action, k: nat)
    requires k < |w.opens| && Next(w, a).opens[k].overwritten && !w.opens[k].overwritten
    ensures a.RequestOpen? && Holds(w.cache, a.hash, k) && w.opens[k].link == Some(ACTIVE)
  {
  }

  // ---------- concrete runs ----------

  const GO := Choice(true, true, true)
  const HASH: Bytes := []
  const PLAIN := Mode(true, false, true)

  /** A WebSocket open without auto_identify, driven up to the poll for ACTIVE. */
  const OPENED: seq<Action> :=
    [RequestOpen(HASH, PLAIN, true)] + (Steps(4) + Steps(4))

  function Steps(n: nat): (s: seq<Action>)
    ensures |s| == n && forall i | 0 <= i < n :: s[i] == Step(0, GO)
  {
    if n == 0 then [] else [Step(0, GO)] + Steps(n - 1)
  }

  lemma {:induction false} RunJoin(w: World, xs: seq<Action>, ys: seq<Action>)
    ensures Run(w, xs + ys) == Run(Run(w, xs), ys)
    decreases |xs|
  {
    if xs == [] {
      assert xs + ys == ys;
    } else {
      assert xs + ys == [xs[0]] + (xs[1..] + ys);
      RunSplit(w, xs[1..] + ys, xs[0]);
      RunJoin(Next(w, xs[0]), xs[1..], ys);
    }
  }

  /** The session with the one open `o`, its entry cached. */
  function Alone(o: Open): World {
    Solo(o, 1)
  }

  function Solo(o: Open, next: Token): World {
    World([o], map[HASH := 0], next)
  }

  function Go(o: Open): Open {
    LocalStep(o, Continue(GO))
  }

  function Drive(o: Open, n: nat): Open
    decreases n
  {
    if n == 0 then o else Drive(Go(o), n - 1)
  }

  predicate NeverEvicts(o: Open, n: nat)
    decreases n
  {
    n == 0 || (o.hash == HASH && !o.pc.Evict? && NeverEvicts(Go(o), n - 1))
  }

  lemma {:induction false} DriveSolo(o: Open, n: nat, next: Token)
    requires NeverEvicts(o, n)
    ensures Run(Solo(o, next), Steps(n)) == Solo(Drive(o, n), next)
    decreases n
  {
    if n > 0 {
      RunSplit(Solo(o, next), Steps(n - 1), Step(0, GO));
      GoSolo(o, next);
      DriveSolo(Go(o), n - 1, next);
    }
  }

  lemma GoSolo(o: Open, next: Token)
    requires o.hash == HASH && !o.pc.Evict?
    ensures Next(Solo(o, next), Step(0, GO)) == Solo(Go(o), next)
  {
    assert map[HASH := 0][HASH := 0] == map[HASH := 0];
  }

  /** The open the concrete runs start from: wired, in cache, its link not yet ACTIVE. */
  const WAITING := Open(HASH, PLAIN, Wait, Some(PENDING), true, false, Some(0), Some(0), false, false, {0}, map[],
                        [Ack, EstablishingLink])

  const CONSTRUCTING := FreshOpen(HASH, PLAIN, Some(0)).(pc := Construct, hist := [Ack, EstablishingLink])

  lemma DriveFour(o: Open, next: Token)
    requires NeverEvicts(o, 4)
    ensures Run(Solo(o, next), Steps(4)) == Solo(Go(Go(Go(Go(o)))), next)
  {
    DriveSolo(o, 4, next);
  }

  lemma OpenedHalfway()
    ensures Run(Alone(FreshOpen(HASH, PLAIN, Some(0))), Steps(4)) == Alone(CONSTRUCTING)
  {
    var o := FreshOpen(HASH, PLAIN, Some(0));
    assert Go(Go(Go(Go(o)))) == CONSTRUCTING;
    DriveFour(o, 1);
  }

  lemma OpenedRest()
    ensures Run(Alone(CONSTRUCTING), Steps(4)) == Alone(WAITING)
  {
    assert Go(Go(Go(Go(CONSTRUCTING)))) == WAITING;
    DriveFour(CONSTRUCTING, 1);
  }

  lemma Opened()
    ensures Run(INIT, OPENED) == Alone(WAITING)
  {
    var a := RequestOpen(HASH, PLAIN, true);
    var first := Alone(FreshOpen(HASH, PLAIN, Some(0)));
    RunSplit(INIT, Steps(4) + Steps(4), a);
    assert Next(INIT, a) == first;
    OpenedHalfway();
    OpenedRest();
    RunJoin(first, Steps(4), Steps(4));
  }

  /** The last world of a run that continues OPENED by at most five actions. */
  lemma RunFrom(w: World, a: Action, b: Action, c: Action, d: Action, e: Action)
    ensures Run(w, [a, b, c, d, e]) == Next(Next(Next(Next(Next(w, a), b), c), d), e)
  {
    RunSplit(w, [b, c, d, e], a);
    RunSplit(Next(w, a), [c, d, e], b);
    RunSplit(Next(Next(w, a), b), [d, e], c);
    RunSplit(Next(Next(Next(w, a), b), c), [e], d);
    RunSplit(Next(Next(Next(Next(w, a), b), c), d), [], e);
    assert [a] + [b, c, d, e] == [a, b, c, d, e] && [b] + [c, d, e] == [b, c, d, e];
    assert [c] + [d, e] == [c, d, e] && [d] + [e] == [d, e] && [e] + [] == [e];
  }

  function Spawned(o: Open, t: nat, est: bool): Open {
    LocalStep(o, Spawn(t, est))
  }

  function Advanced(o: Open, t: nat): Open {
    LocalStep(o, Advance(t, true))
  }

  lemma AloneStart(o: Open, t: nat, est: bool)
    ensures Next(Alone(o), StartCallback(0, t, est)) == Alone(Spawned(o, t, est))
  {
  }

  lemma AloneCallback(o: Open, t: nat)
    requires o.hash == HASH && t in o.callbacks && !o.callbacks[t].PopSlot?
    ensures Next(Alone(o), RunCallback(0, t)) == Alone(Advanced(o, t))
  {
  }

  /** WAITING with activations 1 and 2 of `_on_established`, the first about to clear what it read. */
  const OVERLAPPED := WAITING.(callbacks := map[1 := ClearOpenId(Some(0)), 2 := ReadOpenId],
                               hist := WAITING.hist + [ReadId(Rns(1), Some(0))])

  lemma OverlapLocal()
    ensures Advanced(Advanced(Advanced(Spawned(Spawned(WAITING, 1, true), 2, true), 1), 2), 1) == OVERLAPPED
  {
    var o2 := Spawned(Spawned(WAITING, 1, true), 2, true);
    assert o2 == WAITING.(callbacks := map[1 := CheckSuppress, 2 := CheckSuppress]);
    assert Advanced(Advanced(o2, 1), 2) == WAITING.(callbacks := map[1 := ReadOpenId, 2 := ReadOpenId]);
  }

  lemma OverlapRun()
    ensures Run(Alone(WAITING), [StartCallback(0, 1, true), StartCallback(0, 2, true), RunCallback(0, 1),
                                 RunCallback(0, 2), RunCallback(0, 1)]) == Alone(OVERLAPPED)
  {
    var o1 := Spawned(WAITING, 1, true);
    var o2 := Spawned(o1, 2, true);
    var o3 := Advanced(o2, 1);
    var o4 := Advanced(o3, 2);
    AloneStart(WAITING, 1, true);
    AloneStart(o1, 2, true);
    AloneCallback(o2, 1);
    AloneCallback(o3, 2);
    AloneCallback(o4, 1);
    RunFrom(Alone(WAITING), StartCallback(0, 1, true), StartCallback(0, 2, true), RunCallback(0, 1),
            RunCallback(0, 2), RunCallback(0, 1));
    OverlapLocal();
  }

  const OVERLAP: seq<Action> :=
    [StartCallback(0, 1, true), StartCallback(0, 2, true), RunCallback(0, 1), RunCallback(0, 2), RunCallback(0, 1)]

  lemma OverlapReached()
    ensures Run(INIT, OPENED + OVERLAP) == Alone(OVERLAPPED)
  {
    Opened();
    OverlapRun();
    RunJoin(INIT, OPENED, OVERLAP);
  }

  /** Overlapping activations are possible, so without the premise of `EchoedAtMostOnce` an id can be
      echoed twice. */
  lemma OverlapHappens()
    ensures exists u :: EchoedTwice(HistOf(Run(INIT, OPENED + OVERLAP + BothFinish(0, 2, u)), 0))
  {
    OverlapReached();
    var w := Alone(OVERLAPPED);
    assert OVERLAPPED.callbacks[1] == ClearOpenId(OVERLAPPED.openId);
    OverlapDuplicates(w, 0, 2);
    var u :| EchoedTwice(HistOf(Run(w, BothFinish(0, 2, u)), 0));
    RunJoin(INIT, OPENED + OVERLAP, BothFinish(0, 2, u));
  }

  /** WAITING with one `_on_closed` that has found its own entry and is about to pop it. */
  const POPPING := WAITING.(callbacks := map[1 := PopSlot(true)], hist := WAITING.hist + [ClosedEvent])

  const CLOSE_RACE: seq<Action> :=
    [StartCallback(0, 1, false), RunCallback(0, 1), RunCallback(0, 1), RequestOpen(HASH, PLAIN, true),
     RunCallback(0, 1)]

  lemma CloseRaceRun()
    ensures Run(Alone(WAITING), CLOSE_RACE)
         == World([POPPING.(callbacks := map[1 := Returned]), FreshOpen(HASH, PLAIN, Some(1))], map[], 2)
  {
    var a, r, q := StartCallback(0, 1, false), RunCallback(0, 1), RequestOpen(HASH, PLAIN, true);
    var o1 := Spawned(WAITING, 1, false);
    var o2 := Advanced(o1, 1);
    AloneStart(WAITING, 1, false);
    AloneCallback(o1, 1);
    AloneCallback(o2, 1);
    assert Advanced(o2, 1) == POPPING;
    var w4 := World([POPPING, FreshOpen(HASH, PLAIN, Some(1))], map[HASH := 1], 2);
    assert Next(Alone(POPPING), q) == w4;
    RunFrom(Alone(WAITING), a, r, r, q, r);
    var done := POPPING.(callbacks := map[1 := Returned]);
    assert LocalStep(POPPING, Advance(1, false)) == done;
    assert Next(w4, r) == World([done, FreshOpen(HASH, PLAIN, Some(1))], map[], 2);
  }

  /** The closed callback of an old link can throw out the entry of a newer open that no one has
      closed: the newer open stores its placeholder between the callback's check and its pop. */
  lemma CloseRaceHappens()
    ensures forall i | 0 <= i < |OPENED + CLOSE_RACE| ::
              !(OPENED + CLOSE_RACE)[i].CloseLink? && !(OPENED + CLOSE_RACE)[i].Cleanup?
    ensures var w := Run(INIT, OPENED + CLOSE_RACE);
            |w.opens| == 2 && w.opens[1].hash == HASH && w.opens[1].pc == Reserved && HASH !in w.cache
  {
    Opened();
    CloseRaceRun();
    RunJoin(INIT, OPENED, CLOSE_RACE);
  }

  /** WAITING after one whole activation of `_on_established`. */
  const ANNOUNCED := WAITING.(openId := None, callbacks := map[1 := Returned],
                              hist := WAITING.hist + [ReadId(Rns(1), Some(0)), Established(Rns(1), Some(0))])

  const ANNOUNCING: seq<Action> :=
    [StartCallback(0, 1, true), RunCallback(0, 1), RunCallback(0, 1), RunCallback(0, 1), RunCallback(0, 1)]

  lemma AnnouncedRun()
    ensures Run(Alone(WAITING), ANNOUNCING) == Alone(ANNOUNCED)
  {
    var a, r := StartCallback(0, 1, true), RunCallback(0, 1);
    var o1 := Spawned(WAITING, 1, true);
    var o2 := Advanced(o1, 1);
    var o3 := Advanced(o2, 1);
    var o4 := Advanced(o3, 1);
    AloneStart(WAITING, 1, true);
    AloneCallback(o1, 1);
    AloneCallback(o2, 1);
    AloneCallback(o3, 1);
    AloneCallback(o4, 1);
    RunFrom(Alone(WAITING), a, r, r, r, r);
    assert Advanced(o4, 1) == ANNOUNCED;
  }

  const LOSING: seq<Action> := [MoveLink(0, CLOSED), Step(0, GO), Step(0, GO), Step(0, GO), Step(0, GO)]

  lemma FailedRun()
    ensures Run(Alone(ANNOUNCED), LOSING)
         == World([ANNOUNCED.(link := Some(CLOSED), pc := Ended, hist := ANNOUNCED.hist + [Failed])], map[], 1)
  {
    var c := ANNOUNCED.(link := Some(CLOSED));
    var g := Step(0, GO);
    RunFrom(Alone(ANNOUNCED), MoveLink(0, CLOSED), g, g, g, g);
    ClosesAlone(ANNOUNCED);
    Lost(c);
    FailsUncached(c.(pc := Failing));
  }

  lemma ClosesAlone(o: Open)
    requires o.link.Some?
    ensures Next(Alone(o), MoveLink(0, CLOSED)) == Alone(o.(link := Some(CLOSED)))
  {
    assert o.hist + [] == o.hist;
  }

  lemma FailsUncached(o: Open)
    requires o.pc == Failing && o.mode.ws
    ensures Next(World([o], map[], 1), Step(0, GO)) == World([o.(pc := Ended, hist := o.hist + [Failed])], map[], 1)
  {
  }

  lemma LostWaiting(c: Open)
    requires c.hash == HASH && c.pc == Wait && c.link == Some(CLOSED)
    ensures Go(c) == c.(pc := Judge) && Go(c.(pc := Judge)) == c.(pc := Evict)
  {
    assert c.hist + [] == c.hist;
  }

  /** From the poll to the empty slot. */
  lemma Lost(c: Open)
    requires c.hash == HASH && c.pc == Wait && c.link == Some(CLOSED)
    ensures Next(Next(Next(Alone(c), Step(0, GO)), Step(0, GO)), Step(0, GO)) == World([c.(pc := Failing)], map[], 1)
  {
    var g := Step(0, GO);
    LostWaiting(c);
    GoSolo(c, 1);
    GoSolo(c.(pc := Judge), 1);
    assert c.hist + [] == c.hist;
    assert Go(c.(pc := Evict)) == c.(pc := Failing);
  }

  /** Success with stored id `x`, and failure. */
  predicate ReportsBoth(h: seq<Mark>, x: Token) {
    Failed in h && Established(Rns(1), Some(x)) in h
  }

  lemma AnnouncedThenFailed()
    ensures ReportsBoth(ANNOUNCED.hist + [Failed], 0)
  {
    var h := ANNOUNCED.hist + [Failed];
    assert h[|h| - 1] == Failed && h[|h| - 2] == Established(Rns(1), Some(0));
  }

  /** Without auto_identify one open can report both `link.established`, with its id, and
      `link.open.failed`: the link is closed again before the poll looks. */
  lemma PlainOpenReportsBoth()
    ensures ReportsBoth(HistOf(Run(INIT, OPENED + ANNOUNCING + LOSING), 0), 0)
  {
    assert Run(INIT, OPENED + ANNOUNCING + LOSING) == Run(Alone(ANNOUNCED), LOSING) by {
      Opened();
      AnnouncedRun();
      RunJoin(INIT, OPENED, ANNOUNCING);
      RunJoin(INIT, OPENED + ANNOUNCING, LOSING);
    }
    FailedRun();
    AnnouncedThenFailed();
  }

  /** An open that fails before its link is constructed reports the failure and leaves its placeholder
      in the cache. */
  lemma FailedOpenKeepsPlaceholder(w: World, k: nat, c: Choice)
    requires k < |w.opens| && w.opens[k].pc == Resolve && w.opens[k].mode.ws && !c.ok
    requires Holds(w.cache, w.opens[k].hash, k)
    ensures var w' := Next(Next(w, Step(k, c)), Step(k, c));
            && w'.opens[k] == w.opens[k].(pc := Ended, hist := w.opens[k].hist + [Failed])
            && Holds(w'.cache, w.opens[k].hash, k)
  {
  }

  const NO := Choice(true, false, false)

  /** A concrete run: an open whose destination cannot be resolved has failed and is still cached. */
  lemma FailedOpenStays()
    ensures var w := Run(INIT, [RequestOpen(HASH, PLAIN, true), Step(0, GO), Step(0, GO), Step(0, NO), Step(0, NO)]);
            |w.opens| == 1 && w.opens[0].hist == [Ack, Failed] && Holds(w.cache, HASH, 0)
  {
    var o := FreshOpen(HASH, PLAIN, Some(0));
    RunFrom(INIT, RequestOpen(HASH, PLAIN, true), Step(0, GO), Step(0, GO), Step(0, NO), Step(0, NO));
    assert Next(INIT, RequestOpen(HASH, PLAIN, true)) == Alone(o);
    GoSolo(o, 1);
    GoSolo(Go(o), 1);
    var o2 := Go(Go(o));
    assert o2.pc == Resolve && o2.hist == [Ack];
    FailedOpenKeepsPlaceholder(Alone(o2), 0, NO);
  }

  // ---------- a success event with the id of another request ----------

  const NAMED := Mode(true, true, true)

  const BUILDING := FreshOpen(HASH, NAMED, Some(0)).(pc := Construct, hist := [Ack, EstablishingLink])

  /** A WebSocket open with auto_identify, its link not yet ACTIVE. */
  const READY := BUILDING.(pc := Wait, link := Some(PENDING), wired := true, suppress := true)

  /** Its link has become ACTIVE and a second request has reused the entry. */
  const TAKEN := READY.(link := Some(ACTIVE), openId := Some(1), overwritten := true, tokens := {0, 1})

  const READING := TAKEN.(pc := EmitRead, identified := true,
                          hist := [Ack, EstablishingLink, Identifying, IdentifyDone])

  /** The first open, the second request just before the poll looks again, and the rest of the first. */
  const TAKE_OVER: seq<Action> :=
    [RequestOpen(HASH, NAMED, true)] + (Steps(4) + (Steps(4) +
    ([MoveLink(0, ACTIVE)] + ([RequestOpen(HASH, NAMED, true)] + (Steps(4) + Steps(4))))))

  lemma NamedStart()
    ensures Go(Go(Go(Go(FreshOpen(HASH, NAMED, Some(0)))))) == BUILDING
    ensures NeverEvicts(FreshOpen(HASH, NAMED, Some(0)), 4)
  {
  }

  lemma NamedReady()
    ensures Go(Go(Go(Go(BUILDING)))) == READY && NeverEvicts(BUILDING, 4)
  {
  }

  lemma NamedReads()
    ensures Go(Go(Go(Go(TAKEN)))) == READING && NeverEvicts(TAKEN, 4)
  {
    assert Go(TAKEN) == TAKEN.(pc := Judge);
    assert Go(Go(TAKEN)) == TAKEN.(pc := AnnounceIdentify);
    assert Go(Go(Go(TAKEN))) == TAKEN.(pc := Identify, hist := [Ack, EstablishingLink, Identifying]);
  }

  lemma NamedEmits()
    ensures Go(Go(Go(Go(READING)))).hist == READING.hist + [ReadId(Loop, Some(1)), Established(Loop, Some(1))]
    ensures Go(Go(Go(Go(READING)))).firstId == Some(0) && NeverEvicts(READING, 4)
  {
    var o1 := Go(READING);
    assert o1 == READING.(pc := EmitClear(Some(1)), hist := READING.hist + [ReadId(Loop, Some(1))]);
    var o3 := Go(Go(o1));
    assert o3.pc == EmitSend(Some(1)) && o3.hist == o1.hist;
  }

  lemma Reused()
    ensures Next(Next(Alone(READY), MoveLink(0, ACTIVE)), RequestOpen(HASH, NAMED, true)) == Solo(TAKEN, 2)
  {
    assert READY.hist + [] == READY.hist;
    assert LocalStep(READY, SetStatus(ACTIVE)) == READY.(link := Some(ACTIVE));
    assert Next(Alone(READY), MoveLink(0, ACTIVE)) == Alone(READY.(link := Some(ACTIVE)));
    assert {0} + {1} == {0, 1};
  }

  lemma TakenOver()
    ensures Run(INIT, TAKE_OVER) == Solo(Go(Go(Go(Go(READING)))), 2)
  {
    var rest := Steps(4) + Steps(4);
    var reuse := [RequestOpen(HASH, NAMED, true)] + rest;
    var active := [MoveLink(0, ACTIVE)] + reuse;
    var first := Alone(FreshOpen(HASH, NAMED, Some(0)));
    RunSplit(INIT, Steps(4) + (Steps(4) + active), RequestOpen(HASH, NAMED, true));
    assert Next(INIT, RequestOpen(HASH, NAMED, true)) == first;
    RunJoin(first, Steps(4), Steps(4) + active);
    NamedStart();
    DriveFour(FreshOpen(HASH, NAMED, Some(0)), 1);
    RunJoin(Alone(BUILDING), Steps(4), active);
    NamedReady();
    DriveFour(BUILDING, 1);
    RunSplit(Alone(READY), reuse, MoveLink(0, ACTIVE));
    RunSplit(Next(Alone(READY), MoveLink(0, ACTIVE)), rest, RequestOpen(HASH, NAMED, true));
    Reused();
    TakenRest();
  }

  lemma TakenRest()
    ensures Run(Solo(TAKEN, 2), Steps(4) + Steps(4)) == Solo(Go(Go(Go(Go(READING)))), 2)
  {
    RunJoin(Solo(TAKEN, 2), Steps(4), Steps(4));
    NamedReads();
    DriveFour(TAKEN, 2);
    NamedEmits();
    DriveFour(READING, 2);
  }

  /** The success event of the first open, whose id is 0, carries id 1, that of the second request. */
  lemma SuccessCarriesOtherId()
    ensures var w := Run(INIT, TAKE_OVER);
            && |w.opens| == 1 && w.opens[0].firstId == Some(0)
            && Established(Loop, Some(1)) in w.opens[0].hist && Established(Loop, Some(0)) !in w.opens[0].hist
  {
    TakenOver();
    NamedEmits();
    OtherIdOnly();
  }

  lemma OtherIdOnly()
    ensures var h := READING.hist + [ReadId(Loop, Some(1)), Established(Loop, Some(1))];
            Established(Loop, Some(1)) in h && Established(Loop, Some(0)) !in h
  {
    var h := READING.hist + [ReadId(Loop, Some(1)), Established(Loop, Some(1))];
    assert h[5] == Established(Loop, Some(1));
  }

  // ---------- the same without auto_identify ----------

  /** The plain open of WAITING, its link ACTIVE and its entry reused before any callback ran. */
  const LENT := WAITING.(link := Some(ACTIVE), openId := Some(1), overwritten := true, tokens := {0, 1})

  const LENDING: seq<Action> :=
    [MoveLink(0, ACTIVE)] + ([RequestOpen(HASH, PLAIN, true)] + ANNOUNCING)

  lemma Lent()
    ensures Next(Next(Alone(WAITING), MoveLink(0, ACTIVE)), RequestOpen(HASH, PLAIN, true)) == Solo(LENT, 2)
  {
    assert WAITING.hist + [] == WAITING.hist;
    assert LocalStep(WAITING, SetStatus(ACTIVE)) == WAITING.(link := Some(ACTIVE));
    assert Next(Alone(WAITING), MoveLink(0, ACTIVE)) == Alone(WAITING.(link := Some(ACTIVE)));
    assert {0} + {1} == {0, 1};
  }

  lemma SoloStart(o: Open, t: nat, next: Token)
    ensures Next(Solo(o, next), StartCallback(0, t, true)) == Solo(Spawned(o, t, true), next)
  {
  }

  lemma SoloCallback(o: Open, t: nat, next: Token)
    requires o.hash == HASH && t in o.callbacks && !o.callbacks[t].PopSlot?
    ensures Next(Solo(o, next), RunCallback(0, t)) == Solo(Advanced(o, t), next)
  {
  }

  lemma LentAnnounces()
    ensures var o := Advanced(Advanced(Advanced(Advanced(Spawned(LENT, 1, true), 1), 1), 1), 1);
            && o.firstId == Some(0)
            && o.hist == LENT.hist + [ReadId(Rns(1), Some(1)), Established(Rns(1), Some(1))]
            && Run(Solo(LENT, 2), ANNOUNCING) == Solo(o, 2)
  {
    var r := RunCallback(0, 1);
    var o1 := Spawned(LENT, 1, true);
    var o2 := Advanced(o1, 1);
    var o3 := Advanced(o2, 1);
    var o4 := Advanced(o3, 1);
    SoloStart(LENT, 1, 2);
    SoloCallback(o1, 1, 2);
    SoloCallback(o2, 1, 2);
    SoloCallback(o3, 1, 2);
    SoloCallback(o4, 1, 2);
    RunFrom(Solo(LENT, 2), StartCallback(0, 1, true), r, r, r, r);
    assert o3.hist == LENT.hist + [ReadId(Rns(1), Some(1))];
  }

  /** An open without auto_identify, whose id is 0, is announced with id 1, that of the second request. */
  lemma PlainCarriesOtherId()
    ensures var w := Run(INIT, OPENED + LENDING);
            && |w.opens| == 1 && w.opens[0].firstId == Some(0)
            && Established(Rns(1), Some(1)) in w.opens[0].hist && Established(Rns(1), Some(0)) !in w.opens[0].hist
  {
    Opened();
    RunJoin(INIT, OPENED, LENDING);
    RunSplit(Alone(WAITING), [RequestOpen(HASH, PLAIN, true)] + ANNOUNCING, MoveLink(0, ACTIVE));
    RunSplit(Next(Alone(WAITING), MoveLink(0, ACTIVE)), ANNOUNCING, RequestOpen(HASH, PLAIN, true));
    Lent();
    LentAnnounces();
    LentHist();
  }

  lemma LentHist()
    ensures var h := LENT.hist + [ReadId(Rns(1), Some(1)), Established(Rns(1), Some(1))];
            Established(Rns(1), Some(1)) in h && Established(Rns(1), Some(0)) !in h
  {
    var h := LENT.hist + [ReadId(Rns(1), Some(1)), Established(Rns(1), Some(1))];
    assert h[3] == Established(Rns(1), Some(1));
  }
}
