/**
  Progress of a transfer in src/rnsapi/rns/resources.py: how often `resource.progress` may be sent, and
  the bytes a transfer reports. Times, percentages and progress are reals.
*/
module Progress {
  import opened Wrappers

  /** One call of `_emit_progress_if_due`: the time and the percentage the throttle reads, and the percentage
      `to_dict` reads for the event. Between the two readings an RNS thread may write the progress. */
  datatype Sample = Sample(now: real, pct: real, shown: real)

  /** `_last_progress_emit_ts` and `_last_progress_emit_pct`. */
  datatype Throttle = Throttle(lastTs: real, lastPct: real)

  const FRESH := Throttle(0.0, -1.0)

  function Abs(x: real): real {
    if x < 0.0 then -x else x
  }

  /** Neither early return of `_emit_progress_if_due` is taken. */
  predicate Due(t: Throttle, s: Sample, minTime: real, minPct: real) {
    s.now - t.lastTs >= minTime && !(t.lastPct >= 0.0 && Abs(s.pct - t.lastPct) < minPct)
  }

  /** The throttle and the events sent so far. */
  datatype Feed = Feed(throttle: Throttle, events: seq<Sample>)

  function Offer(f: Feed, s: Sample, minTime: real, minPct: real): Feed {
    if Due(f.throttle, s, minTime, minPct) then Feed(Throttle(s.now, s.pct), f.events + [s]) else f
  }

  /** What a series of calls for one transfer leads to. */
  function Play(samples: seq<Sample>, minTime: real, minPct: real): Feed {
    if samples == [] then Feed(FRESH, [])
    else Offer(Play(samples[..|samples| - 1], minTime, minPct), samples[|samples| - 1], minTime, minPct)
  }

  /** The throttle remembers the last event; every event is one of the calls. */
  lemma {:induction false} PlayShape(samples: seq<Sample>, minTime: real, minPct: real)
    ensures var f := Play(samples, minTime, minPct);
            && f.throttle == (if f.events == [] then FRESH
                              else Throttle(f.events[|f.events| - 1].now, f.events[|f.events| - 1].pct))
            && forall e | e in f.events :: e in samples
  {
    if samples != [] { PlayShape(samples[..|samples| - 1], minTime, minPct); }
  }

  /** Main result. A call sends its event exactly if it is due: the first one when minTime has passed since the
      throttle's zero, every other one when since the last event the time has passed and, unless that one was
      read as negative, the progress has moved by minPct. */
  lemma SentExactly(samples: seq<Sample>, minTime: real, minPct: real)
    requires samples != []
    ensures var e := Play(samples[..|samples| - 1], minTime, minPct).events;
            var s := samples[|samples| - 1];
            Play(samples, minTime, minPct).events ==
              if e == [] then (if s.now >= minTime then [s] else [])
              else
                var last := e[|e| - 1];
                if && s.now - last.now >= minTime
                   && (last.pct < 0.0 || s.pct - last.pct >= minPct || last.pct - s.pct >= minPct)
                then e + [s] else e
  {
    PlayShape(samples[..|samples| - 1], minTime, minPct);
  }

  ghost predicate Spaced(e: seq<Sample>, minTime: real, minPct: real) {
    forall i | 0 <= i < |e| - 1 :: e[i + 1].now - e[i].now >= minTime && Abs(e[i + 1].pct - e[i].pct) >= minPct
  }

  /** Main result. For progress that is not negative, the throttle's readings at two successive progress
      events are at least the configured time and the configured percentage apart. */
  lemma {:induction false} Spacing(samples: seq<Sample>, minTime: real, minPct: real)
    requires forall s | s in samples :: s.pct >= 0.0
    ensures Spaced(Play(samples, minTime, minPct).events, minTime, minPct)
  {
    if samples != [] {
      var p := samples[..|samples| - 1];
      Spacing(p, minTime, minPct);
      PlayShape(p, minTime, minPct);
    }
  }

  /** How far the progress moved between the two readings of one call. */
  function Drift(s: Sample): real {
    Abs(s.shown - s.pct)
  }

  ghost predicate WithinDrift(samples: seq<Sample>, d: real) {
    forall s | s in samples :: s.pct >= 0.0 && Drift(s) <= d
  }

  /** What two successive events show is at least the configured percentage apart. */
  ghost predicate ShownSpaced(e: seq<Sample>, minPct: real) {
    forall i | 0 <= i < |e| - 1 :: Abs(e[i + 1].shown - e[i].shown) >= minPct
  }

  /** Main result. What two successive events show is apart by the configured percentage less what the
      progress moved between the two readings of either call. */
  lemma ShownSpacing(samples: seq<Sample>, minTime: real, minPct: real, i: nat)
    requires forall s | s in samples :: s.pct >= 0.0
    requires i + 1 < |Play(samples, minTime, minPct).events|
    ensures var e := Play(samples, minTime, minPct).events;
            Abs(e[i + 1].shown - e[i].shown) >= minPct - Drift(e[i]) - Drift(e[i + 1])
  {
    Spacing(samples, minTime, minPct);
  }

  lemma PlayTwo(a: Sample, b: Sample, minTime: real, minPct: real)
    ensures Play([a, b], minTime, minPct) == Offer(Offer(Feed(FRESH, []), a, minTime, minPct), b, minTime, minPct)
  {
    assert [a, b][..1] == [a] && [a][..0] == [];
    assert Play([a], minTime, minPct) == Offer(Feed(FRESH, []), a, minTime, minPct);
  }

  /** A first event whose progress moves by `d` before it is shown, and a second one just due. */
  lemma MovedClose(minTime: real, minPct: real, d: real)
    requires minTime >= 0.0 && 0.0 < d <= minPct
    ensures var xs := [Sample(minTime, 0.0, d), Sample(2.0 * minTime, minPct, minPct)];
            WithinDrift(xs, d) && !ShownSpaced(Play(xs, minTime, minPct).events, minPct)
  {
    var a, b := Sample(minTime, 0.0, d), Sample(2.0 * minTime, minPct, minPct);
    PlayTwo(a, b, minTime, minPct);
    var e := Play([a, b], minTime, minPct).events;
    assert e == [a, b];
    assert Abs(e[0 + 1].shown - e[0].shown) == minPct - d;
  }

  /** Main result. The events show progress at least the configured percentage apart, whatever the calls, if
      and only if nothing moves the progress between the two readings of a call. */
  lemma ShownExactly(minTime: real, minPct: real, d: real)
    requires minTime >= 0.0 && minPct > 0.0 && d >= 0.0
    ensures (forall samples | WithinDrift(samples, d) :: ShownSpaced(Play(samples, minTime, minPct).events, minPct))
            <==> d == 0.0
  {
    if d == 0.0 {
      forall samples | WithinDrift(samples, d) ensures ShownSpaced(Play(samples, minTime, minPct).events, minPct) {
        UnmovedSpaced(samples, minTime, minPct);
      }
    } else {
      var m := if d < minPct then d else minPct;
      MovedClose(minTime, minPct, m);
      var xs := [Sample(minTime, 0.0, m), Sample(2.0 * minTime, minPct, minPct)];
      assert WithinDrift(xs, d);
    }
  }

  lemma UnmovedSpaced(samples: seq<Sample>, minTime: real, minPct: real)
    requires WithinDrift(samples, 0.0)
    ensures ShownSpaced(Play(samples, minTime, minPct).events, minPct)
  {
    Spacing(samples, minTime, minPct);
    PlayShape(samples, minTime, minPct);
    var e := Play(samples, minTime, minPct).events;
    forall i | 0 <= i < |e| - 1 ensures Abs(e[i + 1].shown - e[i].shown) >= minPct {
      assert e[i] in e && e[i + 1] in e;
      ShownSpacing(samples, minTime, minPct, i);
    }
  }

  /** A concrete run: at a minimum of 10 percent, two events are sent that show 19 and 20. */
  lemma ShownTooClose()
    ensures Play([Sample(1.0, 10.0, 19.0), Sample(2.0, 20.0, 20.0)], 1.0, 10.0).events
         == [Sample(1.0, 10.0, 19.0), Sample(2.0, 20.0, 20.0)]
  {
    PlayTwo(Sample(1.0, 10.0, 19.0), Sample(2.0, 20.0, 20.0), 1.0, 10.0);
  }

  lemma {:induction false} TimeGap(e: seq<Sample>, i: nat, j: nat, minTime: real, minPct: real)
    requires i <= j < |e| && Spaced(e, minTime, minPct)
    ensures e[j].now - e[i].now >= (j - i) as real * minTime
    decreases j - i
  {
    if i < j {
      TimeGap(e, i, j - 1, minTime, minPct);
      assert (j - i) as real * minTime == (j - 1 - i) as real * minTime + minTime;
      assert e[j - 1 + 1].now - e[j - 1].now >= minTime;
    }
  }

  lemma NotPositive(x: real, step: real)
    requires step > 0.0 && x * step <= 0.0
    ensures x <= 0.0
  {
  }

  lemma AtMostFloor(n: nat, step: real, total: real)
    requires step > 0.0 && n as real * step <= total
    ensures n <= (total / step).Floor
  {
    var q := total / step;
    assert (n as real - q) * step == n as real * step - total;
    NotPositive(n as real - q, step);
  }

  /** Main result. Any window of `span` seconds holds at most floor(span / minTime) + 1 events. */
  lemma WindowBound(samples: seq<Sample>, minTime: real, minPct: real, i: nat, j: nat, from: real, span: real)
    requires minTime > 0.0 && forall s | s in samples :: s.pct >= 0.0
    requires i <= j < |Play(samples, minTime, minPct).events|
    requires from <= Play(samples, minTime, minPct).events[i].now
    requires Play(samples, minTime, minPct).events[j].now <= from + span
    ensures j - i + 1 <= (span / minTime).Floor + 1
  {
    var e := Play(samples, minTime, minPct).events;
    Spacing(samples, minTime, minPct);
    TimeGap(e, i, j, minTime, minPct);
    AtMostFloor(j - i, minTime, span);
  }

  ghost predicate Rising(e: seq<Sample>) {
    forall i, j | 0 <= i < j < |e| :: e[i].pct <= e[j].pct
  }

  lemma {:induction false} EventsRising(samples: seq<Sample>, minTime: real, minPct: real)
    requires Rising(samples)
    ensures Rising(Play(samples, minTime, minPct).events)
  {
    if samples != [] {
      var p := samples[..|samples| - 1];
      EventsRising(p, minTime, minPct);
      PlayShape(p, minTime, minPct);
      assert forall s | s in p :: s.pct <= samples[|samples| - 1].pct;
    }
  }

  lemma {:induction false} PctGap(e: seq<Sample>, j: nat, minTime: real, minPct: real)
    requires j < |e| && Rising(e) && Spaced(e, minTime, minPct)
    ensures e[j].pct - e[0].pct >= j as real * minPct
  {
    if j > 0 {
      PctGap(e, j - 1, minTime, minPct);
      assert j as real * minPct == (j - 1) as real * minPct + minPct;
      assert Abs(e[j - 1 + 1].pct - e[j - 1].pct) >= minPct;
    }
  }

  /** Main result. A transfer whose progress never falls sends at most floor(100 / minPct) + 1 events. */
  lemma RisingBound(samples: seq<Sample>, minTime: real, minPct: real)
    requires minPct > 0.0 && Rising(samples) && forall s | s in samples :: 0.0 <= s.pct <= 100.0
    ensures |Play(samples, minTime, minPct).events| <= (100.0 / minPct).Floor + 1
  {
    var e := Play(samples, minTime, minPct).events;
    if e == [] {
      AtMostFloor(0, minPct, 100.0);
    } else {
      var n := |e| - 1;
      Spacing(samples, minTime, minPct);
      EventsRising(samples, minTime, minPct);
      PctGap(e, n, minTime, minPct);
      PlayShape(samples, minTime, minPct);
      assert e[0] in e && e[n] in e;
      AtMostFloor(n, minPct, 100.0);
    }
  }

  // ---------- bytes ----------

  /** `int(x)` truncates toward zero. */
  function Truncate(x: real): int {
    if x < 0.0 then -((-x).Floor) else x.Floor
  }

  function BytesAt(progress: real, total: nat): int {
    if total == 0 then 0 else Truncate(progress * total as real)
  }

  lemma ProductNotNegative(x: real, y: real)
    requires x >= 0.0 && y >= 0.0
    ensures x * y >= 0.0
  {
  }

  lemma BytesInRange(progress: real, total: nat)
    requires 0.0 <= progress <= 1.0
    ensures 0 <= BytesAt(progress, total) <= total
    ensures progress == 1.0 ==> BytesAt(progress, total) == total
    ensures BytesAt(progress, total) as real <= progress * total as real < BytesAt(progress, total) as real + 1.0
  {
    var x := progress * total as real;
    ProductNotNegative(progress, total as real);
    ProductNotNegative(1.0 - progress, total as real);
    assert total as real - x == (1.0 - progress) * total as real;
  }

  /** Only full progress counts every byte. */
  lemma FullOnly(progress: real, total: nat)
    requires 0.0 <= progress <= 1.0 && total > 0
    ensures BytesAt(progress, total) == total <==> progress == 1.0
  {
    if progress < 1.0 {
      ProductPositive(1.0 - progress, total as real);
      ProductNotNegative(progress, total as real);
      assert total as real - progress * total as real == (1.0 - progress) * total as real;
    }
  }

  lemma ProductPositive(x: real, y: real)
    requires x > 0.0 && y > 0.0
    ensures x * y > 0.0
  {
  }

  datatype Status = Moving | COMPLETE | Ended

  datatype Account = Account(status: Status, total: nat, bytes: int, progress: real)

  /** An activation of `_on_progress` or, if `complete`, of `_on_complete` on an RNS thread; `line` counts
      the three writes it has made. */
  datatype Callback = Callback(complete: bool, progress: real, status: Status, line: nat)

  datatype Write = Count(progress: real) | CountAll | Tell(status: Status)

  /** `writes` is the history of the writes to the bytes and to the status. */
  datatype State = State(account: Account, callbacks: map<nat, Callback>, writes: seq<Write>)

  function Init(total: nat): State {
    State(Account(Moving, total, 0, 0.0), map[], [])
  }

  type Unfinished = st: Status | st != COMPLETE witness Moving

  /** `Created` is the status `send` adopts from the new resource, `Poll` one turn of the receive poller, and
      `Received` a received resource copied to a file of `size` bytes: these run on the loop, so nothing on
      the loop reads between their writes. */
  datatype Action =
    | Start(t: nat, complete: bool, progress: real, status: Status)
    | RunLine(t: nat)
    | Created(status: Status)
    | Poll(progress: real, seen: Unfinished)
    | Received(size: nat)

  /** The next line of a callback: progress, bytes, status for a report; status, progress, bytes for a
      completion. */
  function LineStep(a: Account, c: Callback): Account {
    if !c.complete then
      if c.line == 0 then a.(progress := c.progress)
      else if c.line == 1 then a.(bytes := BytesAt(c.progress, a.total))
      else if c.line == 2 then a.(status := c.status)
      else a
    else
      if c.line == 0 then a.(status := c.status)
      else if c.line == 1 && c.status == COMPLETE then a.(progress := 1.0)
      else if c.line == 2 && c.status == COMPLETE then a.(bytes := a.total)
      else a
  }

  function LineWrites(c: Callback): (ws: seq<Write>)
    ensures |ws| <= 1
  {
    if !c.complete then
      if c.line == 1 then [Count(c.progress)] else if c.line == 2 then [Tell(c.status)] else []
    else
      if c.line == 0 then [Tell(c.status)] else if c.line == 2 && c.status == COMPLETE then [CountAll] else []
  }

  function Next(s: State, x: Action): State {
    match x
    case Start(t, complete, p, st) =>
      if t in s.callbacks then s else s.(callbacks := s.callbacks[t := Callback(complete, p, st, 0)])
    case RunLine(t) =>
      if t !in s.callbacks then s
      else
        var c := s.callbacks[t];
        State(LineStep(s.account, c), s.callbacks[t := c.(line := c.line + 1)], s.writes + LineWrites(c))
    case Created(st) => State(s.account.(status := st), s.callbacks, s.writes + [Tell(st)])
    case Poll(p, st) =>
      State(s.account.(progress := p, bytes := BytesAt(p, s.account.total), status := st), s.callbacks,
            s.writes + [Count(p)] + [Tell(st)])
    case Received(size) =>
      State(Account(COMPLETE, size, size, 1.0), s.callbacks, s.writes + [CountAll] + [Tell(COMPLETE)])
  }

  function Run(s: State, xs: seq<Action>): State
    decreases |xs|
  {
    if xs == [] then s else Run(Next(s, xs[0]), xs[1..])
  }

  ghost predicate InUnit(p: real) {
    0.0 <= p <= 1.0
  }

  /** RNS reports progress between 0 and 1. */
  ghost predicate Plausible(x: Action) {
    (x.Start? ==> InUnit(x.progress)) && (x.Poll? ==> InUnit(x.progress))
  }

  ghost predicate PlausibleCallbacks(s: State) {
    forall t | t in s.callbacks :: InUnit(s.callbacks[t].progress)
  }

  lemma RangeStep(s: State, x: Action)
    requires 0 <= s.account.bytes <= s.account.total && PlausibleCallbacks(s) && Plausible(x)
    ensures var a := Next(s, x).account; 0 <= a.bytes <= a.total
    ensures PlausibleCallbacks(Next(s, x))
  {
    if x.Poll? { BytesInRange(x.progress, s.account.total); }
    if x.RunLine? && x.t in s.callbacks { BytesInRange(s.callbacks[x.t].progress, s.account.total); }
  }

  lemma {:induction false} RangeRun(s: State, xs: seq<Action>)
    requires 0 <= s.account.bytes <= s.account.total && PlausibleCallbacks(s)
    requires forall i | 0 <= i < |xs| :: Plausible(xs[i])
    ensures var a := Run(s, xs).account; 0 <= a.bytes <= a.total
    decreases |xs|
  {
    if xs != [] {
      RangeStep(s, xs[0]);
      RangeRun(Next(s, xs[0]), xs[1..]);
    }
  }

  /** Main result. While RNS reports progress between 0 and 1, the bytes never leave [0, total], however the
      lines of any number of callbacks interleave. */
  lemma BytesStayInRange(total: nat, xs: seq<Action>)
    requires forall i | 0 <= i < |xs| :: Plausible(xs[i])
    ensures var a := Run(Init(total), xs).account; 0 <= a.bytes <= a.total
  {
    RangeRun(Init(total), xs);
  }

  // ---------- COMPLETE and the bytes ----------

  /** What the loop may promise to a client: a COMPLETE transfer has moved all its bytes. */
  ghost predicate Settled(a: Account) {
    a.status == COMPLETE ==> a.bytes == a.total
  }

  /** The last status written. */
  function LastTold(ws: seq<Write>): Status {
    if ws == [] then Moving
    else if ws[|ws| - 1].Tell? then ws[|ws| - 1].status else LastTold(ws[..|ws| - 1])
  }

  /** The last count written was of every byte, or came from a report of full progress. */
  predicate LastCountFull(ws: seq<Write>) {
    && ws != []
    && var w := ws[|ws| - 1];
       if w.CountAll? then true
       else if w.Count? then w.progress == 1.0
       else LastCountFull(ws[..|ws| - 1])
  }

  ghost predicate WritesInv(s: State) {
    && PlausibleCallbacks(s)
    && s.account.status == LastTold(s.writes)
    && (s.account.bytes == s.account.total <==> s.account.total == 0 || LastCountFull(s.writes))
    && 0 <= s.account.bytes <= s.account.total
  }

  lemma WriteAppend(ws: seq<Write>, w: Write)
    ensures LastTold(ws + [w]) == if w.Tell? then w.status else LastTold(ws)
    ensures LastCountFull(ws + [w]) ==
              if w.CountAll? then true else if w.Count? then w.progress == 1.0 else LastCountFull(ws)
  {
    assert (ws + [w])[..|ws|] == ws;
  }

  lemma CountStep(a: Account, p: real)
    requires InUnit(p)
    ensures BytesAt(p, a.total) == a.total <==> a.total == 0 || p == 1.0
    ensures 0 <= BytesAt(p, a.total) <= a.total
  {
    BytesInRange(p, a.total);
    if a.total > 0 { FullOnly(p, a.total); }
  }

  lemma LineKeeps(s: State, t: nat)
    requires WritesInv(s) && t in s.callbacks
    ensures WritesInv(Next(s, RunLine(t)))
  {
    var c := s.callbacks[t];
    CountStep(s.account, c.progress);
    if LineWrites(c) == [] {
      assert s.writes + [] == s.writes;
    } else {
      WriteAppend(s.writes, LineWrites(c)[0]);
    }
  }

  lemma LoopKeeps(s: State, x: Action)
    requires WritesInv(s) && Plausible(x) && (x.Poll? || x.Received?)
    ensures WritesInv(Next(s, x))
  {
    var first, second := if x.Poll? then Count(x.progress) else CountAll, Tell(if x.Poll? then x.seen else COMPLETE);
    if x.Poll? { CountStep(s.account, x.progress); }
    WriteAppend(s.writes, first);
    WriteAppend(s.writes + [first], second);
  }

  lemma {:induction false} WritesRun(s: State, xs: seq<Action>)
    requires WritesInv(s) && forall i | 0 <= i < |xs| :: Plausible(xs[i])
    ensures WritesInv(Run(s, xs))
    decreases |xs|
  {
    if xs != [] {
      var x := xs[0];
      if x.RunLine? && x.t in s.callbacks { LineKeeps(s, x.t); }
      if x.Created? { WriteAppend(s.writes, Tell(x.status)); }
      if x.Poll? || x.Received? { LoopKeeps(s, x); }
      WritesRun(Next(s, x), xs[1..]);
    }
  }

  /** Main result. At every point of every interleaving of the callbacks' lines, a transfer shows COMPLETE
      with too few bytes if and only if it has bytes at all, the last status written is COMPLETE, and the
      last count written was neither of every byte nor from a report of full progress: so exactly between
      the status and the bytes of a completion, also when `send` adopts a COMPLETE status before the completion
      has written, after a COMPLETE report that stops short, and after a late count of an earlier report. */
  lemma SettledExactly(total: nat, xs: seq<Action>)
    requires forall i | 0 <= i < |xs| :: Plausible(xs[i])
    ensures var s := Run(Init(total), xs);
            !Settled(s.account) <==> s.account.total > 0 && LastTold(s.writes) == COMPLETE && !LastCountFull(s.writes)
  {
    WritesRun(Init(total), xs);
  }

  /** The account after an uninterrupted callback. */
  function Through(a: Account, c: Callback): Account {
    LineStep(LineStep(LineStep(a, c), c.(line := c.line + 1)), c.(line := c.line + 2))
  }

  lemma ReportThrough(a: Account, p: real, st: Status)
    ensures Through(a, Callback(false, p, st, 0)) == Account(st, a.total, BytesAt(p, a.total), p)
  {
  }

  /** The order of the writes: a report tells its status last, a completion tells it first. */
  lemma LinesInOrder(a: Account, p: real, st: Status)
    ensures var c := Callback(false, p, st, 0);
            && LineStep(a, c) == a.(progress := p)
            && LineStep(LineStep(a, c), c.(line := 1)) == a.(progress := p, bytes := BytesAt(p, a.total))
    ensures var c := Callback(true, p, st, 0);
            && LineStep(a, c) == a.(status := st)
            && LineStep(LineStep(a, c), c.(line := 1)) ==
                 a.(status := st, progress := if st == COMPLETE then 1.0 else a.progress)
  {
  }

  /** The window: one line into its completion callback a transfer is COMPLETE and has moved nothing. */
  lemma CompletionWindow(total: nat)
    requires total > 0
    ensures !Settled(Run(Init(total), [Start(0, true, 0.0, COMPLETE), RunLine(0)]).account)
  {
    var s1 := Next(Init(total), Start(0, true, 0.0, COMPLETE));
    assert [Start(0, true, 0.0, COMPLETE), RunLine(0)][1..] == [RunLine(0)] && [RunLine(0)][1..] == [];
    assert Run(s1, [RunLine(0)]) == Run(Next(s1, RunLine(0)), []);
  }

  /** A report of COMPLETE at half progress leaves a COMPLETE transfer with too few bytes for good. */
  lemma ShortReport(total: nat)
    requires total > 0
    ensures !Settled(Run(Init(total), [Start(0, false, 0.5, COMPLETE), RunLine(0), RunLine(0), RunLine(0)]).account)
  {
    var xs := [Start(0, false, 0.5, COMPLETE), RunLine(0), RunLine(0), RunLine(0)];
    SettledExactly(total, xs);
    var r := RunLine(0);
    assert xs[1..] == [r, r, r] && [r, r, r][1..] == [r, r] && [r, r][1..] == [r] && [r][1..] == [];
    var s1 := Next(Init(total), xs[0]);
    var s2 := Next(s1, r);
    var s3 := Next(s2, r);
    var s4 := Next(s3, r);
    assert Run(s1, [r, r, r]) == Run(s2, [r, r]);
    assert Run(s2, [r, r]) == Run(s3, [r]);
    assert Run(s3, [r]) == Run(s4, []) == s4;
    FullOnly(0.5, total);
    assert s4.account.status == COMPLETE && s4.account.bytes == BytesAt(0.5, total);
  }

  // ---------- the class ----------

  /** The progress fields of a `TransferState`, with the events sent for it. */
  class TransferProgress {
    const minTime: real
    const minPct: real
    var totalSize: nat
    var bytesTransferred: int
    var progress: real
    var status: Status
    var lastEmitTs: real
    var lastEmitPct: real
    var events: seq<Sample>
    ghost var calls: seq<Sample>

    /** The throttle and the events are what the calls lead to. */
    ghost predicate Valid()
      reads this
    {
      Play(calls, minTime, minPct) == Feed(Throttle(lastEmitTs, lastEmitPct), events)
    }

    ghost function View(): Account
      reads this
    {
      Account(status, totalSize, bytesTransferred, progress)
    }

    constructor (totalSize: nat, minTime: real, minPct: real)
      ensures Valid() && events == [] && calls == []
      ensures View() == Account(Moving, totalSize, 0, 0.0)
    {
      this.totalSize, this.minTime, this.minPct := totalSize, minTime, minPct;
      bytesTransferred, progress, status := 0, 0.0, Moving;
      lastEmitTs, lastEmitPct, events, calls := 0.0, -1.0, [], [];
    }

    /** An uninterrupted `_on_progress`, or one turn of the poller. */
    method Report(p: real, st: Status)
      requires Valid()
      modifies `progress, `bytesTransferred, `status
      ensures Valid() && View() == Through(old(View()), Callback(false, p, st, 0))
      ensures progress == p && bytesTransferred == BytesAt(p, totalSize) && status == st
    {
      ReportThrough(View(), p, st);
      progress := p;
      bytesTransferred := BytesAt(p, totalSize);
      status := st;
    }

    /** An uninterrupted `_on_complete`. */
    method Finish(st: Status)
      requires Valid()
      modifies `progress, `bytesTransferred, `status
      ensures Valid() && View() == Through(old(View()), Callback(true, 0.0, st, 0))
      ensures status == st && (st == COMPLETE ==> bytesTransferred == totalSize && progress == 1.0)
      ensures st != COMPLETE ==> bytesTransferred == old(bytesTransferred) && progress == old(progress)
    {
      status := st;
      progress := if st == COMPLETE then 1.0 else progress;
      bytesTransferred := if st == COMPLETE then totalSize else bytesTransferred;
    }

    /** The two early returns, and the writes of the throttle behind them. */
    method Allow(now: real, pct: real) returns (due: bool)
      modifies `lastEmitTs, `lastEmitPct
      ensures due == (now - old(lastEmitTs) >= minTime
                      && (old(lastEmitPct) < 0.0 || Abs(pct - old(lastEmitPct)) >= minPct))
      ensures lastEmitTs == (if due then now else old(lastEmitTs))
      ensures lastEmitPct == (if due then pct else old(lastEmitPct))
    {
      due := now - lastEmitTs >= minTime && !(lastEmitPct >= 0.0 && Abs(pct - lastEmitPct) < minPct);
      if due {
        lastEmitTs, lastEmitPct := now, pct;
      }
    }

    /** `_emit_progress_if_due` at time `now`; `between` is what an RNS thread writes, if anything, between
        the throttle's reading of the progress and the event's. */
    method EmitProgressIfDue(now: real, between: Option<real>)
      requires Valid()
      modifies `lastEmitTs, `lastEmitPct, `progress, `events, `calls
      ensures Valid() && progress == if between.Some? then between.value else old(progress)
      ensures calls == old(calls) + [Sample(now, old(progress) * 100.0, progress * 100.0)]
      ensures var due := now - old(lastEmitTs) >= minTime &&
                         (old(lastEmitPct) < 0.0 || Abs(old(progress) * 100.0 - old(lastEmitPct)) >= minPct);
              && events == (if due then old(events) + [calls[|old(calls)|]] else old(events))
              && lastEmitTs == (if due then now else old(lastEmitTs))
              && lastEmitPct == (if due then old(progress) * 100.0 else old(lastEmitPct))
    {
      ghost var was := calls;
      var pct := progress * 100.0;
      var due := Allow(now, pct);
      progress := if between.Some? then between.value else progress;
      calls := calls + [Sample(now, pct, progress * 100.0)];
      assert calls[..|calls| - 1] == was;
      if due {
        events := events + [Sample(now, pct, progress * 100.0)];
      }
    }
  }
}
