/**
  The receive side of src/rnsapi/rns/resources.py: a concluded resource is copied to a file named by its
  transfer id, announced, and served until the retention sweep takes the file. A run interleaves any
  number of transfers of one session.
*/
module Receive {
  import opened Statuses
  import opened Text
  import opened Wrappers

  type Tid = nat

  type Unfinished = st: Status | st != COMPLETE witness NONE

  datatype Reason = CopyFailed | Cancelled | EndedAs(status: Status)

  /** `resource`: the strong reference to the RNS resource; `temp`: `temp_path`, always the file named by
      the transfer id. */
  datatype Transfer = Transfer(inbound: bool, status: Status, resource: bool, total: nat, bytes: int, progress: real,
                               temp: bool, failure: Option<Reason>)

  datatype File = File(data: Bytes, mtime: int)

  datatype Event =
    | Completed(t: Tid, status: Status, total: nat, inlined: Option<Bytes>)
    | Failed(t: Tid, status: Status)

  /** `files` is the resources directory. */
  datatype State = State(maxInline: nat, files: map<Tid, File>, active: map<Tid, Transfer>, events: seq<Event>)

  function Init(maxInline: nat): State {
    State(maxInline, map[], map[], [])
  }

  /** What became of the local copy: all of it, or an exception that left the file as it was or with some
      other contents. */
  datatype Copy = Copied(data: Bytes) | Broke(left: Option<Bytes>)

  /** How RNS concluded a resource. */
  datatype Report = Assembled(copy: Copy) | Ended(status: Unfinished)

  /** `Finish` is the end of an outbound transfer, which has no file here and is not served. */
  datatype Action =
    | Begin(t: Tid, inbound: bool, status: Status, total: nat)
    | Poll(t: Tid, status: Status, bytes: int, progress: real)
    | Conclude(t: Tid, report: Report, now: int)
    | Finish(t: Tid, status: Status)
    | Cancel(t: Tid)
    | Delete(t: Tid)
    | Cleanup
    | Sweep(now: int, retention: int)

  function Fresh(inbound: bool, status: Status, total: nat): Transfer {
    Transfer(inbound, status, true, total, 0, 0.0, false, None)
  }

  /** The transfer a conclusion works on: the listed one, or one made up for it. */
  function Found(s: State, t: Tid): Transfer {
    if t in s.active then s.active[t] else Fresh(true, PENDING, 0)
  }

  /** `failure_reason or reason`. */
  function Because(x: Transfer, reason: Reason): Option<Reason> {
    if x.failure.Some? then x.failure else Some(reason)
  }

  function AfterReport(x: Transfer, r: Report): Transfer {
    match r
    case Assembled(Copied(data)) =>
      x.(status := COMPLETE, resource := false, temp := true, total := |data|, bytes := |data|, progress := 1.0)
    case Assembled(Broke(_)) => x.(status := FAILED, resource := false, failure := Some(CopyFailed))
    case Ended(st) => x.(status := st, resource := false, failure := Because(x, EndedAs(st)))
  }

  function AfterCopy(files: map<Tid, File>, t: Tid, copy: Copy, now: int): map<Tid, File> {
    match copy
    case Copied(data) => files[t := File(data, now)]
    case Broke(left) => if left.Some? then files[t := File(left.value, now)] else files
  }

  function FilesAfter(files: map<Tid, File>, t: Tid, r: Report, now: int): map<Tid, File> {
    if r.Assembled? then AfterCopy(files, t, r.copy, now) else files
  }

  /** `_make_completed_event`, from what is on disk. */
  function CompletedEvent(s: State, t: Tid, x: Transfer): Event {
    Completed(t, x.status, x.total,
              if x.temp && t in s.files && |s.files[t].data| <= s.maxInline then Some(s.files[t].data) else None)
  }

  function Announced(s: State, t: Tid, r: Report): Event {
    if r.Assembled? then CompletedEvent(s, t, Found(s, t)) else Failed(t, Found(s, t).status)
  }

  function ConcludeStep(s: State, t: Tid, r: Report, now: int): State {
    var s' := s.(files := FilesAfter(s.files, t, r, now), active := s.active[t := AfterReport(Found(s, t), r)]);
    s'.(events := s.events + [Announced(s', t, r)])
  }

  function CancelStep(s: State, t: Tid): State
    requires t in s.active
  {
    var x := s.active[t].(status := CANCELLED, failure := Because(s.active[t], Cancelled), temp := false);
    s.(files := if s.active[t].temp then s.files - {t} else s.files, active := s.active[t := x],
       events := s.events + [Failed(t, CANCELLED)])
  }

  function DeleteStep(s: State, t: Tid): State
    requires t in s.active
  {
    var s' := if InFlight(s.active[t].status) then CancelStep(s, t) else s;
    s'.(files := if s'.active[t].temp then s'.files - {t} else s'.files, active := s'.active - {t})
  }

  function TempFiles(active: map<Tid, Transfer>): set<Tid> {
    set t | t in active && active[t].temp
  }

  predicate Expired(f: File, now: int, retention: int) {
    now - f.mtime > retention
  }

  function Kept(files: map<Tid, File>, now: int, retention: int): map<Tid, File> {
    map t | t in files && !Expired(files[t], now, retention) :: files[t]
  }

  /** The poller gives up on a terminal status or when the resource has been released. */
  predicate PollWrites(s: State, t: Tid, st: Status) {
    && t in s.active && s.active[t].inbound && s.active[t].resource
    && st != COMPLETE && st != ASSEMBLING && st != FAILED && st != CORRUPT && st != REJECTED
  }

  function Next(s: State, a: Action): State {
    match a
    case Begin(t, inbound, st, total) =>
      if t in s.active then s else s.(active := s.active[t := Fresh(inbound, st, total)])
    case Poll(t, st, bytes, progress) =>
      if PollWrites(s, t, st)
      then s.(active := s.active[t := s.active[t].(status := st, bytes := bytes, progress := progress)]) else s
    case Conclude(t, r, now) =>
      if t in s.active && !s.active[t].inbound then s else ConcludeStep(s, t, r, now)
    case Finish(t, st) =>
      if t in s.active && !s.active[t].inbound
      then s.(active := s.active[t := s.active[t].(status := st, resource := false)]) else s
    case Cancel(t) => if t in s.active then CancelStep(s, t) else s
    case Delete(t) => if t in s.active then DeleteStep(s, t) else s
    case Cleanup => s.(files := s.files - TempFiles(s.active), active := map[])
    case Sweep(now, retention) => s.(files := Kept(s.files, now, retention))
  }

  function Run(s: State, acts: seq<Action>): State {
    if acts == [] then s else Next(Run(s, acts[..|acts| - 1]), acts[|acts| - 1])
  }

  datatype Served = Data(data: Bytes) | Unknown | Outbound | NotComplete | Gone

  /** `open_stream`, followed by reading the file it returns. */
  function OpenStream(s: State, t: Tid): Served {
    if t !in s.active then Unknown
    else if !s.active[t].inbound then Outbound
    else if s.active[t].status != COMPLETE || !s.active[t].temp then NotComplete
    else if t !in s.files then Gone
    else Data(s.files[t].data)
  }

  /** A conclusion in the order of the code: find the transfer, copy, settle. */
  lemma ConcludeInOrder(s: State, t: Tid, r: Report, now: int)
    ensures var s1 := s.(active := s.active[t := Found(s, t)], files := FilesAfter(s.files, t, r, now));
            var s2 := s1.(active := s1.active[t := AfterReport(s1.active[t], r)]);
            ConcludeStep(s, t, r, now) == s2.(events := s2.events + [Announced(s2, t, r)])
  {
    assert s.active[t := Found(s, t)][t := AfterReport(Found(s, t), r)] == s.active[t := AfterReport(Found(s, t), r)];
  }

  // ---------- what is served ----------

  /** The bytes RNS last handed over in full for transfer `t`. */
  function Delivered(acts: seq<Action>, t: Tid): Option<Bytes> {
    if acts == [] then None
    else
      var a := acts[|acts| - 1];
      if Delivers(a, t) then Some(a.report.copy.data)
      else Delivered(acts[..|acts| - 1], t)
  }

  /** A received and complete transfer is backed by what was delivered. */
  ghost predicate Backed(s: State, t: Tid, delivered: Option<Bytes>) {
    t in s.active && s.active[t].inbound && s.active[t].status == COMPLETE && s.active[t].temp ==>
      && delivered.Some?
      && s.active[t].total == |delivered.value|
      && s.active[t].bytes == |delivered.value|
      && s.active[t].progress == 1.0
      && (t in s.files ==> s.files[t].data == delivered.value)
  }

  lemma {:induction false} BackedRun(max: nat, acts: seq<Action>, t: Tid)
    ensures Backed(Run(Init(max), acts), t, Delivered(acts, t))
  {
    if acts != [] {
      var p := acts[..|acts| - 1];
      BackedRun(max, p, t);
      BackedStep(Run(Init(max), p), acts[|acts| - 1], t, Delivered(p, t));
    }
  }

  predicate Delivers(a: Action, t: Tid) {
    a.Conclude? && a.t == t && a.report.Assembled? && a.report.copy.Copied?
  }

  lemma BackedStep(s: State, a: Action, t: Tid, delivered: Option<Bytes>)
    requires Backed(s, t, delivered)
    ensures Backed(Next(s, a), t, if Delivers(a, t) then Some(a.report.copy.data) else delivered)
  {
  }

  /** Main result. In every run, a download yields exactly the bytes RNS last handed over in full for
      that transfer, and the transfer's sizes are their length. */
  lemma {:induction false} ServedIsDelivered(max: nat, acts: seq<Action>, t: Tid)
    requires OpenStream(Run(Init(max), acts), t).Data?
    ensures var s := Run(Init(max), acts);
            && Delivered(acts, t) == Some(OpenStream(s, t).data)
            && s.active[t].total == s.active[t].bytes == |OpenStream(s, t).data|
  {
    BackedRun(max, acts, t);
  }

  /** The action may end the service of a transfer concluded at `since`. */
  predicate Ends(a: Action, t: Tid, since: int) {
    match a
    case Conclude(u, _, _) => u == t
    case Cancel(u) => u == t
    case Delete(u) => u == t
    case Cleanup => true
    case Sweep(now, retention) => now - since > retention
    case _ => false
  }

  ghost predicate Serving(s: State, t: Tid, data: Bytes, since: int) {
    && t in s.active && s.active[t].inbound && s.active[t].status == COMPLETE && s.active[t].temp
    && !s.active[t].resource && t in s.files && s.files[t] == File(data, since)
  }

  /** Main result. Bytes handed over in full are served unchanged through any run of other actions, until
      the transfer itself ends or a sweep finds the file older than the retention time. */
  lemma {:induction false} ServedUntilRetention(s: State, t: Tid, data: Bytes, since: int, acts: seq<Action>)
    requires t in s.active ==> s.active[t].inbound
    requires forall i | 0 <= i < |acts| :: !Ends(acts[i], t, since)
    ensures var s' := Run(Next(s, Conclude(t, Assembled(Copied(data)), since)), acts);
            Serving(s', t, data, since) && OpenStream(s', t) == Data(data)
  {
    if acts != [] {
      var p := acts[..|acts| - 1];
      ServedUntilRetention(s, t, data, since, p);
      ServingStep(Run(Next(s, Conclude(t, Assembled(Copied(data)), since)), p), acts[|acts| - 1], t, data, since);
    }
  }

  lemma ServingStep(s: State, a: Action, t: Tid, data: Bytes, since: int)
    requires Serving(s, t, data, since) && !Ends(a, t, since)
    ensures Serving(Next(s, a), t, data, since)
  {
  }

  /** A conclusion of a transfer the service sends is not a reception. */
  predicate Receives(s: State, t: Tid) {
    t in s.active ==> s.active[t].inbound
  }

  /** The file a download should find: the bytes last handed over in full and when, unless something has ended
      their service since. */
  ghost function Available(max: nat, acts: seq<Action>, t: Tid): Option<File> {
    if acts == [] then None
    else
      var p, a := acts[..|acts| - 1], acts[|acts| - 1];
      var was := Available(max, p, t);
      if Delivers(a, t) && Receives(Run(Init(max), p), t) then Some(File(a.report.copy.data, a.now))
      else if was.Some? && !Ends(a, t, was.value.mtime) then was
      else None
  }

  /** A complete transfer has released its resource, and its file is the available one. */
  ghost predicate ServesAvailable(s: State, t: Tid, f: Option<File>) {
    && (f.Some? <==> OpenStream(s, t).Data?)
    && (f.Some? ==> Serving(s, t, f.value.data, f.value.mtime))
    && (t in s.active && s.active[t].status == COMPLETE && s.active[t].temp ==> !s.active[t].resource)
  }

  lemma AvailableStep(s: State, a: Action, t: Tid, f: Option<File>)
    requires ServesAvailable(s, t, f)
    ensures ServesAvailable(Next(s, a), t,
                            if Delivers(a, t) && Receives(s, t) then Some(File(a.report.copy.data, a.now))
                            else if f.Some? && !Ends(a, t, f.value.mtime) then f else None)
  {
  }

  lemma {:induction false} AvailableRun(max: nat, acts: seq<Action>, t: Tid)
    ensures ServesAvailable(Run(Init(max), acts), t, Available(max, acts, t))
  {
    if acts != [] {
      var p := acts[..|acts| - 1];
      AvailableRun(max, p, t);
      AvailableStep(Run(Init(max), p), acts[|acts| - 1], t, Available(max, p, t));
    }
  }

  /** Main result. In every run, a download yields bytes if and only if they were handed over in full for that
      received transfer and since then the transfer was not concluded again, cancelled, deleted or cleaned up,
      and no sweep found them older than the retention time; and it yields those bytes. */
  lemma ServedExactly(max: nat, acts: seq<Action>, t: Tid)
    ensures var served, f := OpenStream(Run(Init(max), acts), t), Available(max, acts, t);
            (served.Data? <==> f.Some?) && (f.Some? ==> served == Data(f.value.data))
  {
    AvailableRun(max, acts, t);
  }

  /** A file goes exactly with the cancel, the delete or the cleanup of the transfer that holds it, or when a
      sweep finds it too old. */
  lemma FilesGoExactly(s: State, a: Action, t: Tid)
    requires t in s.files
    ensures t !in Next(s, a).files <==>
              || ((a == Cancel(t) || a == Delete(t) || a == Cleanup) && t in s.active && s.active[t].temp)
              || (a.Sweep? && a.now - s.files[t].mtime > a.retention)
  {
  }

  /** The events are told in the order of the conclusions; a completed one says COMPLETE only for bytes
      handed over in full, and carries them exactly when they fit. */
  ghost predicate Truthful(e: Event, max: nat, acts: seq<Action>) {
    e.Completed? && e.status == COMPLETE ==>
      exists i :: 0 <= i < |acts| && Tells(e, acts[i], max)
  }

  predicate Tells(e: Event, a: Action, max: nat)
    requires e.Completed?
  {
    && a.Conclude? && a.t == e.t && a.report.Assembled? && a.report.copy.Copied?
    && e.total == |a.report.copy.data|
    && e.inlined == (if |a.report.copy.data| <= max then Some(a.report.copy.data) else None)
  }

  /** Main result. In every run, each `resource.completed` event with status COMPLETE tells the size of
      bytes that were handed over in full, and inlines them exactly when there are at most max_inline_bytes. */
  lemma {:induction false} CompletedEventsTell(max: nat, acts: seq<Action>)
    ensures var s := Run(Init(max), acts);
            s.maxInline == max && forall i | 0 <= i < |s.events| :: Truthful(s.events[i], max, acts)
  {
    if acts != [] {
      var p, n := acts[..|acts| - 1], |acts| - 1;
      CompletedEventsTell(max, p);
      var s, s' := Run(Init(max), p), Run(Init(max), acts);
      forall i | 0 <= i < |s'.events| ensures Truthful(s'.events[i], max, acts) {
        if i < |s.events| {
          TruthfulStays(s.events[i], max, p, acts);
        } else if s'.events[i].Completed? && s'.events[i].status == COMPLETE {
          assert Tells(s'.events[i], acts[n], max);
        }
      }
    }
  }

  lemma TruthfulStays(e: Event, max: nat, p: seq<Action>, acts: seq<Action>)
    requires acts != [] && p == acts[..|acts| - 1] && Truthful(e, max, p)
    ensures Truthful(e, max, acts)
  {
    if e.Completed? && e.status == COMPLETE {
      var i :| 0 <= i < |p| && Tells(e, p[i], max);
      assert Tells(e, acts[i], max);
    }
  }

  /** A copy that failed is still announced with `resource.completed`, never with `resource.failed`. */
  lemma FailedCopyAnnouncedComplete(s: State, t: Tid, left: Option<Bytes>, now: int)
    requires t in s.active ==> s.active[t].inbound
    ensures var s' := Next(s, Conclude(t, Assembled(Broke(left)), now));
            && OpenStream(s', t) == NotComplete
            && exists e: Event :: s'.events == s.events + [e] && e.Completed? && e.status == FAILED
  {
    var s' := Next(s, Conclude(t, Assembled(Broke(left)), now));
    assert s'.events == s.events + [s'.events[|s.events|]];
  }

  // ---------- the classes ----------

  const CHUNK := 65536

  /** The file-like object RNS hands over. */
  class DataHandle {
    const content: Bytes
    var pos: nat

    constructor (content: Bytes)
      ensures Valid() && this.content == content && pos == 0
    {
      this.content, pos := content, 0;
    }

    ghost predicate Valid()
      reads this
    {
      pos <= |content|
    }

    /** `seek(0)`; a handle that cannot seek raises and stays where it is. */
    method SeekStart(raises: bool)
      requires Valid()
      modifies `pos
      ensures Valid() && pos == if raises then old(pos) else 0
    {
      pos := if raises then pos else 0;
    }

    /** `read(limit)` may return fewer bytes than asked for, none only at the end. */
    method Read(limit: nat) returns (chunk: Bytes)
      requires Valid() && limit > 0
      modifies `pos
      ensures Valid() && pos == old(pos) + |chunk|
      ensures chunk == content[old(pos)..pos] && |chunk| <= limit
      ensures chunk == [] <==> old(pos) == |content|
    {
      if pos == |content| {
        return [];
      }
      var n: nat :| 1 <= n <= limit && pos + n <= |content|;
      chunk := content[pos..pos + n];
      pos := pos + n;
    }
  }

  lemma Slices(s: Bytes, i: nat, j: nat, k: nat)
    requires i <= j <= k <= |s|
    ensures s[i..j] + s[j..k] == s[i..k]
    ensures j == |s| ==> s[i..j] == s[i..]
  {
  }

  class TransferState {
    const inbound: bool
    var status: Status
    var resource: bool
    var totalSize: nat
    var bytesTransferred: int
    var progress: real
    var tempPath: Option<Tid>
    var failureReason: Option<Reason>

    constructor (inbound: bool, status: Status, total: nat)
      ensures View() == Fresh(inbound, status, total)
    {
      this.inbound, this.status, resource, totalSize := inbound, status, true, total;
      bytesTransferred, progress, tempPath, failureReason := 0, 0.0, None, None;
    }

    function View(): Transfer
      reads this
    {
      Transfer(inbound, status, resource, totalSize, bytesTransferred, progress, tempPath.Some?, failureReason)
    }

    /** The fields written after the copy, or for a resource that did not complete. */
    method Apply(t: Tid, r: Report)
      requires tempPath.Some? ==> tempPath.value == t
      modifies this
      ensures View() == AfterReport(old(View()), r) && (tempPath.Some? ==> tempPath.value == t)
    {
      match r {
      case Assembled(Copied(data)) =>
        status, tempPath, totalSize := COMPLETE, Some(t), |data|;
        bytesTransferred, progress := totalSize, 1.0;
      case Assembled(Broke(_)) => status, failureReason := FAILED, Some(CopyFailed);
      case Ended(st) =>
        status := st;
        failureReason := if failureReason.Some? then failureReason else Some(EndedAs(st));
      }
      resource := false;
    }
  }

  ghost function Views(m: map<Tid, TransferState>): map<Tid, Transfer>
    reads m.Values
  {
    map t | t in m :: m[t].View()
  }

  class Resources {
    const maxInline: nat
    var files: map<Tid, File>
    var activeTransfers: map<Tid, TransferState>
    var events: seq<Event>

    constructor (maxInline: nat)
      ensures Valid() && View() == Init(maxInline)
    {
      this.maxInline, files, activeTransfers, events := maxInline, map[], map[], [];
    }

    ghost predicate Valid()
      reads this, activeTransfers.Values
    {
      && (forall t, u | t in activeTransfers && u in activeTransfers && activeTransfers[t] == activeTransfers[u] ::
            t == u)
      && forall t | t in activeTransfers :: activeTransfers[t].tempPath.Some? ==> activeTransfers[t].tempPath.value == t
    }

    ghost function View(): State
      reads this, activeTransfers.Values
    {
      State(maxInline, files, Views(activeTransfers), events)
    }

    /** The fallback loop over the handle; reading chunk `failAt` raises. What is written is everything
        from where the handle stood when the loop began. */
    method CopyThrough(h: DataHandle, dest: Tid, now: int, seekRaises: bool, failAt: nat) returns (copy: Copy)
      requires h.Valid()
      modifies `files, h`pos
      ensures files == AfterCopy(old(files), dest, copy, now)
      ensures var rest := h.content[if seekRaises then old(h.pos) else 0..];
              && (copy.Copied? ==> copy.data == rest)
              && (copy.Broke? ==> copy.left.Some? && copy.left.value <= rest)
      ensures failAt > |h.content| ==> copy.Copied?
    {
      files := files[dest := File([], now)];
      h.SeekStart(seekRaises);
      ghost var start := h.pos;
      var chunks := 0;
      var chunk: Bytes := [0];
      assert h.content[start..start] == [];
      while chunk != []
        invariant h.Valid() && start <= h.pos && chunks <= h.pos - start + 1
        invariant chunk != [] ==> chunks <= h.pos - start
        invariant files == old(files)[dest := File(h.content[start..h.pos], now)]
        invariant chunk == [] ==> h.pos == |h.content|
        decreases |h.content| - h.pos, |chunk|
      {
        if chunks == failAt {
          return Broke(Some(files[dest].data));
        }
        ghost var before := h.pos;
        chunk := h.Read(CHUNK);
        chunks := chunks + 1;
        Slices(h.content, start, before, h.pos);
        files := files[dest := File(files[dest].data + chunk, now)];
      }
      Slices(h.content, start, h.pos, |h.content|);
      copy := Copied(files[dest].data);
    }

    /** The copy: from the file the handle names if it exists, else through the handle. `failAt` zero is
        an exception before anything is written. */
    method Assemble(h: DataHandle, named: Option<Bytes>, dest: Tid, now: int, seekRaises: bool, failAt: nat)
      returns (copy: Copy)
      requires h.Valid()
      modifies `files, h`pos
      ensures files == AfterCopy(old(files), dest, copy, now)
      ensures copy.Copied? ==>
                copy.data == if named.Some? then named.value else h.content[if seekRaises then old(h.pos) else 0..]
      ensures failAt > |h.content| ==> copy.Copied?
    {
      if named.None? {
        copy := CopyThrough(h, dest, now, seekRaises, failAt);
      } else if failAt == 0 {
        copy := Broke(None);
      } else {
        files := files[dest := File(named.value, now)];
        copy := Copied(named.value);
      }
    }

    /** The listed transfer, or a new one. */
    method FindState(t: Tid) returns (state: TransferState)
      requires Valid()
      modifies `activeTransfers
      ensures Valid() && t in activeTransfers && activeTransfers[t] == state
      ensures state.View() == Found(old(View()), t)
      ensures View() == old(View()).(active := old(View()).active[t := state.View()])
      ensures fresh(activeTransfers.Values - old(activeTransfers.Values))
    {
      if t in activeTransfers {
        state := activeTransfers[t];
      } else {
        state := new TransferState(true, PENDING, 0);
        activeTransfers := activeTransfers[t := state];
      }
      assert Views(activeTransfers) == old(Views(activeTransfers))[t := state.View()];
    }

    /** Settle the transfer and send its terminal event. */
    method Settle(t: Tid, state: TransferState, r: Report)
      requires Valid() && t in activeTransfers && activeTransfers[t] == state
      modifies state, `events
      ensures Valid()
      ensures var s := old(View()).(active := old(View()).active[t := AfterReport(old(View()).active[t], r)]);
              View() == s.(events := s.events + [Announced(s, t, r)])
    {
      state.Apply(t, r);
      assert Views(activeTransfers) == old(Views(activeTransfers))[t := state.View()];
      Announce(t, state, r);
    }

    /** The terminal event, from the settled transfer and from what is on disk. */
    method Announce(t: Tid, state: TransferState, r: Report)
      requires Valid() && t in activeTransfers && activeTransfers[t] == state
      modifies `events
      ensures events == old(events) + [Announced(old(View()), t, r)]
    {
      if r.Assembled? {
        var inlined := None;
        if state.tempPath.Some? && state.tempPath.value in files && |files[state.tempPath.value].data| <= maxInline {
          inlined := Some(files[state.tempPath.value].data);
        }
        events := events + [Completed(t, state.status, state.totalSize, inlined)];
      } else {
        events := events + [Failed(t, state.status)];
      }
    }

    /** `_on_receive_concluded` for a resource RNS reports COMPLETE. */
    method OnComplete(t: Tid, h: DataHandle, named: Option<Bytes>, now: int, seekRaises: bool, failAt: nat)
      returns (copy: Copy)
      requires Valid() && h.Valid() && (t in activeTransfers ==> activeTransfers[t].inbound)
      modifies this, activeTransfers.Values, h`pos
      ensures Valid() && View() == Next(old(View()), Conclude(t, Assembled(copy), now))
      ensures copy.Copied? ==>
                && files == old(files)[t := File(copy.data, now)]
                && events == old(events) + [Completed(t, COMPLETE, |copy.data|,
                                                      if |copy.data| <= maxInline then Some(copy.data) else None)]
      ensures failAt > |h.content| ==> copy.Copied?
      ensures copy.Copied? ==>
                copy.data == if named.Some? then named.value else h.content[if seekRaises then old(h.pos) else 0..]
    {
      ghost var s := View();
      var state;
      state, copy := CopyFor(t, h, named, now, seekRaises, failAt);
      ConcludeInOrder(s, t, Assembled(copy), now);
      Settle(t, state, Assembled(copy));
    }

    /** The transfer of a conclusion, and the copy of its bytes. */
    method CopyFor(t: Tid, h: DataHandle, named: Option<Bytes>, now: int, seekRaises: bool, failAt: nat)
      returns (state: TransferState, copy: Copy)
      requires Valid() && h.Valid()
      modifies `files, `activeTransfers, h`pos
      ensures Valid() && t in activeTransfers && activeTransfers[t] == state
      ensures fresh(activeTransfers.Values - old(activeTransfers.Values))
      ensures View() == old(View()).(active := old(View()).active[t := Found(old(View()), t)],
                                     files := FilesAfter(old(View()).files, t, Assembled(copy), now))
      ensures failAt > |h.content| ==> copy.Copied?
      ensures copy.Copied? ==>
                copy.data == if named.Some? then named.value else h.content[if seekRaises then old(h.pos) else 0..]
    {
      state := FindState(t);
      copy := AssembleKept(h, named, t, now, seekRaises, failAt);
    }

    /** The copy leaves every transfer alone. */
    method AssembleKept(h: DataHandle, named: Option<Bytes>, dest: Tid, now: int, seekRaises: bool, failAt: nat)
      returns (copy: Copy)
      requires Valid() && h.Valid()
      modifies `files, h`pos
      ensures Valid() && View() == old(View()).(files := AfterCopy(old(files), dest, copy, now))
      ensures failAt > |h.content| ==> copy.Copied?
      ensures copy.Copied? ==>
                copy.data == if named.Some? then named.value else h.content[if seekRaises then old(h.pos) else 0..]
    {
      ghost var views := Views(activeTransfers);
      copy := Assemble(h, named, dest, now, seekRaises, failAt);
      assert Views(activeTransfers) == views;
    }

    /** `_on_receive_concluded` for a resource that ended otherwise. */
    method OnEnded(t: Tid, st: Unfinished, now: int)
      requires Valid() && (t in activeTransfers ==> activeTransfers[t].inbound)
      modifies this, activeTransfers.Values
      ensures Valid() && View() == Next(old(View()), Conclude(t, Ended(st), now))
      ensures files == old(files) && events == old(events) + [Failed(t, st)]
    {
      ConcludeInOrder(View(), t, Ended(st), now);
      var state := FindState(t);
      Settle(t, state, Ended(st));
    }

    /** `_sweep_once`. */
    method SweepOnce(now: int, retention: int) returns (removed: nat)
      requires Valid()
      modifies `files
      ensures Valid() && View() == Next(old(View()), Sweep(now, retention))
      ensures forall t :: t in files <==> t in old(files) && now - old(files)[t].mtime <= retention
      ensures forall t | t in files :: files[t] == old(files)[t]
      ensures removed + |files| == |old(files)|
    {
      var rest := files.Keys;
      removed := 0;
      while rest != {}
        invariant rest <= files.Keys <= old(files).Keys
        invariant forall t | t in files :: files[t] == old(files)[t]
        invariant forall t | t in old(files) && t !in rest :: t in files <==> !Expired(old(files)[t], now, retention)
        invariant removed + |files| == |old(files)|
        decreases |rest|
      {
        var t :| t in rest;
        if now - files[t].mtime > retention {
          assert (files - {t}).Keys == files.Keys - {t};
          files := files - {t};
          removed := removed + 1;
        }
        rest := rest - {t};
      }
      assert files == Kept(old(files), now, retention);
    }
  }
}
