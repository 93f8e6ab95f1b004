/**
  Who owns an uploaded file: the upload handler of src/rnsapi/handlers/resources.py and the send side of
  src/rnsapi/rns/resources.py. `unlink` is taken to succeed; upload paths are random and never reused.
*/
module Uploads {
  import opened Statuses
  import opened Text
  import opened Wrappers

  type Path = nat
  type Tid = nat

  datatype Transfer = Transfer(upload: Option<Path>, status: Status, resource: bool)

  /** `transfers` has every outbound transfer whose callbacks may still run, `active` those the session
      lists; `uploading` are files the handler has written and not yet handed to `send`. */
  datatype State = State(
    files: set<Path>,
    uploading: set<Path>,
    used: set<Path>,
    transfers: map<Tid, Transfer>,
    active: set<Tid>)

  const INIT := State({}, {}, {}, map[], {})

  /** `Report` writes a status: a progress callback, the status `send` adopts from the new resource, or the
      first line of `_on_complete`. `Complete` is the rest of `_on_complete`. */
  datatype Action =
    | Upload(p: Path)
    | Refuse(p: Path)
    | Accept(p: Path, t: Tid, resource: bool)
    | Report(t: Tid, st: Status)
    | Complete(t: Tid, st: Status)
    | Delete(t: Tid)
    | Cleanup
    | Sweep(stale: set<Path>)

  /** Removing the upload file of transfer `t`, if it still has one. */
  function Unlinked(s: State, t: Tid): set<Path>
    requires t in s.transfers
  {
    if s.transfers[t].upload.Some? then s.files - {s.transfers[t].upload.value} else s.files
  }

  /** `_on_complete`. */
  function Completed(s: State, t: Tid, st: Status): State
    requires t in s.transfers
  {
    s.(files := Unlinked(s, t), transfers := s.transfers[t := Transfer(None, st, false)])
  }

  /** `cancel`; `resource.cancel()` may run `_on_complete` first, which leaves the same files. */
  function Cancelled(s: State, t: Tid): State
    requires t in s.transfers
  {
    s.(files := Unlinked(s, t), transfers := s.transfers[t := Transfer(None, CANCELLED, s.transfers[t].resource)])
  }

  /** The upload files of the transfers in `ts`. */
  function FilesOf(s: State, ts: set<Tid>): set<Path> {
    set t | t in ts && t in s.transfers && s.transfers[t].upload.Some? :: s.transfers[t].upload.value
  }

  function PathSet(p: Option<Path>): set<Path> {
    if p.Some? then {p.value} else {}
  }

  function Next(s: State, a: Action): State {
    match a
    case Upload(p) =>
      if p in s.used then s
      else s.(files := s.files + {p}, uploading := s.uploading + {p}, used := s.used + {p})
    case Refuse(p) =>
      if p !in s.uploading then s else s.(files := s.files - {p}, uploading := s.uploading - {p})
    case Accept(p, t, resource) =>
      if p !in s.uploading || t in s.transfers then s
      else s.(uploading := s.uploading - {p}, active := s.active + {t},
              transfers := s.transfers[t := Transfer(Some(p), PENDING, resource)])
    case Report(t, st) =>
      if t in s.transfers && s.transfers[t].resource
      then s.(transfers := s.transfers[t := s.transfers[t].(status := st)]) else s
    case Complete(t, st) => if t in s.transfers && s.transfers[t].resource then Completed(s, t, st) else s
    case Delete(t) =>
      if t !in s.active || t !in s.transfers then s
      else (if InFlight(s.transfers[t].status) then Cancelled(s, t) else s).(active := s.active - {t})
    case Cleanup => s.(files := s.files - FilesOf(s, s.active), active := {})
    case Sweep(stale) => s.(files := s.files - stale)
  }

  function Run(s: State, acts: seq<Action>): State
    decreases |acts|
  {
    if acts == [] then s else Run(Next(s, acts[0]), acts[1..])
  }

  ghost predicate Refers(s: State, t: Tid, p: Path) {
    t in s.transfers && s.transfers[t].upload == Some(p)
  }

  ghost predicate Inv(s: State) {
    && s.files <= s.used && s.uploading <= s.used
    && s.active <= s.transfers.Keys
    && (forall t, p | Refers(s, t, p) :: p in s.used && p !in s.uploading)
    && (forall t, u, p | Refers(s, t, p) && Refers(s, u, p) :: t == u)
    && (forall p | p in s.files && p !in s.uploading :: exists t :: Refers(s, t, p))
  }

  lemma Step(s: State, a: Action)
    requires Inv(s)
    ensures Inv(Next(s, a))
  {
    var s' := Next(s, a);
    assert forall t | t in s.transfers && s.transfers[t].upload.Some? :: Refers(s, t, s.transfers[t].upload.value);
    forall t, p | Refers(s', t, p) ensures Refers(s, t, p) || (a.Accept? && a.t == t && a.p == p && p in s.uploading) {
    }
    forall p | p in s'.files && p !in s'.uploading ensures exists t :: Refers(s', t, p) {
      if a.Accept? && p == a.p && s' != s {
        assert Refers(s', a.t, p);
      } else {
        assert p in s.files && p !in s.uploading;
        var t :| Refers(s, t, p);
        assert Refers(s', t, p);
      }
    }
  }

  lemma {:induction false} InvRun(s: State, acts: seq<Action>)
    requires Inv(s)
    ensures Inv(Run(s, acts))
    decreases |acts|
  {
    if acts != [] {
      Step(s, acts[0]);
      InvRun(Next(s, acts[0]), acts[1..]);
    }
  }

  /** Main result. At every point of every run each upload file on disk is either still in the hands of
      its upload handler or referenced by exactly one transfer. */
  lemma OneOwner(acts: seq<Action>, p: Path)
    requires p in Run(INIT, acts).files
    ensures var s := Run(INIT, acts);
            && (p in s.uploading ==> forall t :: !Refers(s, t, p))
            && (p !in s.uploading ==> exists t :: Refers(s, t, p) && forall u | Refers(s, u, p) :: u == t)
  {
    InvRun(INIT, acts);
    var s := Run(INIT, acts);
    if p !in s.uploading {
      var t :| Refers(s, t, p);
    }
  }

  /** The action ends transfer `t`. */
  predicate Ends(s: State, a: Action, t: Tid) {
    || (a == Cleanup && t in s.active)
    || (a.Complete? && a.t == t && t in s.transfers && s.transfers[t].resource)
    || (a.Delete? && a.t == t && t in s.active && t in s.transfers && InFlight(s.transfers[t].status))
  }

  /** Main result. Completing, cancelling and session cleanup remove the transfer's upload file, and any
      file that goes belongs to a transfer the action ended or an upload it refused, or was swept as too old. */
  lemma EndRemovesOwnFile(acts: seq<Action>, a: Action)
    ensures var s := Run(INIT, acts);
            var s' := Next(s, a);
            && (forall t, p | Ends(s, a, t) && Refers(s, t, p) :: p !in s'.files)
            && (forall p | p in s.files && p !in s'.files ::
                  (exists t :: Ends(s, a, t) && Refers(s, t, p)) || a == Refuse(p) || (a.Sweep? && p in a.stale))
  {
    InvRun(INIT, acts);
    var s := Run(INIT, acts);
    var s' := Next(s, a);
    forall p | p in s.files && p !in s'.files
      ensures (exists t :: Ends(s, a, t) && Refers(s, t, p)) || a == Refuse(p) || (a.Sweep? && p in a.stale)
    {
      if a == Cleanup {
        var t :| t in s.active && t in s.transfers && s.transfers[t].upload == Some(p);
        assert Ends(s, a, t) && Refers(s, t, p);
      } else if a != Refuse(p) && !a.Sweep? {
        assert Ends(s, a, a.t) && Refers(s, a.t, p);
      }
    }
  }

  // ---------- deletion without cancelling ----------

  /** Every file that is no longer an upload belongs to a transfer the session can still reach. */
  ghost predicate NoOrphans(s: State) {
    forall t, p | Refers(s, t, p) && p in s.files :: t in s.active
  }

  /** A delete of a transfer that still has its file and whose status is not among the six. */
  predicate DeletesUncancelled(s: State, a: Action) {
    && a.Delete? && a.t in s.active && a.t in s.transfers && !InFlight(s.transfers[a.t].status)
    && s.transfers[a.t].upload.Some? && s.transfers[a.t].upload.value in s.files
  }

  ghost predicate AlwaysNoOrphans(s: State, acts: seq<Action>)
    decreases |acts|
  {
    NoOrphans(s) && (acts != [] ==> AlwaysNoOrphans(Next(s, acts[0]), acts[1..]))
  }

  ghost predicate NeverDeletesUncancelled(s: State, acts: seq<Action>)
    decreases |acts|
  {
    acts != [] ==> !DeletesUncancelled(s, acts[0]) && NeverDeletesUncancelled(Next(s, acts[0]), acts[1..])
  }

  lemma OrphanStep(s: State, a: Action)
    requires Inv(s) && NoOrphans(s)
    ensures NoOrphans(Next(s, a)) <==> !DeletesUncancelled(s, a)
  {
    var s' := Next(s, a);
    if DeletesUncancelled(s, a) {
      assert Refers(s', a.t, s.transfers[a.t].upload.value);
    } else {
      forall t, p | Refers(s', t, p) && p in s'.files ensures t in s'.active {
        assert Refers(s, t, p) || (a.Accept? && a.t == t);
      }
    }
  }

  /** Main result. Over every run, no file is ever left to a transfer that was deleted, if and only if no
      `delete` meets a transfer that still has its file in a status outside the six: such a delete
      forgets the transfer without cancelling it or removing the file. */
  lemma {:induction false} OrphansExactly(s: State, acts: seq<Action>)
    requires Inv(s) && NoOrphans(s)
    ensures AlwaysNoOrphans(s, acts) <==> NeverDeletesUncancelled(s, acts)
    decreases |acts|
  {
    if acts != [] {
      Step(s, acts[0]);
      OrphanStep(s, acts[0]);
      if !DeletesUncancelled(s, acts[0]) { OrphansExactly(Next(s, acts[0]), acts[1..]); }
    }
  }

  /** It happens: RNS may report NONE right after the resource was created. */
  lemma DeleteOrphans(p: Path, t: Tid)
    ensures !NoOrphans(Run(INIT, [Upload(p), Accept(p, t, true), Report(t, NONE), Delete(t)]))
  {
    var acts := [Upload(p), Accept(p, t, true), Report(t, NONE), Delete(t)];
    var s1 := Next(INIT, acts[0]);
    var s2 := Next(s1, acts[1]);
    var s3 := Next(s2, acts[2]);
    var s4 := Next(s3, acts[3]);
    assert acts[1..][1..] == acts[2..] && acts[2..][1..] == acts[3..] && acts[3..][1..] == [];
    assert Run(INIT, acts) == Run(s1, acts[1..]);
    assert Run(s1, acts[1..]) == Run(s2, acts[2..]);
    assert Run(s2, acts[2..]) == Run(s3, acts[3..]);
    assert Run(s3, acts[3..]) == Run(s4, []) == s4;
    assert Refers(s4, t, p) && p in s4.files && t !in s4.active;
  }

  /** An uninterrupted completion is its first line and the rest. */
  lemma CompletionInTwo(s: State, t: Tid, st: Status)
    requires t in s.transfers && s.transfers[t].resource
    ensures Next(Next(s, Report(t, st)), Complete(t, st)) == Next(s, Complete(t, st))
  {
    var s1 := Next(s, Report(t, st));
    assert s1.transfers[t := Transfer(None, st, false)] == s.transfers[t := Transfer(None, st, false)];
  }

  /** A delete between the two finds a COMPLETE transfer that still has its file: it unlists the transfer and
      leaves the file, which the rest of the completion then removes. */
  lemma DeleteAmidCompletion(p: Path, t: Tid)
    ensures var s := Run(INIT, [Upload(p), Accept(p, t, true), Report(t, COMPLETE), Delete(t)]);
            && !NoOrphans(s) && t !in s.active && p in s.files
            && p !in Next(s, Complete(t, COMPLETE)).files
  {
    var acts := [Upload(p), Accept(p, t, true), Report(t, COMPLETE), Delete(t)];
    var s1 := Next(INIT, acts[0]);
    var s2 := Next(s1, acts[1]);
    var s3 := Next(s2, acts[2]);
    var s4 := Next(s3, acts[3]);
    assert acts[1..][1..] == acts[2..] && acts[2..][1..] == acts[3..] && acts[3..][1..] == [];
    assert Run(INIT, acts) == Run(s1, acts[1..]);
    assert Run(s1, acts[1..]) == Run(s2, acts[2..]);
    assert Run(s2, acts[2..]) == Run(s3, acts[3..]);
    assert Run(s3, acts[3..]) == Run(s4, []) == s4;
    assert Refers(s4, t, p) && p in s4.files && t !in s4.active;
  }

  // ---------- the classes ----------

  function Concat(chunks: seq<Bytes>): Bytes {
    if chunks == [] then [] else Concat(chunks[..|chunks| - 1]) + chunks[|chunks| - 1]
  }

  /** The chunks one after the other. */
  lemma {:induction false} ConcatInOrder(a: seq<Bytes>, b: seq<Bytes>, c: Bytes)
    ensures Concat([c]) == c
    ensures Concat(a + b) == Concat(a) + Concat(b)
  {
    assert [c][..0] == [] && Concat([]) + c == c;
    if b == [] {
      assert a + b == a;
    } else {
      var p, x := b[..|b| - 1], b[|b| - 1];
      assert (a + b)[..|a + b| - 1] == a + p;
      ConcatInOrder(a, p, c);
    }
  }

  class TransferState {
    var upload: Option<Path>
    var status: Status
    var resource: bool

    constructor (upload: Option<Path>)
      ensures View() == Transfer(upload, PENDING, false)
    {
      this.upload, status, resource := upload, PENDING, false;
    }

    function View(): Transfer
      reads this
    {
      Transfer(upload, status, resource)
    }
  }

  /** What became of the call of `svc.send`: refused with a ResourceError, an exception from opening the
      file after the transfer was registered, or accepted. */
  datatype SendOutcome = Refused | OpenFailed | Started

  datatype Reply = UploadFailed | EmptyBody | SendRefused | ServerError | Sent

  /** The answer to an upload: whether the body could be read, its length, and what `send` did. */
  function ReplyTo(ok: bool, totalWritten: nat, outcome: SendOutcome): Reply {
    if !ok then UploadFailed
    else if totalWritten == 0 then EmptyBody
    else match outcome case Refused => SendRefused case OpenFailed => ServerError case Started => Sent
  }

  /** A transfer was registered, so the file stays. */
  predicate Kept(reply: Reply) {
    reply == Sent || reply == ServerError
  }

  ghost function Views(all: map<Tid, TransferState>): map<Tid, Transfer>
    reads all.Values
  {
    map t | t in all :: all[t].View()
  }

  class Resources {
    var files: map<Path, Bytes>
    var activeTransfers: map<Tid, TransferState>
    ghost var all: map<Tid, TransferState>
    ghost var used: set<Path>

    constructor ()
      ensures Valid() && View() == INIT
    {
      files, activeTransfers, all, used := map[], map[], map[], {};
    }

    ghost predicate Valid()
      reads this
    {
      && (forall t, u | t in all && u in all && all[t] == all[u] :: t == u)
      && (forall t | t in activeTransfers :: t in all && all[t] == activeTransfers[t])
    }

    ghost function View(): State
      reads this, all.Values
    {
      State(files.Keys, {}, used, Views(all), activeTransfers.Keys)
    }

    method Unlink(p: Option<Path>)
      modifies `files
      ensures files == old(files) - PathSet(p)
    {
      if p.Some? {
        files := files - {p.value};
      }
    }

    /** The chunk loop of `rest_send_resource`; reading chunk `failAt` raises. */
    method WriteBody(p: Path, chunks: seq<Bytes>, failAt: nat) returns (ok: bool, totalWritten: nat)
      modifies `files
      ensures files.Keys == old(files).Keys + {p} && forall q | q in old(files) && q != p :: files[q] == old(files)[q]
      ensures ok <==> failAt >= |chunks|
      ensures ok ==> files[p] == Concat(chunks) && totalWritten == |Concat(chunks)|
    {
      files := files[p := []];
      totalWritten := 0;
      for i := 0 to |chunks|
        invariant i <= failAt
        invariant files == old(files)[p := Concat(chunks[..i])]
        invariant totalWritten == |files[p]|
      {
        if i == failAt {
          return false, totalWritten;
        }
        assert chunks[..i + 1][..i] == chunks[..i];
        files := files[p := files[p] + chunks[i]];
        totalWritten := totalWritten + |chunks[i]|;
      }
      assert chunks[..|chunks|] == chunks;
      ok := true;
    }

    /** `send` registers the transfer that takes over file `p`. */
    method Register(t: Tid, p: Path, resource: bool)
      requires Valid() && t !in all
      modifies `activeTransfers, `all
      ensures Valid()
      ensures View() == old(View()).(active := old(View()).active + {t},
                                     transfers := old(View()).transfers[t := Transfer(Some(p), PENDING, resource)])
    {
      var state := new TransferState(Some(p));
      state.resource := resource;
      Enlist(t, state);
    }

    method Enlist(t: Tid, state: TransferState)
      requires Valid() && t !in all && state !in all.Values
      modifies `activeTransfers, `all
      ensures Valid()
      ensures View() == old(View()).(active := old(View()).active + {t},
                                     transfers := old(View()).transfers[t := state.View()])
    {
      activeTransfers, all := activeTransfers[t := state], all[t := state];
      assert Views(all) == old(Views(all))[t := state.View()];
    }

    /** The exits of `rest_send_resource` that remove the file. */
    method RemoveUpload(p: Path, ghost before: State)
      requires Valid() && before.uploading == {} && p !in before.used && p !in before.files
      requires View() == before.(used := before.used + {p}, files := before.files + {p})
      modifies `files
      ensures Valid() && files == old(files) - {p} && View() == Next(Next(before, Upload(p)), Refuse(p))
    {
      Unlink(Some(p));
      RefusedView(before, p);
    }

    /** The exits on which a transfer takes the file over. */
    method HandOver(t: Tid, p: Path, resource: bool, ghost before: State)
      requires Valid() && before.uploading == {} && p !in before.used && t !in all
      requires View() == before.(used := before.used + {p}, files := before.files + {p})
      modifies `activeTransfers, `all
      ensures Valid() && View() == Next(Next(before, Upload(p)), Accept(p, t, resource))
    {
      AcceptedView(before, p, t, resource);
      Register(t, p, resource);
    }

    /** `rest_send_resource` after its query has parsed: on every exit but the last two the file is gone
        again; on those it is on disk with exactly the body's bytes and belongs to transfer `t`. */
    method RestSendResource(p: Path, chunks: seq<Bytes>, failAt: nat, outcome: SendOutcome, t: Tid)
      returns (reply: Reply)
      requires Valid() && p !in used && p !in files && t !in all
      modifies `files, `activeTransfers, `all, `used
      ensures Valid()
      ensures reply == UploadFailed <==> failAt < |chunks|
      ensures reply == EmptyBody <==> failAt >= |chunks| && Concat(chunks) == []
      ensures failAt >= |chunks| && Concat(chunks) != [] ==>
                reply == match outcome case Refused => SendRefused case OpenFailed => ServerError case Started => Sent
      ensures files == if reply == Sent || reply == ServerError then old(files)[p := Concat(chunks)] else old(files)
      ensures View() == Next(Next(old(View()), Upload(p)),
                             if Kept(reply) then Accept(p, t, reply == Sent) else Refuse(p))
    {
      ghost var before := View();
      used := used + {p};
      var ok, totalWritten := WriteBody(p, chunks, failAt);
      reply := Dispose(p, ok, totalWritten, outcome, t, before);
    }

    /** What becomes of the written file. */
    method Dispose(p: Path, ok: bool, totalWritten: nat, outcome: SendOutcome, t: Tid, ghost before: State)
      returns (reply: Reply)
      requires Valid() && before.uploading == {} && p !in before.used && p !in before.files && t !in all
      requires View() == before.(used := before.used + {p}, files := before.files + {p})
      modifies `files, `activeTransfers, `all
      ensures Valid() && reply == ReplyTo(ok, totalWritten, outcome)
      ensures files == if Kept(reply) then old(files) else old(files) - {p}
      ensures View() == Next(Next(before, Upload(p)), if Kept(reply) then Accept(p, t, reply == Sent) else Refuse(p))
    {
      reply := ReplyTo(ok, totalWritten, outcome);
      if Kept(reply) {
        HandOver(t, p, outcome == Started, before);
      } else {
        RemoveUpload(p, before);
      }
    }

    lemma RefusedView(s: State, p: Path)
      requires s.uploading == {} && p !in s.used && p !in s.files
      ensures Next(Next(s, Upload(p)), Refuse(p)) == s.(used := s.used + {p})
    {
      assert s.files + {p} - {p} == s.files;
    }

    lemma AcceptedView(s: State, p: Path, t: Tid, resource: bool)
      requires s.uploading == {} && p !in s.used && t !in s.transfers
      ensures Next(Next(s, Upload(p)), Accept(p, t, resource)) ==
                s.(used := s.used + {p}, files := s.files + {p}, active := s.active + {t},
                   transfers := s.transfers[t := Transfer(Some(p), PENDING, resource)])
    {
    }

    /** Remove the upload file and record how the transfer ended. */
    method Settle(ghost t: Tid, state: TransferState, st: Status, resource: bool)
      requires Valid() && t in all && all[t] == state
      modifies `files, state
      ensures Valid() && state.View() == Transfer(None, st, resource)
      ensures files == old(files) - PathSet(old(state.upload))
      ensures View() == old(View()).(files := Unlinked(old(View()), t),
                                     transfers := old(View()).transfers[t := Transfer(None, st, resource)])
    {
      Unlink(state.upload);
      state.upload, state.status, state.resource := None, st, resource;
      assert Views(all) == old(Views(all))[t := Transfer(None, st, resource)];
    }

    /** `_on_complete`. */
    method OnComplete(ghost t: Tid, state: TransferState, st: Status)
      requires Valid() && t in all && all[t] == state && state.resource
      modifies `files, state
      ensures Valid() && View() == Next(old(View()), Complete(t, st))
      ensures files == old(files) - PathSet(old(state.upload)) && state.View() == Transfer(None, st, false)
    {
      Settle(t, state, st, false);
    }

    /** `cancel`; when `completes`, RNS runs `_on_complete` inside `resource.cancel()`. */
    method Cancel(ghost t: Tid, state: TransferState, completes: bool)
      requires Valid() && t in all && all[t] == state && (completes ==> state.resource)
      modifies `files, state
      ensures Valid()
      ensures View() == Cancelled(if completes then Next(old(View()), Complete(t, FAILED)) else old(View()), t)
      ensures files == old(files) - PathSet(old(state.upload)) && state.upload == None && state.status == CANCELLED
    {
      if completes {
        OnComplete(t, state, FAILED);
      }
      Settle(t, state, CANCELLED, state.resource);
    }

    method DeleteTransfer(t: Tid) returns (found: bool)
      requires Valid()
      modifies `files, `activeTransfers, activeTransfers.Values
      ensures Valid() && found == (t in old(activeTransfers)) && activeTransfers == old(activeTransfers) - {t}
      ensures View() == Next(old(View()), Delete(t))
      ensures var cancels := found && InFlight(old(activeTransfers[t].status));
              files == if cancels then old(files) - PathSet(old(activeTransfers[t].upload)) else old(files)
    {
      if t !in activeTransfers {
        return false;
      }
      DeleteIs(View(), t);
      CancelIfActive(t, activeTransfers[t]);
      Unlist(t);
      found := true;
    }

    method Unlist(t: Tid)
      requires Valid()
      modifies `activeTransfers
      ensures Valid() && View() == old(View()).(active := old(View()).active - {t})
      ensures activeTransfers == old(activeTransfers) - {t}
    {
      activeTransfers := activeTransfers - {t};
    }

    lemma DeleteIs(s: State, t: Tid)
      requires t in s.active && t in s.transfers
      ensures var s1 := if InFlight(s.transfers[t].status) then Cancelled(s, t) else s;
              Next(s, Delete(t)) == s1.(active := s1.active - {t})
    {
    }

    method CancelIfActive(ghost t: Tid, state: TransferState)
      requires Valid() && t in all && all[t] == state
      modifies `files, state
      ensures Valid()
      ensures View() == if InFlight(old(state.status)) then Cancelled(old(View()), t) else old(View())
      ensures files == if InFlight(old(state.status)) then old(files) - PathSet(old(state.upload)) else old(files)
    {
      if InFlight(state.status) {
        Cancel(t, state, false);
      }
    }

    /** The upload files of the listed transfers in `ts`. */
    ghost function UploadsOf(ts: set<Tid>): set<Path>
      reads this, activeTransfers.Values
    {
      set t | t in ts && t in activeTransfers && activeTransfers[t].upload.Some? :: activeTransfers[t].upload.value
    }

    lemma UploadsMore(done: set<Tid>, t: Tid)
      requires t in activeTransfers
      ensures UploadsOf(done + {t}) == UploadsOf(done) + PathSet(activeTransfers[t].upload)
    {
    }

    method RemoveUploads()
      modifies `files
      ensures files == old(files) - UploadsOf(activeTransfers.Keys)
    {
      ghost var done := {};
      var rest := activeTransfers.Keys;
      while rest != {}
        invariant done + rest == activeTransfers.Keys
        invariant files == old(files) - UploadsOf(done)
        decreases |rest|
      {
        var t :| t in rest;
        RemoveNext(done, t, old(files));
        rest, done := rest - {t}, done + {t};
      }
      assert done == activeTransfers.Keys;
    }

    /** The file of one more transfer. */
    method RemoveNext(ghost done: set<Tid>, t: Tid, ghost before: map<Path, Bytes>)
      requires t in activeTransfers && files == before - UploadsOf(done)
      modifies `files
      ensures files == before - UploadsOf(done + {t})
    {
      UploadsMore(done, t);
      Minus(before, UploadsOf(done), PathSet(activeTransfers[t].upload));
      Unlink(activeTransfers[t].upload);
    }

    lemma Minus(m: map<Path, Bytes>, a: set<Path>, b: set<Path>)
      ensures m - a - b == m - (a + b)
    {
    }

    /** `cleanup_session`. */
    method CleanupSession()
      requires Valid()
      modifies `files, `activeTransfers
      ensures Valid() && View() == Next(old(View()), Cleanup)
      ensures activeTransfers == map[] && files == old(files) - old(UploadsOf(activeTransfers.Keys))
    {
      ghost var s := View();
      assert forall t | t in s.active :: s.transfers[t] == activeTransfers[t].View();
      assert UploadsOf(activeTransfers.Keys) == FilesOf(s, s.active);
      RemoveUploads();
      activeTransfers := map[];
      assert View().files == s.files - FilesOf(s, s.active);
    }
  }
}
