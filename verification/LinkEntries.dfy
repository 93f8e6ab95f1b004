/**
  The link services themselves: `_LinkEntry` objects written in place, `session.open_links`, and the
  methods of src/rnsapi/rns/links.py and src/rnsapi/handlers/links.py that change them. Each method is
  tied to the steps of the protocol that it takes, so what every run of the protocol keeps holds for
  these objects. Between two lines of a method only the status of the link moves here; the runs of the
  protocol cover every other interleaving.
*/
module LinkEntries {
  import opened Text
  import opened LinkProtocol
  import opened LinkSafety
  import opened Wrappers
  import Polling

  // ---------- the steps an operation takes ----------

  function Go(o: Open, c: Choice): Open {
    LocalStep(o, Continue(c))
  }

  /** Everything a continuation asks of its environment succeeds, or fails. */
  const GO := Choice(true, true, true)

  const FAIL := Choice(false, false, false)

  /** A statement that only sends and moves on. */
  predicate OnlyMoves(o: Open, c: Choice) {
    && !(o.pc.Construct? && c.ok) && !o.pc.SetSuppress? && !o.pc.Wire?
    && !(o.pc.Identify? && c.ok) && !o.pc.EmitClear? && !o.pc.EmitUnsuppress?
  }

  function Moved(o: Open, pc: Pc, ms: seq<Mark>): Open {
    o.(pc := pc, hist := if ms == [] then o.hist else o.hist + ms)
  }

  lemma MoveStep(o: Open, c: Choice)
    requires OnlyMoves(o, c)
    ensures Go(o, c) == Moved(o, NextPc(o, c), ContinueMark(o, c))
  {
    assert o.hist + [] == o.hist;
  }

  /** One such statement keeps the invariant of the open. */
  lemma MoveKeeps(o: Open, c: Choice, pc: Pc, ms: seq<Mark>)
    requires OpenInv(o) && OnlyMoves(o, c) && NextPc(o, c) == pc && ContinueMark(o, c) == ms
    ensures OpenInv(Moved(o, pc, ms))
  {
    OpenInvStep(o, Continue(c));
    MoveStep(o, c);
  }

  /** An event that only a WebSocket open sends. */
  function Phase(o: Open, m: Mark): seq<Mark> {
    if o.mode.ws then [m] else []
  }

  /** `_resolve_and_construct_destination`. */
  function Sought(o: Open, hasPath: bool, resolves: bool): Open {
    Moved(o, if resolves then Announce else Failing, if hasPath then [] else Phase(o, FindingPath))
  }

  lemma SoughtKeeps(o: Open, hasPath: bool, resolves: bool)
    requires OpenInv(o) && o.pc == Start
    ensures OpenInv(Sought(o, hasPath, resolves))
  {
    var o1 := Moved(o, Resolve, if hasPath then [] else Phase(o, FindingPath));
    if hasPath {
      MoveKeeps(o, GO, Resolve, []);
    } else {
      MoveKeeps(o, FAIL, PathWait, Phase(o, FindingPath));
      MoveKeeps(Moved(o, PathWait, Phase(o, FindingPath)), GO, Resolve, []);
    }
    MoveKeeps(o1, if resolves then GO else FAIL, if resolves then Announce else Failing, []);
  }

  /** `_create_link_entry` from the construction of the link to the wiring. */
  function Created(o: Open): Open {
    o.(pc := if o.mode.ws || o.mode.awaited then Wait else Ended, link := Some(PENDING), wired := true,
       suppress := Gated(o.mode))
  }

  lemma CreateSteps(o: Open)
    requires o.pc == Construct
    ensures o.mode.ws ==> Go(Go(Go(Go(o, GO), GO), GO), GO) == Created(o)
    ensures !o.mode.ws ==> Go(Go(Go(o, GO), GO), GO) == Created(o)
  {
  }

  lemma ThreeKeep(o: Open)
    requires OpenInv(o)
    ensures OpenInv(Go(Go(Go(o, GO), GO), GO))
  {
    OpenInvStep(o, Continue(GO));
    OpenInvStep(Go(o, GO), Continue(GO));
    OpenInvStep(Go(Go(o, GO), GO), Continue(GO));
  }

  lemma FourKeep(o: Open)
    requires OpenInv(o)
    ensures OpenInv(Go(Go(Go(Go(o, GO), GO), GO), GO))
  {
    ThreeKeep(o);
    OpenInvStep(Go(Go(Go(o, GO), GO), GO), Continue(GO));
  }

  /** From `establishing_link` to the wired link. */
  function Linked(o: Open, constructs: bool): Open {
    var o1 := Moved(o, Construct, Phase(o, EstablishingLink));
    if constructs then Created(o1) else Moved(o1, Failing, [])
  }

  lemma LinkedKeeps(o: Open, constructs: bool)
    requires OpenInv(o) && o.pc == Announce
    ensures OpenInv(Linked(o, constructs))
  {
    var o1 := Moved(o, Construct, Phase(o, EstablishingLink));
    MoveKeeps(o, GO, Construct, Phase(o, EstablishingLink));
    if constructs {
      CreateSteps(o1);
      if o.mode.ws { FourKeep(o1); } else { ThreeKeep(o1); }
    } else {
      MoveKeeps(o1, FAIL, Failing, []);
    }
  }

  function WithStatus(o: Open, st: Status): Open {
    o.(link := Some(st))
  }

  lemma StatusKeeps(o: Open, st: Status)
    requires OpenInv(o) && o.link.Some?
    ensures OpenInv(WithStatus(o, st))
  {
    OpenInvStep(o, SetStatus(st));
    assert o.hist + [] == o.hist;
  }

  /** `_wait_for_active`: its last reading was ACTIVE, or it tore the link down and emptied the slot. */
  function Waited(o: Open, active: bool): Open {
    if active then Moved(WithStatus(o, ACTIVE), if o.mode.autoIdentify then AnnounceIdentify else Ended, [])
    else Moved(WithStatus(o, CLOSED), Failing, [])
  }

  lemma WaitedKeeps(o: Open, active: bool)
    requires OpenInv(o) && o.pc == Wait && o.link.Some?
    ensures OpenInv(Waited(o, active))
  {
    var o1 := WithStatus(o, if active then ACTIVE else CLOSED);
    StatusKeeps(o, if active then ACTIVE else CLOSED);
    MoveKeeps(o1, GO, Judge, []);
    var o2 := Moved(o1, Judge, []);
    if active {
      MoveKeeps(o2, GO, if o.mode.autoIdentify then AnnounceIdentify else Ended, []);
    } else {
      MoveKeeps(o2, GO, Evict, []);
      MoveKeeps(Moved(o2, Evict, []), GO, Failing, []);
    }
  }

  /** A successful `_identify`. */
  function IdentifiedNow(o: Open): Open {
    o.(pc := EmitRead, identified := true, hist := o.hist + [IdentifyDone])
  }

  lemma IdentifyStep(o: Open)
    requires o.pc == LinkProtocol.Identify
    ensures Go(o, GO) == IdentifiedNow(o)
  {
  }

  /** `_emit_established`: the id is read and cleared, the flag cleared, and the event sent with the id. */
  function Emitted(o: Open): Open {
    o.(pc := Ended, openId := None, suppress := false,
       hist := o.hist + [ReadId(Loop, o.openId), Established(Loop, o.openId)])
  }

  lemma EmitSteps(o: Open)
    requires o.pc == EmitRead
    ensures Go(Go(Go(Go(o, GO), GO), GO), GO) == Emitted(o)
  {
    var id := o.openId;
    var o2 := Go(Go(o, GO), GO);
    EmitHalf(o);
    assert o2.hist + [] == o2.hist;
    assert Go(o2, GO) == o2.(pc := EmitSend(id), suppress := false);
    assert o.hist + [ReadId(Loop, id)] + [Established(Loop, id)] == o.hist + [ReadId(Loop, id), Established(Loop, id)];
  }

  lemma EmitHalf(o: Open)
    requires o.pc == EmitRead
    ensures Go(Go(o, GO), GO) ==
              o.(pc := EmitUnsuppress(o.openId), openId := None, hist := o.hist + [ReadId(Loop, o.openId)])
  {
    var o1 := Go(o, GO);
    assert o1 == o.(pc := EmitClear(o.openId), hist := o.hist + [ReadId(Loop, o.openId)]);
    assert o1.hist + [] == o1.hist;
  }

  /** The auto_identify part. */
  function Named(o: Open, identifies: bool): Open {
    var o1 := Moved(o, LinkProtocol.Identify, Phase(o, Identifying));
    if identifies then Emitted(IdentifiedNow(o1)) else Moved(o1, Failing, [])
  }

  lemma NamedKeeps(o: Open, identifies: bool)
    requires OpenInv(o) && o.pc == AnnounceIdentify
    ensures OpenInv(Named(o, identifies))
  {
    var o1 := Moved(o, LinkProtocol.Identify, Phase(o, Identifying));
    MoveKeeps(o, GO, LinkProtocol.Identify, Phase(o, Identifying));
    if identifies {
      OpenInvStep(o1, Continue(GO));
      IdentifyStep(o1);
      FourKeep(IdentifiedNow(o1));
      EmitSteps(IdentifiedNow(o1));
    } else {
      MoveKeeps(o1, FAIL, Failing, []);
    }
  }

  /** `link.open.failed`. */
  function Reported(o: Open): Open {
    Moved(o, Ended, Phase(o, Failed))
  }

  lemma ReportedKeeps(o: Open)
    requires OpenInv(o) && o.pc == Failing
    ensures OpenInv(Reported(o))
  {
    MoveKeeps(o, GO, Ended, Phase(o, Failed));
  }

  /** From the wired link on. */
  function Awaited(o: Open, active: bool, identifies: bool): Open {
    if o.pc == Ended then o
    else if active && o.mode.autoIdentify then Named(Waited(o, true), identifies)
    else Waited(o, active)
  }

  lemma AwaitedKeeps(o: Open, active: bool, identifies: bool)
    requires OpenInv(o) && o.link.Some? && (o.pc == Wait || o.pc == Ended)
    ensures OpenInv(Awaited(o, active, identifies))
  {
    if o.pc == Wait {
      WaitedKeeps(o, active);
      if active && o.mode.autoIdentify { NamedKeeps(Waited(o, true), identifies); }
    }
  }

  /** What the environment answers over the life of one continuation. */
  datatype Luck = Luck(hasPath: bool, resolves: bool, constructs: bool, active: bool, identifies: bool)

  /** Every answer the open needs is good; a REST open need not wait for its link. */
  predicate Lucky(mode: Mode, l: Luck) {
    && l.resolves && l.constructs
    && (mode.ws || mode.awaited ==> l.active && (mode.autoIdentify ==> l.identifies))
  }

  /** `continue_open_link_ws`, or `open_link` after its reuse check, up to its return or its exception. */
  function Attempt(o: Open, l: Luck): Open {
    var sought := Sought(o, l.hasPath, l.resolves);
    if !l.resolves then sought
    else
      var linked := Linked(sought, l.constructs);
      if l.constructs then Awaited(linked, l.active, l.identifies) else linked
  }

  /** The whole task. */
  function Outcome(o: Open, l: Luck): Open {
    if Lucky(o.mode, l) then Attempt(o, l) else Reported(Attempt(o, l))
  }

  lemma AttemptKeeps(o: Open, l: Luck)
    requires OpenInv(o) && o.pc == Start
    ensures OpenInv(Attempt(o, l))
  {
    var sought := Sought(o, l.hasPath, l.resolves);
    var linked := Linked(sought, l.constructs);
    SoughtKeeps(o, l.hasPath, l.resolves);
    if l.resolves {
      LinkedKeeps(sought, l.constructs);
    }
    if l.resolves && l.constructs {
      AwaitedKeeps(linked, l.active, l.identifies);
    }
  }

  /** Main result. An open that is to identify, on WS or awaited on REST, has identified before it
      established anything; one that fails has established nothing. */
  lemma AttemptIdentifies(o: Open, l: Luck)
    requires OpenInv(o) && o.pc == Start && o.mode.autoIdentify && (o.mode.ws || o.mode.awaited)
    ensures var e := Attempt(o, l);
            && EstablishedOnlyAfter(e.hist, IdentifyDone)
            && (Lucky(o.mode, l) <==> IdentifyDone in e.hist)
            && (!Lucky(o.mode, l) ==> NeverEstablished(e.hist))
  {
    AttemptKeeps(o, l);
    AttemptFields(o, l);
    SummaryMeans(Attempt(o, l).hist);
    SummaryMeans(o.hist);
  }

  lemma AttemptFields(o: Open, l: Luck)
    requires o.pc == Start
    ensures var e := Attempt(o, l);
            && e.pc == (if Lucky(o.mode, l) then Ended else Failing)
            && e.mode == o.mode && e.firstId == o.firstId && e.overwritten == o.overwritten
            && (Failed in e.hist <==> Failed in o.hist)
            && (Gated(o.mode) ==> (IdentifyDone in e.hist <==> IdentifyDone in o.hist || Lucky(o.mode, l)))
  {
    var sought := Sought(o, l.hasPath, l.resolves);
    var linked := Linked(sought, l.constructs);
    SoughtFields(o, l.hasPath, l.resolves);
    LinkedFields(sought, l.constructs);
    AwaitedFields(linked, l.active, l.identifies);
  }

  /** What a stretch without identify keeps. */
  predicate Alike(o: Open, o2: Open) {
    && o2.mode == o.mode && o2.firstId == o.firstId && o2.overwritten == o.overwritten
    && (Failed in o2.hist <==> Failed in o.hist)
    && (IdentifyDone in o2.hist <==> IdentifyDone in o.hist)
  }

  lemma SoughtFields(o: Open, hasPath: bool, resolves: bool)
    ensures var o2 := Sought(o, hasPath, resolves); Alike(o, o2) && o2.pc == if resolves then Announce else Failing
  {
  }

  lemma LinkedFields(o: Open, constructs: bool)
    ensures var o2 := Linked(o, constructs);
            && Alike(o, o2)
            && o2.pc == if !constructs then Failing else if o.mode.ws || o.mode.awaited then Wait else Ended
  {
  }

  lemma AwaitedFields(o: Open, active: bool, identifies: bool)
    ensures var o2 := Awaited(o, active, identifies);
            && o2.mode == o.mode && o2.firstId == o.firstId && o2.overwritten == o.overwritten
            && (Failed in o2.hist <==> Failed in o.hist)
            && (IdentifyDone in o2.hist <==>
                  (IdentifyDone in o.hist || (o.pc != Ended && active && o.mode.autoIdentify && identifies)))
            && o2.pc == if o.pc == Ended || (active && (o.mode.autoIdentify ==> identifies)) then Ended else Failing
  {
    NamedFields(Waited(o, true), identifies);
    assert Alike(o, Waited(o, active));
  }

  lemma NamedFields(o: Open, identifies: bool)
    ensures var o2 := Named(o, identifies);
            && o2.mode == o.mode && o2.firstId == o.firstId && o2.overwritten == o.overwritten
            && (Failed in o2.hist <==> Failed in o.hist)
            && (IdentifyDone in o2.hist <==> IdentifyDone in o.hist || identifies)
            && o2.pc == if identifies then Ended else Failing
  {
    var h := Phase(o, Identifying);
    assert forall m :: m in o.hist + h <==> m in o.hist || m in h;
  }

  // ---------- the exact events ----------

  /** What a WebSocket open tells once its link is wired. */
  function WaitEvents(auto: bool, id: Option<Token>, active: bool, identifies: bool): seq<Mark> {
    if !active then [Failed]
    else if !auto then []
    else if identifies then [Identifying, Established(Loop, id)] else [Identifying, Failed]
  }

  /** What it tells once its destination is resolved. */
  function LinkEvents(auto: bool, id: Option<Token>, l: Luck): seq<Mark> {
    [EstablishingLink] + if l.constructs then WaitEvents(auto, id, l.active, l.identifies) else [Failed]
  }

  /** What it tells after its ack, for every combination of answers. */
  function Events(auto: bool, id: Option<Token>, l: Luck): seq<Mark> {
    (if l.hasPath then [] else [FindingPath]) + if l.resolves then LinkEvents(auto, id, l) else [Failed]
  }

  /** The events of the continuation, with the failure it is about to report. */
  function Told(o: Open): seq<Mark> {
    Said(o.hist) + if o.pc == Failing then [Failed] else []
  }

  lemma Assoc(a: seq<Mark>, b: seq<Mark>, c: seq<Mark>)
    ensures a + b + c == a + (b + c)
  {
  }

  lemma SaidOne(h: seq<Mark>, m: Mark)
    ensures Said(h + [m]) == Said(h) + if Spoken(m) then [m] else []
  {
    assert (h + [m])[..|h|] == h;
    assert Said(h) + [] == Said(h);
  }

  lemma SoughtSaid(o: Open, hasPath: bool, resolves: bool)
    requires o.mode.ws
    ensures Said(Sought(o, hasPath, resolves).hist) == Said(o.hist) + if hasPath then [] else [FindingPath]
  {
    SaidOne(o.hist, FindingPath);
  }

  lemma LinkedSaid(o: Open, constructs: bool)
    requires o.mode.ws
    ensures Said(Linked(o, constructs).hist) == Said(o.hist) + [EstablishingLink]
  {
    SaidOne(o.hist, EstablishingLink);
  }

  /** Of a successful identify and the reading of the id only the event is heard. */
  lemma EmittedSaid(h: seq<Mark>, id: Option<Token>)
    ensures Said(h + [IdentifyDone] + [ReadId(Loop, id), Established(Loop, id)]) == Said(h) + [Established(Loop, id)]
  {
    var r, e := ReadId(Loop, id), Established(Loop, id);
    SaidOne(h, IdentifyDone);
    SaidOne(h + [IdentifyDone], r);
    SaidOne(h + [IdentifyDone] + [r], e);
    assert h + [IdentifyDone] + [r, e] == h + [IdentifyDone] + [r] + [e];
  }

  lemma NamedSaid(o: Open, identifies: bool)
    requires o.mode.ws
    ensures Said(Named(o, identifies).hist)
         == Said(o.hist) + if identifies then [Identifying, Established(Loop, o.openId)] else [Identifying]
  {
    SaidOne(o.hist, Identifying);
    if identifies {
      EmittedSaid(o.hist + [Identifying], o.openId);
      assert Said(o.hist) + [Identifying] + [Established(Loop, o.openId)]
          == Said(o.hist) + [Identifying, Established(Loop, o.openId)];
    }
  }

  lemma AwaitedTold(o: Open, active: bool, identifies: bool)
    requires o.mode.ws && o.pc == Wait
    ensures Told(Awaited(o, active, identifies))
         == Said(o.hist) + WaitEvents(o.mode.autoIdentify, o.openId, active, identifies)
  {
    if active && o.mode.autoIdentify {
      NamedSaid(Waited(o, true), identifies);
      Assoc(Said(o.hist), [Identifying], [Failed]);
    }
  }

  /** From `establishing_link` on. */
  lemma LinkTold(o: Open, l: Luck)
    requires o.mode.ws && o.pc == Announce
    ensures var linked := Linked(o, l.constructs);
            Told(if l.constructs then Awaited(linked, l.active, l.identifies) else linked)
              == Said(o.hist) + LinkEvents(o.mode.autoIdentify, o.openId, l)
  {
    var linked := Linked(o, l.constructs);
    LinkedSaid(o, l.constructs);
    if l.constructs {
      AwaitedTold(linked, l.active, l.identifies);
      Assoc(Said(o.hist), [EstablishingLink], WaitEvents(o.mode.autoIdentify, o.openId, l.active, l.identifies));
    } else {
      Assoc(Said(o.hist), [EstablishingLink], [Failed]);
    }
  }

  /** What the continuation has told when it returns, or will have when its exception is reported. */
  lemma AttemptTold(o: Open, l: Luck)
    requires o.mode.ws && o.pc == Start
    ensures Told(Attempt(o, l)) == Said(o.hist) + Events(o.mode.autoIdentify, o.openId, l)
  {
    var sought, path := Sought(o, l.hasPath, l.resolves), if l.hasPath then [] else [FindingPath];
    SoughtSaid(o, l.hasPath, l.resolves);
    if l.resolves {
      LinkTold(sought, l);
      Assoc(Said(o.hist), path, LinkEvents(o.mode.autoIdentify, o.openId, l));
    } else {
      Assoc(Said(o.hist), path, [Failed]);
    }
  }

  lemma OutcomeTold(o: Open, l: Luck)
    requires o.mode.ws && o.pc == Start
    ensures Said(Outcome(o, l).hist) == Said(o.hist) + Events(o.mode.autoIdentify, o.openId, l)
  {
    AttemptTold(o, l);
    AttemptFields(o, l);
    SaidOne(Attempt(o, l).hist, Failed);
  }

  /** History `h` tells, after what `o` had told, the events of the answers; with `failing` their last one, the
      failure, is still to come. */
  ghost predicate TellsAll(mode: Mode, o: Open, l: Luck, h: seq<Mark>, failing: bool) {
    Said(h) + (if failing then [Failed] else []) == Said(o.hist) + Events(mode.autoIdentify, o.openId, l)
  }

  lemma AttemptTellsAll(o: Open, l: Luck)
    requires o.mode.ws && o.pc == Start
    ensures TellsAll(o.mode, o, l, Attempt(o, l).hist, !Lucky(o.mode, l))
  {
    AttemptTold(o, l);
    AttemptFields(o, l);
  }

  lemma OutcomeTellsAll(o: Open, l: Luck)
    requires o.mode.ws && o.pc == Start
    ensures TellsAll(o.mode, o, l, Outcome(o, l).hist, false)
  {
    OutcomeTold(o, l);
  }

  /** Before its first statement a continuation has only been acknowledged. */
  lemma StartSaid(o: Open)
    requires OpenInv(o) && o.pc == Start && o.mode.ws
    ensures Said(o.hist) == [Ack]
  {
    TalkSpells(o.hist);
    assert Script(o.pc, o.mode.autoIdentify, Summary(o.hist).talk);
  }

  lemma OutcomeKeeps(o: Open, l: Luck)
    requires OpenInv(o) && o.pc == Start && o.mode.ws
    ensures var e := Outcome(o, l);
            && OpenInv(e) && e.pc == Ended
            && e.mode == o.mode && e.firstId == o.firstId && e.overwritten == o.overwritten
            && (Failed in e.hist <==> !Lucky(o.mode, l))
  {
    SummaryMeans(o.hist);
    AttemptKeeps(o, l);
    AttemptFields(o, l);
    if !Lucky(o.mode, l) {
      ReportedKeeps(Attempt(o, l));
    }
  }

  /** Main result. Whatever the environment answers, an uninterrupted continuation ends having told the client
      exactly the events its answers call for, `finding_path` if and only if there was no path, and so what
      `Conversed` says. */
  lemma OutcomeConverses(o: Open, l: Luck)
    requires OpenInv(o) && o.pc == Start && o.mode.ws
    ensures var e := Outcome(o, l);
            && Said(e.hist) == [Ack] + Events(o.mode.autoIdentify, o.openId, l)
            && (FindingPath in e.hist <==> !l.hasPath)
            && (Failed in e.hist <==> !Lucky(o.mode, l))
            && Conversed(e) && e.pc == Ended
            && e.mode == o.mode && e.firstId == o.firstId && e.overwritten == o.overwritten
  {
    OutcomeKeeps(o, l);
    InvConverses(Outcome(o, l));
    StartSaid(o);
    OutcomeTold(o, l);
    SaidExactly(Outcome(o, l).hist, FindingPath);
    PathTold(o.mode.autoIdentify, o.openId, l);
  }

  lemma PathTold(auto: bool, id: Option<Token>, l: Luck)
    ensures FindingPath in [Ack] + Events(auto, id, l) <==> !l.hasPath
  {
    var s := [Ack] + Events(auto, id, l);
    if !l.hasPath { assert s[1] == FindingPath; }
  }

  // ---------- uninterrupted callbacks ----------

  function Line(o: Open, t: nat, mine: bool): Open {
    LocalStep(o, Advance(t, mine))
  }

  /** An uninterrupted `_on_established`. */
  function Fired(o: Open, t: nat): Open {
    if o.suppress then o.(callbacks := o.callbacks[t := Returned])
    else o.(callbacks := o.callbacks[t := Returned], openId := None,
            hist := o.hist + [ReadId(Rns(t), o.openId), Established(Rns(t), o.openId)])
  }

  lemma FireSteps(o: Open, t: nat)
    requires t in o.callbacks && o.callbacks[t] == CheckSuppress
    ensures o.suppress ==> Line(o, t, false) == Fired(o, t)
    ensures !o.suppress ==> Line(Line(Line(Line(o, t, false), t, false), t, false), t, false) == Fired(o, t)
  {
    var o1 := Line(o, t, false);
    if o.suppress {
      assert o1 == Fired(o, t);
    } else {
      var id := o.openId;
      assert o1 == o.(callbacks := o.callbacks[t := ReadOpenId]);
      FireLines(o1, t);
      assert o1.callbacks[t := Returned] == o.callbacks[t := Returned];
    }
  }

  lemma FireLines(o: Open, t: nat)
    requires t in o.callbacks && o.callbacks[t] == ReadOpenId
    ensures Line(Line(Line(o, t, false), t, false), t, false) ==
              o.(callbacks := o.callbacks[t := Returned], openId := None,
                 hist := o.hist + [ReadId(Rns(t), o.openId), Established(Rns(t), o.openId)])
  {
    var id := o.openId;
    var o2 := Line(o, t, false);
    assert o2 == o.(callbacks := o.callbacks[t := ClearOpenId(id)], hist := o.hist + [ReadId(Rns(t), id)]);
    var o3 := Line(o2, t, false);
    assert o3 == o2.(callbacks := o.callbacks[t := Fire(id)], openId := None) by {
      assert o2.callbacks[t := Fire(id)] == o.callbacks[t := Fire(id)];
    }
    assert o.hist + [ReadId(Rns(t), id)] + [Established(Rns(t), id)]
        == o.hist + [ReadId(Rns(t), id), Established(Rns(t), id)];
    assert o3.callbacks[t := Returned] == o.callbacks[t := Returned];
  }

  /** An uninterrupted `_on_closed`. */
  function ClosedDown(o: Open, t: nat): Open {
    o.(callbacks := o.callbacks[t := Returned], hist := o.hist + [ClosedEvent])
  }

  lemma CloseSteps(o: Open, t: nat, mine: bool)
    requires t in o.callbacks && o.callbacks[t] == FireClosed
    ensures Line(Line(Line(o, t, mine), t, mine), t, mine) == ClosedDown(o, t)
  {
    var o1 := Line(o, t, mine);
    assert o1 == o.(callbacks := o.callbacks[t := CheckSlot], hist := o.hist + [ClosedEvent]);
    CloseLines(o1, t, mine);
    assert o1.callbacks[t := Returned] == o.callbacks[t := Returned];
  }

  lemma CloseLines(o: Open, t: nat, mine: bool)
    requires t in o.callbacks && o.callbacks[t] == CheckSlot
    ensures Line(Line(o, t, mine), t, mine) == o.(callbacks := o.callbacks[t := Returned])
  {
    var o1 := Line(o, t, mine);
    assert o1 == o.(callbacks := o.callbacks[t := PopSlot(mine)]);
    assert o1.callbacks[t := Returned] == o.callbacks[t := Returned];
  }

  // ---------- link ids ----------

  datatype Lookup = BadId | UnknownLink | At(hash: Bytes)

  /** `_entry`: hex digits in either case, then the table. */
  function FindEntry(keys: set<Bytes>, text: string): (r: Lookup)
    ensures r.BadId? <==> FromHex(text).Bad?
    ensures r.UnknownLink? <==> FromHex(text).Ok? && FromHex(text).value !in keys
    ensures r.At? ==> FromHex(text) == Ok(r.hash) && r.hash in keys
  {
    FromHexLower(text);
    var h := FromHex(Lower(text));
    if h.Bad? then BadId else if h.value in keys then At(h.value) else UnknownLink
  }

  /** Main result. In every run, the link_id a snapshot shows for a cached entry, in either case of
      letters, resolves to the slot of that very entry. */
  lemma SnapshotIdResolves(acts: seq<Action>, hash: Bytes, text: string)
    requires hash in Run(INIT, acts).cache
    requires var w := Run(INIT, acts);
             w.cache[hash] < |w.opens| ==> Lower(text) == ToHex(w.opens[w.cache[hash]].hash)
    ensures var w := Run(INIT, acts);
            && w.cache[hash] < |w.opens| && w.opens[w.cache[hash]].hash == hash
            && FindEntry(w.cache.Keys, text) == At(hash)
  {
    WorldRun(INIT, acts);
    HexRoundTrip(hash);
  }

  // ---------- the objects ----------

  class RnsLink {
    var status: Status
    var teardowns: nat

    constructor ()
      ensures status == PENDING && teardowns == 0
    {
      status, teardowns := PENDING, 0;
    }

    /** Reading the status; an RNS thread may have moved it just before. */
    method Observe() returns (st: Status)
      modifies `status
      ensures st == status
    {
      status := *;
      st := status;
    }

    method Teardown()
      modifies this
      ensures teardowns == old(teardowns) + 1 && status == CLOSED
    {
      teardowns, status := teardowns + 1, CLOSED;
    }
  }

  /** `trace` is the history of what was done for the entry. */
  class LinkEntry {
    const destinationHash: Bytes
    var link: RnsLink?
    var identified: bool
    var openClientId: Option<Token>
    var suppressInitialEstablished: bool
    ghost var trace: seq<Mark>

    constructor (hash: Bytes, link: RnsLink?, id: Option<Token>, suppress: bool, ghost trace: seq<Mark>)
      ensures destinationHash == hash && this.link == link && !identified && openClientId == id
      ensures suppressInitialEstablished == suppress && this.trace == trace
    {
      destinationHash, this.link, identified, openClientId := hash, link, false, id;
      suppressInitialEstablished, this.trace := suppress, trace;
    }

    ghost predicate Is(o: Open)
      reads this, link
    {
      && o.hash == destinationHash && o.identified == identified && o.openId == openClientId
      && o.suppress == suppressInitialEstablished && o.hist == trace
      && o.link == if link == null then None else Some(link.status)
    }

    /** Send one event of the continuation. */
    method Say(m: Mark)
      modifies `trace
      ensures trace == old(trace) + [m]
    {
      trace := trace + [m];
    }

    /** `_emit_established`, and the id its event carries; without a link it only logs. */
    method EmitEstablished(ghost o: Open) returns (echoed: Option<Token>)
      requires Is(o) && o.pc == EmitRead
      modifies this
      ensures Is(if old(link) == null then o else Emitted(o)) && link == old(link)
      ensures echoed == if link == null then None else old(openClientId)
      ensures link != null ==>
                && openClientId == None && !suppressInitialEstablished
                && trace == old(trace) + [ReadId(Loop, echoed), Established(Loop, echoed)]
    {
      if link == null {
        return None;
      }
      echoed := openClientId;
      openClientId := None;
      suppressInitialEstablished := false;
      trace := trace + [ReadId(Loop, echoed), Established(Loop, echoed)];
    }

    /** `_on_established` in RNS thread `t`. */
    method OnEstablished(ghost o: Open, ghost t: nat)
      requires Is(o) && t in o.callbacks && o.callbacks[t] == CheckSuppress
      modifies this
      ensures Is(Fired(o, t)) && link == old(link)
      ensures trace == if old(suppressInitialEstablished) then old(trace)
                       else old(trace) + [ReadId(Rns(t), old(openClientId)), Established(Rns(t), old(openClientId))]
    {
      if suppressInitialEstablished {
        return;
      }
      ghost var id := openClientId;
      openClientId := None;
      trace := trace + [ReadId(Rns(t), id), Established(Rns(t), id)];
    }

    /** `_identify`; `works` is the outcome of the identity store and of `link.identify()`. */
    method Identify(works: bool, ghost o: Open) returns (ok: bool)
      requires Is(o) && o.pc == LinkProtocol.Identify
      modifies this
      ensures ok == (link != null && works) && link == old(link)
      ensures Is(if ok then IdentifiedNow(o) else o)
    {
      ok := link != null && works;
      if ok {
        identified := true;
        trace := trace + [IdentifyDone];
      }
    }

    /** The auto_identify part of `continue_open_link_ws` and of `open_link`. */
    method IdentifyAndEmit(ws: bool, works: bool, ghost o: Open) returns (ok: bool)
      requires Is(o) && o.pc == AnnounceIdentify && o.mode.ws == ws && link != null
      modifies this
      ensures ok == works && Is(Named(o, works)) && link == old(link)
    {
      if ws {
        Say(Identifying);
      }
      ghost var o1 := Moved(o, LinkProtocol.Identify, Phase(o, Identifying));
      ok := Identify(works, o1);
      if ok {
        var echoed := EmitEstablished(IdentifiedNow(o1));
      }
    }
  }

  /** The cache after a continuation: an open that failed before its link existed leaves its placeholder, a
      wired one owns its slot, and one whose link was not ACTIVE in the end has emptied it. */
  function SlotAfter(links: map<Bytes, LinkEntry>, entry: LinkEntry, l: Luck): map<Bytes, LinkEntry> {
    if !l.resolves || !l.constructs then links
    else if l.active then links[entry.destinationHash := entry]
    else links - {entry.destinationHash}
  }

  class Session {
    var openLinks: map<Bytes, LinkEntry>

    constructor ()
      ensures openLinks == map[]
    {
      openLinks := map[];
    }

    /** `_reuse_active_link`. */
    method ReuseActiveLink(hash: Bytes) returns (r: LinkEntry?)
      ensures r != null <==> hash in openLinks && openLinks[hash].link != null && openLinks[hash].link.status == ACTIVE
      ensures r != null ==> r == openLinks[hash]
    {
      if hash in openLinks && openLinks[hash].link != null && openLinks[hash].link.status == ACTIVE {
        return openLinks[hash];
      }
      r := null;
    }

    /** `ws_open` up to its ack; `o` is the open whose entry is in the slot, if there is one. A cached
        ACTIVE link is reused and only its client id changes; otherwise a placeholder takes the slot. */
    method WsOpen(hash: Bytes, mode: Mode, id: Option<Token>, ghost o: Open) returns (entry: LinkEntry, reused: bool)
      requires mode.ws && (hash in openLinks ==> openLinks[hash].Is(o))
      modifies this, openLinks.Values
      ensures reused == (hash in old(openLinks) && o.link == Some(ACTIVE))
      ensures reused ==>
                openLinks == old(openLinks) && entry == openLinks[hash] && entry.Is(LocalStep(o, Overwrite(id)))
      ensures !reused ==>
                && fresh(entry) && openLinks == old(openLinks)[hash := entry]
                && entry.Is(Go(FreshOpen(hash, mode, id), GO)) && entry.link == null
                && (hash in old(openLinks) ==> old(openLinks)[hash].Is(o))
      ensures forall e | e in old(openLinks).Values && e != entry :: unchanged(e)
    {
      var existing := ReuseActiveLink(hash);
      if existing != null {
        existing.openClientId := id;
        return existing, true;
      }
      entry := new LinkEntry(hash, null, id, false, []);
      openLinks := openLinks[hash := entry];
      entry.Say(Ack);
      reused := false;
    }

    /** `_create_link_entry`: into the placeholder on WS, into a new entry on REST. */
    method CreateLinkEntry(reserved: LinkEntry?, id: Option<Token>, ghost o: Open, hash: Bytes, mode: Mode)
      returns (entry: LinkEntry)
      requires o.pc == Construct && o.hash == hash && o.mode == mode && mode.ws == (reserved != null)
      requires reserved != null ==> reserved.Is(o)
      requires reserved == null ==> !o.identified && o.openId == id
      modifies `openLinks, if reserved == null then {} else {reserved}
      ensures openLinks == old(openLinks)[hash := entry]
      ensures entry.Is(Created(o)) && entry.link != null && fresh(entry.link)
      ensures if reserved == null then fresh(entry) else entry == reserved
    {
      var link := new RnsLink();
      if reserved != null {
        entry := reserved;
        entry.link := link;
        entry.suppressInitialEstablished := Gated(mode);
      } else {
        entry := new LinkEntry(hash, link, id, Gated(mode), o.hist);
      }
      openLinks := openLinks[hash := entry];
    }

    /** `_on_closed` in RNS thread `t`: the event, then the eviction of this very entry. */
    method OnClosed(entry: LinkEntry, ghost o: Open, ghost t: nat)
      requires entry.Is(o) && t in o.callbacks && o.callbacks[t] == FireClosed
      modifies entry`trace, `openLinks
      ensures entry.Is(ClosedDown(o, t)) && entry.trace == old(entry.trace) + [ClosedEvent]
      ensures openLinks == if entry.destinationHash in old(openLinks) && old(openLinks)[entry.destinationHash] == entry
                           then old(openLinks) - {entry.destinationHash} else old(openLinks)
    {
      entry.Say(ClosedEvent);
      if entry.destinationHash in openLinks && openLinks[entry.destinationHash] == entry {
        openLinks := openLinks - {entry.destinationHash};
      }
    }

    /** Every key is its entry's destination hash. */
    ghost predicate Keyed()
      reads this
    {
      forall h | h in openLinks :: openLinks[h].destinationHash == h
    }

    /** `close`: an unknown id changes nothing; a known one has its link, if any, torn down once and its
        slot emptied. */
    method Close(text: string) returns (r: Lookup)
      requires Keyed()
      modifies `openLinks, set e | e in openLinks.Values && e.link != null :: e.link
      ensures Keyed() && r == FindEntry(old(openLinks).Keys, text)
      ensures openLinks == if r.At? then old(openLinks) - {r.hash} else old(openLinks)
      ensures r.At? && old(openLinks)[r.hash].link != null ==>
                var l := old(openLinks)[r.hash].link; l.teardowns == old(l.teardowns) + 1
      ensures forall e | e in old(openLinks).Values && e.link != null ::
                !r.At? || e.link != old(openLinks)[r.hash].link ==> unchanged(e.link)
    {
      r := FindEntry(openLinks.Keys, text);
      if r.At? {
        var entry := openLinks[r.hash];
        if entry.link != null {
          assert entry in openLinks.Values;
          entry.link.Teardown();
        }
        openLinks := openLinks - {entry.destinationHash};
      }
    }

    /** `open_link` of REST; `o` is the open whose entry is in the slot, if there is one. A cached ACTIVE
        link is reused, its client id overwritten, and it is identified if it has to be and was not;
        otherwise the open ends as `Attempt` says, and without a link it leaves no entry. */
    method OpenLink(hash: Bytes, mode: Mode, id: Option<Token>, clock: Polling.Clock, timeout: real, l: Luck,
                    ghost o: Open)
      returns (ok: bool, entry: LinkEntry?, active: bool)
      requires !mode.ws && (hash in openLinks ==> openLinks[hash].Is(o))
      modifies this, openLinks.Values, clock
      ensures hash in old(openLinks) && o.link == Some(ACTIVE) ==>
                && entry == old(openLinks)[hash] && openLinks == old(openLinks)
                && entry.Is(if mode.autoIdentify && !o.identified
                            then LocalStep(LocalStep(o, Overwrite(id)), IdentifyCall(l.identifies))
                            else LocalStep(o, Overwrite(id)))
                && ok == (mode.autoIdentify && !o.identified ==> l.identifies)
      ensures !(hash in old(openLinks) && o.link == Some(ACTIVE)) ==>
                && ok == Lucky(mode, l.(active := active))
                && (entry != null <==> l.resolves && l.constructs)
                && (entry != null ==>
                      fresh(entry) && entry.Is(Attempt(FreshOpen(hash, mode, id), l.(active := active))))
                && openLinks == (if entry == null then old(openLinks)
                                 else if mode.awaited && !active then old(openLinks) - {hash}
                                 else old(openLinks)[hash := entry])
      ensures forall e | e in old(openLinks).Values && e != entry :: unchanged(e)
    {
      entry := ReuseActiveLink(hash);
      active := false;
      if entry != null {
        ok := Reuse(entry, mode, id, l.identifies, o);
        return;
      }
      if l.resolves && l.constructs {
        ok, entry, active := OpenFresh(hash, mode, id, clock, timeout, l);
      } else {
        ok := false;
      }
    }

    /** A REST open whose link can be constructed. */
    method OpenFresh(hash: Bytes, mode: Mode, id: Option<Token>, clock: Polling.Clock, timeout: real, l: Luck)
      returns (ok: bool, entry: LinkEntry, active: bool)
      requires !mode.ws && l.resolves && l.constructs
      modifies `openLinks, clock
      ensures ok == Lucky(mode, l.(active := active))
      ensures fresh(entry) && entry.Is(Attempt(FreshOpen(hash, mode, id), l.(active := active)))
      ensures openLinks == if mode.awaited && !active then old(openLinks) - {hash} else old(openLinks)[hash := entry]
    {
      ghost var sought := Sought(FreshOpen(hash, mode, id), l.hasPath, true);
      entry := CreateLinkEntry(null, id, Moved(sought, Construct, []), hash, mode);
      assert old(openLinks)[hash := entry] - {hash} == old(openLinks) - {hash};
      ok, active := Await(entry, mode, clock, timeout, l.identifies, Linked(sought, true));
    }

    method Reuse(entry: LinkEntry, mode: Mode, id: Option<Token>, identifies: bool, ghost o: Open) returns (ok: bool)
      requires entry.Is(o) && entry.link != null
      modifies entry
      ensures ok == (mode.autoIdentify && !o.identified ==> identifies)
      ensures entry.Is(if mode.autoIdentify && !o.identified
                       then LocalStep(LocalStep(o, Overwrite(id)), IdentifyCall(identifies))
                       else LocalStep(o, Overwrite(id)))
    {
      entry.openClientId := id;
      ok := true;
      if mode.autoIdentify && !entry.identified {
        ok := identifies;
        if ok {
          entry.identified := true;
        }
      }
    }

    /** `open_link` and `continue_open_link_ws` from the created entry on. */
    method Await(entry: LinkEntry, mode: Mode, clock: Polling.Clock, timeout: real, identifies: bool, ghost o: Open)
      returns (ok: bool, active: bool)
      requires entry.Is(o) && o.mode == mode && entry.link != null
      requires o.pc == if mode.ws || mode.awaited then Wait else Ended
      modifies entry, entry.link, clock, `openLinks
      ensures ok == (mode.ws || mode.awaited ==> active && (mode.autoIdentify ==> identifies))
      ensures entry.Is(Awaited(o, active, identifies))
      ensures openLinks == if (mode.ws || mode.awaited) && !active then old(openLinks) - {entry.destinationHash}
                           else old(openLinks)
    {
      active := false;
      if !mode.ws && !mode.awaited {
        return true, active;
      }
      ghost var readings;
      active, readings := WaitForActive(entry, clock, timeout, o);
      if !active || !mode.autoIdentify {
        return active, active;
      }
      ok := entry.IdentifyAndEmit(mode.ws, identifies, Waited(o, true));
    }

    /** The polling loop of `_wait_for_active`, and the status it last read. */
    method Poll(link: RnsLink, clock: Polling.Clock, timeout: real) returns (status: Status, ghost readings: nat)
      modifies link`status, clock
      ensures link.status == status
      ensures 1 <= readings <= Polling.Budget(timeout) + 1
      ensures status == ACTIVE || status == CLOSED || clock.now >= old(clock.now) + timeout
    {
      var start := clock.Monotonic();
      var deadline := start + timeout;
      status := link.Observe();
      readings := 1;
      var now := clock.Monotonic();
      while status != ACTIVE && status != CLOSED && now < deadline
        invariant old(clock.now) <= start && deadline == start + timeout
        invariant link.status == status
        invariant 1 <= readings <= Polling.Budget(timeout) + 1
        invariant start + (readings - 1) as real * Polling.INTERVAL <= now == clock.now
        decreases Polling.Budget(timeout) + 1 - readings
      {
        Polling.WithinBudget(readings - 1, timeout);
        clock.Sleep();
        status := link.Observe();
        readings := readings + 1;
        now := clock.Monotonic();
      }
    }

    /** `_wait_for_active`: at most ceil(timeout / 0.02) + 2 readings of the status. It succeeds only on a
        last reading of ACTIVE; otherwise it tears the link down once and empties the slot. */
    method WaitForActive(entry: LinkEntry, clock: Polling.Clock, timeout: real, ghost o: Open)
      returns (active: bool, ghost readings: nat)
      requires entry.Is(o) && o.pc == Wait && entry.link != null
      modifies entry.link, clock, `openLinks
      ensures entry.Is(Waited(o, active))
      ensures readings <= Polling.Budget(timeout) + 2
      ensures entry.link.teardowns == old(entry.link.teardowns) + if active then 0 else 1
      ensures openLinks == if active then old(openLinks) else old(openLinks) - {entry.destinationHash}
    {
      var link := entry.link;
      var status;
      status, readings := Poll(link, clock, timeout);
      status := link.Observe();
      readings := readings + 1;
      active := status == ACTIVE;
      if !active {
        link.Teardown();
        openLinks := openLinks - {entry.destinationHash};
      }
    }

    /** From `establishing_link` to the wired link; `constructs` is the outcome of `RNS.Link()`. */
    method Establish(entry: LinkEntry, constructs: bool, ghost o: Open, mode: Mode)
      requires entry.Is(o) && o.pc == Announce && o.mode == mode && mode.ws && entry.link == null
      modifies entry, `openLinks
      ensures entry.Is(Linked(o, constructs))
      ensures openLinks == if constructs then old(openLinks)[entry.destinationHash := entry] else old(openLinks)
      ensures constructs ==> entry.link != null && fresh(entry.link)
    {
      entry.Say(EstablishingLink);
      if constructs {
        var same := CreateLinkEntry(entry, None, Moved(o, Construct, [EstablishingLink]), entry.destinationHash, mode);
      }
    }

    /** `_resolve_and_construct_destination`, whose path poll is `Polling.AwaitPath`. */
    method ResolveDestination(entry: LinkEntry, hasPath: bool, resolves: bool, ghost o: Open)
      requires entry.Is(o) && o.pc == Start && o.mode.ws
      modifies entry`trace
      ensures entry.Is(Sought(o, hasPath, resolves))
      ensures entry.trace == old(entry.trace) + if hasPath then [] else [FindingPath]
    {
      if !hasPath {
        entry.Say(FindingPath);
      }
    }

    /** `continue_open_link_ws` from `establishing_link` on. */
    method LinkUp(entry: LinkEntry, mode: Mode, clock: Polling.Clock, timeout: real, l: Luck, ghost o: Open)
      returns (ok: bool, active: bool)
      requires entry.Is(o) && o.pc == Announce && o.mode == mode && mode.ws && entry.link == null
      modifies entry, clock, `openLinks
      ensures ok == (l.constructs && active && (mode.autoIdentify ==> l.identifies))
      ensures entry.Is(if l.constructs then Awaited(Linked(o, true), active, l.identifies) else Linked(o, false))
      ensures openLinks == if l.constructs then SlotAfter(old(openLinks), entry, l.(resolves := true, active := active))
                           else old(openLinks)
    {
      Establish(entry, l.constructs, o, mode);
      if !l.constructs {
        return false, false;
      }
      assert old(openLinks)[entry.destinationHash := entry] - {entry.destinationHash}
          == old(openLinks) - {entry.destinationHash};
      ok, active := Await(entry, mode, clock, timeout, l.identifies, Linked(o, true));
    }

    /** `continue_open_link_ws`. An exception leaves it early (`!ok`). */
    method ContinueOpenLinkWs(entry: LinkEntry, mode: Mode, clock: Polling.Clock, timeout: real, l: Luck, ghost o: Open)
      returns (ok: bool, active: bool)
      requires entry.Is(o) && o.pc == Start && o.mode == mode && mode.ws && entry.link == null
      modifies entry, clock, `openLinks
      ensures ok == Lucky(mode, l.(active := active)) && entry.Is(Attempt(o, l.(active := active)))
      ensures TellsAll(mode, o, l.(active := active), entry.trace, !ok)
      ensures openLinks == SlotAfter(old(openLinks), entry, l.(active := active))
    {
      ResolveDestination(entry, l.hasPath, l.resolves, o);
      if l.resolves {
        ok, active := LinkUp(entry, mode, clock, timeout, l, Sought(o, l.hasPath, true));
      } else {
        ok, active := false, false;
      }
      AttemptTellsAll(o, l.(active := active));
    }

    /** The `except` branches of `_run_continuation`, entered unless `ok`. */
    method ReportFailure(entry: LinkEntry, ok: bool, ghost o: Open, ghost l: Luck)
      requires o.mode.ws && o.pc == Start && entry.Is(Attempt(o, l)) && ok == Lucky(o.mode, l)
      modifies entry`trace
      ensures entry.Is(Outcome(o, l)) && TellsAll(o.mode, o, l, entry.trace, false)
    {
      if !ok {
        entry.Say(Failed);
      }
      OutcomeTellsAll(o, l);
    }

    /** `_run_continuation` of `ws_open`: the entry ends as `Outcome` says, so when it returns the client has been
        told exactly the events of its answers, after whatever was sent before. */
    method RunContinuation(entry: LinkEntry, mode: Mode, clock: Polling.Clock, timeout: real, l: Luck, ghost o: Open)
      returns (active: bool)
      requires entry.Is(o) && o.pc == Start && o.mode == mode && mode.ws && entry.link == null
      modifies entry, clock, `openLinks
      ensures entry.Is(Outcome(o, l.(active := active)))
      ensures TellsAll(mode, o, l.(active := active), entry.trace, false)
      ensures openLinks == SlotAfter(old(openLinks), entry, l.(active := active))
    {
      var ok;
      ok, active := ContinueOpenLinkWs(entry, mode, clock, timeout, l, o);
      ReportFailure(entry, ok, o, l.(active := active));
    }
  }
}
