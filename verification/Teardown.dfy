/**
  What `_teardown` of src/rnsapi/auth/session.py does with the four cleanup hooks in the order
  src/rnsapi/server.py registers them: transfers, links, packets, destinations.

  Dicts are sequences of pairs in insertion order. Every call that leaves the service is logged, may
  raise, and may let RNS callbacks run: `_on_closed` evicts links, receipt callbacks drop receipts,
  and cancelling a resource may complete it synchronously.
*/
module Teardown {
  import opened Wrappers

  type Key = nat
  type Path = nat

  datatype Call =
    | CancelResource(transfer: Key)
    | CancelPoller(transfer: Key)
    | Unlink(path: Path)
    | TeardownLink(link: nat)
    | ClearPacketCallback(hash: Key)
    | ClearDelivery(receipt: nat)
    | ClearTimeout(receipt: nat)
    | Deregister(hash: Key)
    | SendEnded
    | CloseSocket(conn: nat)

  datatype Transfer = Transfer(resource: bool, poller: bool, temp: Option<Path>, upload: Option<Path>)

  /** Any pattern of exceptions and of callbacks running inside a call. */
  datatype Env = Env(
    raises: Call -> bool,
    closed: Call -> set<Key>,
    settled: Call -> set<Key>,
    completes: Key -> bool)

  /** The parts of a session the hooks empty. A link slot may hold a placeholder, a receipt may be null. */
  datatype Held = Held(
    transfers: seq<(Key, Transfer)>,
    links: seq<(Key, Option<nat>)>,
    listeners: seq<Key>,
    receipts: seq<(Key, Option<nat>)>,
    owned: seq<Key>)

  const NOTHING := Held([], [], [], [], [])

  /** The entries whose key is not in `gone`, in order. */
  function Keep<V>(d: seq<(Key, V)>, gone: set<Key>): seq<(Key, V)> {
    if d == [] then []
    else (if d[0].0 in gone then [] else [d[0]]) + Keep(d[1..], gone)
  }

  /** The state after the callbacks that run inside `c`. */
  function Interfere(h: Held, e: Env, c: Call): Held {
    h.(links := Keep(h.links, e.closed(c)), receipts := Keep(h.receipts, e.settled(c)))
  }

  function After(h: Held, e: Env, calls: seq<Call>): Held {
    if calls == [] then h else Interfere(After(h, e, calls[..|calls| - 1]), e, calls[|calls| - 1])
  }

  // ---------- the calls each hook makes ----------

  /** A cancel that completes the resource inside itself takes the upload file at once. */
  function TransferCalls(k: Key, t: Transfer, e: Env): seq<Call> {
    var unlinkUpload := if t.upload.Some? then [Unlink(t.upload.value)] else [];
    var early := t.resource && e.completes(k);
    (if t.resource then [CancelResource(k)] else [])
    + (if early then unlinkUpload else [])
    + (if t.poller then [CancelPoller(k)] else [])
    + (if t.temp.Some? then [Unlink(t.temp.value)] else [])
    + (if early then [] else unlinkUpload)
  }

  function AllTransferCalls(ts: seq<(Key, Transfer)>, e: Env): seq<Call> {
    if ts == [] then []
    else AllTransferCalls(ts[..|ts| - 1], e) + TransferCalls(ts[|ts| - 1].0, ts[|ts| - 1].1, e)
  }

  function LinkCalls(links: seq<(Key, Option<nat>)>): seq<Call> {
    if links == [] then []
    else
      var l := links[|links| - 1].1;
      LinkCalls(links[..|links| - 1]) + (if l.Some? then [TeardownLink(l.value)] else [])
  }

  function ListenerCalls(listeners: seq<Key>, owned: seq<Key>): seq<Call> {
    if listeners == [] then []
    else
      var h := listeners[|listeners| - 1];
      ListenerCalls(listeners[..|listeners| - 1], owned) + (if h in owned then [ClearPacketCallback(h)] else [])
  }

  /** The second call is skipped when the first raises; a null receipt raises before any call. */
  function ReceiptCalls(receipts: seq<(Key, Option<nat>)>, e: Env): seq<Call> {
    if receipts == [] then []
    else
      var r := receipts[|receipts| - 1].1;
      ReceiptCalls(receipts[..|receipts| - 1], e)
      + (if r.None? then []
         else if e.raises(ClearDelivery(r.value)) then [ClearDelivery(r.value)]
         else [ClearDelivery(r.value), ClearTimeout(r.value)])
  }

  function DestinationCalls(owned: seq<Key>): seq<Call> {
    seq(|owned|, i requires 0 <= i < |owned| => Deregister(owned[i]))
  }

  function SocketCalls(sockets: seq<nat>): seq<Call> {
    seq(|sockets|, i requires 0 <= i < |sockets| => CloseSocket(sockets[i]))
  }

  /** The calls up to and including the listeners, in hook order. */
  function EarlyCalls(h: Held, e: Env): seq<Call> {
    var a := AllTransferCalls(h.transfers, e);
    a + LinkCalls(After(h, e, a).links) + ListenerCalls(h.listeners, h.owned)
  }

  /** All calls of one teardown. */
  function TeardownCalls(h: Held, e: Env, sockets: seq<nat>): seq<Call> {
    var early := EarlyCalls(h, e);
    early + (ReceiptCalls(After(h, e, early).receipts, e) + DestinationCalls(h.owned)) + [SendEnded]
    + SocketCalls(sockets)
  }

  lemma Regroup(a: seq<Call>, b: seq<Call>, c: seq<Call>, d: seq<Call>)
    ensures a + b + c + [SendEnded] + d == a + (b + c + [SendEnded] + d)
  {
  }

  /** The log after the first three hooks. */
  lemma EarlyLog(h: Held, e: Env, was: seq<Call>, links: seq<Call>, log: seq<Call>)
    requires var a := AllTransferCalls(h.transfers, e); links == was + (a + LinkCalls(After(h, e, a).links))
    requires log == links + ListenerCalls(h.listeners, h.owned)
    ensures log == was + EarlyCalls(h, e) && log[|was|..] == EarlyCalls(h, e)
  {
  }

  // ---------- the class ----------

  class Session {
    var transfers: seq<(Key, Transfer)>
    var openLinks: seq<(Key, Option<nat>)>
    var packetListeners: seq<Key>
    var pendingReceipts: seq<(Key, Option<nat>)>
    var ownedDestinations: seq<Key>
    var wsConnections: seq<nat>
    var log: seq<Call>
    const env: Env

    constructor (held: Held, sockets: seq<nat>, env: Env)
      ensures View() == held && wsConnections == sockets && log == [] && this.env == env
    {
      transfers, openLinks, packetListeners := held.transfers, held.links, held.listeners;
      pendingReceipts, ownedDestinations := held.receipts, held.owned;
      wsConnections, log, this.env := sockets, [], env;
    }

    function View(): Held
      reads this
    {
      Held(transfers, openLinks, packetListeners, pendingReceipts, ownedDestinations)
    }

    /** The links are what the calls since position `n` left of those in `h`. */
    ghost predicate LinksSince(h: Held, n: nat)
      reads this
    {
      n <= |log| && openLinks == After(h, env, log[n..]).links
    }

    ghost predicate ReceiptsSince(h: Held, n: nat)
      reads this
    {
      n <= |log| && pendingReceipts == After(h, env, log[n..]).receipts
    }

    /** Makes a call that leaves the service; `ok` is false when it raises. */
    method External(c: Call) returns (ok: bool)
      modifies `openLinks, `pendingReceipts, `log
      ensures log == old(log) + [c] && ok == !env.raises(c)
      ensures old(openLinks) == [] ==> openLinks == []
      ensures old(pendingReceipts) == [] ==> pendingReceipts == []
      ensures forall h, n: nat :: old(LinksSince(h, n)) ==> LinksSince(h, n)
      ensures forall h, n: nat :: old(ReceiptsSince(h, n)) ==> ReceiptsSince(h, n)
    {
      log := log + [c];
      openLinks := Keep(openLinks, env.closed(c));
      pendingReceipts := Keep(pendingReceipts, env.settled(c));
      ok := !env.raises(c);
      assert forall n | 0 <= n <= |old(log)| :: log[n..] == old(log)[n..] + [c];
      assert forall n | 0 <= n <= |old(log)| :: log[n..][..|log[n..]| - 1] == old(log)[n..];
    }

    /** One file goes, if there is one. */
    method RemoveFile(p: Option<Path>)
      modifies `openLinks, `pendingReceipts, `log
      ensures log == old(log) + if p.Some? then [Unlink(p.value)] else []
      ensures forall h, n: nat :: old(LinksSince(h, n)) ==> LinksSince(h, n)
      ensures forall h, n: nat :: old(ReceiptsSince(h, n)) ==> ReceiptsSince(h, n)
    {
      if p.Some? {
        var _ := External(Unlink(p.value));
      }
    }

    /** Cancel the resource of a transfer; what is left of its upload file is for the caller. */
    method CancelOne(k: Key, t: Transfer) returns (upload: Option<Path>)
      modifies `openLinks, `pendingReceipts, `log
      ensures var early := t.resource && env.completes(k);
              && upload == (if early then None else t.upload)
              && log == old(log) + ((if t.resource then [CancelResource(k)] else [])
                                    + (if early && t.upload.Some? then [Unlink(t.upload.value)] else []))
      ensures forall h, n: nat :: old(LinksSince(h, n)) ==> LinksSince(h, n)
      ensures forall h, n: nat :: old(ReceiptsSince(h, n)) ==> ReceiptsSince(h, n)
    {
      upload := t.upload;
      if t.resource {
        var _ := External(CancelResource(k));
        if env.completes(k) {
          RemoveFile(upload);
          upload := None;
        }
      }
    }

    /** `ResourcesService.cleanup_session`, one transfer. */
    method CleanupTransfer(k: Key, t: Transfer)
      modifies `openLinks, `pendingReceipts, `log
      ensures log == old(log) + TransferCalls(k, t, env)
      ensures forall h, n: nat :: old(LinksSince(h, n)) ==> LinksSince(h, n)
      ensures forall h, n: nat :: old(ReceiptsSince(h, n)) ==> ReceiptsSince(h, n)
    {
      var upload := CancelOne(k, t);
      if t.poller {
        var _ := External(CancelPoller(k));
      }
      RemoveFile(t.temp);
      RemoveFile(upload);
    }

    method CleanupTransfers()
      modifies `transfers, `openLinks, `pendingReceipts, `log
      ensures transfers == [] && log == old(log) + AllTransferCalls(old(transfers), env)
      ensures forall h, n: nat :: old(LinksSince(h, n)) ==> LinksSince(h, n)
      ensures forall h, n: nat :: old(ReceiptsSince(h, n)) ==> ReceiptsSince(h, n)
    {
      var items := transfers;
      assert log == old(log) + AllTransferCalls(items[..0], env);
      for i := 0 to |items|
        invariant log == old(log) + AllTransferCalls(items[..i], env)
        invariant forall h, n: nat :: old(LinksSince(h, n)) ==> LinksSince(h, n)
        invariant forall h, n: nat :: old(ReceiptsSince(h, n)) ==> ReceiptsSince(h, n)
      {
        CleanupTransfer(items[i].0, items[i].1);
        assert items[..i + 1][..i] == items[..i];
      }
      assert items[..|items|] == items;
      transfers := [];
    }

    /** `LinksService.cleanup_session`: the snapshot is what earlier calls left in the cache. */
    method CleanupLinks()
      modifies `openLinks, `pendingReceipts, `log
      ensures openLinks == [] && log == old(log) + LinkCalls(old(openLinks))
      ensures forall h, n: nat :: old(ReceiptsSince(h, n)) ==> ReceiptsSince(h, n)
    {
      var items := openLinks;
      for i := 0 to |items|
        invariant log == old(log) + LinkCalls(items[..i])
        invariant forall h, n: nat :: old(ReceiptsSince(h, n)) ==> ReceiptsSince(h, n)
      {
        if items[i].1.Some? {
          var _ := External(TeardownLink(items[i].1.value));
        }
        assert items[..i + 1][..i] == items[..i];
      }
      assert items[..|items|] == items;
      openLinks := [];
    }

    /** The first half of `PacketsService.cleanup_session`. */
    method CleanupListeners()
      modifies `packetListeners, `openLinks, `pendingReceipts, `log
      ensures packetListeners == [] && log == old(log) + ListenerCalls(old(packetListeners), ownedDestinations)
      ensures old(openLinks) == [] ==> openLinks == []
      ensures forall h, n: nat :: old(ReceiptsSince(h, n)) ==> ReceiptsSince(h, n)
    {
      var items := packetListeners;
      for i := 0 to |items|
        invariant log == old(log) + ListenerCalls(items[..i], ownedDestinations)
        invariant old(openLinks) == [] ==> openLinks == []
        invariant forall h, n: nat :: old(ReceiptsSince(h, n)) ==> ReceiptsSince(h, n)
      {
        if items[i] in ownedDestinations {
          var _ := External(ClearPacketCallback(items[i]));
        }
        assert items[..i + 1][..i] == items[..i];
      }
      assert items[..|items|] == items;
      packetListeners := [];
    }

    /** The second half: a receipt whose first call raises is left with its second callback. */
    method CleanupReceipts()
      modifies `openLinks, `pendingReceipts, `log
      ensures pendingReceipts == [] && log == old(log) + ReceiptCalls(old(pendingReceipts), env)
      ensures old(openLinks) == [] ==> openLinks == []
    {
      var items := pendingReceipts;
      for i := 0 to |items|
        invariant log == old(log) + ReceiptCalls(items[..i], env)
        invariant old(openLinks) == [] ==> openLinks == []
      {
        if items[i].1.Some? {
          var ok := External(ClearDelivery(items[i].1.value));
          if ok {
            var _ := External(ClearTimeout(items[i].1.value));
          }
        }
        assert items[..i + 1][..i] == items[..i];
      }
      assert items[..|items|] == items;
      pendingReceipts := [];
    }

    /** `DestinationService.cleanup_session`. */
    method CleanupDestinations()
      modifies `ownedDestinations, `openLinks, `pendingReceipts, `log
      ensures ownedDestinations == [] && log == old(log) + DestinationCalls(old(ownedDestinations))
      ensures old(openLinks) == [] ==> openLinks == []
      ensures old(pendingReceipts) == [] ==> pendingReceipts == []
    {
      var items := ownedDestinations;
      for i := 0 to |items|
        invariant log == old(log) + DestinationCalls(items)[..i]
        invariant old(openLinks) == [] ==> openLinks == []
        invariant old(pendingReceipts) == [] ==> pendingReceipts == []
      {
        var _ := External(Deregister(items[i]));
      }
      assert DestinationCalls(items)[..|items|] == DestinationCalls(items);
      ownedDestinations := [];
    }

    method CloseSockets()
      modifies `openLinks, `pendingReceipts, `log
      ensures log == old(log) + SocketCalls(wsConnections)
      ensures old(openLinks) == [] ==> openLinks == []
      ensures old(pendingReceipts) == [] ==> pendingReceipts == []
    {
      for i := 0 to |wsConnections|
        invariant log == old(log) + SocketCalls(wsConnections)[..i]
        invariant old(openLinks) == [] ==> openLinks == []
        invariant old(pendingReceipts) == [] ==> pendingReceipts == []
      {
        var _ := External(CloseSocket(wsConnections[i]));
      }
      assert SocketCalls(wsConnections)[..|wsConnections|] == SocketCalls(wsConnections);
    }

    method CleanupTransfersAndLinks()
      modifies `transfers, `openLinks, `pendingReceipts, `log
      ensures transfers == [] && openLinks == []
      ensures var a := AllTransferCalls(old(transfers), env);
              log == old(log) + (a + LinkCalls(After(old(View()), env, a).links))
      ensures forall h, n: nat :: old(ReceiptsSince(h, n)) ==> ReceiptsSince(h, n)
    {
      ghost var h, n := View(), |log|;
      assert log[n..] == [];
      assert LinksSince(h, n);
      CleanupTransfers();
      assert log[n..] == AllTransferCalls(h.transfers, env) && LinksSince(h, n);
      CleanupLinks();
    }

    method RunEarlyHooks()
      modifies `transfers, `openLinks, `packetListeners, `pendingReceipts, `log
      ensures transfers == [] && openLinks == [] && packetListeners == []
      ensures log == old(log) + EarlyCalls(old(View()), env)
      ensures pendingReceipts == After(old(View()), env, EarlyCalls(old(View()), env)).receipts
    {
      ghost var h, was := View(), log;
      assert log[|was|..] == [];
      assert ReceiptsSince(h, |was|);
      CleanupTransfersAndLinks();
      ghost var links := log;
      CleanupListeners();
      EarlyLog(h, env, was, links, log);
    }

    method RunLateHooks()
      modifies `openLinks, `pendingReceipts, `ownedDestinations, `log
      ensures pendingReceipts == [] && ownedDestinations == [] && (old(openLinks) == [] ==> openLinks == [])
      ensures log == old(log) + (ReceiptCalls(old(pendingReceipts), env) + DestinationCalls(old(ownedDestinations)))
    {
      CleanupReceipts();
      CleanupDestinations();
    }

    /** `_teardown`: the hooks in registration order, the farewell event, the sockets. */
    method RunTeardown()
      modifies this
      ensures View() == NOTHING && wsConnections == old(wsConnections)
      ensures log == old(log) + TeardownCalls(old(View()), env, wsConnections)
    {
      ghost var h, was := View(), log;
      ghost var early := EarlyCalls(h, env);
      ghost var late := ReceiptCalls(After(h, env, early).receipts, env) + DestinationCalls(h.owned);
      RunEarlyHooks();
      RunLateHooks();
      assert log == was + early + late;
      var _ := External(SendEnded);
      CloseSockets();
      Regroup(was, early, late, SocketCalls(wsConnections));
    }
  }

  // ---------- what a teardown guarantees ----------

  /** The place of a call's hook in the registration order. */
  function Rank(c: Call): nat {
    match c
    case CancelResource(_) | CancelPoller(_) | Unlink(_) => 0
    case TeardownLink(_) => 1
    case ClearPacketCallback(_) => 2
    case ClearDelivery(_) | ClearTimeout(_) => 3
    case Deregister(_) => 4
    case SendEnded => 5
    case CloseSocket(_) => 6
  }

  ghost predicate AllRank(s: seq<Call>, r: nat) {
    forall i | 0 <= i < |s| :: Rank(s[i]) == r
  }

  ghost predicate Ranked(s: seq<Call>) {
    forall i, j | 0 <= i < j < |s| :: Rank(s[i]) <= Rank(s[j])
  }

  ghost predicate RankedUpTo(s: seq<Call>, r: nat) {
    Ranked(s) && forall i | 0 <= i < |s| :: Rank(s[i]) <= r
  }

  lemma {:induction false} TransferRank(ts: seq<(Key, Transfer)>, e: Env)
    ensures AllRank(AllTransferCalls(ts, e), 0)
  {
    if ts != [] { TransferRank(ts[..|ts| - 1], e); }
  }

  lemma {:induction false} LinkRank(links: seq<(Key, Option<nat>)>)
    ensures AllRank(LinkCalls(links), 1)
  {
    if links != [] { LinkRank(links[..|links| - 1]); }
  }

  lemma {:induction false} ListenerRank(listeners: seq<Key>, owned: seq<Key>)
    ensures AllRank(ListenerCalls(listeners, owned), 2)
  {
    if listeners != [] { ListenerRank(listeners[..|listeners| - 1], owned); }
  }

  lemma {:induction false} ReceiptRank(receipts: seq<(Key, Option<nat>)>, e: Env)
    ensures AllRank(ReceiptCalls(receipts, e), 3)
  {
    if receipts != [] { ReceiptRank(receipts[..|receipts| - 1], e); }
  }

  lemma RankedJoin(s: seq<Call>, t: seq<Call>, r: nat)
    requires Ranked(s) && AllRank(t, r) && forall i | 0 <= i < |s| :: Rank(s[i]) <= r
    ensures RankedUpTo(s + t, r)
  {
  }

  /** Main result. Whatever raises and whatever callbacks run inside the calls, no call of a hook comes
      before a call of an earlier-registered one: resources are cancelled and files removed before links
      are torn down, packet callbacks and receipts are cleared before any destination is deregistered,
      and the farewell and the socket closes come last. */
  lemma HooksInOrder(h: Held, e: Env, sockets: seq<nat>)
    ensures Ranked(TeardownCalls(h, e, sockets))
  {
    var early := EarlyCalls(h, e);
    var receipts := After(h, e, early).receipts;
    EarlyInOrder(h, e);
    ReceiptRank(receipts, e);
    LateInOrder(early, ReceiptCalls(receipts, e), DestinationCalls(h.owned), SocketCalls(sockets));
  }

  lemma EarlyInOrder(h: Held, e: Env)
    ensures RankedUpTo(EarlyCalls(h, e), 2)
  {
    var a := AllTransferCalls(h.transfers, e);
    var b := LinkCalls(After(h, e, a).links);
    var c := ListenerCalls(h.listeners, h.owned);
    TransferRank(h.transfers, e);
    LinkRank(After(h, e, a).links);
    ListenerRank(h.listeners, h.owned);
    RankedJoin(a, b, 1);
    RankedJoin(a + b, c, 2);
  }

  lemma LateInOrder(early: seq<Call>, d: seq<Call>, f: seq<Call>, g: seq<Call>)
    requires RankedUpTo(early, 2) && AllRank(d, 3) && AllRank(f, 4) && AllRank(g, 6)
    ensures Ranked(early + (d + f) + [SendEnded] + g)
  {
    RankedJoin(early, d, 3);
    RankedJoin(early + d, f, 4);
    assert early + d + f == early + (d + f);
    RankedJoin(early + (d + f), [SendEnded], 5);
    RankedJoin(early + (d + f) + [SendEnded], g, 6);
  }

  /** How often `c` is called. */
  function Count(s: seq<Call>, c: Call): nat {
    multiset(s)[c]
  }

  lemma CountJoin(s: seq<Call>, t: seq<Call>, c: Call)
    ensures Count(s + t, c) == Count(s, c) + Count(t, c)
  {
  }

  lemma CountOther(s: seq<Call>, r: nat, c: Call)
    requires AllRank(s, r) && Rank(c) != r
    ensures Count(s, c) == 0
  {
    assert c !in s;
  }

  lemma CountSegments(a: seq<Call>, b: seq<Call>, l: seq<Call>, d: seq<Call>, f: seq<Call>, g: seq<Call>, c: Call)
    ensures Count(a + b + l + (d + f) + [SendEnded] + g, c)
         == Count(a, c) + Count(b, c) + Count(l, c) + Count(d, c) + Count(f, c) + Count([SendEnded], c) + Count(g, c)
  {
    CountJoin(a + b + l + (d + f) + [SendEnded], g, c);
    CountJoin(a + b + l + (d + f), [SendEnded], c);
    CountJoin(a + b + l, d + f, c);
    CountJoin(d, f, c);
    CountJoin(a + b, l, c);
    CountJoin(a, b, c);
  }

  lemma SegmentOnly(s: seq<Call>, r: nat, c: Call)
    requires AllRank(s, r)
    ensures Rank(c) != r ==> Count(s, c) == 0
  {
    if Rank(c) != r { CountOther(s, r, c); }
  }

  lemma CountRanked(a: seq<Call>, b: seq<Call>, l: seq<Call>, d: seq<Call>, f: seq<Call>, g: seq<Call>, c: Call)
    requires AllRank(a, 0) && AllRank(b, 1) && AllRank(l, 2) && AllRank(d, 3) && AllRank(f, 4) && AllRank(g, 6)
    ensures var n := Count(a + b + l + (d + f) + [SendEnded] + g, c);
            && (Rank(c) == 0 ==> n == Count(a, c))
            && (Rank(c) == 1 ==> n == Count(b, c))
            && (Rank(c) == 2 ==> n == Count(l, c))
            && (Rank(c) == 3 ==> n == Count(d, c))
            && (Rank(c) == 4 ==> n == Count(f, c))
            && (Rank(c) == 5 ==> n == 1)
            && (Rank(c) == 6 ==> n == Count(g, c))
  {
    CountSegments(a, b, l, d, f, g, c);
    SegmentOnly(a, 0, c);
    SegmentOnly(b, 1, c);
    SegmentOnly(l, 2, c);
    SegmentOnly(d, 3, c);
    SegmentOnly(f, 4, c);
    SegmentOnly([SendEnded], 5, c);
    SegmentOnly(g, 6, c);
  }

  /** Only the segment of its own hook contributes to the count of a call. */
  lemma CountByHook(h: Held, e: Env, sockets: seq<nat>, c: Call)
    ensures var n := Count(TeardownCalls(h, e, sockets), c);
            && (Rank(c) == 0 ==> n == Count(AllTransferCalls(h.transfers, e), c))
            && (Rank(c) == 1 ==> n == Count(LinkCalls(After(h, e, AllTransferCalls(h.transfers, e)).links), c))
            && (Rank(c) == 2 ==> n == Count(ListenerCalls(h.listeners, h.owned), c))
            && (Rank(c) == 3 ==> n == Count(ReceiptCalls(After(h, e, EarlyCalls(h, e)).receipts, e), c))
            && (Rank(c) == 4 ==> n == Count(DestinationCalls(h.owned), c))
            && (Rank(c) == 5 ==> n == 1)
            && (Rank(c) == 6 ==> n == Count(SocketCalls(sockets), c))
  {
    var a := AllTransferCalls(h.transfers, e);
    var links := After(h, e, a).links;
    var receipts := After(h, e, EarlyCalls(h, e)).receipts;
    TransferRank(h.transfers, e);
    LinkRank(links);
    ListenerRank(h.listeners, h.owned);
    ReceiptRank(receipts, e);
    CountRanked(a, LinkCalls(links), ListenerCalls(h.listeners, h.owned), ReceiptCalls(receipts, e),
                DestinationCalls(h.owned), SocketCalls(sockets), c);
  }

  // ---------- the transfers ----------

  /** What transfer `x` needs done: its resource and its poller cancelled, its files gone. */
  predicate Needs(x: (Key, Transfer), c: Call) {
    || (x.1.resource && c == CancelResource(x.0))
    || (x.1.poller && c == CancelPoller(x.0))
    || (x.1.temp.Some? && c == Unlink(x.1.temp.value))
    || (x.1.upload.Some? && c == Unlink(x.1.upload.value))
  }

  ghost predicate SomeNeeds(ts: seq<(Key, Transfer)>, c: Call) {
    exists i :: 0 <= i < |ts| && Needs(ts[i], c)
  }

  /** Transfer ids are keys of a dict, and no file belongs to two transfers or to one twice. */
  ghost predicate Apart(ts: seq<(Key, Transfer)>) {
    && (forall i, j | 0 <= i < j < |ts| :: ts[i].0 != ts[j].0)
    && (forall i, j, p | 0 <= i < j < |ts| && Needs(ts[i], Unlink(p)) :: !Needs(ts[j], Unlink(p)))
    && (forall i | 0 <= i < |ts| && ts[i].1.temp.Some? :: ts[i].1.temp != ts[i].1.upload)
  }

  lemma CountFive(a: seq<Call>, b: seq<Call>, d: seq<Call>, f: seq<Call>, g: seq<Call>, c: Call)
    ensures Count(a + b + d + f + g, c) == Count(a, c) + Count(b, c) + Count(d, c) + Count(f, c) + Count(g, c)
  {
    CountJoin(a + b + d + f, g, c);
    CountJoin(a + b + d, f, c);
    CountJoin(a + b, d, c);
    CountJoin(a, b, c);
  }

  /** The same calls, `u` early or late. */
  lemma CountMoved(a: seq<Call>, u: seq<Call>, d: seq<Call>, f: seq<Call>, early: bool, c: Call)
    ensures var all := a + (if early then u else []) + d + f + (if early then [] else u);
            Count(all, c) == Count(a, c) + Count(u, c) + Count(d, c) + Count(f, c)
  {
    CountFive(a, if early then u else [], d, f, if early then [] else u, c);
    assert Count([], c) == 0;
  }

  /** At most one call: the one given, if there is one. */
  lemma CountOne(s: seq<Call>, x: Option<Call>, c: Call)
    requires s == if x.Some? then [x.value] else []
    ensures Count(s, c) == if x == Some(c) then 1 else 0
  {
  }

  function UnlinkCall(p: Option<Path>): Option<Call> {
    if p.Some? then Some(Unlink(p.value)) else None
  }

  lemma CountParts(k: Key, t: Transfer, a: seq<Call>, u: seq<Call>, d: seq<Call>, f: seq<Call>, c: Call)
    requires t.temp.Some? ==> t.temp != t.upload
    requires a == if t.resource then [CancelResource(k)] else []
    requires u == if t.upload.Some? then [Unlink(t.upload.value)] else []
    requires d == if t.poller then [CancelPoller(k)] else []
    requires f == if t.temp.Some? then [Unlink(t.temp.value)] else []
    ensures Count(a, c) + Count(u, c) + Count(d, c) + Count(f, c) == if Needs((k, t), c) then 1 else 0
  {
    CountOne(a, if t.resource then Some(CancelResource(k)) else None, c);
    CountOne(u, UnlinkCall(t.upload), c);
    CountOne(d, if t.poller then Some(CancelPoller(k)) else None, c);
    CountOne(f, UnlinkCall(t.temp), c);
  }

  lemma TransferOnce(k: Key, t: Transfer, e: Env, c: Call)
    requires t.temp.Some? ==> t.temp != t.upload
    ensures Count(TransferCalls(k, t, e), c) == if Needs((k, t), c) then 1 else 0
  {
    var a := if t.resource then [CancelResource(k)] else [];
    var u := if t.upload.Some? then [Unlink(t.upload.value)] else [];
    var d := if t.poller then [CancelPoller(k)] else [];
    var f := if t.temp.Some? then [Unlink(t.temp.value)] else [];
    var early := t.resource && e.completes(k);
    CountMoved(a, u, d, f, early, c);
    CountParts(k, t, a, u, d, f, c);
  }

  lemma SomeNeedsLast(ts: seq<(Key, Transfer)>, c: Call)
    requires ts != []
    ensures SomeNeeds(ts, c) <==> SomeNeeds(ts[..|ts| - 1], c) || Needs(ts[|ts| - 1], c)
  {
    var p := ts[..|ts| - 1];
    assert forall i | 0 <= i < |p| :: p[i] == ts[i];
  }

  lemma NeededByOne(ts: seq<(Key, Transfer)>, c: Call)
    requires ts != [] && Apart(ts) && SomeNeeds(ts[..|ts| - 1], c)
    ensures !Needs(ts[|ts| - 1], c)
  {
    var p := ts[..|ts| - 1];
    var i :| 0 <= i < |p| && Needs(p[i], c);
    assert p[i] == ts[i];
    if c.Unlink? {
      assert Needs(ts[i], Unlink(c.path));
    }
  }

  lemma PrefixApart(ts: seq<(Key, Transfer)>)
    requires ts != [] && Apart(ts)
    ensures Apart(ts[..|ts| - 1])
  {
    var p := ts[..|ts| - 1];
    assert forall i | 0 <= i < |p| :: p[i] == ts[i];
  }

  lemma {:induction false} TransferCount(ts: seq<(Key, Transfer)>, e: Env, c: Call)
    requires Apart(ts)
    ensures Count(AllTransferCalls(ts, e), c) == if SomeNeeds(ts, c) then 1 else 0
  {
    if ts != [] {
      var p, x := ts[..|ts| - 1], ts[|ts| - 1];
      PrefixApart(ts);
      TransferCount(p, e, c);
      TransferOnce(x.0, x.1, e, c);
      CountJoin(AllTransferCalls(p, e), TransferCalls(x.0, x.1, e), c);
      SomeNeedsLast(ts, c);
      if SomeNeeds(p, c) { NeededByOne(ts, c); }
    }
  }

  lemma CleanedOnce(h: Held, e: Env, sockets: seq<nat>, c: Call)
    requires Apart(h.transfers) && Rank(c) == 0
    ensures Count(TeardownCalls(h, e, sockets), c) == if SomeNeeds(h.transfers, c) then 1 else 0
  {
    CountByHook(h, e, sockets, c);
    TransferCount(h.transfers, e, c);
  }

  lemma NeedsCancel(ts: seq<(Key, Transfer)>, k: Key)
    ensures SomeNeeds(ts, CancelResource(k)) <==> exists i :: 0 <= i < |ts| && ts[i].0 == k && ts[i].1.resource
  {
    if i :| 0 <= i < |ts| && ts[i].0 == k && ts[i].1.resource { assert Needs(ts[i], CancelResource(k)); }
  }

  lemma NeedsPollerCancel(ts: seq<(Key, Transfer)>, k: Key)
    ensures SomeNeeds(ts, CancelPoller(k)) <==> exists i :: 0 <= i < |ts| && ts[i].0 == k && ts[i].1.poller
  {
    if i :| 0 <= i < |ts| && ts[i].0 == k && ts[i].1.poller { assert Needs(ts[i], CancelPoller(k)); }
  }

  lemma NeedsUnlink(ts: seq<(Key, Transfer)>, p: Path)
    ensures SomeNeeds(ts, Unlink(p)) <==>
              exists i :: 0 <= i < |ts| && (ts[i].1.temp == Some(p) || ts[i].1.upload == Some(p))
  {
    if i :| 0 <= i < |ts| && (ts[i].1.temp == Some(p) || ts[i].1.upload == Some(p)) { assert Needs(ts[i], Unlink(p)); }
  }

  /** Main result. Whatever raises and whatever completes inside a cancel, each transfer with a resource has it
      cancelled exactly once, and no other is cancelled. */
  lemma ResourcesCancelledOnce(h: Held, e: Env, sockets: seq<nat>, k: Key)
    requires Apart(h.transfers)
    ensures var ts := h.transfers;
            Count(TeardownCalls(h, e, sockets), CancelResource(k)) ==
              if exists i :: 0 <= i < |ts| && ts[i].0 == k && ts[i].1.resource then 1 else 0
  {
    CleanedOnce(h, e, sockets, CancelResource(k));
    NeedsCancel(h.transfers, k);
  }

  /** The same for the pollers. */
  lemma PollersCancelledOnce(h: Held, e: Env, sockets: seq<nat>, k: Key)
    requires Apart(h.transfers)
    ensures var ts := h.transfers;
            Count(TeardownCalls(h, e, sockets), CancelPoller(k)) ==
              if exists i :: 0 <= i < |ts| && ts[i].0 == k && ts[i].1.poller then 1 else 0
  {
    CleanedOnce(h, e, sockets, CancelPoller(k));
    NeedsPollerCancel(h.transfers, k);
  }

  /** Main result. Each temp file and each upload file is unlinked exactly once, whether the transfer completes
      inside its cancel or not, and no other file is. */
  lemma FilesUnlinkedOnce(h: Held, e: Env, sockets: seq<nat>, p: Path)
    requires Apart(h.transfers)
    ensures var ts := h.transfers;
            Count(TeardownCalls(h, e, sockets), Unlink(p)) ==
              if exists i :: 0 <= i < |ts| && (ts[i].1.temp == Some(p) || ts[i].1.upload == Some(p)) then 1 else 0
  {
    CleanedOnce(h, e, sockets, Unlink(p));
    NeedsUnlink(h.transfers, p);
  }

  // ---------- links and receipts ----------

  ghost predicate DistinctLinks(d: seq<(Key, Option<nat>)>) {
    forall i, j | 0 <= i < j < |d| && d[i].1.Some? :: d[i].1 != d[j].1
  }

  lemma {:induction false} KeepExactly<V>(d: seq<(Key, V)>, gone: set<Key>, x: (Key, V))
    ensures x in Keep(d, gone) <==> x in d && x.0 !in gone
  {
    if d != [] { KeepExactly(d[1..], gone, x); }
  }

  /** A link entry survives exactly the calls inside which its closed callback does not run. */
  lemma {:induction false} SurvivesExactly(h: Held, e: Env, calls: seq<Call>, x: (Key, Option<nat>))
    ensures x in After(h, e, calls).links <==> x in h.links && forall c | c in calls :: x.0 !in e.closed(c)
  {
    if calls != [] {
      var p, c := calls[..|calls| - 1], calls[|calls| - 1];
      SurvivesExactly(h, e, p, x);
      KeepExactly(After(h, e, p).links, e.closed(c), x);
      assert forall k :: k in calls <==> k in p || k == c;
    }
  }

  lemma {:induction false} KeepDistinct(d: seq<(Key, Option<nat>)>, gone: set<Key>)
    requires DistinctLinks(d)
    ensures DistinctLinks(Keep(d, gone))
  {
    if d != [] {
      KeepDistinct(d[1..], gone);
      forall x | x in Keep(d[1..], gone) ensures d[0].1.Some? ==> x.1 != d[0].1 {
        KeepExactly(d[1..], gone, x);
      }
    }
  }

  lemma {:induction false} AfterDistinct(h: Held, e: Env, calls: seq<Call>)
    requires DistinctLinks(h.links)
    ensures DistinctLinks(After(h, e, calls).links)
  {
    if calls != [] {
      AfterDistinct(h, e, calls[..|calls| - 1]);
      KeepDistinct(After(h, e, calls[..|calls| - 1]).links, e.closed(calls[|calls| - 1]));
    }
  }

  /** Some slot holds link, or receipt, `l`. */
  ghost predicate HasLink(links: seq<(Key, Option<nat>)>, l: nat) {
    exists i :: 0 <= i < |links| && links[i].1 == Some(l)
  }

  lemma HasLinkLast(links: seq<(Key, Option<nat>)>, l: nat)
    requires links != []
    ensures var p, x := links[..|links| - 1], links[|links| - 1];
            && (HasLink(links, l) <==> HasLink(p, l) || x.1 == Some(l))
            && (DistinctLinks(links) && x.1 == Some(l) ==> !HasLink(p, l))
  {
    var p := links[..|links| - 1];
    if HasLink(p, l) {
      var i :| 0 <= i < |p| && p[i].1 == Some(l);
      assert links[i].1 == Some(l);
    }
  }

  lemma {:induction false} LinkCount(links: seq<(Key, Option<nat>)>, l: nat)
    requires DistinctLinks(links)
    ensures Count(LinkCalls(links), TeardownLink(l)) == if HasLink(links, l) then 1 else 0
  {
    if links != [] {
      var p, x := links[..|links| - 1], links[|links| - 1];
      var last := if x.1.Some? then [TeardownLink(x.1.value)] else [];
      LinkCount(p, l);
      CountJoin(LinkCalls(p), last, TeardownLink(l));
      assert Count(last, TeardownLink(l)) == if x.1 == Some(l) then 1 else 0;
      HasLinkLast(links, l);
    }
  }

  /** Some callback running inside one of `calls` evicts slot `k`. */
  ghost predicate EvictedWithin(e: Env, calls: seq<Call>, k: Key) {
    exists c :: c in calls && k in e.closed(c)
  }

  lemma LinkLeft(h: Held, e: Env, calls: seq<Call>, k: Key, l: nat)
    requires DistinctLinks(h.links) && (k, Some(l)) in h.links
    ensures HasLink(After(h, e, calls).links, l) <==> !EvictedWithin(e, calls, k)
  {
    var left := After(h, e, calls).links;
    SurvivesExactly(h, e, calls, (k, Some(l)));
    if HasLink(left, l) {
      var i :| 0 <= i < |left| && left[i].1 == Some(l);
      SurvivesExactly(h, e, calls, left[i]);
      assert left[i] == (k, Some(l));
    }
  }

  /** Main result. A cached link is torn down exactly once, unless its closed callback already evicted
      it while the transfers were being cancelled, and then not at all. */
  lemma LinksTornDownOnce(h: Held, e: Env, sockets: seq<nat>, k: Key, l: nat)
    requires DistinctLinks(h.links) && (k, Some(l)) in h.links
    ensures Count(TeardownCalls(h, e, sockets), TeardownLink(l)) ==
              if EvictedWithin(e, AllTransferCalls(h.transfers, e), k) then 0 else 1
  {
    var a := AllTransferCalls(h.transfers, e);
    CountByHook(h, e, sockets, TeardownLink(l));
    AfterDistinct(h, e, a);
    LinkCount(After(h, e, a).links, l);
    LinkLeft(h, e, a, k, l);
  }

  // ---------- the receipts ----------

  /** Some callback running inside one of `calls` drops receipt slot `k`. */
  ghost predicate SettledWithin(e: Env, calls: seq<Call>, k: Key) {
    exists c :: c in calls && k in e.settled(c)
  }

  /** A pending receipt survives exactly the calls inside which its own callbacks do not run. */
  lemma {:induction false} PendingExactly(h: Held, e: Env, calls: seq<Call>, x: (Key, Option<nat>))
    ensures x in After(h, e, calls).receipts <==> x in h.receipts && !SettledWithin(e, calls, x.0)
  {
    if calls != [] {
      var p, c := calls[..|calls| - 1], calls[|calls| - 1];
      PendingExactly(h, e, p, x);
      KeepExactly(After(h, e, p).receipts, e.settled(c), x);
      assert forall k :: k in calls <==> k in p || k == c;
    }
  }

  lemma {:induction false} PendingDistinct(h: Held, e: Env, calls: seq<Call>)
    requires DistinctLinks(h.receipts)
    ensures DistinctLinks(After(h, e, calls).receipts)
  {
    if calls != [] {
      PendingDistinct(h, e, calls[..|calls| - 1]);
      KeepDistinct(After(h, e, calls[..|calls| - 1]).receipts, e.settled(calls[|calls| - 1]));
    }
  }

  lemma PendingLeft(h: Held, e: Env, calls: seq<Call>, k: Key, r: nat)
    requires DistinctLinks(h.receipts) && (k, Some(r)) in h.receipts
    ensures HasLink(After(h, e, calls).receipts, r) <==> !SettledWithin(e, calls, k)
  {
    var left := After(h, e, calls).receipts;
    PendingExactly(h, e, calls, (k, Some(r)));
    if HasLink(left, r) {
      var i :| 0 <= i < |left| && left[i].1 == Some(r);
      PendingExactly(h, e, calls, left[i]);
      assert left[i] == (k, Some(r));
    }
  }

  /** The calls made for one receipt. */
  lemma ReceiptOnce(x: Option<nat>, e: Env, s: seq<Call>, r: nat)
    requires s == if x.None? then []
                  else if e.raises(ClearDelivery(x.value)) then [ClearDelivery(x.value)]
                  else [ClearDelivery(x.value), ClearTimeout(x.value)]
    ensures Count(s, ClearDelivery(r)) == if x == Some(r) then 1 else 0
    ensures Count(s, ClearTimeout(r)) == if x == Some(r) && !e.raises(ClearDelivery(r)) then 1 else 0
  {
  }

  lemma {:induction false} ReceiptCount(receipts: seq<(Key, Option<nat>)>, e: Env, r: nat)
    requires DistinctLinks(receipts)
    ensures Count(ReceiptCalls(receipts, e), ClearDelivery(r)) == if HasLink(receipts, r) then 1 else 0
    ensures Count(ReceiptCalls(receipts, e), ClearTimeout(r)) ==
              if HasLink(receipts, r) && !e.raises(ClearDelivery(r)) then 1 else 0
  {
    if receipts != [] {
      var p, x := receipts[..|receipts| - 1], receipts[|receipts| - 1];
      var last := if x.1.None? then []
                  else if e.raises(ClearDelivery(x.1.value)) then [ClearDelivery(x.1.value)]
                  else [ClearDelivery(x.1.value), ClearTimeout(x.1.value)];
      ReceiptCount(p, e, r);
      CountJoin(ReceiptCalls(p, e), last, ClearDelivery(r));
      CountJoin(ReceiptCalls(p, e), last, ClearTimeout(r));
      ReceiptOnce(x.1, e, last, r);
      HasLinkLast(receipts, r);
    }
  }

  /** Main result. A pending receipt has its delivery callback cleared exactly once, unless one of its callbacks
      already dropped it while the earlier hooks ran, and then not at all; its timeout callback is cleared
      exactly once if clearing the first did not raise. */
  lemma ReceiptsClearedOnce(h: Held, e: Env, sockets: seq<nat>, k: Key, r: nat)
    requires DistinctLinks(h.receipts) && (k, Some(r)) in h.receipts
    ensures var settled := SettledWithin(e, EarlyCalls(h, e), k);
            && Count(TeardownCalls(h, e, sockets), ClearDelivery(r)) == (if settled then 0 else 1)
            && Count(TeardownCalls(h, e, sockets), ClearTimeout(r)) ==
                 (if settled || e.raises(ClearDelivery(r)) then 0 else 1)
  {
    var early := EarlyCalls(h, e);
    CountByHook(h, e, sockets, ClearDelivery(r));
    CountByHook(h, e, sockets, ClearTimeout(r));
    PendingDistinct(h, e, early);
    ReceiptCount(After(h, e, early).receipts, e, r);
    PendingLeft(h, e, early, k, r);
  }

  // ---------- nothing else is called ----------

  /** The call concerns something the session held. */
  ghost predicate Owed(h: Held, sockets: seq<nat>, c: Call) {
    match c
    case CancelResource(_) | CancelPoller(_) | Unlink(_) => SomeNeeds(h.transfers, c)
    case TeardownLink(l) => HasLink(h.links, l)
    case ClearPacketCallback(x) => x in h.listeners && x in h.owned
    case ClearDelivery(r) => HasLink(h.receipts, r)
    case ClearTimeout(r) => HasLink(h.receipts, r)
    case Deregister(x) => x in h.owned
    case SendEnded => true
    case CloseSocket(s) => s in sockets
  }

  lemma {:induction false} TransferOwed(ts: seq<(Key, Transfer)>, e: Env, c: Call)
    requires c in AllTransferCalls(ts, e)
    ensures SomeNeeds(ts, c)
  {
    var p, x := ts[..|ts| - 1], ts[|ts| - 1];
    SomeNeedsLast(ts, c);
    if c in AllTransferCalls(p, e) { TransferOwed(p, e, c); } else { assert c in TransferCalls(x.0, x.1, e); }
  }

  lemma {:induction false} LinkOwed(links: seq<(Key, Option<nat>)>, c: Call)
    requires c in LinkCalls(links)
    ensures c.TeardownLink? && HasLink(links, c.link)
  {
    var p, x := links[..|links| - 1], links[|links| - 1];
    if c in LinkCalls(p) { LinkOwed(p, c); }
    HasLinkLast(links, if c.TeardownLink? then c.link else 0);
  }

  lemma {:induction false} ListenerOwed(listeners: seq<Key>, owned: seq<Key>, c: Call)
    requires c in ListenerCalls(listeners, owned)
    ensures c.ClearPacketCallback? && c.hash in listeners && c.hash in owned
  {
    var p := listeners[..|listeners| - 1];
    if c in ListenerCalls(p, owned) { ListenerOwed(p, owned, c); }
  }

  lemma {:induction false} ReceiptOwed(receipts: seq<(Key, Option<nat>)>, e: Env, c: Call)
    requires c in ReceiptCalls(receipts, e)
    ensures (c.ClearDelivery? || c.ClearTimeout?) && HasLink(receipts, c.receipt)
  {
    var p := receipts[..|receipts| - 1];
    if c in ReceiptCalls(p, e) { ReceiptOwed(p, e, c); }
    HasLinkLast(receipts, if c.ClearDelivery? || c.ClearTimeout? then c.receipt else 0);
  }

  lemma StillHas(h: Held, e: Env, calls: seq<Call>, l: nat)
    ensures HasLink(After(h, e, calls).links, l) ==> HasLink(h.links, l)
    ensures HasLink(After(h, e, calls).receipts, l) ==> HasLink(h.receipts, l)
  {
    var links, receipts := After(h, e, calls).links, After(h, e, calls).receipts;
    if i :| 0 <= i < |links| && links[i].1 == Some(l) { SurvivesExactly(h, e, calls, links[i]); }
    if i :| 0 <= i < |receipts| && receipts[i].1 == Some(l) { PendingExactly(h, e, calls, receipts[i]); }
  }

  lemma InSegments(a: seq<Call>, b: seq<Call>, l: seq<Call>, d: seq<Call>, f: seq<Call>, g: seq<Call>, c: Call)
    requires c in a + b + l + (d + f) + [SendEnded] + g
    ensures c in a || c in b || c in l || c in d || c in f || c == SendEnded || c in g
  {
  }

  /** Main result. A teardown makes no call that is not for something the session held when it began. */
  lemma NothingElseCalled(h: Held, e: Env, sockets: seq<nat>, c: Call)
    requires c in TeardownCalls(h, e, sockets)
    ensures Owed(h, sockets, c)
  {
    var a := AllTransferCalls(h.transfers, e);
    var links, receipts := After(h, e, a).links, After(h, e, EarlyCalls(h, e)).receipts;
    InSegments(a, LinkCalls(links), ListenerCalls(h.listeners, h.owned), ReceiptCalls(receipts, e),
               DestinationCalls(h.owned), SocketCalls(sockets), c);
    if c in a {
      TransferOwed(h.transfers, e, c);
    } else if c in LinkCalls(links) {
      LinkOwed(links, c);
      StillHas(h, e, a, c.link);
    } else if c in ListenerCalls(h.listeners, h.owned) {
      ListenerOwed(h.listeners, h.owned, c);
    } else if c in ReceiptCalls(receipts, e) {
      ReceiptOwed(receipts, e, c);
      StillHas(h, e, EarlyCalls(h, e), c.receipt);
    }
  }

  lemma {:induction false} SocketOnce(sockets: seq<nat>, x: nat)
    requires forall i, j | 0 <= i < j < |sockets| :: sockets[i] != sockets[j]
    ensures Count(SocketCalls(sockets), CloseSocket(x)) == if x in sockets then 1 else 0
  {
    if sockets != [] {
      var p, y := sockets[..|sockets| - 1], sockets[|sockets| - 1];
      assert sockets == p + [y];
      assert SocketCalls(sockets) == SocketCalls(p) + [CloseSocket(y)];
      SocketOnce(p, x);
      CountJoin(SocketCalls(p), [CloseSocket(y)], CloseSocket(x));
    }
  }

  /** The farewell is sent once and every socket is closed once. */
  lemma SocketsClosedOnce(h: Held, e: Env, sockets: seq<nat>, x: nat)
    requires forall i, j | 0 <= i < j < |sockets| :: sockets[i] != sockets[j]
    ensures Count(TeardownCalls(h, e, sockets), SendEnded) == 1
    ensures Count(TeardownCalls(h, e, sockets), CloseSocket(x)) == if x in sockets then 1 else 0
  {
    CountByHook(h, e, sockets, SendEnded);
    CountByHook(h, e, sockets, CloseSocket(x));
    SocketOnce(sockets, x);
  }

  // ---------- listeners and destinations ----------

  lemma {:induction false} ListenerCalled(listeners: seq<Key>, owned: seq<Key>, x: Key)
    requires x in listeners && x in owned
    ensures ClearPacketCallback(x) in ListenerCalls(listeners, owned)
  {
    if x != listeners[|listeners| - 1] {
      ListenerCalled(listeners[..|listeners| - 1], owned, x);
    }
  }

  /** Main result. Deregistering is attempted exactly once for every owned destination, and one that is
      listened to has its packet callback cleared before that. */
  lemma DestinationsReleased(h: Held, e: Env, sockets: seq<nat>, x: Key)
    requires x in h.owned && forall i, j | 0 <= i < j < |h.owned| :: h.owned[i] != h.owned[j]
    ensures var s := TeardownCalls(h, e, sockets);
            && Count(s, Deregister(x)) == 1
            && (x in h.listeners ==> InThisOrder(s, ClearPacketCallback(x), Deregister(x)))
  {
    DeregisterCount(h, e, sockets, x);
    if x in h.listeners {
      CallbackCleared(h, e, sockets, x);
      HooksInOrder(h, e, sockets);
      InOrderIn(TeardownCalls(h, e, sockets), x);
    }
  }

  lemma InOrderIn(s: seq<Call>, x: Key)
    requires Ranked(s) && Count(s, ClearPacketCallback(x)) > 0 && Count(s, Deregister(x)) > 0
    ensures InThisOrder(s, ClearPacketCallback(x), Deregister(x))
  {
    BothInOrder(s, ClearPacketCallback(x), Deregister(x));
  }

  lemma DeregisterCount(h: Held, e: Env, sockets: seq<nat>, x: Key)
    requires x in h.owned && forall i, j | 0 <= i < j < |h.owned| :: h.owned[i] != h.owned[j]
    ensures Count(TeardownCalls(h, e, sockets), Deregister(x)) == 1
  {
    CountByHook(h, e, sockets, Deregister(x));
    DeregisterOnce(h.owned, x);
  }

  lemma CallbackCleared(h: Held, e: Env, sockets: seq<nat>, x: Key)
    requires x in h.owned && x in h.listeners
    ensures Count(TeardownCalls(h, e, sockets), ClearPacketCallback(x)) > 0
  {
    CountByHook(h, e, sockets, ClearPacketCallback(x));
    ListenerCalled(h.listeners, h.owned, x);
  }

  /** Some call of `c` comes before some call of `d`. */
  ghost predicate InThisOrder(s: seq<Call>, c: Call, d: Call) {
    exists i, j :: 0 <= i < j < |s| && s[i] == c && s[j] == d
  }

  lemma BothInOrder(s: seq<Call>, c: Call, d: Call)
    requires Ranked(s) && Count(s, c) > 0 && Count(s, d) > 0 && Rank(c) < Rank(d)
    ensures InThisOrder(s, c, d)
  {
    assert c in multiset(s) && d in multiset(s);
    var i :| 0 <= i < |s| && s[i] == c;
    var j :| 0 <= j < |s| && s[j] == d;
    assert i < j;
  }

  lemma {:induction false} DeregisterOnce(owned: seq<Key>, x: Key)
    requires x in owned && forall i, j | 0 <= i < j < |owned| :: owned[i] != owned[j]
    ensures Count(DestinationCalls(owned), Deregister(x)) == 1
  {
    var p, y := owned[..|owned| - 1], owned[|owned| - 1];
    assert owned == p + [y];
    assert DestinationCalls(owned) == DestinationCalls(p) + [Deregister(y)];
    CountJoin(DestinationCalls(p), [Deregister(y)], Deregister(x));
    if x == y {
      assert Deregister(x) !in DestinationCalls(p);
    } else {
      DeregisterOnce(p, x);
    }
  }

  lemma OrderJoin(a: seq<Call>, s: seq<Call>, b: seq<Call>, c: Call, d: Call)
    requires InThisOrder(s, c, d)
    ensures InThisOrder(a + s + b, c, d)
  {
    var i, j :| 0 <= i < j < |s| && s[i] == c && s[j] == d;
    var t := a + s + b;
    assert t[|a| + i] == c && t[|a| + j] == d;
  }

  lemma CancelFirst(k: Key, t: Transfer, e: Env, p: Path)
    requires t.resource && (t.temp == Some(p) || t.upload == Some(p))
    ensures InThisOrder(TransferCalls(k, t, e), CancelResource(k), Unlink(p))
  {
    var s := TransferCalls(k, t, e);
    assert s[0] == CancelResource(k);
    assert Unlink(p) in s;
    var j :| 0 <= j < |s| && s[j] == Unlink(p);
    assert j > 0;
  }

  lemma {:induction false} CancelledFirst(ts: seq<(Key, Transfer)>, e: Env, i: nat, p: Path)
    requires i < |ts| && ts[i].1.resource && (ts[i].1.temp == Some(p) || ts[i].1.upload == Some(p))
    ensures InThisOrder(AllTransferCalls(ts, e), CancelResource(ts[i].0), Unlink(p))
  {
    var q, x := ts[..|ts| - 1], ts[|ts| - 1];
    var k := ts[i].0;
    var before, last := AllTransferCalls(q, e), TransferCalls(x.0, x.1, e);
    if i == |ts| - 1 {
      CancelFirst(k, x.1, e, p);
      OrderJoin(before, last, [], CancelResource(k), Unlink(p));
      assert before + last + [] == before + last;
    } else {
      CancelledFirst(q, e, i, p);
      OrderJoin([], before, last, CancelResource(k), Unlink(p));
      assert [] + before + last == before + last;
    }
  }

  /** A transfer's resource is cancelled before its files are removed. */
  lemma CancelledBeforeUnlinked(h: Held, e: Env, sockets: seq<nat>, i: nat, p: Path)
    requires i < |h.transfers|
    requires var t := h.transfers[i].1; t.resource && (t.temp == Some(p) || t.upload == Some(p))
    ensures InThisOrder(TeardownCalls(h, e, sockets), CancelResource(h.transfers[i].0), Unlink(p))
  {
    CancelledFirst(h.transfers, e, i, p);
    StartsWithTransfers(h, e, sockets);
    var a, s := AllTransferCalls(h.transfers, e), TeardownCalls(h, e, sockets);
    OrderJoin([], a, s[|a|..], CancelResource(h.transfers[i].0), Unlink(p));
    assert [] + a + s[|a|..] == s;
  }

  lemma StartsWithTransfers(h: Held, e: Env, sockets: seq<nat>)
    ensures AllTransferCalls(h.transfers, e) <= TeardownCalls(h, e, sockets)
  {
    Prefixed(AllTransferCalls(h.transfers, e), LinkCalls(After(h, e, AllTransferCalls(h.transfers, e)).links),
             ListenerCalls(h.listeners, h.owned),
             ReceiptCalls(After(h, e, EarlyCalls(h, e)).receipts, e) + DestinationCalls(h.owned), SocketCalls(sockets));
  }

  lemma Prefixed(a: seq<Call>, b: seq<Call>, l: seq<Call>, d: seq<Call>, g: seq<Call>)
    ensures a <= a + b + l + d + [SendEnded] + g
  {
  }

  /** A second teardown touches nothing the session held. */
  lemma SecondTeardown(e: Env, sockets: seq<nat>)
    ensures TeardownCalls(NOTHING, e, sockets) == [SendEnded] + SocketCalls(sockets)
  {
    assert EarlyCalls(NOTHING, e) == [];
  }
}
