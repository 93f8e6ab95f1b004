/**
  Destinations and the active identity: src/rnsapi/rns/destinations.py and the handlers of
  src/rnsapi/handlers/identity.py. RNS is an environment: it constructs a destination under a name,
  refuses a duplicate, or raises; `identities.load(h)` yields the identity whose hash is `h` or fails.
*/
module Destinations {
  import opened Text
  import opened Wrappers

  // ---------- names ----------

  /** RNS joins the app name, the aspects and, with an identity, its hex hash. */
  function RnsName(app: string, aspects: seq<string>, identity: Option<Bytes>): string {
    Join([app] + aspects + (if identity.Some? then [ToHex(identity.value)] else []), '.')
  }

  datatype Destination =
    Destination(hash: Bytes, identity: Option<Bytes>, name: string, direction: string, dtype: string)

  datatype Info =
    Info(hashHex: string, identityHex: string, direction: string, dtype: string, app: string, aspects: seq<string>)

  /** `_info_from_destination`. */
  function InfoFrom(d: Destination): Info {
    var parts := Split(d.name, '.');
    var aspects := parts[1..];
    var hex := if d.identity.Some? then ToHex(d.identity.value) else "";
    Info(ToHex(d.hash), hex, d.direction, d.dtype, parts[0],
         if d.identity.Some? && aspects != [] && aspects[|aspects| - 1] == hex
         then aspects[..|aspects| - 1] else aspects)
  }

  /** `^[a-zA-Z0-9_]+$` with `match`: `$` also matches before one final newline. */
  predicate IsName(s: string) {
    || Word(s)
    || (s != "" && s[|s| - 1] == '\n' && Word(s[..|s| - 1]))
  }

  predicate Word(s: string) {
    s != "" && forall i | 0 <= i < |s| :: 'a' <= s[i] <= 'z' || 'A' <= s[i] <= 'Z' || '0' <= s[i] <= '9' || s[i] == '_'
  }

  /** Main result. Parsing the name of a destination gives back exactly the app name and the aspects it
      was created with, also when the last aspect equals the hash of the identity. */
  lemma NameParsesBack(hash: Bytes, app: string, aspects: seq<string>, identity: Option<Bytes>, direction: string,
                       dtype: string)
    requires '.' !in app && forall i | 0 <= i < |aspects| :: '.' !in aspects[i]
    ensures var i := InfoFrom(Destination(hash, identity, RnsName(app, aspects, identity), direction, dtype));
            && i.app == app && i.aspects == aspects
            && FromHex(i.hashHex) == Ok(hash)
            && (identity.Some? ==> FromHex(i.identityHex) == Ok(identity.value))
  {
    var tail := if identity.Some? then [ToHex(identity.value)] else [];
    var parts := [app] + aspects + tail;
    assert forall i | 0 <= i < |parts| :: '.' !in parts[i];
    SplitJoin(parts, '.');
    assert parts[1..] == aspects + tail;
    HexRoundTrip(hash);
    if identity.Some? { HexRoundTrip(identity.value); }
  }

  // ---------- the session ----------

  /** `owned` maps a destination's hash to the hash of its identity; `checked` counts the REST requests
      that have passed the dirty check and still await their body. */
  datatype State = State(active: Option<Bytes>, owned: map<Bytes, Bytes>, links: set<Bytes>, checked: nat)

  const INIT := State(None, map[], {}, 0)

  /** `_session_is_dirty`. */
  predicate Dirty(s: State) {
    s.owned != map[] || s.links != {}
  }

  datatype Action =
    | WsSet(id: Bytes, loads: bool)
    | Clear
    | Add(hash: Bytes, loads: bool, constructs: bool)
    | Remove(hash: Bytes)
    | OpenLink(hash: Bytes)
    | CloseLink(hash: Bytes)
    | Cleanup
    | RestSetCheck
    | RestSetWrite(id: Bytes, loads: bool)

  function Next(s: State, a: Action): State {
    match a
    case WsSet(id, loads) => if Dirty(s) || !loads then s else s.(active := Some(id))
    case Clear => if Dirty(s) then s else s.(active := None)
    case Add(hash, loads, constructs) =>
      if s.active.None? || !loads || !constructs then s else s.(owned := s.owned[hash := s.active.value])
    case Remove(hash) => s.(owned := s.owned - {hash})
    case OpenLink(hash) => s.(links := s.links + {hash})
    case CloseLink(hash) => s.(links := s.links - {hash})
    case Cleanup => s.(owned := map[], links := {})
    case RestSetCheck => if Dirty(s) then s else s.(checked := s.checked + 1)
    case RestSetWrite(id, loads) =>
      if s.checked == 0 then s
      else s.(checked := s.checked - 1, active := if loads then Some(id) else s.active)
  }

  function Run(s: State, acts: seq<Action>): State
    decreases |acts|
  {
    if acts == [] then s else Run(Next(s, acts[0]), acts[1..])
  }

  /** Every owned destination carries the active identity. */
  ghost predicate Coherent(s: State) {
    forall h | h in s.owned :: s.active == Some(s.owned[h])
  }

  ghost predicate AlwaysCoherent(s: State, acts: seq<Action>)
    decreases |acts|
  {
    Coherent(s) && (acts != [] ==> AlwaysCoherent(Next(s, acts[0]), acts[1..]))
  }

  /** A REST write that switches the identity under destinations the session has come to own since the
      check. */
  predicate SwitchesUnder(s: State, a: Action) {
    a.RestSetWrite? && s.checked > 0 && a.loads && s.owned != map[] && s.active != Some(a.id)
  }

  ghost predicate NeverSwitchesUnder(s: State, acts: seq<Action>)
    decreases |acts|
  {
    acts != [] ==> !SwitchesUnder(s, acts[0]) && NeverSwitchesUnder(Next(s, acts[0]), acts[1..])
  }

  lemma StepCoherent(s: State, a: Action)
    requires Coherent(s)
    ensures Coherent(Next(s, a)) <==> !SwitchesUnder(s, a)
  {
    if SwitchesUnder(s, a) {
      var h :| h in s.owned;
      assert s.active == Some(s.owned[h]);
    }
  }

  /** Main result. Over every run, all owned destinations carry the active identity at every point if and
      only if no REST write lands with another identity while destinations are owned. */
  lemma {:induction false} CoherentExactly(s: State, acts: seq<Action>)
    requires Coherent(s)
    ensures AlwaysCoherent(s, acts) <==> NeverSwitchesUnder(s, acts)
    decreases |acts|
  {
    if acts != [] {
      StepCoherent(s, acts[0]);
      if !SwitchesUnder(s, acts[0]) { CoherentExactly(Next(s, acts[0]), acts[1..]); }
    }
  }

  /** Main result. The WebSocket operations, which check and write without awaiting, keep it always. */
  lemma {:induction false} WsCoherent(s: State, acts: seq<Action>)
    requires Coherent(s) && forall i | 0 <= i < |acts| :: !acts[i].RestSetWrite?
    ensures Coherent(Run(s, acts)) && AlwaysCoherent(s, acts)
    decreases |acts|
  {
    if acts != [] {
      StepCoherent(s, acts[0]);
      WsCoherent(Next(s, acts[0]), acts[1..]);
    }
  }

  /** At every point of the run the session owns a destination or holds a link. */
  ghost predicate AlwaysHolds(s: State, acts: seq<Action>)
    decreases |acts|
  {
    (s.owned != map[] || s.links != {}) && (acts != [] ==> AlwaysHolds(Next(s, acts[0]), acts[1..]))
  }

  /** Main result. As long as a session owns a destination or holds a link, its active identity stays, unless
      a REST request had passed its check before. */
  lemma {:induction false} HeldIdentityStays(s: State, acts: seq<Action>)
    requires s.checked == 0 && AlwaysHolds(s, acts)
    ensures Run(s, acts).active == s.active
    decreases |acts|
  {
    if acts != [] {
      HeldIdentityStays(Next(s, acts[0]), acts[1..]);
    }
  }

  /** A session that holds nothing takes the identity it is given, or none. */
  lemma IdleIdentityChanges(s: State, id: Bytes)
    requires s.owned == map[] && s.links == {}
    ensures Next(s, WsSet(id, true)).active == Some(id) && Next(s, WsSet(id, false)) == s
    ensures Next(s, Clear).active == None
    ensures Run(s, [RestSetCheck, RestSetWrite(id, true)]).active == Some(id)
  {
    var a, b := RestSetCheck, RestSetWrite(id, true);
    assert [a, b][1..] == [b] && [b][1..] == [];
    assert Run(Next(s, a), [b]) == Run(Next(Next(s, a), b), []);
  }

  /** The REST handler awaits its body between check and write, and a destination added then ends up
      under an identity that is not the active one. */
  lemma RestRace(a: Bytes, b: Bytes, hash: Bytes)
    requires a != b
    ensures !Coherent(Run(INIT, [WsSet(a, true), RestSetCheck, Add(hash, true, true), RestSetWrite(b, true)]))
  {
    var acts := [WsSet(a, true), RestSetCheck, Add(hash, true, true), RestSetWrite(b, true)];
    var s1 := Next(INIT, acts[0]);
    var s2 := Next(s1, acts[1]);
    var s3 := Next(s2, acts[2]);
    var s4 := Next(s3, acts[3]);
    assert acts[1..][1..] == acts[2..] && acts[2..][1..] == acts[3..] && acts[3..][1..] == [];
    assert Run(INIT, acts) == Run(s1, acts[1..]);
    assert Run(s1, acts[1..]) == Run(s2, acts[2..]);
    assert Run(s2, acts[2..]) == Run(s3, acts[3..]);
    assert Run(s3, acts[3..]) == Run(s4, []) == s4;
    assert hash in s4.owned && s4.owned[hash] == a;
  }

  // ---------- the class ----------

  datatype Construction = Constructed(hash: Bytes) | Duplicate | OtherError

  datatype Reply =
    | SessionDirty
    | NoActiveIdentity
    | IdentityUnknown
    | InvalidDirection
    | InvalidType
    | InvalidName
    | AlreadyRegistered
    | InvalidHash
    | NotOwned
    | Internal
    | Changed(active: Option<Bytes>)
    | Added(info: Info)
    | Removed(info: Info)

  predicate IsDirection(s: string) {
    s == "in" || s == "out"
  }

  predicate IsType(s: string) {
    s == "single" || s == "group" || s == "plain"
  }

  /** The checks of `ws_add_destination` and `create`, in the terms of their inputs. */
  predicate Addable(active: Option<Bytes>, loads: bool, direction: string, dtype: string, app: string,
                    aspects: seq<string>)
  {
    && active.Some? && loads && IsDirection(Lower(direction)) && IsType(Lower(dtype))
    && IsName(app) && forall i | 0 <= i < |aspects| :: IsName(aspects[i])
  }

  class Session {
    var activeIdentity: Option<Bytes>
    var ownedDestinations: map<Bytes, Destination>
    var openLinks: set<Bytes>
    var checked: nat

    constructor ()
      ensures Valid() && View() == INIT && ownedDestinations == map[]
    {
      activeIdentity, ownedDestinations, openLinks, checked := None, map[], {}, 0;
    }

    /** Each destination is stored under its own hash, was built on an identity, and reports the parts
        its name was built from. */
    ghost predicate Valid()
      reads this
    {
      forall h | h in ownedDestinations :: ownedDestinations[h].hash == h && ownedDestinations[h].identity.Some?
    }

    ghost function View(): State
      reads this
      requires Valid()
    {
      State(activeIdentity, map h | h in ownedDestinations :: ownedDestinations[h].identity.value, openLinks, checked)
    }

    /** `ws_set_active_identity`. */
    method SetActiveIdentity(id: Bytes, loads: bool) returns (reply: Reply)
      requires Valid()
      modifies `activeIdentity
      ensures Valid() && View() == Next(old(View()), WsSet(id, loads))
      ensures reply == SessionDirty <==> ownedDestinations != map[] || openLinks != {}
      ensures reply != SessionDirty ==> reply == if loads then Changed(Some(id)) else IdentityUnknown
      ensures activeIdentity == if reply.Changed? then Some(id) else old(activeIdentity)
    {
      assert ownedDestinations == map[] <==> View().owned == map[] by {
        assert View().owned.Keys == ownedDestinations.Keys;
      }
      if ownedDestinations != map[] || openLinks != {} {
        return SessionDirty;
      }
      if !loads {
        return IdentityUnknown;
      }
      activeIdentity := Some(id);
      reply := Changed(activeIdentity);
    }

    /** `ws_add_destination` and `DestinationService.create`. */
    method AddDestination(direction: string, dtype: string, app: string, aspects: seq<string>, loads: bool,
                          rns: Construction)
      returns (reply: Reply)
      requires Valid()
      modifies `ownedDestinations
      ensures Valid()
      ensures reply.Added? <==> Addable(activeIdentity, loads, direction, dtype, app, aspects) && rns.Constructed?
      ensures reply.Added? ==>
                && View() == Next(old(View()), Add(rns.hash, true, true))
                && reply.info == Info(ToHex(rns.hash), ToHex(activeIdentity.value), Lower(direction), Lower(dtype), app,
                                      aspects)
      ensures !reply.Added? ==>
                && ownedDestinations == old(ownedDestinations)
                && reply == if activeIdentity.None? then NoActiveIdentity
                            else if !loads then IdentityUnknown
                            else if Lower(direction) != "in" && Lower(direction) != "out" then InvalidDirection
                            else if !IsType(Lower(dtype)) then InvalidType
                            else if !IsName(app) || exists a :: a in aspects && !IsName(a) then InvalidName
                            else if rns.Duplicate? then AlreadyRegistered else Internal
    {
      if activeIdentity.None? {
        return NoActiveIdentity;
      }
      if !loads {
        return IdentityUnknown;
      }
      var d, t := Lower(direction), Lower(dtype);
      if !IsDirection(d) {
        return InvalidDirection;
      }
      if !IsType(t) {
        return InvalidType;
      }
      var named := AreNames(app, aspects);
      if !named {
        return InvalidName;
      }
      if !rns.Constructed? {
        return if rns.Duplicate? then AlreadyRegistered else Internal;
      }
      reply := Own(rns.hash, app, aspects, d, t);
    }

    method AreNames(app: string, aspects: seq<string>) returns (ok: bool)
      ensures ok <==> IsName(app) && forall i | 0 <= i < |aspects| :: IsName(aspects[i])
    {
      if !IsName(app) {
        return false;
      }
      for i := 0 to |aspects|
        invariant forall j | 0 <= j < i :: IsName(aspects[j])
      {
        if !IsName(aspects[i]) {
          return false;
        }
      }
      ok := true;
    }

    /** RNS has built the destination: the session owns it from now on. */
    method Own(hash: Bytes, app: string, aspects: seq<string>, d: string, t: string) returns (reply: Reply)
      requires Valid() && activeIdentity.Some? && IsName(app) && forall i | 0 <= i < |aspects| :: IsName(aspects[i])
      modifies `ownedDestinations
      ensures Valid() && View() == Next(old(View()), Add(hash, true, true))
      ensures reply == Added(Info(ToHex(hash), ToHex(activeIdentity.value), d, t, app, aspects))
    {
      var destination := Destination(hash, activeIdentity, RnsName(app, aspects, activeIdentity), d, t);
      ownedDestinations := ownedDestinations[hash := destination];
      NameParsesBack(hash, app, aspects, activeIdentity, d, t);
      reply := Added(InfoFrom(destination));
    }

    method RemoveByHash(h: Bytes) returns (reply: Reply)
      requires Valid()
      modifies `ownedDestinations
      ensures Valid() && ownedDestinations == old(ownedDestinations) - {h}
      ensures View() == Next(old(View()), Remove(h))
      ensures reply == if h in old(ownedDestinations) then Removed(InfoFrom(old(ownedDestinations)[h])) else NotOwned
    {
      if h !in ownedDestinations {
        assert View().owned - {h} == View().owned;
        return NotOwned;
      }
      reply := Removed(InfoFrom(ownedDestinations[h]));
      ownedDestinations := ownedDestinations - {h};
    }

    /** `DestinationService.remove`; listeners are not touched. */
    method RemoveDestination(hashHex: string) returns (reply: Reply)
      requires Valid()
      modifies `ownedDestinations
      ensures Valid()
      ensures IsHexHash(Lower(hashHex)) ==>
                FromHex(Lower(hashHex)).Ok? &&
                var h := FromHex(Lower(hashHex)).value;
                && reply == (if h in old(ownedDestinations) then Removed(InfoFrom(old(ownedDestinations)[h]))
                             else NotOwned)
                && View() == Next(old(View()), Remove(h))
      ensures !IsHexHash(Lower(hashHex)) ==> reply == InvalidHash && ownedDestinations == old(ownedDestinations)
    {
      if !IsHexHash(Lower(hashHex)) {
        return InvalidHash;
      }
      HexHashParses(Lower(hashHex));
      reply := RemoveByHash(FromHex(Lower(hashHex)).value);
    }
  }
}
