/**
  Packet listeners: `listen` and `unlisten` of src/rnsapi/rns/packets.py beside `create` and `remove` of
  src/rnsapi/rns/destinations.py, which does not look at the listeners.
*/
module Listeners {
  import opened Text

  type Hash = Bytes

  /** `owned` tells of each owned destination whether RNS will call the session back for its packets. */
  datatype State = State(owned: map<Hash, bool>, listeners: set<Hash>)

  const INIT := State(map[], {})

  /** `Create` is a creation that RNS accepts: the new object takes the place of any earlier one. `raises`:
      RNS refuses to clear the callback. */
  datatype Action =
    | Create(h: Hash)
    | Remove(h: Hash)
    | Listen(h: Hash)
    | Unlisten(h: Hash, raises: bool)
    | Cleanup

  function Next(s: State, a: Action): State {
    match a
    case Create(h) => s.(owned := s.owned[h := false])
    case Remove(h) => s.(owned := s.owned - {h})
    case Listen(h) =>
      if h !in s.owned || h in s.listeners then s else State(s.owned[h := true], s.listeners + {h})
    case Unlisten(h, raises) =>
      if h !in s.listeners then s
      else State(if h in s.owned && !raises then s.owned[h := false] else s.owned, s.listeners - {h})
    case Cleanup => INIT
  }

  function Run(s: State, acts: seq<Action>): State
    decreases |acts|
  {
    if acts == [] then s else Run(Next(s, acts[0]), acts[1..])
  }

  /** RNS calls back for exactly the owned destinations that are listed as listeners. */
  ghost predicate Agree(s: State) {
    forall h | h in s.owned :: s.owned[h] <==> h in s.listeners
  }

  ghost predicate AlwaysAgree(s: State, acts: seq<Action>)
    decreases |acts|
  {
    Agree(s) && (acts != [] ==> AlwaysAgree(Next(s, acts[0]), acts[1..]))
  }

  /** A destination is created again while its hash is still listed as a listener, or its callback stays
      behind when it is taken off the list. */
  predicate Breaks(s: State, a: Action) {
    || (a.Create? && a.h in s.listeners)
    || (a.Unlisten? && a.raises && a.h in s.owned && a.h in s.listeners)
  }

  ghost predicate NeverBreaks(s: State, acts: seq<Action>)
    decreases |acts|
  {
    acts != [] ==> !Breaks(s, acts[0]) && NeverBreaks(Next(s, acts[0]), acts[1..])
  }

  lemma StepAgrees(s: State, a: Action)
    requires Agree(s)
    ensures Agree(Next(s, a)) <==> !Breaks(s, a)
  {
    if Breaks(s, a) {
      assert a.h in Next(s, a).owned;
    }
  }

  /** Main result. Over every run, listed and called back mean the same for the owned destinations if and
      only if no listened destination is created again, and no clearing is refused. */
  lemma {:induction false} AgreeExactly(s: State, acts: seq<Action>)
    requires Agree(s)
    ensures AlwaysAgree(s, acts) <==> NeverBreaks(s, acts)
    decreases |acts|
  {
    if acts != [] {
      StepAgrees(s, acts[0]);
      if !Breaks(s, acts[0]) { AgreeExactly(Next(s, acts[0]), acts[1..]); }
    }
  }

  /** A listened destination that was removed and created again is deaf, and listening again does not help
      (`already_listening`); only unlisten and then listen does. */
  lemma RecreatedIsDeaf(s: State, h: Hash)
    requires Agree(s) && h in s.owned && h in s.listeners
    ensures var again := Next(Next(s, Remove(h)), Create(h));
            && h in again.listeners && again.owned[h] == false
            && Next(again, Listen(h)) == again
            && Next(Next(again, Unlisten(h, false)), Listen(h)) == s
            && Next(s, Create(h)) == again
  {
    var again := Next(Next(s, Remove(h)), Create(h));
    var quiet := Next(again, Unlisten(h, false));
    assert again.owned == s.owned[h := false] && quiet.owned == again.owned;
    assert quiet.listeners == s.listeners - {h};
    assert quiet.owned[h := true] == s.owned;
    assert quiet.listeners + {h} == s.listeners;
  }

  // ---------- the class ----------

  class Destination {
    var callback: bool

    constructor ()
      ensures !callback
    {
      callback := false;
    }
  }

  datatype Reply = InvalidHash | NotOwned | NoListener | AlreadyListening | Done

  ghost function Views(m: map<Hash, Destination>): map<Hash, bool>
    reads m.Values
  {
    map h | h in m :: m[h].callback
  }

  class Session {
    var ownedDestinations: map<Hash, Destination>
    var packetListeners: set<Hash>

    constructor ()
      ensures Valid() && View() == INIT
    {
      ownedDestinations, packetListeners := map[], {};
    }

    /** No two hashes share a destination object. */
    ghost predicate Valid()
      reads this
    {
      forall h, k | h in ownedDestinations && k in ownedDestinations && ownedDestinations[h] == ownedDestinations[k] ::
        h == k
    }

    ghost function View(): State
      reads this, ownedDestinations.Values
    {
      State(Views(ownedDestinations), packetListeners)
    }

    method SetCallback(h: Hash, on: bool)
      requires Valid() && h in ownedDestinations
      modifies ownedDestinations[h]
      ensures Valid() && Views(ownedDestinations) == old(Views(ownedDestinations))[h := on]
    {
      ownedDestinations[h].callback := on;
    }

    method Listen(hashHex: string) returns (reply: Reply)
      requires Valid()
      modifies `packetListeners, ownedDestinations.Values
      ensures Valid() && (reply == InvalidHash <==> !IsHexHash(Lower(hashHex)))
      ensures reply == InvalidHash ==> View() == old(View())
      ensures reply != InvalidHash ==>
                && FromHex(Lower(hashHex)).Ok?
                && var h := FromHex(Lower(hashHex)).value;
                && View() == Next(old(View()), Action.Listen(h))
                && reply == (if h !in ownedDestinations then NotOwned
                             else if h in old(packetListeners) then AlreadyListening else Done)
                && packetListeners == (if reply == Done then old(packetListeners) + {h} else old(packetListeners))
                && (reply == Done ==> ownedDestinations[h].callback)
    {
      if !IsHexHash(Lower(hashHex)) {
        return InvalidHash;
      }
      HexHashParses(Lower(hashHex));
      var h := FromHex(Lower(hashHex)).value;
      if h !in ownedDestinations {
        return NotOwned;
      }
      if h in packetListeners {
        return AlreadyListening;
      }
      SetCallback(h, true);
      packetListeners := packetListeners + {h};
      reply := Done;
    }

    method Unlisten(hashHex: string, raises: bool) returns (reply: Reply)
      requires Valid()
      modifies `packetListeners, ownedDestinations.Values
      ensures Valid() && (reply == InvalidHash <==> !IsHexHash(Lower(hashHex)))
      ensures reply == InvalidHash ==> View() == old(View())
      ensures reply != InvalidHash ==>
                && FromHex(Lower(hashHex)).Ok?
                && var h := FromHex(Lower(hashHex)).value;
                && View() == Next(old(View()), Action.Unlisten(h, raises))
                && reply == (if h in old(packetListeners) then Done else NoListener)
                && packetListeners == old(packetListeners) - {h}
                && (reply == Done && h in ownedDestinations && !raises ==> !ownedDestinations[h].callback)
    {
      if !IsHexHash(Lower(hashHex)) {
        return InvalidHash;
      }
      HexHashParses(Lower(hashHex));
      var h := FromHex(Lower(hashHex)).value;
      if h !in packetListeners {
        return NoListener;
      }
      if h in ownedDestinations && !raises {
        SetCallback(h, false);
      }
      packetListeners := packetListeners - {h};
      reply := Done;
    }

    /** What `create` and `remove` do to the owned destinations. */
    method Own(h: Hash)
      requires Valid()
      modifies `ownedDestinations
      ensures Valid() && View() == Next(old(View()), Create(h))
    {
      var destination := new Destination();
      ownedDestinations := ownedDestinations[h := destination];
      assert Views(ownedDestinations) == old(Views(ownedDestinations))[h := false];
    }

    method Disown(h: Hash)
      requires Valid()
      modifies `ownedDestinations
      ensures Valid() && View() == Next(old(View()), Remove(h))
    {
      ownedDestinations := ownedDestinations - {h};
      assert Views(ownedDestinations) == old(Views(ownedDestinations)) - {h};
    }
  }
}
