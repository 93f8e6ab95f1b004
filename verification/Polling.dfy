/**
  The deadline loops that poll RNS: `request_path` of src/rnsapi/rns/paths.py and `_request_path` of
  src/rnsapi/rns/links.py. Clock readings never fall, and every sleep advances the clock by at least the
  poll interval; what RNS answers is arbitrary.
*/
module Polling {
  import opened Text

  /** `_POLL_INTERVAL`, the same in both services. */
  const INTERVAL := 0.02

  function Ceil(x: real): int {
    -((-x).Floor)
  }

  /** ceil(timeout / 0.02), for a timeout that is not negative. */
  function Budget(timeout: real): nat {
    if timeout <= 0.0 then 0 else Ceil(timeout / INTERVAL)
  }

  /** The budget is the timeout in poll intervals, rounded up. */
  lemma BudgetRoundsUp(timeout: real)
    ensures timeout <= 0.0 ==> Budget(timeout) == 0
    ensures timeout > 0.0 ==> (Budget(timeout) as real - 1.0) * INTERVAL < timeout <= Budget(timeout) as real * INTERVAL
  {
    if timeout > 0.0 {
      var q := timeout / INTERVAL;
      assert q * INTERVAL == timeout;
      assert (Budget(timeout) as real - 1.0) < q <= Budget(timeout) as real;
    }
  }

  /** While `polls` sleeps have not used up the timeout, the budget has room for one more. */
  lemma WithinBudget(polls: nat, timeout: real)
    requires polls as real * INTERVAL < timeout
    ensures polls + 1 <= Budget(timeout)
  {
    var q := timeout / INTERVAL;
    assert (q - polls as real) * INTERVAL == timeout - polls as real * INTERVAL;
    assert q > polls as real;
    assert Ceil(q) >= polls + 1;
  }

  class Clock {
    var now: real

    constructor (now: real)
      ensures this.now == now
    {
      this.now := now;
    }

    /** `time.monotonic()`. */
    method Monotonic() returns (t: real)
      modifies this
      ensures old(now) <= t == now
    {
      var late: real := *;
      now := if late > 0.0 then now + late else now;
      t := now;
    }

    /** `asyncio.sleep(_POLL_INTERVAL)`. */
    method Sleep()
      modifies this
      ensures now >= old(now) + INTERVAL
    {
      var late: real := *;
      now := if late > 0.0 then now + INTERVAL + late else now + INTERVAL;
    }
  }

  /** One answer of `has_path`. */
  datatype Answer = Yes | No | Raised

  /** RNS.Transport, with the path requests sent and the answers given so far. */
  class Transport {
    var requests: seq<Bytes>
    var answers: seq<Answer>

    constructor ()
      ensures requests == [] && answers == []
    {
      requests, answers := [], [];
    }

    method RequestPath(h: Bytes, refuse: bool) returns (ok: bool)
      modifies `requests
      ensures ok == !refuse && requests == if ok then old(requests) + [h] else old(requests)
    {
      ok := !refuse;
      if ok {
        requests := requests + [h];
      }
    }

    method HasPath() returns (a: Answer)
      modifies `answers
      ensures answers == old(answers) + [a]
    {
      a := *;
      answers := answers + [a];
    }
  }

  /** Polls made since `from` answers had been given: none but the last said yes, and there are at most
      ceil(timeout / 0.02) + 1 of them. */
  ghost predicate Polled(answers: seq<Answer>, from: nat, timeout: real) {
    && from < |answers| <= from + Budget(timeout) + 1
    && forall i | from <= i < |answers| - 1 :: answers[i] != Yes
  }

  datatype Reply = Invalid | Refused | Found | NotFound

  /** `PathsService.request_path`: an exception of `has_path` counts as no path. */
  method RequestPath(rns: Transport, clock: Clock, hash: string, timeout: real, refuse: bool) returns (reply: Reply)
    modifies rns, clock
    ensures reply == Invalid <==> !IsHexHash(Lower(hash))
    ensures reply == Refused <==> IsHexHash(Lower(hash)) && refuse
    ensures reply == Invalid || reply == Refused ==>
              rns.answers == old(rns.answers) && rns.requests == old(rns.requests)
    ensures reply == Found || reply == NotFound ==>
              && FromHex(Lower(hash)).Ok? && rns.requests == old(rns.requests) + [FromHex(Lower(hash)).value]
              && old(rns.answers) <= rns.answers && Polled(rns.answers, |old(rns.answers)|, timeout)
              && (reply == Found <==> rns.answers[|rns.answers| - 1] == Yes)
    ensures reply == NotFound ==> clock.now >= old(clock.now) + timeout
  {
    var h := Lower(hash);
    if !IsHexHash(h) {
      return Invalid;
    }
    HexHashParses(h);
    var ok := rns.RequestPath(FromHex(h).value, refuse);
    if !ok {
      return Refused;
    }
    ghost var before := rns.answers;
    ghost var polls := 0;
    var start := clock.Monotonic();
    var deadline := start + timeout;
    while true
      invariant |rns.answers| == |before| + polls && before <= rns.answers
      invariant rns.requests == old(rns.requests) + [FromHex(h).value]
      invariant polls <= Budget(timeout)
      invariant start + polls as real * INTERVAL <= clock.now && old(clock.now) <= start
      invariant forall i | |before| <= i < |rns.answers| :: rns.answers[i] != Yes
      decreases Budget(timeout) - polls
    {
      var answer := rns.HasPath();
      if answer == Yes {
        return Found;
      }
      var now := clock.Monotonic();
      if now >= deadline {
        return NotFound;
      }
      WithinBudget(polls, timeout);
      polls := polls + 1;
      clock.Sleep();
    }
  }

  /** `LinksService._request_path`: a refused path request is only logged, while an exception of
      `has_path` ends the wait (`raised`). */
  method AwaitPath(rns: Transport, clock: Clock, h: Bytes, timeout: real, refuse: bool) returns (raised: bool)
    modifies rns, clock
    ensures rns.requests == if refuse then old(rns.requests) else old(rns.requests) + [h]
    ensures old(rns.answers) <= rns.answers && Polled(rns.answers, |old(rns.answers)|, timeout)
    ensures forall i | |old(rns.answers)| <= i < |rns.answers| - 1 :: rns.answers[i] == No
    ensures raised <==> rns.answers[|rns.answers| - 1] == Raised
    ensures rns.answers[|rns.answers| - 1] == No ==> clock.now >= old(clock.now) + timeout
  {
    var ok := rns.RequestPath(h, refuse);
    ghost var before := rns.answers;
    ghost var polls := 0;
    var start := clock.Monotonic();
    var deadline := start + timeout;
    var answer := rns.HasPath();
    var now := clock.Monotonic();
    while answer == No && now < deadline
      invariant |rns.answers| == |before| + polls + 1 && before <= rns.answers
      invariant rns.answers[|rns.answers| - 1] == answer
      invariant rns.requests == if refuse then old(rns.requests) else old(rns.requests) + [h]
      invariant polls <= Budget(timeout)
      invariant start + polls as real * INTERVAL <= now == clock.now && old(clock.now) <= start
      invariant forall i | |before| <= i < |rns.answers| - 1 :: rns.answers[i] == No
      decreases Budget(timeout) - polls
    {
      WithinBudget(polls, timeout);
      polls := polls + 1;
      clock.Sleep();
      answer := rns.HasPath();
      now := clock.Monotonic();
    }
    raised := answer == Raised;
  }
}
