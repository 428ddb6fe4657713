/**
 The prober object itself, one call at a time: its methods update the host table and the rate gate
 with the same functions the step protocol in `Prober` is built from.
 */
module HttpProber {
  import opened Binary
  import opened Prober
  import opened Wrappers

  class HttpProber {
    const config: Config
    var hostState: map<Ip, HostState>
    var rateGate: Option<nat>

    constructor (config: Config)
      ensures this.config == config && hostState == map[] && rateGate == None
    {
      this.config := config;
      hostState := map[];
      rateGate := None;
    }

    /** Counts the call against its host's budget. A refusal leaves every count as it was. */
    method ReserveHostBudget(ip: Ip) returns (ok: bool)
      modifies this`hostState
      ensures (hostState, ok) == Reserve(config, old(hostState), ip)
      ensures ok <==> StateOf(config, old(hostState), ip).issued < config.maxProbes
      ensures forall other: Ip :: other != ip ==> StateOf(config, hostState, other) == StateOf(config, old(hostState), other)
      ensures StateOf(config, hostState, ip).issued == StateOf(config, old(hostState), ip).issued + if ok then 1 else 0
    {
      if ip !in hostState {
        hostState := hostState[ip := HostState(config.maxConcurrent, 0)];
      }
      if hostState[ip].issued >= config.maxProbes {
        assert hostState == Reserve(config, old(hostState), ip).0;
        return false;
      }
      hostState := hostState[ip := hostState[ip].(issued := hostState[ip].issued + 1)];
      ok := true;
      assert hostState == Reserve(config, old(hostState), ip).0;
    }

    /** `arrival` is the clock once the gate is locked; a sleep ends no earlier than asked, `late`
        milliseconds after. The grant comes at the first moment the gate allows, plus what the sleep
        overran, and the gate then closes for one more interval. */
    method Throttle(arrival: nat, late: nat) returns (grant: nat)
      modifies this`rateGate
      ensures grant == WakeAt(old(rateGate), arrival) + late
      ensures late <= grant && Allowed(old(rateGate), arrival, grant - late)
      ensures forall t: nat :: Allowed(old(rateGate), arrival, t) ==> grant <= t + late
      ensures rateGate == Some(grant + config.interval)
    {
      grant := arrival;
      if rateGate.Some? && rateGate.value > arrival {
        grant := rateGate.value;
      }
      grant := grant + late;
      rateGate := Some(grant + config.interval);
    }
  }

  /** The bytes of the chunks that arrive before the stream ends or errs. */
  function Arrived(chunks: seq<Option<Bytes>>): Bytes {
    if chunks == [] || chunks[0].None? then [] else chunks[0].value + Arrived(chunks[1..])
  }

  function Prefix(bytes: Bytes, cap: nat): Bytes {
    if |bytes| <= cap then bytes else bytes[..cap]
  }

  /** Reads a response body, `None` standing for a transport error: exactly the first `cap` bytes of
      what the peer sends, unless an error comes before that many have arrived. */
  method ReadCapped(chunks: seq<Option<Bytes>>, cap: nat) returns (r: Result<Bytes, ()>)
    ensures r.Err? <==> None in chunks && |Arrived(chunks)| < cap
    ensures r.Ok? ==> r.value == Prefix(Arrived(chunks), cap) && |r.value| <= cap
  {
    var buf: Bytes := [];
    var n := 0;
    while |buf| < cap && n < |chunks|
      invariant 0 <= n <= |chunks| && |buf| <= cap
      invariant Arrived(chunks) == buf + Arrived(chunks[n..])
      invariant None !in chunks[..n]
      decreases |chunks| - n
    {
      if chunks[n].None? {
        return Err(());
      }
      var chunk := chunks[n].value;
      assert chunks[n..][1..] == chunks[n + 1..];
      ghost var rest := Arrived(chunks[n + 1..]);
      assert buf + (chunk + rest) == buf + chunk + rest;
      var remaining := cap - |buf|;
      if |chunk| <= remaining {
        buf := buf + chunk;
      } else {
        buf := buf + chunk[..remaining];
        return Ok(buf);
      }
      n := n + 1;
    }
    r := Ok(buf);
  }
}
