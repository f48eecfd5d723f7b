/** The circuit breaker: calls of many services begin and complete in any order. */
module CircuitBreakerModel {
  import opened Common

  datatype State = Closed | Open | HalfOpen

  datatype Circuit = Circuit(state: State, failures: nat, openedAt: nat, probeInFlight: bool)

  const NEW_CIRCUIT: Circuit := Circuit(Closed, 0, 0, false)

  datatype Config = Config(threshold: int, openMs: nat)

  /** How an operation ends: a timeout is transient, a 4xx permanent. */
  datatype Ending = Success | Transient | Permanent

  // ------------------------------------------------------------ decisions on one circuit

  predicate Cooling(cfg: Config, c: Circuit, now: nat) { c.state == Open && now - c.openedAt < cfg.openMs }

  predicate Admits(cfg: Config, c: Circuit, now: nat) {
    c.state == Closed || (!Cooling(cfg, c, now) && !c.probeInFlight)
  }

  /** The circuit after `allowRequest`, admitted or not. */
  function Asked(cfg: Config, c: Circuit, now: nat): Circuit {
    if c.state == Closed || Cooling(cfg, c, now) then c
    else c.(state := HalfOpen, probeInFlight := true)
  }

  function Completed(cfg: Config, c: Circuit, ending: Ending, wasProbe: bool, now: nat): Circuit {
    var c' :=
      match ending
      case Success => c.(state := if c.state == HalfOpen then Closed else c.state, failures := 0)
      case Transient =>
        if c.state == HalfOpen || c.failures + 1 >= cfg.threshold
        then c.(failures := c.failures + 1, openedAt := now, state := Open)
        else c.(failures := c.failures + 1)
      case Permanent => c;
    if wasProbe then c'.(probeInFlight := false) else c'
  }

  /** Closed; or no probe is running, and the circuit is half-open or its cooldown has passed. */
  predicate CanStart(cfg: Config, c: Circuit, now: nat) {
    c.state == Closed || (!c.probeInFlight && (c.state == HalfOpen || now >= c.openedAt + cfg.openMs))
  }

  // ------------------------------------------------------------ the class

  class CircuitBreaker {
    const cfg: Config
    var circuits: map<string, Circuit>

    constructor (cfg: Config)
      ensures this.cfg == cfg && circuits == map[]
    {
      this.cfg, circuits := cfg, map[];
    }

    /** The circuit of a service, a closed one if it has none yet. */
    function CircuitOf(service: string): Circuit
      reads this
    {
      if service in circuits then circuits[service] else NEW_CIRCUIT
    }

    /** Only `service` may have changed. */
    twostate predicate OthersUnchanged(service: string)
      reads this
    {
      forall v | v != service :: CircuitOf(v) == old(CircuitOf(v))
    }

    method GetCircuit(service: string) returns (c: Circuit)
      modifies this
      ensures c == CircuitOf(service) == old(CircuitOf(service)) && service in circuits
      ensures OthersUnchanged(service)
    {
      if service !in circuits {
        circuits := circuits[service := NEW_CIRCUIT];
      }
      c := circuits[service];
    }

    method AllowRequest(service: string, now: nat) returns (allowed: bool)
      modifies this
      ensures allowed == Admits(cfg, old(CircuitOf(service)), now)
      ensures CircuitOf(service) == Asked(cfg, old(CircuitOf(service)), now)
      ensures var c := old(CircuitOf(service)); var c' := CircuitOf(service);
              var ready := c.state == HalfOpen || now >= c.openedAt + cfg.openMs;
              && (allowed <==> c.state == Closed || (ready && !c.probeInFlight))
              && c' == if c.state == Closed || !ready then c else Circuit(HalfOpen, c.failures, c.openedAt, true)
      ensures OthersUnchanged(service)
    {
      var c := GetCircuit(service);
      if c.state == Closed {
        return true;
      }
      if c.state == Open && now - c.openedAt < cfg.openMs {
        return false;
      }
      if c.state == Open {
        c := c.(state := HalfOpen);
        circuits := circuits[service := c];
      }
      if c.probeInFlight {
        return false;
      }
      circuits := circuits[service := c.(probeInFlight := true)];
      return true;
    }

    method OnSuccess(service: string)
      modifies this
      ensures CircuitOf(service) == Completed(cfg, old(CircuitOf(service)), Success, false, 0)
      ensures var c := old(CircuitOf(service));
              CircuitOf(service)
              == Circuit(if c.state == HalfOpen then Closed else c.state, 0, c.openedAt, c.probeInFlight)
      ensures OthersUnchanged(service)
    {
      var c := GetCircuit(service);
      if c.state == HalfOpen {
        c := c.(state := Closed);
      }
      circuits := circuits[service := c.(failures := 0)];
    }

    method OnFailure(service: string, now: nat)
      modifies this
      ensures CircuitOf(service) == Completed(cfg, old(CircuitOf(service)), Transient, false, now)
      ensures var c := old(CircuitOf(service)); var opens := c.state == HalfOpen || c.failures + 1 >= cfg.threshold;
              CircuitOf(service) == Circuit(if opens then Open else c.state, c.failures + 1,
                                            if opens then now else c.openedAt, c.probeInFlight)
      ensures OthersUnchanged(service)
    {
      var c := GetCircuit(service);
      c := c.(failures := c.failures + 1);
      if c.state == HalfOpen || c.failures >= cfg.threshold {
        c := c.(openedAt := now, state := Open);
      }
      circuits := circuits[service := c];
    }

    /** The first half of `execute`. */
    method Begin(service: string, now: nat) returns (allowed: bool, wasProbe: bool)
      modifies this
      ensures allowed == Admits(cfg, old(CircuitOf(service)), now)
      ensures wasProbe <==> allowed && old(CircuitOf(service)).state != Closed
      ensures CircuitOf(service) == Asked(cfg, old(CircuitOf(service)), now)
      ensures var c := old(CircuitOf(service)); var c' := CircuitOf(service);
              var ready := c.state == HalfOpen || now >= c.openedAt + cfg.openMs;
              && (allowed <==> c.state == Closed || (ready && !c.probeInFlight))
              && c' == if c.state == Closed || !ready then c else Circuit(HalfOpen, c.failures, c.openedAt, true)
      ensures OthersUnchanged(service)
    {
      allowed := AllowRequest(service, now);
      wasProbe := allowed && CircuitOf(service).state == HalfOpen;
    }

    /** The second half: handlers, then the `finally` that frees the probe slot. */
    method Complete(service: string, ending: Ending, wasProbe: bool, now: nat)
      modifies this
      ensures CircuitOf(service) == Completed(cfg, old(CircuitOf(service)), ending, wasProbe, now)
      ensures var c := old(CircuitOf(service)); var probe := c.probeInFlight && !wasProbe;
              var opens := c.state == HalfOpen || c.failures + 1 >= cfg.threshold;
              CircuitOf(service) ==
              match ending {
                case Success => Circuit(if c.state == HalfOpen then Closed else c.state, 0, c.openedAt, probe)
                case Transient => Circuit(if opens then Open else c.state, c.failures + 1,
                                          if opens then now else c.openedAt, probe)
                case Permanent => Circuit(c.state, c.failures, c.openedAt, probe)
              }
      ensures OthersUnchanged(service)
    {
      match ending {
        case Success => OnSuccess(service);
        case Transient => OnFailure(service, now);
        case Permanent =>
      }
      if wasProbe {
        var c := GetCircuit(service);
        circuits := circuits[service := c.(probeInFlight := false)];
      }
    }

    /** `execute` with nobody else calling while the operation runs. */
    method Execute(service: string, start: nat, ending: Ending, end: nat) returns (started: bool)
      modifies this
      ensures started <==> CanStart(cfg, old(CircuitOf(service)), start)
      ensures CircuitOf(service) == Once(cfg, old(CircuitOf(service)), start, ending, end)
      ensures OthersUnchanged(service)
    {
      var wasProbe;
      started, wasProbe := Begin(service, start);
      if started {
        Complete(service, ending, wasProbe, end);
      }
    }

    /** `executeWithRetry` with nobody else calling: attempt k runs at `starts[k]`, would end with
        `endings[k]` at `ends[k]`. The loop stops at the first success, permanent error or refusal,
        and after max(1, maxAttempts) attempts at the latest. */
    method ExecuteWithRetry(service: string, endings: nat -> Ending, starts: nat -> nat, ends: nat -> nat,
                            maxAttempts: int)
      returns (ok: bool, calls: nat, refused: bool)
      modifies this
      ensures calls <= Max(1, maxAttempts)
      ensures ok ==> calls > 0 && endings(calls - 1) == Success && !refused
      ensures forall k | 0 <= k < calls - 1 :: endings(k) == Transient
      ensures !ok && !refused ==> calls > 0 && (endings(calls - 1) == Permanent
                                  || (endings(calls - 1) == Transient && calls == Max(1, maxAttempts)))
      ensures refused ==> !ok && calls < Max(1, maxAttempts) && forall k | 0 <= k < calls :: endings(k) == Transient
      ensures CircuitOf(service) == Attempts(cfg, old(CircuitOf(service)), endings, starts, ends,
                                             calls + if refused then 1 else 0)
      ensures AllStart(cfg, old(CircuitOf(service)), endings, starts, ends, calls)
      ensures refused ==> !StartsAt(cfg, old(CircuitOf(service)), endings, starts, ends, calls)
      ensures OthersUnchanged(service)
    {
      hide Once, CanStart;
      var max := Max(1, maxAttempts);
      calls, ok, refused := 0, false, false;
      while true
        invariant 0 <= calls < max && !ok && !refused
        invariant forall k | 0 <= k < calls :: endings(k) == Transient
        invariant CircuitOf(service) == Attempts(cfg, old(CircuitOf(service)), endings, starts, ends, calls)
        invariant AllStart(cfg, old(CircuitOf(service)), endings, starts, ends, calls)
        invariant OthersUnchanged(service)
        decreases max - calls
      {
        var started := Execute(service, starts(calls), endings(calls), ends(calls));
        if !started {
          refused := true;
          return;
        }
        calls := calls + 1;
        if endings(calls - 1) == Success {
          ok := true;
          return;
        }
        if endings(calls - 1) == Permanent || calls == max {
          return;
        }
      }
    }
  }

  /** The circuit after one call of `execute`. */
  function Once(cfg: Config, c: Circuit, start: nat, ending: Ending, end: nat): Circuit {
    var asked := Asked(cfg, c, start);
    if Admits(cfg, c, start) then Completed(cfg, asked, ending, c.state != Closed, end) else asked
  }

  /** The circuit after `n` calls in a row. */
  function Attempts(cfg: Config, c: Circuit, endings: nat -> Ending, starts: nat -> nat, ends: nat -> nat, n: nat)
    : Circuit
  {
    if n == 0 then c
    else Once(cfg, Attempts(cfg, c, endings, starts, ends, n - 1), starts(n - 1), endings(n - 1), ends(n - 1))
  }

  /** The circuit lets attempt k start. */
  predicate StartsAt(cfg: Config, c: Circuit, endings: nat -> Ending, starts: nat -> nat, ends: nat -> nat, k: nat) {
    CanStart(cfg, Attempts(cfg, c, endings, starts, ends, k), starts(k))
  }

  predicate AllStart(cfg: Config, c: Circuit, endings: nat -> Ending, starts: nat -> nat, ends: nat -> nat, n: nat) {
    forall k: nat | k < n :: StartsAt(cfg, c, endings, starts, ends, k)
  }

  // ------------------------------------------------------------ interleaved calls

  /** What happened at a service: the circuit opened (or was kept open), an operation started, an
      operation ended. `fromOpen` marks the probe admitted as the cooldown ends. */
  datatype Entry =
    | Opened(at: nat)
    | Started(at: nat, fromOpen: bool)
    | Ended(ending: Ending)

  /** One service: its circuit, its running calls (true for probes), and its history. */
  datatype Service = Service(circuit: Circuit, inFlight: map<nat, bool>, log: seq<Entry>)

  const NEW_SERVICE: Service := Service(NEW_CIRCUIT, map[], [])

  datatype System = System(now: nat, services: map<string, Service>)

  function Init(): System { System(0, map[]) }

  function ServiceOf(s: System, v: string): Service {
    if v in s.services then s.services[v] else NEW_SERVICE
  }

  datatype Action =
    | Tick(ms: nat)
    | Begin(service: string, call: nat)
    | Complete(service: string, call: nat, ending: Ending)

  function BeginService(cfg: Config, x: Service, call: nat, now: nat): Service {
    if call in x.inFlight then x
    else
      var c' := Asked(cfg, x.circuit, now);
      if !Admits(cfg, x.circuit, now) then x.(circuit := c')
      else Service(c', x.inFlight[call := x.circuit.state != Closed], x.log + [Started(now, x.circuit.state == Open)])
  }

  function CompleteService(cfg: Config, x: Service, call: nat, ending: Ending, now: nat): Service {
    if call !in x.inFlight then x
    else
      var c' := Completed(cfg, x.circuit, ending, x.inFlight[call], now);
      var opens := ending == Transient && (x.circuit.state == HalfOpen || x.circuit.failures + 1 >= cfg.threshold);
      Service(c', x.inFlight - {call}, x.log + [Ended(ending)] + if opens then [Opened(now)] else [])
  }

  function Apply(cfg: Config, s: System, a: Action): System {
    match a
    case Tick(ms) => s.(now := s.now + ms)
    case Begin(v, call) => s.(services := s.services[v := BeginService(cfg, ServiceOf(s, v), call, s.now)])
    case Complete(v, call, ending) =>
      s.(services := s.services[v := CompleteService(cfg, ServiceOf(s, v), call, ending, s.now)])
  }

  function Exec(cfg: Config, s: System, run: seq<Action>): System
    decreases |run|
  {
    if run == [] then s else Exec(cfg, Apply(cfg, s, run[0]), run[1..])
  }

  // ------------------------------------------------------------ the invariant of one service

  function Probes(inFlight: map<nat, bool>): set<nat> { set call | call in inFlight && inFlight[call] }

  /** Transient failures completed since the last success. */
  function Streak(log: seq<Entry>): nat {
    if log == [] then 0
    else
      var rest := log[..|log| - 1];
      match log[|log| - 1]
      case Ended(Success) => 0
      case Ended(Transient) => Streak(rest) + 1
      case _ => Streak(rest)
  }

  ghost predicate ProbesOk(x: Service) { |Probes(x.inFlight)| == if x.circuit.probeInFlight then 1 else 0 }

  ghost predicate CountOk(cfg: Config, x: Service) {
    && x.circuit.failures == Streak(x.log)
    && (x.circuit.state == Closed && cfg.threshold >= 1 ==> x.circuit.failures < cfg.threshold)
  }

  /** While open, every opening so far is at or before `openedAt`; otherwise its cooldown is over. */
  ghost predicate OpeningsOk(cfg: Config, x: Service, now: nat) {
    && x.circuit.openedAt <= now
    && forall i | 0 <= i < |x.log| && x.log[i].Opened? ::
         if x.circuit.state == Open then x.log[i].at <= x.circuit.openedAt else x.log[i].at + cfg.openMs <= now
  }

  ghost predicate CooldownOk(cfg: Config, x: Service) {
    forall i, j | 0 <= i < j < |x.log| && x.log[i].Opened? && x.log[j].Started? ::
      x.log[j].at >= x.log[i].at + cfg.openMs
  }

  /** Probes admitted from open, seen from now. */
  ghost predicate SpacingOk(cfg: Config, x: Service, now: nat) {
    && (forall i | 0 <= i < |x.log| && x.log[i].Started? && x.log[i].fromOpen ::
          x.log[i].at <= if x.circuit.state == Open then x.circuit.openedAt else now)
    && (forall i, j | 0 <= i < j < |x.log| && x.log[i].Started? && x.log[i].fromOpen
                      && x.log[j].Started? && x.log[j].fromOpen ::
          x.log[j].at >= x.log[i].at + cfg.openMs)
  }

  ghost predicate Inv(cfg: Config, x: Service, now: nat) {
    && ProbesOk(x)
    && CountOk(cfg, x)
    && OpeningsOk(cfg, x, now)
    && CooldownOk(cfg, x)
    && SpacingOk(cfg, x, now)
  }

  lemma StreakAppend(log: seq<Entry>, e: Entry)
    ensures Streak(log + [e]) == match e {
                                   case Ended(Success) => 0
                                   case Ended(Transient) => Streak(log) + 1
                                   case _ => Streak(log)
                                 }
  {
    assert (log + [e])[..|log|] == log;
  }

  lemma BeginProbes(cfg: Config, x: Service, call: nat, now: nat)
    requires ProbesOk(x)
    ensures ProbesOk(BeginService(cfg, x, call, now))
  {
    var y := BeginService(cfg, x, call, now);
    if call !in x.inFlight && Admits(cfg, x.circuit, now) {
      assert Probes(y.inFlight) == Probes(x.inFlight) + if x.circuit.state != Closed then {call} else {};
    }
  }

  lemma CompleteProbes(cfg: Config, x: Service, call: nat, ending: Ending, now: nat)
    requires ProbesOk(x)
    ensures ProbesOk(CompleteService(cfg, x, call, ending, now))
  {
    var y := CompleteService(cfg, x, call, ending, now);
    if call in x.inFlight {
      assert Probes(y.inFlight) == Probes(x.inFlight) - {call};
      assert call in Probes(x.inFlight) <==> x.inFlight[call];
      assert y.circuit.probeInFlight == (x.circuit.probeInFlight && !x.inFlight[call]);
    }
  }

  lemma KeepBegin(cfg: Config, x: Service, call: nat, now: nat)
    requires Inv(cfg, x, now)
    ensures Inv(cfg, BeginService(cfg, x, call, now), now)
  {
    hide ProbesOk, Probes;
    BeginProbes(cfg, x, call, now);
    if call !in x.inFlight && Admits(cfg, x.circuit, now) {
      StreakAppend(x.log, Started(now, x.circuit.state == Open));
    }
  }

  lemma CompleteCounts(cfg: Config, x: Service, call: nat, ending: Ending, now: nat)
    requires CountOk(cfg, x)
    ensures CountOk(cfg, CompleteService(cfg, x, call, ending, now))
  {
    hide Streak;
    StreakAppend(x.log, Ended(ending));
    StreakAppend(x.log + [Ended(ending)], Opened(now));
    assert x.log + [Ended(ending)] + [] == x.log + [Ended(ending)];
  }

  lemma CompleteTimes(cfg: Config, x: Service, call: nat, ending: Ending, now: nat)
    requires OpeningsOk(cfg, x, now) && CooldownOk(cfg, x) && SpacingOk(cfg, x, now)
    ensures var y := CompleteService(cfg, x, call, ending, now);
            OpeningsOk(cfg, y, now) && CooldownOk(cfg, y) && SpacingOk(cfg, y, now)
  {
  }

  lemma KeepComplete(cfg: Config, x: Service, call: nat, ending: Ending, now: nat)
    requires Inv(cfg, x, now)
    ensures Inv(cfg, CompleteService(cfg, x, call, ending, now), now)
  {
    hide ProbesOk, CountOk, OpeningsOk, CooldownOk, SpacingOk;
    CompleteProbes(cfg, x, call, ending, now);
    CompleteCounts(cfg, x, call, ending, now);
    CompleteTimes(cfg, x, call, ending, now);
  }

  ghost predicate AllInv(cfg: Config, s: System) {
    forall v :: Inv(cfg, ServiceOf(s, v), s.now)
  }

  lemma KeepStep(cfg: Config, s: System, a: Action)
    requires AllInv(cfg, s)
    ensures AllInv(cfg, Apply(cfg, s, a))
  {
    hide ProbesOk, CountOk, CooldownOk;
    var s' := Apply(cfg, s, a);
    forall v ensures Inv(cfg, ServiceOf(s', v), s'.now) {
      assert Inv(cfg, ServiceOf(s, v), s.now);
      match a
      case Tick(_) =>
      case Begin(u, call) => KeepBegin(cfg, ServiceOf(s, u), call, s.now);
      case Complete(u, call, ending) => KeepComplete(cfg, ServiceOf(s, u), call, ending, s.now);
    }
  }

  lemma {:induction false} KeepRun(cfg: Config, s: System, run: seq<Action>)
    requires AllInv(cfg, s)
    ensures AllInv(cfg, Exec(cfg, s, run))
    decreases |run|
  {
    hide AllInv, Apply;
    if run != [] {
      KeepStep(cfg, s, run[0]);
      KeepRun(cfg, Apply(cfg, s, run[0]), run[1..]);
    }
  }

  lemma Reachable(cfg: Config, run: seq<Action>, v: string)
    ensures Inv(cfg, ServiceOf(Exec(cfg, Init(), run), v), Exec(cfg, Init(), run).now)
  {
    assert forall u :: ServiceOf(Init(), u) == NEW_SERVICE;
    assert Probes(map[]) == {};
    KeepRun(cfg, Init(), run);
  }

  // ------------------------------------------------------------ run-wide guarantees

  /** Probe slot and failure counter are exact, and a closed circuit is below its threshold, over
      every interleaving; with a threshold below one the initial circuit already breaks this. */
  lemma CountersAreExact(cfg: Config)
    ensures (forall run, v :: ExactAfter(cfg, run, v)) <==> cfg.threshold >= 1
  {
    if cfg.threshold >= 1 {
      forall run, v ensures ExactAfter(cfg, run, v) {
        Reachable(cfg, run, v);
      }
    } else {
      assert !ExactAfter(cfg, [], "");
    }
  }

  ghost predicate ExactAfter(cfg: Config, run: seq<Action>, v: string) {
    var x := ServiceOf(Exec(cfg, Init(), run), v);
    && |Probes(x.inFlight)| == (if x.circuit.probeInFlight then 1 else 0)
    && x.circuit.failures == Streak(x.log)
    && (x.circuit.state == Closed ==> x.circuit.failures < cfg.threshold)
  }

  /** After an opening at T nothing starts before T + openMs, not even after late successes. */
  lemma NoStartDuringCooldown(cfg: Config, run: seq<Action>, v: string, i: nat, j: nat)
    requires var log := ServiceOf(Exec(cfg, Init(), run), v).log; i < j < |log| && log[i].Opened? && log[j].Started?
    ensures var log := ServiceOf(Exec(cfg, Init(), run), v).log; log[j].at >= log[i].at + cfg.openMs
  {
    Reachable(cfg, run, v);
  }

  /** Probes admitted as a cooldown ends are at least openMs apart. */
  lemma ProbesAreSpaced(cfg: Config, run: seq<Action>, v: string, i: nat, j: nat)
    requires var log := ServiceOf(Exec(cfg, Init(), run), v).log;
             i < j < |log| && log[i].Started? && log[i].fromOpen && log[j].Started? && log[j].fromOpen
    ensures var log := ServiceOf(Exec(cfg, Init(), run), v).log; log[j].at >= log[i].at + cfg.openMs
  {
    Reachable(cfg, run, v);
  }

  predicate Concerns(a: Action, v: string) { a.Tick? || a.service == v }

  function Projection(run: seq<Action>, v: string): seq<Action> {
    if run == [] then []
    else (if Concerns(run[0], v) then [run[0]] else []) + Projection(run[1..], v)
  }

  /** A service depends on its own calls and on time only. */
  lemma {:induction false} ServicesAreIndependent(cfg: Config, s: System, t: System, run: seq<Action>, v: string)
    requires s.now == t.now && ServiceOf(s, v) == ServiceOf(t, v)
    ensures ServiceOf(Exec(cfg, s, run), v) == ServiceOf(Exec(cfg, t, Projection(run, v)), v)
    decreases |run|
  {
    hide BeginService, CompleteService;
    if run != [] {
      var a, s' := run[0], Apply(cfg, s, run[0]);
      if Concerns(a, v) {
        var t' := Apply(cfg, t, a);
        assert ([a] + Projection(run[1..], v))[1..] == Projection(run[1..], v);
        ServicesAreIndependent(cfg, s', t', run[1..], v);
      } else {
        assert [] + Projection(run[1..], v) == Projection(run[1..], v);
        ServicesAreIndependent(cfg, s', t, run[1..], v);
      }
    }
  }

  // ------------------------------------------------------------ who starts, and how a service recovers

  /** The calls running at a service. */
  function Running(s: System, v: string): map<nat, bool> { ServiceOf(s, v).inFlight }

  lemma CardinalityZero(calls: map<nat, bool>)
    ensures |Probes(calls)| == 0 <==> forall k | k in calls :: !calls[k]
  {
    assert forall k | k in calls && calls[k] :: k in Probes(calls);
    if forall k | k in calls :: !calls[k] {
      assert Probes(calls) == {};
    }
  }

  /** In every reachable state a new call starts if and only if the circuit is closed, or no probe is
      running and either it is half-open or openMs have passed since it opened. It is a probe unless the
      circuit was closed. */
  lemma StartsExactlyWhen(cfg: Config, run: seq<Action>, v: string, call: nat)
    requires call !in Running(Exec(cfg, Init(), run), v)
    ensures var s := Exec(cfg, Init(), run); var s' := Apply(cfg, s, Begin(v, call));
            var c := ServiceOf(s, v).circuit;
            var noProbe := forall k | k in Running(s, v) :: !Running(s, v)[k];
            && (call in Running(s', v) <==>
                c.state == Closed || (noProbe && (c.state == HalfOpen || s.now >= c.openedAt + cfg.openMs)))
            && (call in Running(s', v) ==>
                  && Running(s', v) == Running(s, v)[call := c.state != Closed]
                  && ServiceOf(s', v).log == ServiceOf(s, v).log + [Started(s.now, c.state == Open)])
            && (call !in Running(s', v) ==>
                  Running(s', v) == Running(s, v) && ServiceOf(s', v).log == ServiceOf(s, v).log)
  {
    hide Exec;
    var s := Exec(cfg, Init(), run);
    Reachable(cfg, run, v);
    CardinalityZero(Running(s, v));
  }

  /** An open circuit without a running probe, asked when its cooldown has passed, becomes half-open with
      that call as its only probe; the probe's success closes it with no failures, its transient failure
      opens it again, and nothing else starts in between. */
  lemma RecoversThroughProbe(cfg: Config, run: seq<Action>, v: string, call: nat, other: nat, ending: Ending)
    requires var s := Exec(cfg, Init(), run); var x := ServiceOf(s, v);
             && x.circuit.state == Open && s.now >= x.circuit.openedAt + cfg.openMs
             && (forall k | k in x.inFlight :: !x.inFlight[k])
             && call !in x.inFlight && other != call && other !in x.inFlight
    ensures var s := Exec(cfg, Init(), run); var x := ServiceOf(s, v);
            var s1 := Apply(cfg, s, Begin(v, call)); var x1 := ServiceOf(s1, v);
            var x2 := ServiceOf(Apply(cfg, s1, Complete(v, call, ending)), v);
            && x1.circuit == Circuit(HalfOpen, x.circuit.failures, x.circuit.openedAt, true)
            && x1.inFlight == x.inFlight[call := true]
            && other !in Running(Apply(cfg, s1, Begin(v, other)), v)
            && x2.circuit == match ending {
                 case Success => Circuit(Closed, 0, x.circuit.openedAt, false)
                 case Transient => Circuit(Open, x.circuit.failures + 1, s.now, false)
                 case Permanent => Circuit(HalfOpen, x.circuit.failures, x.circuit.openedAt, false)
               }
  {
    hide Exec;
    Reachable(cfg, run, v);
    CardinalityZero(ServiceOf(Exec(cfg, Init(), run), v).inFlight);
  }

  /** What a completion does, for every call that is running. */
  lemma CompletionOutcome(cfg: Config, s: System, v: string, call: nat, ending: Ending)
    requires call in Running(s, v)
    ensures var x := ServiceOf(s, v); var c := x.circuit;
            var y := ServiceOf(Apply(cfg, s, Complete(v, call, ending)), v);
            var probe := c.probeInFlight && !x.inFlight[call];
            var opens := c.state == HalfOpen || c.failures + 1 >= cfg.threshold;
            && y.inFlight == x.inFlight - {call}
            && y.log == x.log + [Ended(ending)] + (if ending == Transient && opens then [Opened(s.now)] else [])
            && y.circuit == match ending {
                 case Success => Circuit(if c.state == HalfOpen then Closed else c.state, 0, c.openedAt, probe)
                 case Transient => Circuit(if opens then Open else c.state, c.failures + 1,
                                           if opens then s.now else c.openedAt, probe)
                 case Permanent => Circuit(c.state, c.failures, c.openedAt, probe)
               }
  {
  }

  // ------------------------------------------------------------ the retry loop as a run

  /** The steps of `n` attempts made one after the other. */
  function RetryRun(v: string, endings: nat -> Ending, starts: nat -> nat, ends: nat -> nat, n: nat): seq<Action> {
    if n == 0 then []
    else
      RetryRun(v, endings, starts, ends, n - 1)
      + Steps(v, n - 1, if n == 1 then 0 else ends(n - 2), starts(n - 1), ends(n - 1), endings(n - 1))
  }

  /** The four steps of one attempt. */
  function Steps(v: string, call: nat, now: nat, start: nat, end: nat, ending: Ending): seq<Action> {
    [Tick(Max(0, start - now)), Begin(v, call), Tick(Max(0, end - start)), Complete(v, call, ending)]
  }

  predicate InOrder(starts: nat -> nat, ends: nat -> nat, n: nat) {
    && (forall k: nat | k < n :: starts(k) <= ends(k))
    && (forall k: nat | k + 1 < n :: ends(k) <= starts(k + 1))
  }

  lemma {:induction false} ExecSplit(cfg: Config, s: System, a: seq<Action>, b: seq<Action>)
    ensures Exec(cfg, s, a + b) == Exec(cfg, Exec(cfg, s, a), b)
    decreases |a|
  {
    hide Apply;
    if a == [] {
      assert a + b == b;
    } else {
      assert (a + b)[1..] == a[1..] + b;
      ExecSplit(cfg, Apply(cfg, s, a[0]), a[1..], b);
    }
  }

  lemma Exec4(cfg: Config, s: System, a: Action, b: Action, c: Action, d: Action)
    ensures Exec(cfg, s, [a, b, c, d]) == Apply(cfg, Apply(cfg, Apply(cfg, Apply(cfg, s, a), b), c), d)
  {
    hide Apply;
    var run := [a, b, c, d];
    assert run[1..] == [b, c, d] && [b, c, d][1..] == [c, d] && [c, d][1..] == [d] && [d][1..] == [];
    assert Exec(cfg, s, run) == Exec(cfg, Apply(cfg, s, a), [b, c, d]);
    assert Exec(cfg, Apply(cfg, s, a), [b, c, d]) == Exec(cfg, Apply(cfg, Apply(cfg, s, a), b), [c, d]);
    var s2 := Apply(cfg, Apply(cfg, s, a), b);
    assert Exec(cfg, s2, [c, d]) == Exec(cfg, Apply(cfg, s2, c), [d]);
    assert Exec(cfg, Apply(cfg, s2, c), [d]) == Apply(cfg, Apply(cfg, s2, c), d);
  }

  lemma OneAttempt(cfg: Config, s: System, v: string, call: nat, start: nat, end: nat, ending: Ending)
    requires s.now <= start <= end && ServiceOf(s, v).inFlight == map[] && CanStart(cfg, ServiceOf(s, v).circuit, start)
    ensures var s' := Exec(cfg, s, Steps(v, call, s.now, start, end, ending));
            && s'.now == end && ServiceOf(s', v).inFlight == map[]
            && ServiceOf(s', v).circuit == Once(cfg, ServiceOf(s, v).circuit, start, ending, end)
  {
    hide Exec, Completed;
    Exec4(cfg, s, Tick(start - s.now), Begin(v, call), Tick(end - start), Complete(v, call, ending));
    assert map[call := ServiceOf(s, v).circuit.state != Closed] - {call} == map[];
  }

  lemma OrderOfLast(starts: nat -> nat, ends: nat -> nat, n: nat)
    requires n > 0 && InOrder(starts, ends, n)
    ensures InOrder(starts, ends, n - 1) && starts(n - 1) <= ends(n - 1)
    ensures n > 1 ==> ends(n - 2) <= starts(n - 1)
  {
    if n > 1 {
      assert ends(n - 2) <= starts(n - 2 + 1);
    }
  }

  lemma LastStarts(cfg: Config, c: Circuit, endings: nat -> Ending, starts: nat -> nat, ends: nat -> nat, n: nat)
    requires n > 0 && AllStart(cfg, c, endings, starts, ends, n)
    ensures AllStart(cfg, c, endings, starts, ends, n - 1)
    ensures CanStart(cfg, Attempts(cfg, c, endings, starts, ends, n - 1), starts(n - 1))
  {
    hide CanStart, Attempts;
    assert StartsAt(cfg, c, endings, starts, ends, n - 1);
  }

  /** With nobody else calling, attempts that all could start do to the circuit what their steps do in the
      interleaved protocol. */
  lemma {:induction false} RetryIsARun(cfg: Config, v: string, endings: nat -> Ending, starts: nat -> nat,
                                       ends: nat -> nat, n: nat)
    requires InOrder(starts, ends, n) && AllStart(cfg, NEW_CIRCUIT, endings, starts, ends, n)
    ensures var s := Exec(cfg, Init(), RetryRun(v, endings, starts, ends, n));
            && s.now == (if n == 0 then 0 else ends(n - 1))
            && ServiceOf(s, v).inFlight == map[]
            && ServiceOf(s, v).circuit == Attempts(cfg, NEW_CIRCUIT, endings, starts, ends, n)
  {
    hide Exec, Once, CanStart, ServiceOf, InOrder, AllStart, StartsAt, Apply, Steps;
    if n == 0 {
      NothingRan(cfg, v);
    } else {
      OrderOfLast(starts, ends, n);
      LastStarts(cfg, NEW_CIRCUIT, endings, starts, ends, n);
      RetryIsARun(cfg, v, endings, starts, ends, n - 1);
      var before := RetryRun(v, endings, starts, ends, n - 1);
      var s := Exec(cfg, Init(), before);
      OneAttempt(cfg, s, v, n - 1, starts(n - 1), ends(n - 1), endings(n - 1));
      ExecSplit(cfg, Init(), before, Steps(v, n - 1, s.now, starts(n - 1), ends(n - 1), endings(n - 1)));
    }
  }

  lemma NothingRan(cfg: Config, v: string)
    ensures Exec(cfg, Init(), []).now == 0 && ServiceOf(Exec(cfg, Init(), []), v) == NEW_SERVICE
  {
  }
}
