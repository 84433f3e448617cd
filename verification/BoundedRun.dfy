/**
 * The deadline-bounded endpoint and benchmark lifecycle of `run_bounded_mage_benchmark.py`.
 *
 * The clock moves only in waits: a sleep lasts at least its argument, any other wait may end early,
 * and neither lasts more than `late` beyond what was asked for.
 */
module BoundedRun {
  import opened Text

  /** The positive timeouts of the command line, in seconds. */
  datatype Timeouts = Timeouts(
    overall: real, startup: real, benchmark: real, shutdown: real, poll: real, request: real)

  predicate Positive(t: Timeouts)
  {
    t.overall > 0.0 && t.startup > 0.0 && t.benchmark > 0.0 && t.shutdown > 0.0 && t.poll > 0.0 && t.request > 0.0
  }

  /** How late a wait or a sleep may return. */
  type Delay = d: real | d >= 0.0

  datatype Process = Absent | Running | Exited(code: int)

  datatype Outcome =
    | OrchestrationError | PortInUse | EndpointStartupFailed | EndpointFailedDuringBenchmark
    | StartupTimeout | BenchmarkTimeout | OverallTimeout | BenchmarkFailed | Interrupted
    | Succeeded | EndpointCleanupFailed

  const EXIT_FAILURE := 2
  const EXIT_TIMEOUT := 124
  const EXIT_INTERRUPTED := 130

  predicate IsTimeout(o: Outcome) { o == StartupTimeout || o == BenchmarkTimeout || o == OverallTimeout }

  /** What the `try` block raises, if anything. */
  datatype Raised =
    | Nothing | DeadlineExceeded | KeyboardInterrupt | ExitedBeforeReadiness | ExitedDuringBenchmark | Failure

  datatype Cleanup = NotStarted | AlreadyExited | Terminated | KilledOff

  datatype Signal = Terminate | Kill

  /** The signals each kind of cleanup sends. */
  function SignalsOf(cleanup: Cleanup): (sent: seq<Signal>)
  {
    match cleanup
    case NotStarted => []
    case AlreadyExited => []
    case Terminated => [Terminate]
    case KilledOff => [Terminate, Kill]
  }

  /** What the world outside did while the `try` block ran: each field is set where it happens. */
  datatype Facts = Facts(
    interrupted: bool,       // a keyboard interrupt was delivered
    misconfigured: bool,     // reading or checking the configuration failed
    portFree: bool,          // the preflight probe found the port free
    spawnFailed: bool,       // starting a child failed
    answeredReady: bool,     // a health request was answered READY
    healthBroken: bool,      // a health request failed in a way that is not retried
    endpoint: Process, benchmark: Process)  // the children, as last polled

  /** What those facts make of a run; `overdue` says that the overall deadline had passed. */
  function OutcomeOf(f: Facts, overdue: bool): (outcome: Outcome)
  {
    if f.interrupted then Interrupted
    else if f.misconfigured then OrchestrationError
    else if !f.portFree then PortInUse
    else if f.spawnFailed then OrchestrationError
    else if f.benchmark.Exited? then (if f.benchmark.code == 0 then Succeeded else BenchmarkFailed)
    else if f.benchmark == Running then
      if f.endpoint.Exited? then EndpointFailedDuringBenchmark else if overdue then OverallTimeout else BenchmarkTimeout
    else if f.answeredReady then (if f.endpoint.Exited? then OrchestrationError else OverallTimeout)
    else if f.endpoint.Exited? then EndpointStartupFailed
    else if f.healthBroken then OrchestrationError
    else if overdue then OverallTimeout
    else StartupTimeout
  }

  lemma InterruptWins(f: Facts, overdue: bool)
    ensures OutcomeOf(f, overdue) == Interrupted <==> f.interrupted
  {
  }

  /** What the `except` clauses make of an outcome and an exception. */
  function Caught(outcome: Outcome, raised: Raised): Outcome
  {
    match raised
    case DeadlineExceeded => OverallTimeout
    case KeyboardInterrupt => Interrupted
    case ExitedBeforeReadiness => if outcome == OrchestrationError then EndpointStartupFailed else outcome
    case ExitedDuringBenchmark => if outcome == OrchestrationError then EndpointFailedDuringBenchmark else outcome
    case Failure => outcome
    case Nothing => outcome
  }

  /** The steps whose order matters. */
  datatype Step =
    | SpawnEndpoint | SeenReady(endpoint: Process) | SpawnBenchmark
    | CleanBenchmark(cleanup: Cleanup) | CleanEndpoint(cleanup: Cleanup) | PortProbed(closed: bool)

  datatype Health =
    | Ready | EndpointExited | ExitedWhileVerifying | OverallExpired | StartupExpired | HealthInterrupted | HealthBroken

  function Min(a: real, b: real): real { if a <= b then a else b }

  function Max(a: real, b: real): real { if a >= b then a else b }

  /** Whole polling periods before a deadline, plus one while it lies ahead. */
  function Periods(ahead: real, period: real): nat
    requires period > 0.0
  {
    if ahead <= 0.0 then 0 else
      assert ahead / period >= 0.0;
      (ahead / period).Floor + 1
  }

  lemma Quotient(a: real, q: real, period: real)
    requires period > 0.0 && a == q * period
    ensures a / period == q
  {
  }

  lemma OnePeriodLess(a: real, period: real)
    requires period > 0.0
    ensures (a - period) / period == a / period - 1.0
  {
    var q := a / period;
    assert q * period == a;
    Quotient(a - period, q - 1.0, period);
  }

  lemma DivideKeepsOrder(a: real, b: real, period: real)
    requires period > 0.0 && a <= b
    ensures a / period <= b / period
  {
  }

  lemma FewerPeriods(before: real, after: real, period: real)
    requires period > 0.0 && before > 0.0 && (after <= 0.0 || after <= before - period)
    ensures Periods(after, period) < Periods(before, period)
  {
    if after > 0.0 {
      OnePeriodLess(before, period);
      DivideKeepsOrder(after, before - period, period);
    }
  }

  function Ceiling(x: real): (n: int)
    ensures n as real - 1.0 < x <= n as real
  {
    if x.Floor as real == x then x.Floor else x.Floor + 1
  }

  /** Attempts at least one poll apart, the last before the deadline, are at most the periods it spans. */
  lemma AttemptsWithinCeiling(attempts: nat, startup: real, poll: real)
    requires poll > 0.0 && startup > 0.0
    requires attempts > 0 ==> Slept(attempts - 1, poll) < startup
    ensures attempts <= Ceiling(startup / poll)
  {
  }

  /** The time that many full polling sleeps take. */
  function Slept(attempts: nat, poll: real): real { attempts as real * poll }

  lemma OneMoreSleep(attempts: nat, poll: real)
    ensures Slept(attempts + 1, poll) == Slept(attempts, poll) + poll
    ensures Slept(0, poll) == 0.0
  {
  }

  class Host {
    const late: Delay
    var now: real
    var endpoint: Process
    var benchmark: Process
    var trace: seq<Step>
    var outcome: Outcome
    var exitCode: int
    var benchmarkCode: Option<int>
    var interrupted: bool
    var misconfigured: bool
    var portFree: bool
    var spawnFailed: bool
    var answeredReady: bool
    var healthBroken: bool
    var signals: seq<Signal>

    function Observed(): (f: Facts)
      reads this
    {
      Facts(interrupted, misconfigured, portFree, spawnFailed, answeredReady, healthBroken, endpoint, benchmark)
    }

    constructor (start: real, late: Delay)
      ensures this.late == late
      ensures now == start && endpoint == Absent && benchmark == Absent && trace == []
      ensures outcome == OrchestrationError && exitCode == EXIT_FAILURE && benchmarkCode == None
      ensures Observed() == Facts(false, false, true, false, false, false, Absent, Absent)
    {
      this.late := late;
      interrupted, misconfigured, portFree, spawnFailed := false, false, true, false;
      answeredReady, healthBroken, signals := false, false, [];
      now, endpoint, benchmark, trace := start, Absent, Absent, [];
      outcome, exitCode, benchmarkCode := OrchestrationError, EXIT_FAILURE, None;
    }

    /** A wait that ends by its timeout. */
    method Wait(timeout: real)
      requires timeout >= 0.0
      modifies this`now
      ensures old(now) <= now <= old(now) + timeout + late
    {
      var taken: real := *;
      if 0.0 <= taken <= timeout + late {
        now := now + taken;
      }
    }

    method Sleep(seconds: real)
      requires seconds >= 0.0
      modifies this`now
      ensures old(now) + seconds <= now <= old(now) + seconds + late
    {
      var overrun: real := *;
      now := now + seconds + (if 0.0 <= overrun <= late then overrun else 0.0);
    }

    /** `process.poll()`: a running process may turn out to have exited. */
    method Poll(p: Process) returns (r: Process)
      ensures p != Running ==> r == p
      ensures p == Running ==> r == Running || r.Exited?
    {
      r := p;
      var exited: bool := *;
      if p == Running && exited {
        var code: int := *;
        r := Exited(code);
      }
    }

    /** A keyboard interrupt may be delivered here. */
    method Interrupt() returns (delivered: bool)
      modifies this`interrupted
      ensures interrupted == (old(interrupted) || delivered)
    {
      delivered := *;
      interrupted := interrupted || delivered;
    }

    /** `_validate_configuration` and the argument files. */
    method Configure(t: Timeouts) returns (ok: bool)
      modifies this`misconfigured
      ensures misconfigured == !ok
      ensures t.overall <= t.shutdown ==> !ok
    {
      ok := *;
      ok := ok && t.overall > t.shutdown;
      misconfigured := !ok;
    }

    /** `_port_is_available`. */
    method ProbeFree() returns (free: bool)
      modifies this`portFree
      ensures portFree == free
    {
      free := *;
      portFree := free;
    }

    /** `_fetch_ready_health`. */
    method FetchReadyHealth(startupDeadline: real, overallDeadline: real, poll: real, request: real)
      returns (health: Health, attempts: nat)
      requires endpoint == Running && poll > 0.0 && request > 0.0 && startupDeadline <= overallDeadline
      requires !answeredReady && !healthBroken && !interrupted
      modifies this`now, this`endpoint, this`answeredReady, this`healthBroken, this`interrupted
      ensures old(now) <= now <= Max(old(now), startupDeadline + 0.01 + late)
      ensures health == Ready ==> attempts > 0
      ensures endpoint == Running || endpoint.Exited?
      ensures health == HealthInterrupted <==> interrupted
      ensures health == HealthBroken <==> healthBroken
      ensures health == Ready <==> answeredReady && endpoint == Running
      ensures health == ExitedWhileVerifying <==> answeredReady && endpoint.Exited?
      ensures health == EndpointExited <==> !answeredReady && endpoint.Exited?
      ensures health == OverallExpired ==> now >= overallDeadline
      ensures health == StartupExpired ==> startupDeadline <= now < overallDeadline
      ensures attempts > 0 ==> Slept(attempts - 1, poll) < startupDeadline - old(now)
    {
      hide Periods, Slept;
      attempts := 0;
      ghost var begun := now;
      OneMoreSleep(0, poll);
      while true
        invariant endpoint == Running && !answeredReady && !healthBroken && !interrupted
        invariant begun <= now <= Max(begun, startupDeadline + 0.01 + late)
        invariant attempts > 0 ==> Slept(attempts - 1, poll) < startupDeadline - begun
        invariant now < startupDeadline ==> Slept(attempts, poll) <= now - begun
        decreases Periods(startupDeadline - now, poll)
      {
        endpoint := Poll(endpoint);
        if endpoint.Exited? {
          return EndpointExited, attempts;
        }
        if now >= overallDeadline {
          return OverallExpired, attempts;
        }
        if now >= startupDeadline {
          return StartupExpired, attempts;
        }
        ghost var asked := now;
        ghost var tried := attempts;
        attempts := attempts + 1;
        var timeout := Min(request, Min(Max(0.01, startupDeadline - now), Max(0.01, overallDeadline - now)));
        Wait(timeout);
        var answer := Answer();
        if answer == HealthInterrupted || answer == HealthBroken {
          return answer, attempts;
        }
        if answer == Ready {
          endpoint := Poll(endpoint);
          if endpoint.Exited? {
            return ExitedWhileVerifying, attempts;
          }
          return Ready, attempts;
        }
        var delay := Min(poll, Min(startupDeadline - now, overallDeadline - now));
        if delay > 0.0 {
          Sleep(delay);
        }
        FewerPeriods(startupDeadline - asked, startupDeadline - now, poll);
        OneMoreSleep(tried, poll);
      }
    }

    /** One health request: READY, a failure the loop retries, an interrupt, or an error it does not catch. */
    method Answer() returns (health: Health)
      requires !answeredReady && !healthBroken && !interrupted
      modifies this`answeredReady, this`healthBroken, this`interrupted
      ensures health == Ready || health == StartupExpired || health == HealthInterrupted || health == HealthBroken
      ensures answeredReady <==> health == Ready
      ensures healthBroken <==> health == HealthBroken
      ensures interrupted <==> health == HealthInterrupted
    {
      var kind: int := *;
      health := if kind == 0 then Ready else if kind == 1 then HealthInterrupted
                else if kind == 2 then HealthBroken else StartupExpired;
      answeredReady, healthBroken, interrupted := kind == 0, kind == 2, kind == 1;
    }

    /** `_wait_for_benchmark`: the return code, or what it raises. */
    method WaitForBenchmark(benchmarkDeadline: real, overallDeadline: real)
      returns (code: Option<int>, raised: Raised, timedOut: bool)
      requires endpoint == Running && benchmark == Running && benchmarkDeadline <= overallDeadline
      requires !interrupted
      modifies this`now, this`endpoint, this`benchmark, this`interrupted
      ensures old(now) <= now <= Max(old(now), benchmarkDeadline + late)
      ensures code.Some? <==> raised == Nothing && !timedOut
      ensures code.Some? <==> benchmark.Exited?
      ensures code.Some? ==> benchmark == Exited(code.value)
      ensures raised == ExitedDuringBenchmark <==> code.None? && endpoint.Exited?
      ensures raised == KeyboardInterrupt <==> interrupted
      ensures timedOut ==> raised == Nothing && benchmarkDeadline <= now < overallDeadline
      ensures raised == DeadlineExceeded ==> now >= overallDeadline
      ensures raised in {Nothing, DeadlineExceeded, KeyboardInterrupt, ExitedDuringBenchmark}
      ensures benchmark != Absent && endpoint != Absent
    {
      code, raised, timedOut := None, Nothing, false;
      while true
        invariant endpoint == Running && benchmark == Running && !interrupted
        invariant old(now) <= now <= Max(old(now), benchmarkDeadline + late)
        decreases Periods(benchmarkDeadline - now, 0.1)
      {
        benchmark := Poll(benchmark);
        if benchmark.Exited? {
          return Some(benchmark.code), Nothing, false;
        }
        endpoint := Poll(endpoint);
        if endpoint.Exited? {
          return None, ExitedDuringBenchmark, false;
        }
        if now >= overallDeadline {
          return None, DeadlineExceeded, false;
        }
        if now >= benchmarkDeadline {
          return None, Nothing, true;
        }
        var stop := Interrupt();
        if stop {
          return None, KeyboardInterrupt, false;
        }
        ghost var before := now;
        Sleep(Min(0.1, Min(benchmarkDeadline - now, overallDeadline - now)));
        FewerPeriods(benchmarkDeadline - before, benchmarkDeadline - now, 0.1);
      }
    }

    /** Sending a signal to an owned process, which the system may refuse. */
    method Send(signal: Signal) returns (delivered: bool)
      modifies this`signals
      ensures signals == old(signals) + [signal]
    {
      signals := signals + [signal];
      delivered := *;
    }

    /** `_terminate_owned_process`. */
    method TerminateOwned(p: Process, timeout: real, deadline: real) returns (r: Process, cleanup: Cleanup)
      requires timeout > 0.0
      modifies this`now, this`signals
      ensures signals == old(signals) + SignalsOf(cleanup)
      ensures p == Absent <==> cleanup == NotStarted
      ensures p.Exited? ==> cleanup == AlreadyExited
      ensures cleanup in {NotStarted, AlreadyExited} ==> now == old(now)
      ensures cleanup in {AlreadyExited, Terminated} ==> r.Exited?
      ensures old(now) <= now <= Max(old(now), deadline + late) + 2.0 + late
      ensures p == Absent ==> r == Absent
    {
      r := Poll(p);
      if r == Absent {
        return r, NotStarted;
      }
      if r.Exited? {
        return r, AlreadyExited;
      }
      var delivered := Send(Terminate);
      var grace := Min(timeout, Max(0.0, deadline - now));
      if delivered && grace > 0.0 {
        Wait(grace);
        r := Poll(r);
        if r.Exited? {
          return r, Terminated;
        }
      }
      delivered := Send(Kill);
      Wait(2.0);
      r := Poll(r);
      return r, KilledOff;
    }

    /** `_wait_for_port_closed`. */
    method WaitForPortClosed(timeout: real) returns (closed: bool)
      requires timeout > 0.0
      modifies this`now
      ensures old(now) <= now <= old(now) + timeout + 0.05 + 2.0 * late
    {
      var deadline := now + timeout;
      while true
        invariant old(now) <= now <= deadline + late
        decreases Periods(deadline - now, 0.05), if now >= deadline then 0 else 1
      {
        ghost var before := now;
        Wait(Min(0.05, timeout));
        var accepts: bool := *;
        if !accepts {
          return true;
        }
        var remaining := deadline - now;
        if remaining <= 0.0 {
          return false;
        }
        Sleep(Min(0.05, remaining));
        FewerPeriods(deadline - before, deadline - now, 0.05);
      }
    }

    /** `_spawn_owned`: when containment fails the child is stopped and no handle is kept. */
    method SpawnOwned() returns (spawned: bool, assignFailed: bool)
      modifies this`now, this`spawnFailed, this`signals
      ensures signals == old(signals) + (if assignFailed then [Terminate, Kill] else [])
      ensures spawnFailed == (old(spawnFailed) || !spawned)
      ensures !(spawned && assignFailed)
      ensures if assignFailed then old(now) <= now <= old(now) + 2.0 + late else now == old(now)
    {
      var started: bool := *;
      if !started {
        spawnFailed := true;
        return false, false;
      }
      var contained: bool := *;
      if !contained {
        spawnFailed := true;
        var delivered := Send(Terminate);
        Wait(2.0);
        delivered := Send(Kill);
        return false, true;
      }
      return true, false;
    }

    /** How far the `try` block got: the recorded steps are a prefix of the one order it follows. */
    ghost predicate Recorded()
      reads this
    {
      && trace <= [SpawnEndpoint, SeenReady(Running), SpawnBenchmark]
      && (endpoint == Absent <==> trace == [])
      && (benchmark == Absent <==> |trace| < 3)
    }

    /** Outcome, exit code and exception as the `try` block leaves them. */
    ghost predicate Pending(raised: Raised, overallDeadline: real)
      reads this
    {
      && Settled(outcome, exitCode)
      && outcome !in {OverallTimeout, Interrupted, EndpointCleanupFailed}
      && (outcome == Succeeded ==> raised in {Nothing, KeyboardInterrupt})
      && Caught(outcome, raised) == OutcomeOf(Observed(), now >= overallDeadline)
    }

    ghost predicate Untried()
      reads this
    {
      && outcome == OrchestrationError && exitCode == EXIT_FAILURE && benchmarkCode == None
      && (endpoint == Absent <==> trace == []) && benchmark == Absent
    }

    /** The `try` block up to a spawned endpoint. */
    method SpawnEndpointChild(t: Timeouts, ghost overallDeadline: real) returns (raised: Raised, assignFailed: bool)
      requires Untried() && trace == []
      requires Observed() == Facts(false, false, true, false, false, false, Absent, Absent)
      modifies this
      ensures Recorded() && benchmark == Absent && benchmarkCode == None
      ensures raised == Nothing ==> Untried() && trace == [SpawnEndpoint] && !assignFailed
      ensures raised == Nothing ==> Observed() == Facts(false, false, true, false, false, false, Running, Absent)
      ensures t.overall <= t.shutdown ==> interrupted || misconfigured
      ensures raised != Nothing ==> raised != DeadlineExceeded && outcome in {OrchestrationError, PortInUse}
      ensures raised != Nothing ==> Pending(raised, overallDeadline)
      ensures assignFailed ==> endpoint == Absent
      ensures if assignFailed then old(now) <= now <= old(now) + 2.0 + late else now == old(now)
    {
      assignFailed := false;
      var stop := Interrupt();
      if stop {
        return KeyboardInterrupt, false;
      }
      var configured := Configure(t);
      if !configured {
        return Failure, false;
      }
      var free := ProbeFree();
      if !free {
        outcome := PortInUse;
        return Failure, false;
      }
      var spawned;
      spawned, assignFailed := SpawnOwned();
      if !spawned {
        return Failure, assignFailed;
      }
      endpoint := Running;
      trace := trace + [SpawnEndpoint];
      stop := Interrupt();
      raised := if stop then KeyboardInterrupt else Nothing;
    }

    /** Waiting for a spawned endpoint to report READY, and what else can end the wait. */
    method AwaitReady(t: Timeouts, startupDeadline: real, overallDeadline: real) returns (raised: Raised, attempts: nat)
      requires Positive(t) && startupDeadline <= overallDeadline
      requires outcome == OrchestrationError && exitCode == EXIT_FAILURE
      requires Observed() == Facts(false, false, true, false, false, false, Running, Absent)
      modifies this`now, this`endpoint, this`answeredReady, this`healthBroken, this`interrupted, this`outcome,
        this`exitCode
      ensures endpoint != Absent
      ensures raised == Nothing ==> outcome == OrchestrationError && exitCode == EXIT_FAILURE
      ensures raised == Nothing ==> Observed() == Facts(false, false, true, false, true, false, Running, Absent)
      ensures raised != Nothing ==> Pending(raised, overallDeadline) && outcome in {OrchestrationError, StartupTimeout}
      ensures old(now) <= now <= Max(old(now), startupDeadline + 0.01 + late)
      ensures attempts > 0 ==> Slept(attempts - 1, t.poll) < startupDeadline - old(now)
      ensures raised == DeadlineExceeded ==> now >= overallDeadline
      ensures outcome == StartupTimeout ==> startupDeadline <= now < overallDeadline
    {
      hide Slept;
      var health;
      health, attempts := FetchReadyHealth(startupDeadline, overallDeadline, t.poll, t.request);
      raised := Nothing;
      match health
      case StartupExpired =>
        outcome, exitCode := StartupTimeout, EXIT_TIMEOUT;
        raised := Failure;
      case OverallExpired => raised := DeadlineExceeded;
      case HealthInterrupted => raised := KeyboardInterrupt;
      case EndpointExited => raised := ExitedBeforeReadiness;
      case ExitedWhileVerifying => raised := Failure;
      case HealthBroken => raised := Failure;
      case Ready =>
    }

    /** The `try` block up to a live endpoint that reported READY. */
    method StartEndpoint(t: Timeouts, overallDeadline: real) returns (raised: Raised, attempts: nat, assignFailed: bool)
      requires Positive(t) && overallDeadline == now + t.overall
      requires Untried() && trace == []
      requires Observed() == Facts(false, false, true, false, false, false, Absent, Absent)
      modifies this
      ensures Recorded() && benchmark == Absent && benchmarkCode == None
      ensures raised == Nothing ==> Untried() && trace == [SpawnEndpoint, SeenReady(Running)] && !assignFailed
      ensures raised == Nothing ==> Observed() == Facts(false, false, true, false, true, false, Running, Absent)
      ensures raised != Nothing ==> Pending(raised, overallDeadline) && outcome != Succeeded
      ensures t.overall <= t.shutdown ==> raised != Nothing && (interrupted || misconfigured)
      ensures assignFailed ==> endpoint == Absent
      ensures old(now) <= now <= overallDeadline + Overshoot(assignFailed, late)
      ensures attempts > 0 ==> Slept(attempts - 1, t.poll) < t.startup
      ensures raised == DeadlineExceeded ==> now >= overallDeadline
      ensures outcome == StartupTimeout ==> now >= old(now) + t.startup
      ensures outcome != BenchmarkTimeout
    {
      hide Slept;
      attempts := 0;
      var started := now;
      raised, assignFailed := SpawnEndpointChild(t, overallDeadline);
      if raised != Nothing {
        return;
      }
      raised, attempts := AwaitReady(t, Min(started + t.startup, overallDeadline), overallDeadline);
      if raised == Nothing {
        trace := trace + [SeenReady(endpoint)];
      }
    }

    /** Waiting for a spawned benchmark, and what its end means. */
    method AwaitBenchmark(t: Timeouts, overallDeadline: real) returns (raised: Raised)
      requires Positive(t) && outcome == OrchestrationError && exitCode == EXIT_FAILURE && benchmarkCode == None
      requires Observed() == Facts(false, false, true, false, true, false, Running, Running)
      requires now <= overallDeadline + Overshoot(false, late)
      modifies this`now, this`endpoint, this`benchmark, this`interrupted, this`outcome, this`exitCode,
        this`benchmarkCode
      ensures endpoint != Absent && benchmark != Absent && Pending(raised, overallDeadline)
      ensures benchmarkCode.Some? <==> benchmark.Exited?
      ensures benchmark.Exited? ==> benchmarkCode == Some(benchmark.code)
      ensures outcome == Succeeded <==> benchmarkCode == Some(0)
      ensures outcome == BenchmarkFailed <==> benchmarkCode.Some? && benchmarkCode != Some(0)
      ensures old(now) <= now <= overallDeadline + Overshoot(false, late)
      ensures raised == DeadlineExceeded ==> now >= overallDeadline
      ensures outcome == BenchmarkTimeout ==> now >= old(now) + t.benchmark
      ensures outcome != StartupTimeout
    {
      var benchmarkDeadline := Min(now + t.benchmark, overallDeadline);
      var timedOut;
      benchmarkCode, raised, timedOut := WaitForBenchmark(benchmarkDeadline, overallDeadline);
      if timedOut {
        outcome, exitCode := BenchmarkTimeout, EXIT_TIMEOUT;
        return Failure;
      }
      if raised != Nothing {
        return;
      }
      if benchmarkCode != Some(0) {
        outcome := BenchmarkFailed;
        return Failure;
      }
      outcome, exitCode := Succeeded, 0;
      var stop := Interrupt();
      if stop {
        raised := KeyboardInterrupt;
      }
    }

    /** The rest of the `try` block. */
    method RunBenchmark(t: Timeouts, overallDeadline: real) returns (raised: Raised, assignFailed: bool)
      requires Positive(t) && Recorded() && |trace| == 2 && endpoint == Running
      requires Untried() && Observed() == Facts(false, false, true, false, true, false, Running, Absent)
      requires now <= overallDeadline + Overshoot(false, late)
      modifies this
      ensures Recorded() && endpoint != Absent && Pending(raised, overallDeadline)
      ensures benchmarkCode.Some? <==> benchmark.Exited?
      ensures benchmark.Exited? ==> benchmarkCode == Some(benchmark.code)
      ensures outcome == Succeeded <==> benchmarkCode == Some(0)
      ensures outcome == BenchmarkFailed <==> benchmarkCode.Some? && benchmarkCode != Some(0)
      ensures assignFailed ==> benchmark == Absent
      ensures old(now) <= now <= overallDeadline + Overshoot(assignFailed, late)
      ensures raised == DeadlineExceeded ==> now >= overallDeadline
      ensures outcome == BenchmarkTimeout ==> now >= old(now) + t.benchmark
      ensures outcome != StartupTimeout
    {
      raised, assignFailed := Nothing, false;
      var stop := Interrupt();
      if stop {
        return KeyboardInterrupt, false;
      }
      if overallDeadline - now <= 0.0 {
        return DeadlineExceeded, false;
      }
      var spawned;
      spawned, assignFailed := SpawnOwned();
      if !spawned {
        return Failure, assignFailed;
      }
      benchmark := Running;
      trace := trace + [SpawnBenchmark];
      raised := AwaitBenchmark(t, overallDeadline);
    }

    /** The `try` block and its `except` clauses. */
    method Attempt(t: Timeouts, overallDeadline: real) returns (attempts: nat, assignFailed: bool)
      requires Positive(t) && overallDeadline == now + t.overall
      requires Untried() && trace == []
      requires Observed() == Facts(false, false, true, false, false, false, Absent, Absent)
      modifies this
      ensures Recorded() && Settled(outcome, exitCode)
      ensures outcome == OutcomeOf(Observed(), now >= overallDeadline) && outcome != EndpointCleanupFailed
      ensures benchmarkCode.Some? <==> benchmark.Exited?
      ensures benchmark.Exited? ==> benchmarkCode == Some(benchmark.code)
      ensures outcome == Succeeded <==> benchmarkCode == Some(0) && !interrupted
      ensures t.overall <= t.shutdown ==> interrupted || misconfigured
      ensures assignFailed ==> benchmark == Absent
      ensures old(now) <= now <= overallDeadline + Overshoot(assignFailed, late)
      ensures attempts > 0 ==> Slept(attempts - 1, t.poll) < t.startup
      ensures outcome == OverallTimeout ==> now >= overallDeadline
      ensures outcome == StartupTimeout ==> now >= old(now) + t.startup
      ensures outcome == BenchmarkTimeout ==> now >= old(now) + t.benchmark
    {
      hide Slept, OutcomeOf;
      var raised;
      raised, attempts, assignFailed := StartEndpoint(t, overallDeadline);
      if raised == Nothing {
        raised, assignFailed := RunBenchmark(t, overallDeadline);
      }
      Handle(raised, overallDeadline);
      InterruptWins(Observed(), now >= overallDeadline);
    }

    /** The `except` clauses. */
    method Handle(raised: Raised, ghost overallDeadline: real)
      requires Pending(raised, overallDeadline)
      modifies this`outcome, this`exitCode
      ensures outcome == OutcomeOf(Observed(), now >= overallDeadline)
      ensures Settled(outcome, exitCode)
      ensures outcome == Succeeded ==> old(outcome) == Succeeded && raised == Nothing
      ensures outcome != EndpointCleanupFailed
      ensures outcome == OverallTimeout ==> raised == DeadlineExceeded
      ensures outcome in {StartupTimeout, BenchmarkTimeout} ==> outcome == old(outcome)
    {
      match raised
      case DeadlineExceeded => outcome, exitCode := OverallTimeout, EXIT_TIMEOUT;
      case KeyboardInterrupt => outcome, exitCode := Interrupted, EXIT_INTERRUPTED;
      case ExitedBeforeReadiness =>
        if outcome == OrchestrationError {
          outcome := EndpointStartupFailed;
        }
      case ExitedDuringBenchmark =>
        if outcome == OrchestrationError {
          outcome := EndpointFailedDuringBenchmark;
        }
      case Failure =>
      case Nothing =>
    }

    /** The port check that can still turn a success into a cleanup failure. */
    method ProbePort(t: Timeouts) returns (closed: bool)
      requires Positive(t) && Settled(outcome, exitCode) && outcome != EndpointCleanupFailed
      modifies this`now, this`trace, this`outcome, this`exitCode
      ensures Settled(outcome, exitCode) && trace == old(trace) + [PortProbed(closed)]
      ensures outcome == (if old(outcome) == Succeeded && !closed then EndpointCleanupFailed else old(outcome))
      ensures old(now) <= now <= old(now) + 2.05 + 2.0 * late
    {
      closed := WaitForPortClosed(Min(2.0, t.shutdown));
      trace := trace + [PortProbed(closed)];
      if !closed && outcome == Succeeded {
        outcome, exitCode := EndpointCleanupFailed, EXIT_FAILURE;
      }
    }

    /** The benchmark is stopped first, then the endpoint. */
    method StopChildren(t: Timeouts, deadline: real) returns (b: Cleanup, e: Cleanup)
      requires Positive(t) && now <= deadline
      modifies this`now, this`signals, this`trace, this`benchmark, this`endpoint
      ensures trace == old(trace) + [CleanBenchmark(b), CleanEndpoint(e)]
      ensures signals == old(signals) + SignalsOf(b) + SignalsOf(e)
      ensures (b == NotStarted <==> old(benchmark) == Absent) && (e == NotStarted <==> old(endpoint) == Absent)
      ensures old(now) <= now <= deadline + 4.0 + 3.0 * late
      ensures old(benchmark) == Absent ==> now <= deadline + 2.0 + 2.0 * late
      ensures old(benchmark) == Absent && old(endpoint) == Absent ==> now == old(now)
    {
      hide SignalsOf;
      benchmark, b := TerminateOwned(benchmark, t.shutdown, deadline);
      trace := trace + [CleanBenchmark(b)];
      endpoint, e := TerminateOwned(endpoint, t.shutdown, deadline);
      trace := trace + [CleanEndpoint(e)];
    }

    /** The `finally` block: the benchmark first, then the endpoint, then the port. */
    method CleanUp(t: Timeouts, overallDeadline: real, ghost slack: real)
      returns (portClosed: Option<bool>, b: Cleanup, e: Cleanup)
      requires Positive(t) && Settled(outcome, exitCode) && outcome != EndpointCleanupFailed
      requires outcome == Succeeded ==> endpoint != Absent
      requires 0.0 <= slack && now <= overallDeadline + slack
      modifies this
      ensures Settled(outcome, exitCode)
      ensures outcome == if old(outcome) == Succeeded && portClosed != Some(true) then EndpointCleanupFailed
                         else old(outcome)
      ensures portClosed.None? <==> old(endpoint) == Absent
      ensures benchmarkCode == old(benchmarkCode)
      ensures trace == old(trace) + [CleanBenchmark(b), CleanEndpoint(e)] + Probed(portClosed)
      ensures (b == NotStarted <==> old(benchmark) == Absent) && (e == NotStarted <==> old(endpoint) == Absent)
      ensures old(now) <= now
      ensures now <= overallDeadline + slack + 8.05 + 5.0 * late
      ensures old(benchmark) == Absent ==> now <= overallDeadline + slack + 6.05 + 4.0 * late
      ensures old(benchmark) == Absent && old(endpoint) == Absent ==> now == old(now)
    {
      portClosed := None;
      var cleanupDeadline := Max(overallDeadline, now + 2.0);
      var hadEndpoint := endpoint != Absent;
      endpoint := Poll(endpoint);
      b, e := StopChildren(t, cleanupDeadline);
      if hadEndpoint {
        var closed := ProbePort(t);
        portClosed := Some(closed);
      }
      assert trace == old(trace) + [CleanBenchmark(b), CleanEndpoint(e)] + Probed(portClosed);
    }
  }

  /** How far past the overall deadline the `try` block can end. */
  function Overshoot(assignFailed: bool, late: Delay): real { (if assignFailed then 2.0 else 0.01) + late }

  function Probed(portClosed: Option<bool>): seq<Step>
  {
    if portClosed.Some? then [PortProbed(portClosed.value)] else []
  }

  /** The exit code says which kind of outcome it was. */
  predicate Settled(outcome: Outcome, exitCode: int)
  {
    && (exitCode == 0 <==> outcome == Succeeded)
    && (exitCode == EXIT_TIMEOUT <==> IsTimeout(outcome))
    && (exitCode == EXIT_INTERRUPTED <==> outcome == Interrupted)
    && exitCode in {0, EXIT_FAILURE, EXIT_TIMEOUT, EXIT_INTERRUPTED}
  }

  datatype Report = Report(
    outcome: Outcome, exitCode: int, attempts: nat, assignFailed: bool, trace: seq<Step>,
    benchmarkCode: Option<int>, portClosed: Option<bool>, entered: real, finished: real, facts: Facts)

  /** Endpoint, READY from the live endpoint, benchmark; then benchmark cleanup, endpoint cleanup, port. */
  ghost predicate InOrder(trace: seq<Step>, portClosed: Option<bool>)
  {
    exists done: seq<Step>, b: Cleanup, e: Cleanup {:trigger done + [CleanBenchmark(b), CleanEndpoint(e)]} ::
      && done <= [SpawnEndpoint, SeenReady(Running), SpawnBenchmark]
      && trace == done + [CleanBenchmark(b), CleanEndpoint(e)] + Probed(portClosed)
      && (b == NotStarted <==> |done| < 3) && (e == NotStarted <==> done == [])
      && (portClosed.Some? <==> done != [])
  }

  /**
   * `run`: the hard time bound and the lifecycle, over every behaviour of the children, the health
   * endpoint, the port and the scheduler.
   */
  method Run(t: Timeouts, started: real, late: Delay) returns (r: Report)
    requires Positive(t)
    ensures Settled(r.outcome, r.exitCode)
    ensures var found := OutcomeOf(r.facts, r.entered >= started + t.overall);
            r.outcome == if found == Succeeded && r.portClosed != Some(true) then EndpointCleanupFailed else found
    ensures r.outcome == Succeeded <==>
              r.benchmarkCode == Some(0) && !r.facts.interrupted && r.portClosed == Some(true)
    ensures r.outcome == EndpointCleanupFailed <==>
              r.benchmarkCode == Some(0) && !r.facts.interrupted && r.portClosed == Some(false)
    ensures r.facts.benchmark.Exited? <==> r.benchmarkCode.Some?
    ensures r.facts.benchmark.Exited? ==> r.benchmarkCode == Some(r.facts.benchmark.code)
    ensures r.portClosed.Some? <==> r.facts.endpoint != Absent
    ensures t.overall <= t.shutdown ==> r.outcome in {OrchestrationError, Interrupted}
    ensures InOrder(r.trace, r.portClosed)
    ensures started <= r.entered <= started + t.overall + Overshoot(r.assignFailed, late)
    ensures r.entered <= r.finished <= started + t.overall + 8.06 + 6.0 * late
    ensures r.attempts <= Ceiling(t.startup / t.poll)
    ensures r.outcome == OverallTimeout ==> r.entered >= started + t.overall
    ensures r.outcome == StartupTimeout ==> r.entered >= started + t.startup
    ensures r.outcome == BenchmarkTimeout ==> r.entered >= started + t.benchmark
  {
    var h := new Host(started, late);
    var overallDeadline := h.now + t.overall;
    var attempts, assignFailed := h.Attempt(t, overallDeadline);
    AttemptsWithinCeiling(attempts, t.startup, t.poll);
    var entered, facts := h.now, h.Observed();
    ghost var done := h.trace;
    var portClosed, benchmarkCleanup, endpointCleanup :=
      h.CleanUp(t, overallDeadline, Overshoot(assignFailed, late));
    assert h.trace == done + [CleanBenchmark(benchmarkCleanup), CleanEndpoint(endpointCleanup)] + Probed(portClosed);
    r := Report(h.outcome, h.exitCode, attempts, assignFailed, h.trace, h.benchmarkCode, portClosed, entered, h.now,
                facts);
  }
}
