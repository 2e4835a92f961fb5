/** The scheduled-function runner (`functionHandler`): each exported
    function runs once or on an interval, counting executions and failed
    attempts and stopping at its configured limits. */
module FunctionRunner {
  import opened Options

  /** `config.interval`: absent, a number (0 is falsy), or a truthy value
      that is not a number. */
  datatype Interval = NoInterval | Millis(ms: int) | NotANumber

  /** A function's `config`; absent limits compare as never reached. The
      `initializer` delay only postpones the start and is not kept. */
  datatype FnConfig = FnConfig(once: bool, interval: Interval, retryAttempts: Option<int>, maxExecution: Option<int>)

  /** `func.config || {}`. */
  const DefaultConfig: FnConfig := FnConfig(false, NoInterval, None, None)

  /** A file's export: only functions are handled. */
  datatype Export = NotAFunction | Function(name: string, config: Option<FnConfig>)

  /** What `handleSingleFunction` does with a configuration. */
  datatype Plan = Aborted | RunNow | Repeat(ms: int) | Idle

  function PlanOf(cfg: FnConfig): (p: Plan)
    ensures p == Aborted <==> cfg.interval.NotANumber?
    ensures p == RunNow <==> !cfg.interval.NotANumber? && cfg.once
    ensures p.Repeat? ==> !cfg.once && cfg.interval == Millis(p.ms) && p.ms != 0
    ensures p == Idle <==> !cfg.once && (cfg.interval == NoInterval || cfg.interval == Millis(0))
  {
    if cfg.interval.NotANumber? then Aborted
    else if cfg.once then RunNow
    else if cfg.interval.Millis? && cfg.interval.ms != 0 then Repeat(cfg.interval.ms)
    else Idle
  }

  /** The two counters each function keeps. */
  datatype Counters = Counters(executions: nat, retries: nat)

  /** Whether the call to the function resolves or throws; the outside
      world decides. */
  datatype Attempt = Succeeds | Throws

  /** `runFunction`: the counters after one invocation, and whether it
      asks for the interval to be cleared. */
  function RunFunction(cfg: FnConfig, c: Counters, attempt: Attempt): (r: (Counters, bool))
    // at the execution limit nothing runs
    ensures cfg.maxExecution.Some? && c.executions >= cfg.maxExecution.value ==> r == (c, true)
    ensures r.0.executions == c.executions || r.0.executions == c.executions + 1
    ensures r.0.executions == c.executions + 1 <==>
              attempt.Succeeds? && !(cfg.maxExecution.Some? && c.executions >= cfg.maxExecution.value)
    ensures r.0.retries == c.retries + 1 <==>
              attempt.Throws? && !(cfg.maxExecution.Some? && c.executions >= cfg.maxExecution.value)
    ensures r.0.retries == c.retries || r.0.retries == c.retries + 1
    // the schedule stops at the execution limit, or on a failure that
    // brings the retries to the retry limit; never after a success
    ensures r.1 <==> AtLimit(cfg, c)
                     || (attempt.Throws? && cfg.retryAttempts.Some? && c.retries + 1 >= cfg.retryAttempts.value)
    ensures r.1 && r.0 != c ==> attempt.Throws? && cfg.retryAttempts.Some? && r.0.retries >= cfg.retryAttempts.value
    ensures cfg.maxExecution.None? && cfg.retryAttempts.None? ==> !r.1
  {
    if cfg.maxExecution.Some? && c.executions >= cfg.maxExecution.value then (c, true)
    else if attempt.Succeeds? then (c.(executions := c.executions + 1), false)
    else
      var c' := Counters(c.executions, c.retries + 1);
      (c', cfg.retryAttempts.Some? && c'.retries >= cfg.retryAttempts.value)
  }

  /** `executions >= maxExecution`, false while the limit is absent. */
  predicate AtLimit(cfg: FnConfig, c: Counters) {
    cfg.maxExecution.Some? && c.executions >= cfg.maxExecution.value
  }

  /** Executions never pass a non-negative `maxExecution`: every run checks
      the limit first. */
  lemma {:induction false} ExecutionsBounded(cfg: FnConfig, c: Counters, attempts: seq<Attempt>)
    requires cfg.maxExecution.Some? && cfg.maxExecution.value >= 0
    requires c.executions <= cfg.maxExecution.value
    ensures RunAll(cfg, c, attempts).executions <= cfg.maxExecution.value
    decreases |attempts|
  {
    if |attempts| > 0 {
      ExecutionsBounded(cfg, RunFunction(cfg, c, attempts[0]).0, attempts[1..]);
    }
  }

  /** The counters after a run of invocations, ignoring stops. */
  function RunAll(cfg: FnConfig, c: Counters, attempts: seq<Attempt>): Counters
    decreases |attempts|
  {
    if |attempts| == 0 then c else RunAll(cfg, RunFunction(cfg, c, attempts[0]).0, attempts[1..])
  }

  /** Every invocation counts exactly once: as an execution, a retry, or a
      refusal at the limit. */
  lemma {:induction false} CountersAccount(cfg: FnConfig, c: Counters, attempts: seq<Attempt>)
    ensures var r := RunAll(cfg, c, attempts);
            r.executions + r.retries <= c.executions + c.retries + |attempts|
            && r.executions >= c.executions && r.retries >= c.retries
    ensures cfg.maxExecution.None? ==>
              var r := RunAll(cfg, c, attempts);
              r.executions + r.retries == c.executions + c.retries + |attempts|
    decreases |attempts|
  {
    if |attempts| > 0 {
      CountersAccount(cfg, RunFunction(cfg, c, attempts[0]).0, attempts[1..]);
    }
  }

  /** A registered function and its counters. */
  datatype Job = Job(name: string, cfg: FnConfig, counters: Counters)

  /** The runner: jobs in load order, the jobs whose interval is active,
      the module-wide `intervalId`, which holds the handle of the last
      interval started, and whether loading has stopped because a call to
      `clearIntervalAsync` with no interval yet rejected. */
  datatype Runner = Runner(jobs: seq<Job>, active: set<nat>, intervalId: Option<nat>, halted: bool)

  /** Nothing is registered and loading goes on. */
  const Start: Runner := Runner([], {}, None, false)

  /** Active intervals belong to registered jobs, and once one has been
      started the shared handle names one. */
  predicate Valid(s: Runner) {
    (forall i :: i in s.active ==> i < |s.jobs|)
    && (s.intervalId.Some? ==> s.intervalId.value < |s.jobs|)
    && (s.intervalId.None? ==> s.active == {})
  }

  /** `func.config || {}` for a function export. */
  function ConfigOf(e: Export): FnConfig
    requires e.Function?
  {
    if e.config.Some? then e.config.value else DefaultConfig
  }

  /** `handleFunction(func)`; a `once` function runs immediately with the
      given outcome. Once loading has stopped, no later export is handled. */
  function Register(s: Runner, e: Export, first: Attempt): (r: Runner)
    requires Valid(s)
    ensures Valid(r)
    ensures s.halted || e.NotAFunction? ==> r == s
    // loading stops exactly when a `once` function stops before any
    // interval was started: `clearIntervalAsync(undefined)` rejects
    ensures r.halted <==> s.halted || OnceStopsUnset(s, e, first)
    ensures !s.halted && e.Function? ==> |r.jobs| == |s.jobs| + 1 && r.jobs[..|s.jobs|] == s.jobs
    ensures !s.halted && e.Function? ==> r.jobs[|s.jobs|].name == e.name && r.jobs[|s.jobs|].cfg == ConfigOf(e)
    // a repeating function starts an interval, which the shared handle then names
    ensures !s.halted && e.Function? && PlanOf(ConfigOf(e)).Repeat? ==>
              r.active == s.active + {|s.jobs|} && r.intervalId == Some(|s.jobs|)
              && r.jobs[|s.jobs|].counters == Counters(0, 0)
    // an invalid or absent schedule starts nothing
    ensures !s.halted && e.Function? && (PlanOf(ConfigOf(e)).Aborted? || PlanOf(ConfigOf(e)).Idle?) ==>
              r.active == s.active && r.intervalId == s.intervalId && r.jobs[|s.jobs|].counters == Counters(0, 0)
    // a `once` function runs now; a stop clears whichever interval the shared handle names
    ensures !s.halted && e.Function? && PlanOf(ConfigOf(e)).RunNow? ==>
              var step := RunFunction(ConfigOf(e), Counters(0, 0), first);
              r.jobs[|s.jobs|].counters == step.0 && r.intervalId == s.intervalId
              && r.active == (if step.1 && s.intervalId.Some? then s.active - {s.intervalId.value} else s.active)
  {
    if s.halted then s
    else match e
    case NotAFunction => s
    case Function(name, config) =>
      var cfg := if config.Some? then config.value else DefaultConfig;
      var idx := |s.jobs|;
      var job := Job(name, cfg, Counters(0, 0));
      match PlanOf(cfg)
      case Aborted => s.(jobs := s.jobs + [job])
      case Idle => s.(jobs := s.jobs + [job])
      case Repeat(_) => Runner(s.jobs + [job], s.active + {idx}, Some(idx), false)
      case RunNow =>
        var step := RunFunction(cfg, job.counters, first);
        var s1 := s.(jobs := s.jobs + [job.(counters := step.0)]);
        if step.1 then ClearLast(s1) else s1
  }

  /** A `once` function whose immediate run asks to stop while no interval
      has been started yet. */
  predicate OnceStopsUnset(s: Runner, e: Export, first: Attempt) {
    && e.Function? && PlanOf(ConfigOf(e)).RunNow? && s.intervalId.None?
    && RunFunction(ConfigOf(e), Counters(0, 0), first).1
  }

  /** `clearIntervalAsync(intervalId)`: stops whichever interval the shared
      variable names; with the variable still `undefined` the call rejects,
      and the rejection ends the loading loop. */
  function ClearLast(s: Runner): (r: Runner)
    requires Valid(s)
    ensures Valid(r) && r.jobs == s.jobs && r.intervalId == s.intervalId
    ensures r.active == if s.intervalId.Some? then s.active - {s.intervalId.value} else s.active
    ensures r.halted <==> s.halted || s.intervalId.None?
  {
    if s.intervalId.Some? then s.(active := s.active - {s.intervalId.value}) else s.(halted := true)
  }

  /** `runHandlers`: the exports handled in load order, each `once`
      function running with its own first outcome. */
  function RegisterAll(s: Runner, es: seq<Export>, firsts: seq<Attempt>): (r: Runner)
    requires Valid(s) && |firsts| == |es|
    ensures Valid(r) && |s.jobs| <= |r.jobs| <= |s.jobs| + |es|
    decreases |es|
  {
    if |es| == 0 then s else RegisterAll(Register(s, es[0], firsts[0]), es[1..], firsts[1..])
  }

  /** Once loading has stopped, no later export is registered or started. */
  lemma {:induction false} HaltedLoadsNothing(s: Runner, es: seq<Export>, firsts: seq<Attempt>)
    requires Valid(s) && |firsts| == |es| && s.halted
    ensures RegisterAll(s, es, firsts) == s
    decreases |es|
  {
    if |es| > 0 {
      HaltedLoadsNothing(Register(s, es[0], firsts[0]), es[1..], firsts[1..]);
    }
  }

  /** A `once` function that stops before any interval was started ends the
      loading: it is the last job registered, and no later export starts an
      interval. */
  lemma OnceStopSkipsRest(s: Runner, e: Export, first: Attempt, rest: seq<Export>, firsts: seq<Attempt>)
    requires Valid(s) && !s.halted && OnceStopsUnset(s, e, first) && |firsts| == |rest|
    ensures var r := RegisterAll(s, [e] + rest, [first] + firsts);
            r.halted && r.active == s.active && |r.jobs| == |s.jobs| + 1
  {
    assert ([e] + rest)[1..] == rest && ([first] + firsts)[1..] == firsts;
    HaltedLoadsNothing(Register(s, e, first), rest, firsts);
  }

  /** A `once` function whose single retry fails, loaded before a repeating
      one: the repeating function's interval never starts. */
  lemma FailedOnceBlocksLaterInterval()
    ensures var f := Export.Function("f", Some(FnConfig(true, NoInterval, Some(1), None)));
            var g := Export.Function("g", Some(FnConfig(false, Millis(1000), None, None)));
            var r := RegisterAll(Start, [f, g], [Throws, Succeeds]);
            r.halted && r.active == {} && |r.jobs| == 1
  {
    var f := Export.Function("f", Some(FnConfig(true, NoInterval, Some(1), None)));
    var g := Export.Function("g", Some(FnConfig(false, Millis(1000), None, None)));
    assert OnceStopsUnset(Start, f, Throws);
    assert [f, g] == [f] + [g];
    OnceStopSkipsRest(Start, f, Throws, [g], [Succeeds]);
  }

  /** One tick of job `i`'s interval, as written: a stop clears the
      interval `intervalId` names. */
  function Fire(s: Runner, i: nat, attempt: Attempt): (r: Runner)
    requires Valid(s) && i in s.active
    ensures Valid(r) && |r.jobs| == |s.jobs|
    ensures forall j :: 0 <= j < |s.jobs| && j != i ==> r.jobs[j] == s.jobs[j]
    ensures r.jobs[i].counters == RunFunction(s.jobs[i].cfg, s.jobs[i].counters, attempt).0
    ensures r.jobs[i].name == s.jobs[i].name && r.jobs[i].cfg == s.jobs[i].cfg
    // a stop clears the interval the shared handle names, whichever job it
    // belongs to; one is always set once an interval runs
    ensures r.intervalId == s.intervalId && r.halted == s.halted
    ensures var stop := RunFunction(s.jobs[i].cfg, s.jobs[i].counters, attempt).1;
            r.active == (if stop && s.intervalId.Some? then s.active - {s.intervalId.value} else s.active)
  {
    var job := s.jobs[i];
    var step := RunFunction(job.cfg, job.counters, attempt);
    var s1 := s.(jobs := s.jobs[i := job.(counters := step.0)]);
    if step.1 then ClearLast(s1) else s1
  }

  /** As written, whenever a job other than the last one started stops,
      its own interval stays active and the last one started goes. */
  lemma StopKeepsOwnInterval(s: Runner, i: nat, attempt: Attempt)
    requires Valid(s) && i in s.active
    requires s.intervalId.Some? && s.intervalId.value != i
    requires RunFunction(s.jobs[i].cfg, s.jobs[i].counters, attempt).1
    ensures i in Fire(s, i, attempt).active
    ensures s.intervalId.value !in Fire(s, i, attempt).active
  {
  }

  /** As written, a job that reaches its limit stops the most recently
      started interval instead of its own: with two repeating jobs, the
      first one's limit stops the second and the first keeps firing. */
  lemma StopClearsWrongInterval()
    ensures var a := Export.Function("a", Some(FnConfig(false, Millis(1000), None, Some(0))));
            var b := Export.Function("b", Some(FnConfig(false, Millis(1000), None, None)));
            var s0 := Start;
            var s2 := Register(Register(s0, a, Succeeds), b, Succeeds);
            var s3 := Fire(s2, 0, Succeeds);
            s2.active == {0, 1} && s3.active == {0}
  {
    var a := Export.Function("a", Some(FnConfig(false, Millis(1000), None, Some(0))));
    var b := Export.Function("b", Some(FnConfig(false, Millis(1000), None, None)));
    var s0 := Start;
    var s1 := Register(s0, a, Succeeds);
    assert s1.active == {0} && s1.intervalId == Some(0);
    var s2 := Register(s1, b, Succeeds);
    assert s2.active == {0, 1} && s2.intervalId == Some(1);
    assert s2.jobs[0].counters == Counters(0, 0);
    var s3 := Fire(s2, 0, Succeeds);
    assert s3.active == {0, 1} - {1};
  }

  /** The evidently intended tick: a stop clears the job's own interval. */
  function FireOwn(s: Runner, i: nat, attempt: Attempt): (r: Runner)
    requires Valid(s) && i in s.active
    ensures Valid(r) && |r.jobs| == |s.jobs|
    ensures r.jobs[i].counters == RunFunction(s.jobs[i].cfg, s.jobs[i].counters, attempt).0
    ensures RunFunction(s.jobs[i].cfg, s.jobs[i].counters, attempt).1 ==> r.active == s.active - {i}
    ensures !RunFunction(s.jobs[i].cfg, s.jobs[i].counters, attempt).1 ==> r.active == s.active
  {
    var job := s.jobs[i];
    var step := RunFunction(job.cfg, job.counters, attempt);
    var s1 := s.(jobs := s.jobs[i := job.(counters := step.0)]);
    if step.1 then s1.(active := s1.active - {i}) else s1
  }

  /** With own-interval stops, a job at its execution limit is no longer
      active after its next tick, and no other job's interval is touched. */
  lemma OwnStopIsolated(s: Runner, i: nat, attempt: Attempt)
    requires Valid(s) && i in s.active
    requires s.jobs[i].cfg.maxExecution.Some? && s.jobs[i].counters.executions >= s.jobs[i].cfg.maxExecution.value
    ensures i !in FireOwn(s, i, attempt).active
    ensures forall j :: j != i ==> (j in FireOwn(s, i, attempt).active <==> j in s.active)
  {
  }
}
