/** A last-call-wins debouncer (`debounce(func, delay)` in the prefix loader,
    and the `clearTimeout`/`setTimeout` pair of the slash-command watcher).
    Time is integer milliseconds; a pending timer is its arguments and due
    time, and it fires only when the environment reports a tick at or after
    the due time. */
module Debounce {
  import opened Options

  datatype Debouncer<A> = Idle | Pending(args: A, due: int)

  /** A call cancels whatever was pending and arms one timer for `a`. */
  function Call<A>(d: Debouncer<A>, a: A, now: int, delay: nat): (r: Debouncer<A>)
    ensures r.Pending? && r.args == a && r.due == now + delay
  {
    Pending(a, now + delay)
  }

  /** A clock tick: the pending call runs once if it is due. */
  function Tick<A>(d: Debouncer<A>, now: int): (r: (Option<A>, Debouncer<A>))
    ensures r.0.Some? <==> d.Pending? && now >= d.due
    ensures r.0.Some? ==> r.0.value == d.args && r.1 == Idle
    ensures r.0.None? ==> r.1 == d
  {
    if d.Pending? && now >= d.due then (Some(d.args), Idle) else (None, d)
  }

  datatype Event<A> = CallAt(a: A, at: int) | TickAt(at: int)

  /** Runs a trace of calls and ticks; returns the final state and the
      arguments of every call that actually ran, in order. */
  function Run<A>(d: Debouncer<A>, evs: seq<Event<A>>, delay: nat): (Debouncer<A>, seq<A>)
    decreases |evs|
  {
    if |evs| == 0 then (d, [])
    else
      match evs[0]
      case CallAt(a, t) => Run(Call(d, a, t, delay), evs[1..], delay)
      case TickAt(t) =>
        var step := Tick(d, t);
        var tail := Run(step.1, evs[1..], delay);
        (tail.0, Ran(step.0) + tail.1)
  }

  function Ran<A>(o: Option<A>): seq<A> {
    if o.Some? then [o.value] else []
  }

  /** The state after the calls of `evs` alone, ticks ignored. */
  function CallsOnly<A>(d: Debouncer<A>, evs: seq<Event<A>>, delay: nat): Debouncer<A>
    decreases |evs|
  {
    if |evs| == 0 then d
    else
      match evs[0]
      case CallAt(a, t) => CallsOnly(Call(d, a, t, delay), evs[1..], delay)
      case TickAt(_) => CallsOnly(d, evs[1..], delay)
  }

  /** Every tick of `evs` comes while a call is pending and before it is due:
      the events form one burst. */
  predicate InWindow<A>(d: Debouncer<A>, evs: seq<Event<A>>, delay: nat)
    decreases |evs|
  {
    if |evs| == 0 then true
    else
      match evs[0]
      case CallAt(a, t) => InWindow(Call(d, a, t, delay), evs[1..], delay)
      case TickAt(t) => d.Pending? && t < d.due && InWindow(d, evs[1..], delay)
  }

  /** Within a burst nothing runs, and what stays pending is the last call. */
  lemma {:induction false} BurstRunsNothing<A>(d: Debouncer<A>, evs: seq<Event<A>>, delay: nat)
    requires InWindow(d, evs, delay)
    ensures Run(d, evs, delay) == (CallsOnly(d, evs, delay), [])
    decreases |evs|
  {
    if |evs| > 0 {
      match evs[0]
      case CallAt(a, t) => BurstRunsNothing(Call(d, a, t, delay), evs[1..], delay);
      case TickAt(t) =>
        assert Tick(d, t) == (None, d);
        assert Ran<A>(None) == [];
        BurstRunsNothing(d, evs[1..], delay);
        assert Run(d, evs, delay) == (Run(d, evs[1..], delay).0, Ran<A>(None) + Run(d, evs[1..], delay).1);
        assert CallsOnly(d, evs, delay) == CallsOnly(d, evs[1..], delay);
        var nothing: seq<A> := [];
        assert Ran<A>(None) + nothing == nothing;
    }
  }

  /** The calls of a trace leave pending the arguments and time of the last
      call, whatever came before. */
  lemma {:induction false} CallsOnlyLast<A>(d: Debouncer<A>, evs: seq<Event<A>>, delay: nat, i: int)
    requires 0 <= i < |evs| && evs[i].CallAt?
    requires forall j :: i < j < |evs| ==> evs[j].TickAt?
    ensures CallsOnly(d, evs, delay) == Pending(evs[i].a, evs[i].at + delay)
    decreases |evs|
  {
    if i == 0 {
      TicksOnly(Call(d, evs[0].a, evs[0].at, delay), evs[1..], delay);
    } else {
      match evs[0]
      case CallAt(a, t) => CallsOnlyLast(Call(d, a, t, delay), evs[1..], delay, i - 1);
      case TickAt(t) => CallsOnlyLast(d, evs[1..], delay, i - 1);
    }
  }

  lemma {:induction false} TicksOnly<A>(d: Debouncer<A>, evs: seq<Event<A>>, delay: nat)
    requires forall j :: 0 <= j < |evs| ==> evs[j].TickAt?
    ensures CallsOnly(d, evs, delay) == d
    decreases |evs|
  {
    if |evs| > 0 {
      TicksOnly(d, evs[1..], delay);
    }
  }

  /** Coalescing: a burst whose last call is `evs[i]`, followed by a tick at
      or after that call's due time, runs exactly one call, the last one. */
  lemma Coalesce<A>(evs: seq<Event<A>>, delay: nat, i: int, now: int)
    requires InWindow(Idle, evs, delay)
    requires 0 <= i < |evs| && evs[i].CallAt?
    requires forall j :: i < j < |evs| ==> evs[j].TickAt?
    requires now >= evs[i].at + delay
    ensures Run(Idle, evs + [TickAt(now)], delay) == (Idle, [evs[i].a])
  {
    var tick: seq<Event<A>> := [TickAt(now)];
    var nothing: seq<A> := [];
    var p: Debouncer<A> := Pending(evs[i].a, evs[i].at + delay);
    BurstRunsNothing(Idle, evs, delay);
    CallsOnlyLast(Idle, evs, delay, i);
    assert Run(Idle, evs, delay) == (p, nothing);
    RunSnoc(Idle, evs, TickAt(now), delay);
    assert Tick(p, now) == (Some(evs[i].a), Idle);
    assert tick[1..] == [];
    assert Run(Idle, tick[1..], delay) == (Idle, nothing);
    assert Run(p, tick, delay) == (Idle, Ran(Some(evs[i].a)) + nothing);
    assert nothing + ([evs[i].a] + nothing) == [evs[i].a];
  }

  /** Running one more event after a trace. */
  lemma {:induction false} RunSnoc<A>(d: Debouncer<A>, evs: seq<Event<A>>, e: Event<A>, delay: nat)
    ensures Run(d, evs + [e], delay)
         == (Run(Run(d, evs, delay).0, [e], delay).0,
             Run(d, evs, delay).1 + Run(Run(d, evs, delay).0, [e], delay).1)
    decreases |evs|
  {
    if |evs| == 0 {
      assert evs + [e] == [e];
      var nothing: seq<A> := [];
      assert Run(d, evs, delay) == (d, nothing);
      assert nothing + Run(d, [e], delay).1 == Run(d, [e], delay).1;
    } else {
      assert (evs + [e])[1..] == evs[1..] + [e];
      match evs[0]
      case CallAt(a, t) => RunSnoc(Call(d, a, t, delay), evs[1..], e, delay);
      case TickAt(t) =>
        var step := Tick(d, t);
        RunSnoc(step.1, evs[1..], e, delay);
        var mid := Run(step.1, evs[1..], delay);
        var last := Run(mid.0, [e], delay);
        assert Run(d, evs, delay) == (mid.0, Ran(step.0) + mid.1);
        assert Run(d, evs + [e], delay) == (last.0, Ran(step.0) + (mid.1 + last.1));
        assert Ran(step.0) + (mid.1 + last.1) == (Ran(step.0) + mid.1) + last.1;
    }
  }
}
