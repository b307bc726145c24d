/**
 * The run-control loops of configs/common/Simulation.py, against any simulator. The simulated
 * system decides which exit events it raises and how long draining takes; both are data of the
 * simulator object, so a statement about every object is a statement about every system.
 */
module Simulation {
  import opened Wrappers

  const MAX_TICK: nat := 0xFFFF_FFFF_FFFF_FFFF

  datatype Cpu = Cpu(name: string)

  /** A processor to switch out and the one to take over from it. */
  datatype Pair = Pair(out: Cpu, into: Cpu)

  /** Exits that the simulated system raises; the scripts look for checkpoint requests only. */
  datatype Exit = CheckpointRequest | OtherExit(name: string)

  datatype Cause = LimitReached | Exited(exit: Exit)

  /** An exit event of the system; at the limit itself either of the two may come first. */
  datatype Event = Event(tick: nat, exit: Exit, beforeLimit: bool)

  /** A switch of processors as it happened. */
  datatype Switch = Switch(tick: nat, pairs: seq<Pair>)

  datatype Failure = NegativeTicks | NoCpus | NewCpuIsOld | NewCpuActive | OldCpuInactive

  function Min(a: int, b: int): int {
    if a <= b then a else b
  }

  function Max(a: int, b: int): int {
    if a <= b then b else a
  }

  function Olds(pairs: seq<Pair>): (r: set<Cpu>)
    ensures forall i | 0 <= i < |pairs| :: pairs[i].out in r
  {
    if pairs == [] then {} else Olds(pairs[..|pairs| - 1]) + {pairs[|pairs| - 1].out}
  }

  function News(pairs: seq<Pair>): (r: set<Cpu>)
    ensures forall i | 0 <= i < |pairs| :: pairs[i].into in r
  {
    if pairs == [] then {} else News(pairs[..|pairs| - 1]) + {pairs[|pairs| - 1].into}
  }

  // ----- The simulator.

  /** The next event stops a run from tick to limit. */
  predicate Fires(events: seq<Event>, tick: nat, limit: int) {
    events != [] && var t := Max(tick, events[0].tick); t < limit || (t == limit && events[0].beforeLimit)
  }

  /** Where a run of n ticks stops, the rest of the events, and why. */
  function RunTo(tick: nat, limit: nat, events: seq<Event>): (nat, seq<Event>, Cause)
    requires tick <= limit
  {
    if Fires(events, tick, limit) then (Max(tick, events[0].tick), events[1..], Exited(events[0].exit))
    else (limit, events, LimitReached)
  }

  /** A run stops when the first event is raised, if that is not after the limit, and else at the limit. */
  lemma RunMeans(tick: nat, limit: nat, events: seq<Event>)
    requires tick <= limit && events != []
    ensures var e, (stop, left, cause) := events[0], RunTo(tick, limit, events);
            var t := if e.tick < tick then tick else e.tick;
            if t < limit || (t == limit && e.beforeLimit) then
              cause == Exited(e.exit) && stop == t && left == events[1..]
            else cause == LimitReached && stop == limit && left == events
  {
  }

  /** Only checkpoint requests stand between tick and limit. */
  predicate Clear(events: seq<Event>, tick: nat, limit: int) {
    Fires(events, tick, limit) ==>
      events[0].exit == CheckpointRequest && Clear(events[1..], Max(tick, events[0].tick), limit)
  }

  /** The events after those before the limit. */
  function Pending(events: seq<Event>, tick: nat, limit: int): seq<Event> {
    if Fires(events, tick, limit) then Pending(events[1..], Max(tick, events[0].tick), limit) else events
  }

  /** What ends a run towards the limit that goes on after checkpoint requests, and when. */
  function Stop(events: seq<Event>, tick: nat, limit: nat): (Cause, nat) {
    if !Fires(events, tick, limit) then (LimitReached, limit)
    else
      var t := Max(tick, events[0].tick);
      if events[0].exit == CheckpointRequest then Stop(events[1..], t, limit) else (Exited(events[0].exit), t)
  }

  /** The tick when all the given events have been raised. */
  function Latest(tick: nat, events: seq<Event>): nat
    decreases events
  {
    if events == [] then tick else Latest(Max(tick, events[0].tick), events[1..])
  }

  /** The cause is the first pending exit that is no checkpoint request, and tick is when it is raised. */
  ghost predicate FirstOther(cause: Cause, tick: nat, events: seq<Event>, start: nat) {
    exists k: nat :: OtherAt(cause, tick, events, start, k)
  }

  ghost predicate OtherAt(cause: Cause, tick: nat, events: seq<Event>, start: nat, k: nat) {
    && k < |events| && (forall e | e in events[..k] :: e.exit == CheckpointRequest)
    && events[k].exit != CheckpointRequest && cause == Exited(events[k].exit)
    && tick == Latest(start, events[..k + 1])
  }

  /** A run over the requests reaches the limit exactly if the way is clear, and else the first other exit. */
  lemma {:induction false} StopMeans(events: seq<Event>, tick: nat, limit: nat)
    ensures var (cause, t) := Stop(events, tick, limit);
            if Clear(events, tick, limit) then cause == LimitReached && t == limit
            else FirstOther(cause, t, events, tick)
  {
    if Fires(events, tick, limit) {
      var t := Max(tick, events[0].tick);
      if events[0].exit == CheckpointRequest {
        StopMeans(events[1..], t, limit);
        if !Clear(events, tick, limit) {
          OtherLater(Stop(events, tick, limit).0, Stop(events, tick, limit).1, events, tick);
        }
      } else {
        assert events[..1][1..] == [] && Latest(tick, events[..1]) == t;
        assert OtherAt(Exited(events[0].exit), t, events, tick, 0);
      }
    }
  }

  lemma OtherLater(cause: Cause, t: nat, events: seq<Event>, tick: nat)
    requires events != [] && events[0].exit == CheckpointRequest
    requires FirstOther(cause, t, events[1..], Max(tick, events[0].tick))
    ensures FirstOther(cause, t, events, tick)
  {
    var rest := events[1..];
    var k: nat :| OtherAt(cause, t, rest, Max(tick, events[0].tick), k);
    LatestFirst(tick, events, k + 1);
    hide Latest, Max;
    assert events[..k + 1] == [events[0]] + rest[..k] && events[k + 1] == rest[k];
    assert OtherAt(cause, t, events, tick, k + 1);
  }

  lemma LatestFirst(tick: nat, events: seq<Event>, n: nat)
    requires 0 < n < |events|
    ensures Latest(tick, events[..n + 1]) == Latest(Max(tick, events[0].tick), events[1..][..n])
  {
    assert events[..n + 1][1..] == events[1..][..n] && events[..n + 1][0] == events[0];
  }

  /** Events raised while draining are not reported; a drain that takes no time raises none. */
  function Swallow(events: seq<Event>, tick: nat): seq<Event> {
    if events != [] && events[0].tick <= tick then Swallow(events[1..], tick) else events
  }

  ghost predicate Instant(drainTime: nat -> nat) {
    forall k :: drainTime(k) == 0
  }

  class Simulator {
    const drainTime: nat -> nat // how long the k-th drain takes
    var tick: nat
    var events: seq<Event>
    var drains: nat
    var drained: nat // ticks spent draining so far
    var checkpoints: seq<nat> // the ticks at which checkpoints were written
    var active: set<Cpu>
    var switches: seq<Switch>
    var log: seq<Cause> // what every run reported

    ghost predicate Valid()
      reads this
    {
      tick <= MAX_TICK
    }

    constructor (tick: nat, events: seq<Event>, drainTime: nat -> nat, active: set<Cpu>)
      requires tick <= MAX_TICK
      ensures Valid() && this.tick == tick && this.events == events && this.drainTime == drainTime
      ensures drains == drained == 0 && checkpoints == [] && this.active == active && switches == [] && log == []
    {
      this.tick, this.events, this.drainTime, this.active := tick, events, drainTime, active;
      drains, drained, checkpoints, switches, log := 0, 0, [], [], [];
    }

    /** A negative count is refused; a count past the end of time runs to the end of time. */
    method Simulate(n: int) returns (r: Result<Cause, Failure>)
      requires Valid()
      modifies this`tick, this`events, this`log
      ensures Valid() && r.Ok? == (n >= 0) && log == old(log) + if r.Ok? then [r.value] else []
      ensures n < 0 ==> tick == old(tick) && events == old(events) && r == Err(NegativeTicks)
      ensures n >= 0 ==>
                var limit := Min(old(tick) + n, MAX_TICK);
                && (tick, events, r.value) == RunTo(old(tick), limit, old(events))
                && old(tick) <= tick <= limit
                && (if r.value == LimitReached then tick == limit && events == old(events)
                    else |events| < |old(events)|)
                && (old(events) == [] ==> r.value == LimitReached)
    {
      if n < 0 {
        return Err(NegativeTicks);
      }
      var limit := if n < MAX_TICK - tick then tick + n else MAX_TICK;
      var (t, left, cause) := RunTo(tick, limit, events);
      tick, events, log := t, left, log + [cause];
      r := Ok(cause);
    }

    method Drain()
      requires Valid()
      modifies this`tick, this`events, this`drains, this`drained
      ensures Valid() && tick >= old(tick) && drained == old(drained) + (tick - old(tick))
      ensures old(events) == [] ==> events == []
      ensures Instant(drainTime) ==> drained == old(drained)
      ensures drained == old(drained) ==> events == old(events)
      ensures drains == old(drains) + 1 && tick == Min(old(tick) + drainTime(old(drains)), MAX_TICK)
      ensures drained > old(drained) ==> events == Swallow(old(events), tick)
    {
      var stop := Min(tick + drainTime(drains), MAX_TICK);
      drains, drained := drains + 1, drained + (stop - tick);
      events := if stop == tick then events else Swallow(events, stop);
      tick := stop;
    }

    method Checkpoint()
      requires Valid()
      modifies this`tick, this`events, this`drains, this`drained, this`checkpoints
      ensures Valid() && tick >= old(tick) && drained == old(drained) + (tick - old(tick))
      ensures old(events) == [] ==> events == []
      ensures Instant(drainTime) ==> drained == old(drained)
      ensures drained == old(drained) ==> events == old(events)
      ensures checkpoints == old(checkpoints) + [tick]
    {
      Drain();
      checkpoints := checkpoints + [tick];
    }

    /** The pairs are checked one after the other before anything changes. */
    method CheckPairs(pairs: seq<Pair>) returns (r: Option<Failure>)
      ensures r == None <==> Switchable(pairs, active)
      ensures r.Some? ==> r.value != NegativeTicks && Refused(r.value, pairs, active)
    {
      if pairs == [] {
        return Some(NoCpus);
      }
      for i := 0 to |pairs|
        invariant Olds(pairs[..i]) <= active && News(pairs[..i]) !! active
        invariant forall j: nat | j < i :: PairFault(pairs, j, active) == None
      {
        OldsAre(pairs, pairs[i].into);
        if pairs[i].into in Olds(pairs) {
          assert PairFault(pairs, i, active) == Some(NewCpuIsOld);
          return Some(NewCpuIsOld);
        }
        if pairs[i].into in active {
          assert PairFault(pairs, i, active) == Some(NewCpuActive);
          return Some(NewCpuActive);
        }
        if pairs[i].out !in active {
          assert PairFault(pairs, i, active) == Some(OldCpuInactive);
          return Some(OldCpuInactive);
        }
        assert pairs[..i + 1][..i] == pairs[..i];
      }
      assert pairs[..|pairs|] == pairs;
      r := None;
    }

    method SwitchCpus(pairs: seq<Pair>) returns (r: Option<Failure>)
      requires Valid()
      modifies this`tick, this`events, this`drains, this`drained, this`active, this`switches
      ensures Valid() && tick >= old(tick) && drained == old(drained) + (tick - old(tick))
      ensures old(events) == [] ==> events == []
      ensures Instant(drainTime) ==> drained == old(drained)
      ensures r == None <==> Switchable(pairs, old(active))
      ensures r.Some? ==> r.value != NegativeTicks && Refused(r.value, pairs, old(active))
      ensures drained == old(drained) ==> events == old(events)
      ensures r == None ==>
                && active == old(active) - Olds(pairs) + News(pairs)
                && switches == old(switches) + [Switch(tick, pairs)]
      ensures r != None ==> active == old(active) && switches == old(switches) && tick == old(tick)
    {
      r := CheckPairs(pairs);
      if r != None {
        return;
      }
      Drain();
      active := active - Olds(pairs) + News(pairs);
      switches := switches + [Switch(tick, pairs)];
    }
  }

  /** What is wrong with a pair, by the order of the checks. */
  ghost function PairFault(pairs: seq<Pair>, i: nat, active: set<Cpu>): Option<Failure>
    requires i < |pairs|
  {
    if exists j: nat | j < |pairs| :: pairs[j].out == pairs[i].into then Some(NewCpuIsOld)
    else if pairs[i].into in active then Some(NewCpuActive)
    else if pairs[i].out !in active then Some(OldCpuInactive)
    else None
  }

  /** The fault of the first pair that has one is reported. */
  ghost predicate Refused(fault: Failure, pairs: seq<Pair>, active: set<Cpu>) {
    if pairs == [] then fault == NoCpus
    else exists i: nat | i < |pairs| ::
           PairFault(pairs, i, active) == Some(fault) && forall j: nat | j < i :: PairFault(pairs, j, active) == None
  }

  lemma {:induction false} OldsAre(pairs: seq<Pair>, c: Cpu)
    ensures c in Olds(pairs) <==> exists j: nat | j < |pairs| :: pairs[j].out == c
  {
    if pairs != [] {
      var n := |pairs| - 1;
      OldsAre(pairs[..n], c);
    }
  }

  lemma {:induction false} NewsAre(pairs: seq<Pair>, c: Cpu)
    ensures c in News(pairs) <==> exists j: nat | j < |pairs| :: pairs[j].into == c
  {
    if pairs != [] {
      var n := |pairs| - 1;
      NewsAre(pairs[..n], c);
    }
  }

  /** The last of the runs reported this. */
  ghost predicate Reported(log: seq<Cause>, cause: Cause) {
    log != [] && log[|log| - 1] == cause
  }

  /** No run since then was stopped before its limit. */
  ghost predicate Unstopped(log: seq<Cause>, since: nat) {
    forall i | since <= i < |log| :: log[i] == LimitReached
  }

  /** Every old processor runs and every new one is switched out. */
  ghost predicate Switchable(pairs: seq<Pair>, active: set<Cpu>) {
    pairs != [] && Olds(pairs) <= active && News(pairs) !! active
  }

  // ----- Periodic checkpoints.

  /** When the i-th checkpoint is due. */
  ghost function Due(when: int, period: int, i: nat): (t: int)
    ensures when >= 0 && period >= 0 ==> t >= 0
  {
    when + i * period
  }

  lemma DueNext(when: int, period: int, i: nat)
    ensures Due(when, period, 0) == when && Due(when, period, i + 1) == Due(when, period, i) + period
  {
  }

  /** Every checkpoint is when it is due, or later by what draining took. */
  ghost predicate OnSchedule(taken: seq<nat>, when: int, period: int, slack: nat) {
    forall i: nat | i < |taken| :: Due(when, period, i) <= taken[i] <= Due(when, period, i) + slack
  }

  lemma OneMore(taken: seq<nat>, tick: nat, when: int, period: int, slack: nat, slack': nat)
    requires OnSchedule(taken, when, period, slack) && slack <= slack'
    requires Due(when, period, |taken|) <= tick <= Due(when, period, |taken|) + slack'
    ensures OnSchedule(taken + [tick], when, period, slack')
  {
    hide Due;
  }

  lemma ClearStep(events: seq<Event>, tick: nat, limit: nat)
    requires tick <= limit
    ensures var (t, left, cause) := RunTo(tick, limit, events);
            && t <= limit && (cause == LimitReached <==> !Fires(events, tick, limit))
            && (cause == LimitReached ==> Clear(events, tick, limit) && left == Pending(events, tick, limit) == events)
            && Stop(events, tick, limit) ==
               (if cause == Exited(CheckpointRequest) then Stop(left, t, limit) else (cause, t))
            && (cause == Exited(CheckpointRequest) ==>
                  && Clear(events, tick, limit) == Clear(left, t, limit)
                  && Pending(events, tick, limit) == Pending(left, t, limit))
            && (cause != LimitReached && cause != Exited(CheckpointRequest) ==> !Clear(events, tick, limit))
  {
  }

  /** Resuming towards a tick until something else than a checkpoint request stops the run. */
  method SkipRequests(sim: Simulator, goal: int, first: Cause) returns (r: Result<Cause, Failure>)
    requires sim.Valid()
    modifies sim`tick, sim`events, sim`log
    ensures sim.Valid() && sim.tick >= old(sim.tick) && old(sim.log) <= sim.log
    ensures first != Exited(CheckpointRequest) ==>
              r == Ok(first) && sim.tick == old(sim.tick) && sim.events == old(sim.events) && sim.log == old(sim.log)
    ensures first == Exited(CheckpointRequest) && r.Ok? ==> Reported(sim.log, r.value)
    ensures first == Exited(CheckpointRequest) ==>
              (r.Ok? <==> old(sim.tick) <= goal) && (r.Err? ==> r.error == NegativeTicks)
    ensures first == Exited(CheckpointRequest) && r.Ok? ==> sim.tick <= goal && r.value != Exited(CheckpointRequest)
    ensures first == Exited(CheckpointRequest) && r == Ok(LimitReached) ==> sim.tick == Min(goal, MAX_TICK)
    ensures first == Exited(CheckpointRequest) && old(sim.tick) <= goal <= MAX_TICK ==>
              && (r == Ok(LimitReached) <==> Clear(old(sim.events), old(sim.tick), goal))
              && (r == Ok(LimitReached) ==> sim.events == Pending(old(sim.events), old(sim.tick), goal))
              && (r.value, sim.tick) == Stop(old(sim.events), old(sim.tick), goal)
  {
    hide RunTo, Fires, Clear, Pending, Stop;
    var cause := first;
    ghost var fine := first == Exited(CheckpointRequest) && sim.tick <= goal <= MAX_TICK;
    ghost var clear, after := Clear(sim.events, sim.tick, goal), Pending(sim.events, sim.tick, goal);
    ghost var stop := if fine then Stop(sim.events, sim.tick, goal) else (first, sim.tick);
    while cause == Exited(CheckpointRequest)
      invariant sim.Valid() && sim.tick >= old(sim.tick) && old(sim.log) <= sim.log
      invariant first != Exited(CheckpointRequest) ==>
                  cause == first && sim.tick == old(sim.tick) && sim.events == old(sim.events)
                  && sim.log == old(sim.log)
      invariant first == Exited(CheckpointRequest) ==> cause == first || Reported(sim.log, cause)
      invariant old(sim.tick) <= goal || (sim.tick == old(sim.tick) && cause == first)
      invariant first == Exited(CheckpointRequest) && old(sim.tick) <= goal ==> sim.tick <= goal
      invariant first == Exited(CheckpointRequest) && cause == LimitReached ==> sim.tick == Min(goal, MAX_TICK)
      invariant fine && cause == Exited(CheckpointRequest) ==>
                  Clear(sim.events, sim.tick, goal) == clear && Pending(sim.events, sim.tick, goal) == after
      invariant fine ==>
                  stop == if cause == Exited(CheckpointRequest) then Stop(sim.events, sim.tick, goal)
                          else (cause, sim.tick)
      invariant fine && cause == LimitReached ==> clear && sim.events == after
      invariant fine && cause != LimitReached && cause != Exited(CheckpointRequest) ==> !clear
      decreases if cause == Exited(CheckpointRequest) then |sim.events| + 1 else 0
    {
      if fine {
        ClearStep(sim.events, sim.tick, goal);
      }
      var next := sim.Simulate(goal - sim.tick);
      if next.Err? {
        return Err(next.error);
      }
      cause := next.value;
    }
    r := Ok(cause);
  }

  /**
   * One period and its checkpoint. Of the two causes, the first is the one that decides about
   * another period: it is not refreshed after checkpoint requests have been skipped.
   */
  method OnePeriod(sim: Simulator, goal: int, period: int) returns (r: Result<(Cause, Cause), Failure>)
    requires sim.Valid() && goal - period <= sim.tick && goal <= MAX_TICK
    modifies sim`tick, sim`events, sim`drains, sim`drained, sim`checkpoints, sim`log
    ensures sim.Valid() && sim.tick >= old(sim.tick) && sim.drained >= old(sim.drained)
    ensures r.Ok? ==>
              if r.value.1 != LimitReached then sim.drained == old(sim.drained)
              else Punctual(old(sim.tick), sim.tick, goal, period, sim.drained - old(sim.drained))
    ensures sim.checkpoints == old(sim.checkpoints) + if r.Ok? && r.value.1 == LimitReached then [sim.tick] else []
    ensures r.Ok? && r.value.0 == LimitReached ==> r.value.1 == LimitReached
    ensures old(sim.log) <= sim.log && (r.Ok? ==> Reported(sim.log, r.value.1))
    ensures r.Ok? ==> |sim.log| > |old(sim.log)| && sim.log[|old(sim.log)|] == r.value.0
    ensures r.Err? ==> (period < 0 || old(sim.tick) > goal - period) && sim.drained == old(sim.drained)
    ensures period < 0 ==> r == Err(NegativeTicks) && sim.tick == old(sim.tick)
    ensures old(sim.events) == [] && period >= 0 ==> r == Ok((LimitReached, LimitReached)) && sim.events == []
    ensures Instant(sim.drainTime) ==> sim.drained == old(sim.drained)
    ensures period >= 0 && old(sim.tick) == goal - period ==>
              && r.Ok? && (r.value.0 == LimitReached <==> !Fires(old(sim.events), old(sim.tick), goal))
              && (r.value.1 == LimitReached <==> Clear(old(sim.events), old(sim.tick), goal))
              && (r.value.0 == LimitReached && sim.drained == old(sim.drained) ==> sim.events == old(sim.events))
              && (sim.drained == old(sim.drained) ==>
                    (r.value.1, sim.tick) == Stop(old(sim.events), old(sim.tick), goal))
  {
    hide Instant, RunTo, Fires, Clear, Pending, Stop;
    if period >= 0 && sim.tick == goal - period {
      ClearStep(sim.events, sim.tick, goal);
    }
    var next := sim.Simulate(period);
    if next.Err? {
      return Err(next.error);
    }
    var last :- SkipRequests(sim, goal, next.value);
    if last == LimitReached {
      sim.Checkpoint();
    }
    r := Ok((next.value, last));
  }

  /** Running to the first checkpoint, unless something else stops the run. */
  method FirstCheckpoint(sim: Simulator, when: int) returns (r: Result<Cause, Failure>)
    requires sim.Valid() && when <= MAX_TICK
    modifies sim`tick, sim`events, sim`drains, sim`drained, sim`checkpoints, sim`log
    ensures sim.Valid() && sim.drained >= old(sim.drained)
    ensures r.Err? <==> when < old(sim.tick)
    ensures old(sim.log) <= sim.log && (r.Ok? ==> |sim.log| > |old(sim.log)| && Reported(sim.log, r.value))
    ensures r.Err? ==> r.error == NegativeTicks && sim.tick == old(sim.tick)
    ensures sim.checkpoints == old(sim.checkpoints) + if r == Ok(LimitReached) then [sim.tick] else []
    ensures if r == Ok(LimitReached) then when <= sim.tick == when + (sim.drained - old(sim.drained))
            else sim.drained == old(sim.drained)
    ensures old(sim.events) == [] && old(sim.tick) <= when ==> r == Ok(LimitReached) && sim.events == []
    ensures Instant(sim.drainTime) ==> sim.drained == old(sim.drained)
    ensures old(sim.tick) <= when ==> (r == Ok(LimitReached) <==> Clear(old(sim.events), old(sim.tick), when))
    ensures r == Ok(LimitReached) && sim.drained == old(sim.drained) ==>
              sim.events == Pending(old(sim.events), old(sim.tick), when)
    ensures old(sim.tick) <= when && sim.drained == old(sim.drained) ==>
              (r.value, sim.tick) == Stop(old(sim.events), old(sim.tick), when)
  {
    hide Instant, RunTo, Fires, Clear, Pending, Stop;
    if sim.tick <= when {
      ClearStep(sim.events, sim.tick, when);
    }
    var start := sim.Simulate(when - sim.tick);
    if start.Err? {
      return start;
    }
    r := SkipRequests(sim, when, start.value);
    if r == Ok(LimitReached) {
      sim.Checkpoint();
    }
  }

  /** Not before the goal, and late only by what was late before and what draining took. */
  ghost predicate Punctual(before: nat, tick: nat, goal: int, period: int, drained: nat) {
    goal <= tick <= Max(goal, before + period) + drained
  }

  /** No event stops the run within the first n - 1 periods. */
  ghost predicate Undisturbed(events: seq<Event>, when: nat, period: nat, n: nat) {
    forall i: nat | i + 1 < n :: !Fires(events, Due(when, period, i), Due(when, period, i + 1))
  }

  /**
   * How many checkpoints there are, with the given events pending at the first one: as many as
   * asked for or as fit; or up to the end of the first period with a checkpoint request, and no
   * further; or up to the last period before one in which the system exits.
   */
  ghost predicate HowMany(events: seq<Event>, when: nat, period: nat, n: nat, maxCheckpoints: int, maxtick: int) {
    || (Undisturbed(events, when, period, n) && (n >= maxCheckpoints || Due(when, period, n) > maxtick))
    || (n > 1 && Undisturbed(events, when, period, n - 1)
        && Fires(events, Due(when, period, n - 2), Due(when, period, n - 1))
        && Clear(events, Due(when, period, n - 2), Due(when, period, n - 1)))
    || (n > 0 && Undisturbed(events, when, period, n) && n < maxCheckpoints && Due(when, period, n) <= maxtick
        && !Clear(events, Due(when, period, n - 1), Due(when, period, n)))
  }

  /** The rest of the time, from now to the end. */
  ghost predicate Rest(r: Result<Cause, Failure>, tick: nat, events: seq<Event>, now: nat, maxtick: int) {
    if now > maxtick then r == Err(NegativeTicks) && tick == now
    else if Fires(events, now, maxtick) then r == Ok(Exited(events[0].exit)) && tick == Max(now, events[0].tick)
    else r == Ok(LimitReached) && tick == maxtick
  }

  /**
   * What is returned after n checkpoints, and when the run stands then: the limit, if the count was
   * reached or a period had only requests; for the rest of the time, which may be negative, whatever
   * comes first; and otherwise the exit that stopped the period.
   */
  ghost predicate Ends(r: Result<Cause, Failure>, tick: nat, events: seq<Event>,
                       when: nat, period: nat, n: nat, maxCheckpoints: int, maxtick: int)
    requires n > 0
  {
    var now := Due(when, period, n - 1);
    if !Undisturbed(events, when, period, n) || n >= maxCheckpoints then r == Ok(LimitReached) && tick == now
    else if Due(when, period, n) <= maxtick then r.Ok? && FirstOther(r.value, tick, events, now)
    else Rest(r, tick, events, now, maxtick)
  }

  /** The whole series, if draining takes no time: how many checkpoints, what is returned, and when. */
  ghost predicate Series(r: Result<Cause, Failure>, tick: nat, n: nat, events: seq<Event>, start: nat,
                         when: nat, period: int, maxCheckpoints: int, maxtick: int) {
    if Clear(events, start, when) then
      SeriesFrom(r, tick, n, Pending(events, start, when), when, period, maxCheckpoints, maxtick)
    else n == 0 && r.Ok? && FirstOther(r.value, tick, events, start)
  }

  /** The same from the first checkpoint on. */
  ghost predicate SeriesFrom(r: Result<Cause, Failure>, tick: nat, n: nat, events: seq<Event>,
                             when: nat, period: int, maxCheckpoints: int, maxtick: int) {
    && n > 0
    && if period < 0 then
         n == 1 && tick == when && r == if maxCheckpoints <= 1 then Ok(LimitReached) else Err(NegativeTicks)
       else
         && HowMany(events, when, period, n, maxCheckpoints, maxtick)
         && Ends(r, tick, events, when, period, n, maxCheckpoints, maxtick)
  }

  /** The count so far, from the cause that decides about another period and the last one. */
  ghost predicate Tracked(cause: Cause, last: Cause, tick: nat, events: seq<Event>, pending: seq<Event>,
                          when: nat, period: nat, n: nat, maxCheckpoints: int, maxtick: int) {
    && n > 0
    && if cause == LimitReached then
         && events == pending && Undisturbed(pending, when, period, n)
         && last == LimitReached && tick == Due(when, period, n - 1)
       else
         && HowMany(pending, when, period, n, maxCheckpoints, maxtick)
         && Ends(Ok(last), tick, pending, when, period, n, maxCheckpoints, maxtick)
  }

  lemma TrackFirst(tick: nat, events: seq<Event>, when: nat, period: nat, maxCheckpoints: int, maxtick: int)
    requires tick == when
    ensures Tracked(LimitReached, LimitReached, tick, events, events, when, period, 1, maxCheckpoints, maxtick)
  {
  }

  lemma QuietStep(events: seq<Event>, when: nat, period: nat, n: nat)
    requires n > 0 && Undisturbed(events, when, period, n)
    ensures Undisturbed(events, when, period, n + 1) <==>
              !Fires(events, Due(when, period, n - 1), Due(when, period, n))
  {
    hide Due, Fires;
    if !Fires(events, Due(when, period, n - 1), Due(when, period, n)) {
      forall i: nat | i + 1 < n + 1 ensures !Fires(events, Due(when, period, i), Due(when, period, i + 1)) {
        if i < n - 1 {
          assert i + 1 < n;
        }
      }
    } else {
      var i: nat := n - 1;
      assert Due(when, period, i + 1) == Due(when, period, n);
    }
  }

  lemma TrackStep(events: seq<Event>, when: nat, period: nat, n: nat, maxCheckpoints: int, maxtick: int,
                  cause: Cause, last: Cause, tick: nat, next: seq<Event>)
    requires 0 < n < maxCheckpoints
    requires Tracked(LimitReached, LimitReached, Due(when, period, n - 1), events, events,
                     when, period, n, maxCheckpoints, maxtick)
    requires Due(when, period, n) <= maxtick
    requires cause == LimitReached <==> !Fires(events, Due(when, period, n - 1), Due(when, period, n))
    requires (last, tick) == Stop(events, Due(when, period, n - 1), Due(when, period, n))
    requires cause == LimitReached ==> next == events
    ensures Tracked(cause, last, tick, next, events, when, period, if last == LimitReached then n + 1 else n,
                    maxCheckpoints, maxtick)
  {
    QuietStep(events, when, period, n);
    StopMeans(events, Due(when, period, n - 1), Due(when, period, n));
    ClearIfQuiet(events, Due(when, period, n - 1), Due(when, period, n));
    hide Due, Fires, Clear, Stop, Undisturbed;
    hide FirstOther;
    assert last == LimitReached <==> Clear(events, Due(when, period, n - 1), Due(when, period, n)) by {
      OtherIsNoLimit(last, tick, events, Due(when, period, n - 1));
    }
  }

  lemma OtherIsNoLimit(cause: Cause, tick: nat, events: seq<Event>, start: nat)
    ensures FirstOther(cause, tick, events, start) ==> cause != LimitReached && cause != Exited(CheckpointRequest)
  {
  }

  lemma ClearIfQuiet(events: seq<Event>, tick: nat, limit: int)
    ensures !Fires(events, tick, limit) ==> Clear(events, tick, limit)
  {
  }

  /** The rest of the time after the last checkpoint that fits. */
  lemma TrackFinal(events: seq<Event>, when: nat, period: nat, n: nat, maxCheckpoints: int, maxtick: int,
                   r: Result<Cause, Failure>, tick: nat, left: seq<Event>)
    requires 0 < n < maxCheckpoints
    requires Tracked(LimitReached, LimitReached, Due(when, period, n - 1), events, events,
                     when, period, n, maxCheckpoints, maxtick)
    requires Due(when, period, n) > maxtick
    requires if Due(when, period, n - 1) > maxtick then r == Err(NegativeTicks) && tick == Due(when, period, n - 1)
             else r.Ok? && (tick, left, r.value) == RunTo(Due(when, period, n - 1), maxtick, events)
    ensures HowMany(events, when, period, n, maxCheckpoints, maxtick)
    ensures Ends(r, tick, events, when, period, n, maxCheckpoints, maxtick)
  {
    hide Due, Fires, Clear, Undisturbed, FirstOther;
  }

  lemma TrackEnd(cause: Cause, last: Cause, tick: nat, events: seq<Event>, pending: seq<Event>,
                 when: nat, period: nat, n: nat, maxCheckpoints: int, maxtick: int)
    requires Tracked(cause, last, tick, events, pending, when, period, n, maxCheckpoints, maxtick)
    ensures n > 0 && (cause == LimitReached ==> events == pending && tick == Due(when, period, n - 1) && last == cause)
    ensures cause != LimitReached || n >= maxCheckpoints ==>
              && HowMany(pending, when, period, n, maxCheckpoints, maxtick)
              && Ends(Ok(last), tick, pending, when, period, n, maxCheckpoints, maxtick)
  {
  }

  lemma StoppedNow(first: seq<Cause>, log: seq<Cause>, now: seq<Cause>, cause: Cause)
    requires first <= log <= now && |now| > |log| && now[|log|] == cause
    ensures first <= now && (cause == LimitReached || !Unstopped(now, |first|))
  {
    if cause != LimitReached {
      assert now[|log|] != LimitReached && |first| <= |log|;
    }
  }

  /** The run after the last checkpoint that is due, up to the end. */
  method LastRun(sim: Simulator, when: int, period: int, maxCheckpoints: int, maxtick: int, simTicks: int,
                 ghost taken: seq<nat>, ghost slack: nat, ghost pending: seq<Event>)
    returns (r: Result<Cause, Failure>)
    requires sim.Valid() && maxtick <= MAX_TICK && 0 <= when && |taken| < maxCheckpoints && simTicks + period > maxtick
    requires Timely(taken, when, period, slack, maxCheckpoints, maxtick, LimitReached, simTicks, sim.tick)
    requires period >= 0 && slack == 0 ==>
               Tracked(LimitReached, LimitReached, sim.tick, sim.events, pending,
                       when, period, |taken|, maxCheckpoints, maxtick)
    modifies sim`tick, sim`events, sim`log
    ensures sim.Valid() && Due(when, period, |taken|) > maxtick
    ensures r.Err? ==> period < 0 || when > maxtick
    ensures period < 0 ==> r == Err(NegativeTicks)
    ensures old(sim.events) == [] && when <= maxtick && 0 <= period ==>
              r == Ok(LimitReached) && maxtick <= sim.tick <= maxtick + slack
    ensures old(sim.log) <= sim.log && (r.Ok? ==> Reported(sim.log, r.value))
    ensures slack == 0 ==> SeriesFrom(r, sim.tick, |taken|, pending, when, period, maxCheckpoints, maxtick)
  {
    hide Due, OnSchedule, RunTo, Fires, HowMany, Ends, Tracked, Timely;
    TimelyNow(taken, when, period, slack, maxCheckpoints, maxtick, simTicks, sim.tick);
    if period >= 0 && slack == 0 {
      TrackEnd(LimitReached, LimitReached, sim.tick, sim.events, pending,
               when, period, |taken|, maxCheckpoints, maxtick);
    }
    r := sim.Simulate(maxtick - simTicks);
    if period >= 0 && slack == 0 {
      TrackFinal(pending, when, period, |taken|, maxCheckpoints, maxtick, r, sim.tick, sim.events);
    }
  }

  /** The loop of scriptCheckpoints, after the first checkpoint. */
  method MoreCheckpoints(sim: Simulator, when: int, period: int, maxCheckpoints: int, maxtick: int,
                         ghost earlier: seq<nat>, ghost base: nat)
    returns (r: Result<Cause, Failure>, ghost taken: seq<nat>)
    requires sim.Valid() && maxtick <= MAX_TICK && 0 <= when <= MAX_TICK && sim.checkpoints == earlier + [sim.tick]
    requires base <= sim.drained && sim.tick == when + (sim.drained - base) && Reported(sim.log, LimitReached)
    modifies sim`tick, sim`events, sim`drains, sim`drained, sim`checkpoints, sim`log
    ensures sim.Valid() && sim.drained >= old(sim.drained) && sim.checkpoints == earlier + taken
    ensures Instant(sim.drainTime) ==> sim.drained == old(sim.drained)
    ensures OnSchedule(taken, when, period, sim.drained - base)
    ensures 0 < |taken| <= Max(1, maxCheckpoints)
    ensures |taken| > 1 ==> period >= 0 && Due(when, period, |taken| - 1) <= maxtick
    ensures r.Err? ==> (period < 0 && |taken| < maxCheckpoints) || when > maxtick || sim.drained > base
    ensures period < 0 && |taken| < maxCheckpoints ==> r == Err(NegativeTicks)
    ensures old(sim.events) == [] && when <= maxtick && 0 <= period ==>
              && r == Ok(LimitReached)
              && (|taken| < maxCheckpoints ==>
                    && Due(when, period, |taken|) > maxtick
                    && maxtick <= sim.tick <= maxtick + (sim.drained - base))
    ensures old(sim.log) <= sim.log && (r.Ok? ==> Reported(sim.log, r.value))
    ensures Unstopped(sim.log, |old(sim.log)|) && r.Ok? ==>
              |taken| >= maxCheckpoints || Due(when, period, |taken|) > maxtick
    ensures sim.drained == base ==>
              SeriesFrom(r, sim.tick, |taken|, old(sim.events), when, period, maxCheckpoints, maxtick)
  {
    hide Due, Instant, OnSchedule, RunTo, Fires, HowMany, Ends, Tracked, Timely, Punctual, Stop, Reported, Unstopped;
    ghost var pending, quiet := sim.events, sim.events == [];
    taken := [] + [sim.tick];
    var cause, last := LimitReached, LimitReached;
    var count := 1;
    var simTicks := when;
    ghost var slack := sim.drained - base;
    TimelyFirst(when, period, slack, maxCheckpoints, maxtick, sim.tick);
    if period >= 0 && slack == 0 {
      TrackFirst(sim.tick, pending, when, period, maxCheckpoints, maxtick);
    }
    while count < maxCheckpoints && cause == LimitReached
      invariant sim.Valid() && count == |taken| && slack == sim.drained - base && sim.drained >= old(sim.drained)
      invariant Instant(sim.drainTime) ==> sim.drained == old(sim.drained)
      invariant sim.checkpoints == earlier + taken && old(sim.log) <= sim.log && Reported(sim.log, last)
      invariant cause == LimitReached || !Unstopped(sim.log, |old(sim.log)|)
      invariant Timely(taken, when, period, slack, maxCheckpoints, maxtick, cause, simTicks, sim.tick)
      invariant (cause == LimitReached ==> last == cause) && (quiet ==> sim.events == [] && cause == LimitReached)
      invariant period >= 0 && slack == 0 ==>
                  Tracked(cause, last, sim.tick, sim.events, pending, when, period, count, maxCheckpoints, maxtick)
      decreases Max(maxCheckpoints - count, 0), if cause == LimitReached then 1 else 0
    {
      ghost var before := sim.tick;
      TimelyNow(taken, when, period, slack, maxCheckpoints, maxtick, simTicks, before);
      if period >= 0 && slack == 0 {
        TrackEnd(cause, last, before, sim.events, pending, when, period, count, maxCheckpoints, maxtick);
      }
      if simTicks + period > maxtick {
        r := LastRun(sim, when, period, maxCheckpoints, maxtick, simTicks, taken, slack, pending);
        return;
      }
      simTicks := simTicks + period;
      ghost var log := sim.log;
      var outcome := OnePeriod(sim, simTicks, period);
      if outcome.Err? {
        return Err(outcome.error), taken;
      }
      cause, last := outcome.value.0, outcome.value.1;
      StoppedNow(old(sim.log), log, sim.log, cause);
      if sim.drained == base {
        TrackStep(pending, when, period, count, maxCheckpoints, maxtick, cause, last, sim.tick, sim.events);
      }
      TimelyStep(taken, when, period, slack, sim.drained - base, maxCheckpoints, maxtick, cause, last, simTicks,
                 before, sim.tick);
      if last == LimitReached {
        taken := taken + [sim.tick];
        count := count + 1;
      }
      slack := sim.drained - base;
    }
    TimelyEnd(taken, when, period, slack, maxCheckpoints, maxtick, cause, simTicks, sim.tick);
    if period >= 0 && slack == 0 {
      TrackEnd(cause, last, sim.tick, sim.events, pending, when, period, count, maxCheckpoints, maxtick);
    }
    r := Ok(last);
  }

  /** scriptCheckpoints with --take-checkpoints=when,period. */
  method ScriptCheckpoints(sim: Simulator, when: int, period: int, maxCheckpoints: int, maxtick: int)
    returns (r: Result<Cause, Failure>, ghost taken: seq<nat>)
    requires sim.Valid() && maxtick <= MAX_TICK && when <= MAX_TICK
    modifies sim`tick, sim`events, sim`drains, sim`drained, sim`checkpoints, sim`log
    ensures sim.Valid() && sim.drained >= old(sim.drained) && sim.checkpoints == old(sim.checkpoints) + taken
    ensures Instant(sim.drainTime) ==> sim.drained == old(sim.drained)
    // on schedule, without gaps, not too many, none due past the end
    ensures OnSchedule(taken, when, period, sim.drained - old(sim.drained))
    ensures |taken| <= Max(1, maxCheckpoints)
    ensures |taken| > 1 ==> period >= 0 && Due(when, period, |taken| - 1) <= maxtick
    // the only ways to fail
    ensures when < old(sim.tick) ==> r == Err(NegativeTicks) && taken == [] && sim.tick == old(sim.tick)
    ensures r.Err? ==> when < old(sim.tick) || (period < 0 && 0 < |taken| < maxCheckpoints) || when > maxtick ||
                       sim.drained > old(sim.drained)
    ensures period < 0 && 0 < |taken| < maxCheckpoints ==> r == Err(NegativeTicks)
    // nothing stops a system that raises no exit events
    ensures old(sim.events) == [] && old(sim.tick) <= when ==> taken != []
    ensures old(sim.events) == [] && old(sim.tick) <= when <= maxtick && 0 <= period ==> r == Ok(LimitReached)
    ensures old(sim.events) == [] && old(sim.tick) <= when <= maxtick && 0 <= period && |taken| < maxCheckpoints ==>
              && Due(when, period, |taken|) > maxtick
              && maxtick <= sim.tick <= maxtick + (sim.drained - old(sim.drained))
    // what is returned is what the last run reported, and the series stops early only if a run does
    ensures old(sim.log) <= sim.log && (r.Ok? ==> Reported(sim.log, r.value))
    ensures Unstopped(sim.log, |old(sim.log)|) && r.Ok? ==>
              taken != [] && (|taken| >= maxCheckpoints || Due(when, period, |taken|) > maxtick)
    // how many there are in any system and what is returned, when draining takes no time
    ensures old(sim.tick) <= when && sim.drained == old(sim.drained) ==>
              Series(r, sim.tick, |taken|, old(sim.events), old(sim.tick), when, period, maxCheckpoints, maxtick)
  {
    hide Due, Instant, OnSchedule, RunTo, Fires, Clear, Pending, Stop, FirstOther, SeriesFrom;
    if sim.tick <= when {
      StopMeans(sim.events, sim.tick, when);
    }
    NoneTaken(when, period);
    var start := FirstCheckpoint(sim, when);
    if start != Ok(LimitReached) {
      assert start.Ok? ==> sim.log[|sim.log| - 1] != LimitReached;
      return start, [];
    }
    ghost var log := sim.log;
    r, taken := MoreCheckpoints(sim, when, period, maxCheckpoints, maxtick, old(sim.checkpoints), old(sim.drained));
    if Unstopped(sim.log, |old(sim.log)|) {
      assert Unstopped(sim.log, |log|);
    }
  }

  /** The checkpoints so far, and where the run stands in the schedule. */
  ghost predicate Timely(taken: seq<nat>, when: int, period: int, slack: nat, maxCheckpoints: int, maxtick: int,
                         cause: Cause, simTicks: int, tick: nat) {
    && OnSchedule(taken, when, period, slack) && |taken| <= Max(1, maxCheckpoints)
    && (|taken| > 1 ==> period >= 0 && Due(when, period, |taken| - 1) <= maxtick)
    && (|taken| == 1 && period < 0 ==> cause == LimitReached)
    && (cause == LimitReached ==>
          && taken != [] && simTicks == Due(when, period, |taken| - 1) && simTicks <= tick <= simTicks + slack
          && (when <= maxtick ==> simTicks <= maxtick))
  }

  lemma TimelyFirst(when: int, period: int, slack: nat, maxCheckpoints: int, maxtick: int, tick: nat)
    requires tick == when + slack
    ensures Timely([] + [tick], when, period, slack, maxCheckpoints, maxtick, LimitReached, when, tick)
  {
    DueNext(when, period, 0);
    hide Due;
    NoneTaken(when, period);
    OneMore([], tick, when, period, 0, slack);
  }

  lemma TimelyNow(taken: seq<nat>, when: int, period: int, slack: nat,
                  maxCheckpoints: int, maxtick: int, simTicks: int, tick: nat)
    requires Timely(taken, when, period, slack, maxCheckpoints, maxtick, LimitReached, simTicks, tick)
    ensures taken != [] && simTicks <= tick <= simTicks + slack && (when <= maxtick ==> simTicks <= maxtick)
    ensures simTicks == Due(when, period, |taken| - 1) && Due(when, period, |taken|) == simTicks + period
    ensures |taken| == 1 ==> simTicks == when
    ensures |taken| > 1 ==> period >= 0 && Due(when, period, |taken| - 1) <= maxtick
    ensures OnSchedule(taken, when, period, slack) && |taken| <= Max(1, maxCheckpoints)
  {
    DueNext(when, period, |taken| - 1);
  }

  lemma TimelyStep(taken: seq<nat>, when: int, period: int, slack: nat, slack': nat, maxCheckpoints: int, maxtick: int,
                   cause: Cause, last: Cause, simTicks: int, before: nat, tick: nat)
    requires Timely(taken, when, period, slack, maxCheckpoints, maxtick, LimitReached, simTicks - period, before)
    requires |taken| < maxCheckpoints && simTicks <= maxtick && period >= 0 && slack <= slack'
    requires last == LimitReached ==> Punctual(before, tick, simTicks, period, slack' - slack)
    requires cause == LimitReached ==> last == LimitReached
    ensures Timely(if last == LimitReached then taken + [tick] else taken,
                   when, period, slack', maxCheckpoints, maxtick,
                   cause, simTicks, tick)
  {
    DueNext(when, period, |taken| - 1);
    hide Due;
    if last == LimitReached {
      OneMore(taken, tick, when, period, slack, slack');
    }
  }

  lemma TimelyEnd(taken: seq<nat>, when: int, period: int, slack: nat, maxCheckpoints: int, maxtick: int,
                  cause: Cause, simTicks: int, tick: nat)
    requires Timely(taken, when, period, slack, maxCheckpoints, maxtick, cause, simTicks, tick)
    ensures OnSchedule(taken, when, period, slack) && |taken| <= Max(1, maxCheckpoints)
    ensures |taken| > 1 ==> period >= 0 && Due(when, period, |taken| - 1) <= maxtick
    ensures |taken| == 1 && period < 0 ==> cause == LimitReached && simTicks == when
    ensures cause == LimitReached ==> taken != [] && simTicks <= tick <= simTicks + slack
  {
    DueNext(when, period, 0);
  }

  lemma NoneTaken(when: int, period: int)
    ensures OnSchedule([], when, period, 0)
  {
  }

  lemma {:induction false} DueRises(when: int, period: int, i: nat, j: nat)
    requires period >= 0 && i <= j
    ensures Due(when, period, i) <= Due(when, period, j)
  {
  }

  /** The number of checkpoints is determined by the events. */
  lemma CountUnique(events: seq<Event>, when: nat, period: nat, n: nat, m: nat, maxCheckpoints: int, maxtick: int)
    requires 0 < n <= m <= Max(1, maxCheckpoints) && (m > 1 ==> Due(when, period, m - 1) <= maxtick)
    requires HowMany(events, when, period, n, maxCheckpoints, maxtick)
    requires HowMany(events, when, period, m, maxCheckpoints, maxtick)
    ensures n == m
  {
    if n < m {
      DueRises(when, period, n, m - 1);
      ClearIfQuiet(events, Due(when, period, n - 1), Due(when, period, n));
      hide Due, Fires, Clear;
    }
  }

  /**
   * With draining that takes no time: the checkpoints are at exactly when, when + period, and so on,
   * and the number of them, what is returned and when the run stands then are as Series says.
   */
  method TakeCheckpoints(start: nat, events: seq<Event>, when: int, period: int, maxCheckpoints: int, maxtick: int)
    returns (r: Result<Cause, Failure>, ticks: seq<nat>, end: nat)
    requires start <= MAX_TICK && maxtick <= MAX_TICK && when <= MAX_TICK
    ensures forall i: nat | i < |ticks| :: ticks[i] == Due(when, period, i) && (i > 0 ==> ticks[i] <= maxtick)
    ensures |ticks| <= Max(1, maxCheckpoints)
    ensures when < start ==> r == Err(NegativeTicks) && ticks == [] && end == start
    ensures when >= start ==> Series(r, end, |ticks|, events, start, when, period, maxCheckpoints, maxtick)
  {
    var instant := (k: nat) => 0 as nat;
    assert Instant(instant);
    hide Instant, Due, Series;
    var sim := new Simulator(start, events, instant, {});
    ghost var taken;
    r, taken := ScriptCheckpoints(sim, when, period, maxCheckpoints, maxtick);
    ticks, end := sim.checkpoints, sim.tick;
    forall i: nat | i < |ticks| ensures ticks[i] == Due(when, period, i) && (i > 0 ==> ticks[i] <= maxtick) {
      if |ticks| > 1 {
        DueRises(when, period, i, |ticks| - 1);
      }
    }
  }

  /** It fails only if the first checkpoint is in the past or no time is left for another one. */
  lemma SeriesFails(r: Result<Cause, Failure>, tick: nat, n: nat, events: seq<Event>, start: nat,
                    when: nat, period: int, maxCheckpoints: int, maxtick: int)
    requires Series(r, tick, n, events, start, when, period, maxCheckpoints, maxtick)
    requires n > 1 ==> period >= 0 && Due(when, period, n - 1) <= maxtick
    ensures r.Err? <==> 0 < n < maxCheckpoints && (period < 0 || when > maxtick)
  {
    if period >= 0 && n > 0 {
      DueRises(when, period, 0, n - 1);
      DueRises(when, period, 0, n);
    }
    hide Clear, Pending, FirstOther, Fires;
  }

  /** Without exit events there are as many as asked for or as fit. */
  lemma UndisturbedCount(when: nat, period: nat, n: nat, maxCheckpoints: int, maxtick: int)
    requires n > 0
    ensures HowMany([], when, period, n, maxCheckpoints, maxtick) <==>
              n >= maxCheckpoints || Due(when, period, n) > maxtick
  {
  }

  /** A single checkpoint request within the first period ends the series after the second checkpoint. */
  lemma RequestEndsSeries(when: nat, period: nat, at: nat, beforeLimit: bool, n: nat, maxCheckpoints: int, maxtick: int)
    requires when < at < when + period <= maxtick && 2 <= maxCheckpoints && n > 0
    ensures HowMany([Event(at, CheckpointRequest, beforeLimit)], when, period, n, maxCheckpoints, maxtick) ==> n == 2
  {
    var events := [Event(at, CheckpointRequest, beforeLimit)];
    DueNext(when, period, 0);
    assert Fires(events, Due(when, period, 0), Due(when, period, 1)) && events[1..] == [];
    assert Clear(events, Due(when, period, 0), Due(when, period, 1));
  }

  // ----- Switching back and forth.

  function Swapped(pairs: seq<Pair>): (r: seq<Pair>)
    ensures |r| == |pairs| && forall i | 0 <= i < |pairs| :: r[i] == Pair(pairs[i].into, pairs[i].out)
  {
    if pairs == [] then []
    else
      var last := pairs[|pairs| - 1];
      Swapped(pairs[..|pairs| - 1]) + [Pair(last.into, last.out)]
  }

  method SwapPairs(pairs: seq<Pair>) returns (r: seq<Pair>)
    ensures r == Swapped(pairs)
  {
    r := [];
    for i := 0 to |pairs|
      invariant r == Swapped(pairs[..i])
    {
      assert pairs[..i + 1][..i] == pairs[..i];
      r := r + [Pair(pairs[i].into, pairs[i].out)];
    }
    assert pairs[..|pairs|] == pairs;
  }

  /** The processors that run after an even or odd number of switches. */
  ghost function ActiveAfter(pairs: seq<Pair>, active: set<Cpu>, n: nat): set<Cpu> {
    if n % 2 == 0 then active else active - Olds(pairs) + News(pairs)
  }

  ghost function PairsAfter(pairs: seq<Pair>, n: nat): seq<Pair> {
    if n % 2 == 0 then pairs else Swapped(pairs)
  }

  lemma {:induction false} SwappedSides(pairs: seq<Pair>)
    ensures Olds(Swapped(pairs)) == News(pairs) && News(Swapped(pairs)) == Olds(pairs)
    ensures Swapped(Swapped(pairs)) == pairs
  {
    if pairs != [] {
      var n := |pairs| - 1;
      SwappedSides(pairs[..n]);
      assert Swapped(pairs)[..n] == Swapped(pairs[..n]);
      assert pairs == pairs[..n] + [pairs[n]];
    }
  }

  /** Each switch goes from running processors to switched-out ones, and the next one undoes it. */
  lemma SwitchBack(pairs: seq<Pair>, active: set<Cpu>, n: nat)
    requires Switchable(pairs, active)
    ensures Switchable(PairsAfter(pairs, n), ActiveAfter(pairs, active, n))
    ensures var p, a := PairsAfter(pairs, n), ActiveAfter(pairs, active, n);
            a - Olds(p) + News(p) == ActiveAfter(pairs, active, n + 1) && Swapped(p) == PairsAfter(pairs, n + 1)
  {
    SwappedSides(pairs);
    hide Olds, News, Swapped;
    var o, m := Olds(pairs), News(pairs);
    assert active - o + m - m + o == active;
  }

  /** The tick after n periods; time stops at the largest tick. */
  ghost function After(start: nat, freq: int, n: nat): int {
    Min(start + n * freq, MAX_TICK)
  }

  /** The i-th of a run of switches is after i + 1 periods, or later by what draining took, and they alternate. */
  ghost predicate Alternates(done: seq<Switch>, pairs: seq<Pair>, start: nat, freq: int, slack: nat) {
    forall i: nat | i < |done| ::
      && After(start, freq, i + 1) <= done[i].tick <= After(start, freq, i + 1) + slack
      && done[i].pairs == PairsAfter(pairs, i)
  }

  lemma OneMoreSwitch(done: seq<Switch>, pairs: seq<Pair>, start: nat, freq: int, tick: nat, slack: nat, slack': nat)
    requires Alternates(done, pairs, start, freq, slack) && slack <= slack'
    requires After(start, freq, |done| + 1) <= tick <= After(start, freq, |done| + 1) + slack'
    ensures var p := PairsAfter(pairs, |done|);
            Alternates(done + [Switch(tick, p)], pairs, start, freq, slack')
  {
    hide Olds, News, PairsAfter, After;
  }

  lemma NoSwitches(pairs: seq<Pair>, active: set<Cpu>, start: nat, freq: int)
    ensures PairsAfter(pairs, 0) == pairs && ActiveAfter(pairs, active, 0) == active
    ensures Alternates([], pairs, start, freq, 0)
  {
  }

  /** No event stops the run within the first n periods. */
  ghost predicate Unbroken(events: seq<Event>, start: nat, freq: nat, n: nat) {
    forall i: nat | i < n :: !Fires(events, After(start, freq, i), After(start, freq, i + 1))
  }

  lemma UnbrokenStep(events: seq<Event>, start: nat, freq: nat, n: nat)
    requires Unbroken(events, start, freq, n) && !Fires(events, After(start, freq, n), After(start, freq, n + 1))
    ensures Unbroken(events, start, freq, n + 1)
  {
    hide After, Fires;
  }

  /** The n-th switch is not the last one: more than a period is left after it. */
  ghost predicate Remains(start: nat, freq: nat, n: nat, maxtick: int) {
    n == 0 || After(start, freq, n) + freq < maxtick
  }

  /**
   * How many switches there are, if draining takes no time: one after every period up to the first
   * one in which an event stops the run, or after which no more than a period is left. What is
   * returned is that event, or whatever comes first in the rest of the time.
   */
  ghost predicate SwitchesEnd(r: Result<Cause, Failure>, tick: nat, n: nat, events: seq<Event>,
                              start: nat, freq: nat, maxtick: int) {
    var now := After(start, freq, n);
    && Unbroken(events, start, freq, n) && (forall i: nat | i < n :: Remains(start, freq, i, maxtick))
    && if Remains(start, freq, n, maxtick) then
         && Fires(events, now, After(start, freq, n + 1))
         && r == Ok(Exited(events[0].exit)) && tick == Max(now, events[0].tick)
       else Rest(r, tick, events, now, maxtick)
  }

  /** n switches have been made without delay, and another period follows. */
  ghost predicate Switching(tick: nat, left: seq<Event>, n: nat, events: seq<Event>,
                            start: nat, freq: nat, maxtick: int) {
    && left == events && tick == After(start, freq, n) && Unbroken(events, start, freq, n)
    && forall i: nat | i <= n :: Remains(start, freq, i, maxtick)
  }

  lemma NoneSwitched(events: seq<Event>, start: nat, freq: nat, maxtick: int)
    requires start <= MAX_TICK
    ensures Switching(start, events, 0, events, start, freq, maxtick) && After(start, freq, 0) == start
    ensures After(start, freq, 1) == Min(start + freq, MAX_TICK)
  {
  }

  /** One more period, from one switch to the next. */
  lemma SwitchingStep(tick: nat, left: seq<Event>, n: nat, events: seq<Event>, start: nat, freq: nat, maxtick: int)
    requires freq > 0 && maxtick <= MAX_TICK && start <= MAX_TICK
    requires Switching(tick, left, n, events, start, freq, maxtick)
    ensures left == events && tick <= MAX_TICK && After(start, freq, n + 1) == Min(tick + freq, MAX_TICK)
    ensures if Fires(events, tick, After(start, freq, n + 1)) then
              SwitchesEnd(Ok(Exited(events[0].exit)), Max(tick, events[0].tick), n, events, start, freq, maxtick)
            else
              maxtick - After(start, freq, n + 1) > freq ==>
                Switching(After(start, freq, n + 1), events, n + 1, events, start, freq, maxtick)
  {
    AfterNext(start, freq, n, maxtick);
    hide After, Fires;
    if !Fires(events, tick, After(start, freq, n + 1)) {
      UnbrokenStep(events, start, freq, n);
    }
    hide Unbroken;
  }

  lemma PeriodOver(start: nat, freq: nat, n: nat, was: nat, slack: nat)
    requires if n == 0 then was == start
             else After(start, freq, n) <= was <= After(start, freq, n) + slack && was + freq < MAX_TICK
    ensures var tick := Min(was + freq, MAX_TICK);
            After(start, freq, n + 1) <= tick <= After(start, freq, n + 1) + slack
  {
    assert (n + 1) * freq == n * freq + freq;
  }

  lemma RestRuns(events: seq<Event>, now: nat, maxtick: int)
    requires maxtick <= MAX_TICK
    ensures now <= maxtick ==>
              var (tick, left, cause) := RunTo(now, maxtick, events);
              Rest(Ok(cause), tick, events, now, maxtick)
    ensures now > maxtick ==> Rest(Err(NegativeTicks), now, events, now, maxtick)
  {
  }

  /** The last period and the rest of the time. */
  lemma SwitchingLast(tick: nat, n: nat, events: seq<Event>, start: nat, freq: nat, maxtick: int,
                      now: nat, r: Result<Cause, Failure>, t: nat)
    requires freq > 0 && maxtick <= MAX_TICK && start <= MAX_TICK
    requires Switching(tick, events, n, events, start, freq, maxtick)
    requires now == After(start, freq, n + 1) && !Fires(events, tick, now) && maxtick - now <= freq
    requires Rest(r, t, events, now, maxtick)
    ensures SwitchesEnd(r, t, n + 1, events, start, freq, maxtick)
  {
    hide After, Fires, Rest;
    UnbrokenStep(events, start, freq, n);
    hide Unbroken;
  }

  /** Time stays below the end if a first period fits; without events that is the condition. */
  lemma SwitchesFit(r: Result<Cause, Failure>, tick: nat, n: nat, events: seq<Event>,
                    start: nat, freq: nat, maxtick: int)
    requires freq > 0 && maxtick <= MAX_TICK && start <= MAX_TICK
    requires SwitchesEnd(r, tick, n, events, start, freq, maxtick)
    ensures Fits(start, freq, maxtick) ==> r != Err(NegativeTicks) && tick <= maxtick
    ensures events == [] ==>
              if Fits(start, freq, maxtick) then r == Ok(LimitReached) && tick == maxtick
              else r == Err(NegativeTicks) && tick > maxtick
  {
    AfterNext(start, freq, 0, maxtick);
    if n > 0 {
      assert Remains(start, freq, n - 1, maxtick);
      AfterNext(start, freq, n - 1, maxtick);
    }
    if Remains(start, freq, n, maxtick) {
      AfterNext(start, freq, n, maxtick);
    }
    assert n > 1 ==> Remains(start, freq, 1, maxtick);
    hide After, Unbroken;
  }

  lemma AfterNext(start: nat, freq: nat, n: nat, maxtick: int)
    requires freq > 0 && maxtick <= MAX_TICK && start <= MAX_TICK && Remains(start, freq, n, maxtick)
    ensures 0 <= After(start, freq, n) <= MAX_TICK
    ensures After(start, freq, n + 1) == Min(After(start, freq, n) + freq, MAX_TICK)
  {
    assert (n + 1) * freq == n * freq + freq;
  }

  /** The number of switches is determined by the events. */
  lemma SwitchesUnique(r: Result<Cause, Failure>, r': Result<Cause, Failure>, tick: nat, tick': nat, n: nat, m: nat,
                       events: seq<Event>, start: nat, freq: nat, maxtick: int)
    requires SwitchesEnd(r, tick, n, events, start, freq, maxtick)
    requires SwitchesEnd(r', tick', m, events, start, freq, maxtick)
    ensures n == m && r == r' && tick == tick'
  {
    hide After, Fires, Remains;
  }

  /** Without events: a switch after every period that leaves time, at least one. */
  lemma QuietSwitches(r: Result<Cause, Failure>, tick: nat, n: nat, start: nat, freq: nat, maxtick: int)
    requires freq > 0 && maxtick <= MAX_TICK && SwitchesEnd(r, tick, n, [], start, freq, maxtick)
    ensures n > 0 && After(start, freq, n) + freq >= maxtick && (n > 1 ==> start + n * freq < maxtick)
    ensures start + freq <= maxtick ==> r == Ok(LimitReached) && tick == maxtick
  {
    if n > 1 {
      assert Remains(start, freq, n - 1, maxtick);
      assert (n - 1) * freq + freq == n * freq;
    }
  }

  /** Whether a first period fits before the end; running into the end of time counts. */
  predicate Fits(start: nat, freq: int, maxtick: int) {
    start + freq <= maxtick || maxtick == MAX_TICK
  }

  /** One period and the switch at its end, unless an event stops the run or the pairs are refused. */
  method SwitchAfter(sim: Simulator, pairs: seq<Pair>, freq: int) returns (r: Result<Cause, Failure>)
    requires sim.Valid()
    modifies sim`tick, sim`events, sim`drains, sim`drained, sim`active, sim`switches, sim`log
    ensures sim.Valid() && sim.drained >= old(sim.drained) && sim.tick >= old(sim.tick)
    ensures Instant(sim.drainTime) ==> sim.drained == old(sim.drained)
    ensures r.Ok? ==> Reported(sim.log, r.value)
    ensures r != Ok(LimitReached) ==>
              sim.active == old(sim.active) && sim.switches == old(sim.switches) && sim.drained == old(sim.drained)
    ensures freq < 0 ==> r == Err(NegativeTicks) && sim.tick == old(sim.tick)
    ensures freq >= 0 ==>
              var limit := Min(old(sim.tick) + freq, MAX_TICK);
              if Fires(old(sim.events), old(sim.tick), limit) then
                && r == Ok(Exited(old(sim.events)[0].exit))
                && sim.tick == Max(old(sim.tick), old(sim.events)[0].tick) <= limit
              else if !Switchable(pairs, old(sim.active)) then
                r.Err? && r.error != NegativeTicks && Refused(r.error, pairs, old(sim.active)) && sim.tick == limit
              else
                && r == Ok(LimitReached) && sim.tick == limit + (sim.drained - old(sim.drained))
                && sim.active == old(sim.active) - Olds(pairs) + News(pairs)
                && sim.switches == old(sim.switches) + [Switch(sim.tick, pairs)]
                && (sim.drained == old(sim.drained) ==> sim.events == old(sim.events))
  {
    hide Olds, News, Switchable, Refused, Instant;
    var next := sim.Simulate(freq);
    if next.Err? || next.value != LimitReached {
      return next;
    }
    var failed := sim.SwitchCpus(pairs);
    if failed != None {
      return Err(failed.value);
    }
    r := next;
  }

  /** The switches so far, the pairs for the next one, and the processors that run. */
  ghost predicate Swung(done: seq<Switch>, current: seq<Pair>, active: set<Cpu>, tick: nat,
                        pairs: seq<Pair>, before: set<Cpu>, start: nat, freq: nat, slack: nat) {
    && Alternates(done, pairs, start, freq, slack)
    && current == PairsAfter(pairs, |done|) && active == ActiveAfter(pairs, before, |done|)
    && After(start, freq, |done|) <= tick <= After(start, freq, |done|) + slack
  }

  lemma SwungFirst(pairs: seq<Pair>, before: set<Cpu>, start: nat, freq: nat)
    requires start <= MAX_TICK
    ensures Swung([], pairs, before, start, pairs, before, start, freq, 0)
  {
    NoSwitches(pairs, before, start, freq);
  }

  lemma SwungNext(done: seq<Switch>, current: seq<Pair>, active: set<Cpu>, was: nat, tick: nat,
                  pairs: seq<Pair>, before: set<Cpu>, start: nat, freq: nat, slack: nat, slack': nat)
    requires Switchable(pairs, before) && Swung(done, current, active, was, pairs, before, start, freq, slack)
    requires if done == [] then was == start else was + freq < MAX_TICK
    requires slack <= slack' && tick == Min(was + freq, MAX_TICK) + (slack' - slack)
    ensures Switchable(current, active)
    ensures Swung(done + [Switch(tick, current)], Swapped(current), active - Olds(current) + News(current), tick,
                  pairs, before, start, freq, slack')
  {
    hide Swapped, Olds, News, Switchable, Alternates, ActiveAfter, PairsAfter, After;
    SwitchBack(pairs, before, |done|);
    PeriodOver(start, freq, |done|, was, slack);
    OneMoreSwitch(done, pairs, start, freq, tick, slack, slack');
  }

  lemma SwungEnd(done: seq<Switch>, current: seq<Pair>, active: set<Cpu>, tick: nat,
                 pairs: seq<Pair>, before: set<Cpu>, start: nat, freq: nat, slack: nat)
    requires Swung(done, current, active, tick, pairs, before, start, freq, slack)
    ensures Alternates(done, pairs, start, freq, slack) && active == ActiveAfter(pairs, before, |done|)
  {
    hide Alternates, ActiveAfter, PairsAfter, After;
  }

  /**
   * When the loop ends, however long draining takes: with an exit within a period, or after the first
   * switch that leaves at most a period, with whatever ends the rest of the time.
   */
  ghost predicate EndsAfter(done: seq<Switch>, freq: int, maxtick: int, r: Result<Cause, Failure>, tick: nat) {
    && (forall i: nat | i + 1 < |done| :: LeavesMore(done[i], freq, maxtick))
    && if done == [] || LeavesMore(done[|done| - 1], freq, maxtick) then r.Ok? && r.value != LimitReached
       else if done[|done| - 1].tick > maxtick then r == Err(NegativeTicks) && tick == done[|done| - 1].tick
       else r.Ok? && tick <= maxtick && (r == Ok(LimitReached) ==> tick == maxtick)
  }

  ghost predicate LeavesMore(s: Switch, freq: int, maxtick: int) {
    s.tick + freq < maxtick
  }

  ghost predicate AllLeave(done: seq<Switch>, freq: int, maxtick: int) {
    forall i: nat | i < |done| :: LeavesMore(done[i], freq, maxtick)
  }

  lemma NoneLeave(freq: int, maxtick: int)
    ensures AllLeave([], freq, maxtick)
  {
  }

  lemma LeaveNext(done: seq<Switch>, s: Switch, freq: int, maxtick: int)
    requires AllLeave(done, freq, maxtick)
    ensures s.tick + freq < maxtick ==> AllLeave(done + [s], freq, maxtick)
  {
  }

  lemma EndsEarly(done: seq<Switch>, freq: int, maxtick: int, r: Result<Cause, Failure>, tick: nat)
    requires AllLeave(done, freq, maxtick) && r.Ok? && r.value != LimitReached
    ensures EndsAfter(done, freq, maxtick, r, tick)
  {
  }

  lemma EndsLate(done: seq<Switch>, s: Switch, freq: int, maxtick: int, r: Result<Cause, Failure>,
                 events: seq<Event>, tick: nat)
    requires AllLeave(done, freq, maxtick) && s.tick + freq >= maxtick && Rest(r, tick, events, s.tick, maxtick)
    ensures EndsAfter(done + [s], freq, maxtick, r, tick)
  {
    var all := done + [s];
    assert forall i: nat | i < |done| :: all[i] == done[i];
  }

  /** The rest of the time after the last switch. */
  method RunRest(sim: Simulator, maxtick: int, freq: int, ghost earlier: seq<Switch>, ghost s: Switch,
                 ghost was: nat, ghost events: seq<Event>, ghost start: nat, ghost slack: nat)
    returns (r: Result<Cause, Failure>)
    requires sim.Valid() && maxtick <= MAX_TICK && start <= MAX_TICK && freq > 0 && maxtick - sim.tick <= freq
    requires s.tick == sim.tick && AllLeave(earlier, freq, maxtick)
    requires slack == 0 ==>
               && Switching(was, sim.events, |earlier|, events, start, freq, maxtick)
               && sim.tick == After(start, freq, |earlier| + 1) && !Fires(events, was, sim.tick)
    modifies sim`tick, sim`events, sim`log
    ensures sim.Valid() && sim.tick >= old(sim.tick) && (r.Ok? ==> Reported(sim.log, r.value))
    ensures (r.Err? ==> r.error == NegativeTicks) && EndsAfter(earlier + [s], freq, maxtick, r, sim.tick)
    ensures slack == 0 ==> SwitchesEnd(r, sim.tick, |earlier| + 1, events, start, freq, maxtick)
  {
    hide Fires, After, Switching, SwitchesEnd, EndsAfter, AllLeave, RunTo, Rest;
    ghost var left, now := sim.events, sim.tick;
    RestRuns(left, now, maxtick);
    if slack == 0 {
      SwitchingStep(was, left, |earlier|, events, start, freq, maxtick);
    }
    r := sim.Simulate(maxtick - sim.tick);
    EndsLate(earlier, s, freq, maxtick, r, left, sim.tick);
    if slack == 0 {
      SwitchingLast(was, |earlier|, events, start, freq, maxtick, now, r, sim.tick);
    }
  }

  /** The loop of repeatSwitch. */
  method SwitchLoop(sim: Simulator, pairs: seq<Pair>, maxtick: int, freq: int)
    returns (r: Result<Cause, Failure>, ghost done: seq<Switch>)
    requires sim.Valid() && maxtick <= MAX_TICK && freq != 0
    modifies sim`tick, sim`events, sim`drains, sim`drained, sim`active, sim`switches, sim`log
    ensures sim.Valid() && sim.tick >= old(sim.tick) && sim.drained >= old(sim.drained)
    ensures Instant(sim.drainTime) ==> sim.drained == old(sim.drained)
    ensures sim.switches == old(sim.switches) + done
    ensures freq < 0 ==> r == Err(NegativeTicks) && done == []
    // switches happen between running and switched-out processors, back and forth, once a period
    ensures Switchable(pairs, old(sim.active)) ==>
              && Alternates(done, pairs, old(sim.tick), freq, sim.drained - old(sim.drained))
              && sim.active == ActiveAfter(pairs, old(sim.active), |done|)
              && (r.Err? ==> r.error == NegativeTicks)
    ensures !Switchable(pairs, old(sim.active)) ==> done == [] && sim.active == old(sim.active)
    // when the loop ends, and that what is returned is what the last run reported
    ensures r.Ok? ==> Reported(sim.log, r.value)
    ensures freq > 0 && Switchable(pairs, old(sim.active)) ==> EndsAfter(done, freq, maxtick, r, sim.tick)
    // how many there are in any system and what is returned, when draining takes no time
    ensures freq > 0 && Switchable(pairs, old(sim.active)) && sim.drained == old(sim.drained) ==>
              SwitchesEnd(r, sim.tick, |done|, old(sim.events), old(sim.tick), freq, maxtick)
    ensures freq > 0 && !Switchable(pairs, old(sim.active)) ==>
              && sim.tick <= After(old(sim.tick), freq, 1) && sim.drained == old(sim.drained)
              && if Fires(old(sim.events), old(sim.tick), After(old(sim.tick), freq, 1)) then
                   r == Ok(Exited(old(sim.events)[0].exit)) && sim.tick == Max(old(sim.tick), old(sim.events)[0].tick)
                 else
                   && r.Err? && r.error != NegativeTicks && Refused(r.error, pairs, old(sim.active))
                   && sim.tick == After(old(sim.tick), freq, 1)
  {
    hide Swapped, Olds, News, Instant, Switchable, Alternates, ActiveAfter, PairsAfter, Refused,
         SwitchesEnd, Switching, Fires, After, RunTo, Rest, Swung, EndsAfter, AllLeave, Reported, Max;
    NoSwitches(pairs, sim.active, sim.tick, freq);
    NoneLeave(freq, maxtick);
    if freq > 0 {
      NoneSwitched(sim.events, sim.tick, freq, maxtick);
      SwungFirst(pairs, sim.active, sim.tick, freq);
    }
    done := [];
    var current := pairs;
    ghost var start, before, slack := sim.tick, sim.active, 0;
    ghost var ok, events := Switchable(pairs, sim.active), sim.events;
    while true
      invariant Instant(sim.drainTime) ==> slack == 0
      invariant sim.Valid() && slack == sim.drained - old(sim.drained) >= 0 && sim.tick >= start
      invariant sim.switches == old(sim.switches) + done
      invariant freq > 0 && ok ==> Swung(done, current, sim.active, sim.tick, pairs, before, start, freq, slack)
      invariant done == [] ==> sim.tick == start && slack == 0 && current == pairs && sim.active == before
      invariant done != [] ==> ok && freq > 0 && sim.tick + freq < maxtick
      invariant AllLeave(done, freq, maxtick)
      invariant freq > 0 && slack == 0 ==> Switching(sim.tick, sim.events, |done|, events, start, freq, maxtick)
      decreases MAX_TICK - sim.tick
    {
      ghost var n, was, active := |done|, sim.tick, sim.active;
      if freq > 0 && slack == 0 {
        SwitchingStep(was, sim.events, n, events, start, freq, maxtick);
      }
      if freq > 0 && ok {
        SwungNext(done, current, active, was, Min(was + freq, MAX_TICK), pairs, before, start, freq, slack, slack);
        SwungEnd(done, current, active, was, pairs, before, start, freq, slack);
      }
      var next := SwitchAfter(sim, current, freq);
      if next != Ok(LimitReached) {
        if next.Ok? {
          EndsEarly(done, freq, maxtick, next, sim.tick);
        }
        return next, done;
      }
      ghost var slack' := sim.drained - old(sim.drained);
      SwungNext(done, current, active, was, sim.tick, pairs, before, start, freq, slack, slack');
      ghost var earlier, s := done, Switch(sim.tick, current);
      LeaveNext(earlier, s, freq, maxtick);
      done, slack := done + [s], slack';
      current := SwapPairs(current);
      if maxtick - sim.tick <= freq {
        SwungEnd(done, current, sim.active, sim.tick, pairs, before, start, freq, slack);
        r := RunRest(sim, maxtick, freq, earlier, s, was, events, start, slack);
        return;
      }
    }
  }

  /** repeatSwitch; its caller passes a nonzero period. */
  method RepeatSwitch(sim: Simulator, pairs: seq<Pair>, maxtick: int, freq: int)
    returns (r: Result<Cause, Failure>, ghost done: seq<Switch>)
    requires sim.Valid() && maxtick <= MAX_TICK && freq != 0
    modifies sim`tick, sim`events, sim`drains, sim`drained, sim`active, sim`switches, sim`log
    ensures sim.Valid() && sim.tick >= old(sim.tick) && sim.drained >= old(sim.drained)
    ensures Instant(sim.drainTime) ==> sim.drained == old(sim.drained)
    ensures sim.switches == old(sim.switches) + done
    ensures freq < 0 ==> r == Err(NegativeTicks) && done == []
    // switches happen between running and switched-out processors, back and forth, once a period
    ensures Switchable(pairs, old(sim.active)) ==>
              && Alternates(done, pairs, old(sim.tick), freq, sim.drained - old(sim.drained))
              && sim.active == ActiveAfter(pairs, old(sim.active), |done|)
              && (r.Err? ==> r.error == NegativeTicks)
    ensures !Switchable(pairs, old(sim.active)) ==> done == [] && sim.active == old(sim.active)
    // when the loop ends, and that what is returned is what the last run reported
    ensures r.Ok? ==> Reported(sim.log, r.value)
    ensures freq > 0 && Switchable(pairs, old(sim.active)) ==> EndsAfter(done, freq, maxtick, r, sim.tick)
    // how many there are in any system and what is returned, when draining takes no time
    ensures freq > 0 && Switchable(pairs, old(sim.active)) && sim.drained == old(sim.drained) ==>
              SwitchesEnd(r, sim.tick, |done|, old(sim.events), old(sim.tick), freq, maxtick)
    ensures freq > 0 && !Switchable(pairs, old(sim.active)) ==>
              && sim.tick <= After(old(sim.tick), freq, 1) && sim.drained == old(sim.drained)
              && if Fires(old(sim.events), old(sim.tick), After(old(sim.tick), freq, 1)) then
                   r == Ok(Exited(old(sim.events)[0].exit)) && sim.tick == Max(old(sim.tick), old(sim.events)[0].tick)
                 else
                   && r.Err? && r.error != NegativeTicks && Refused(r.error, pairs, old(sim.active))
                   && sim.tick == After(old(sim.tick), freq, 1)
    // time stays below the end when a period fits at entry, and draining takes no time
    ensures freq > 0 && Fits(old(sim.tick), freq, maxtick) && sim.drained == old(sim.drained) ==>
              r != Err(NegativeTicks) && sim.tick <= maxtick
    // and the condition is needed
    ensures freq > 0 && old(sim.events) == [] && Switchable(pairs, old(sim.active))
            && sim.drained == old(sim.drained) ==>
              if Fits(old(sim.tick), freq, maxtick) then r == Ok(LimitReached) && sim.tick == maxtick
              else r == Err(NegativeTicks) && sim.tick > maxtick
  {
    hide Olds, News, Instant, Switchable, Alternates, ActiveAfter, Refused, SwitchesEnd, Fires, EndsAfter, Reported;
    ghost var events, start, active := sim.events, sim.tick, sim.active;
    r, done := SwitchLoop(sim, pairs, maxtick, freq);
    if freq > 0 && Switchable(pairs, active) && sim.drained == old(sim.drained) {
      SwitchesFit(r, sim.tick, |done|, events, start, freq, maxtick);
    }
  }
}
