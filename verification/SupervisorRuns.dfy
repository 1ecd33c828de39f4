/** The supervisor as a protocol: routing, sweeps, actors that stop, restart timers that fire at
    any later time, release and shutdown, in every interleaving. A managed actor keeps its index
    for ever, since a pending timer holds on to it even after its tenant was released. */
module SupervisorRuns {
  import opened Optional
  import opened Supervisor

  datatype State = State(
    objs: seq<Managed>,              // every managed actor ever made
    actors: map<string, nat>,        // the registry: tenant to index
    timers: seq<nat>,                // indices with a pending restart timer
    clock: int,                      // time of the latest sweep
    routed: nat,
    spilled: nat,
    dropped: nat,
    downs: seq<seq<int>>,            // for each actor, the sweeps that found it down
    cutoffs: seq<int>)               // for each actor, the start of its window at its last inspection

  datatype Delivery = Accepted | SpilledOver | Full

  datatype Event =
    | Route(tenant: string, delivery: Delivery)
    | ActorStops(index: nat)
    | Sweep(now: int, jitters: seq<int>)
    | TimerFires(slot: nat)
    | Release(tenant: string)
    | Stop

  function Init(): State {
    State([], map[], [], 0, 0, 0, 0, [], [])
  }

  predicate Shaped(s: State) {
    && |s.downs| == |s.objs| && |s.cutoffs| == |s.objs|
    && (forall t <- s.actors :: s.actors[t] < |s.objs| && s.objs[s.actors[t]].tenant == t)
    && (forall k <- s.timers :: k < |s.objs|)
  }

  predicate Registered(s: State, i: nat)
    requires i < |s.objs|
  {
    var t := s.objs[i].tenant;
    t in s.actors && s.actors[t] == i
  }

  // ---------- steps ----------

  function Deliver(s: State, d: Delivery): State {
    match d
    case Accepted => s.(routed := s.routed + 1)
    case SpilledOver => s.(spilled := s.spilled + 1)
    case Full => s.(dropped := s.dropped + 1)
  }

  function RouteStep(s: State, tenant: string, d: Delivery, c: Config): Option<State>
    requires Shaped(s)
  {
    if tenant in s.actors then
      var m := s.objs[s.actors[tenant]];
      if m.quarantined then Some(s.(dropped := s.dropped + 1))
      else if !m.running then None   // its mailbox is closed: routing to it is out of scope
      else Some(Deliver(s, d))
    else
      var made := s.(
        objs := s.objs + [Managed(tenant, true, [], c.backoffMin, false)],
        actors := s.actors[tenant := |s.objs|],
        downs := s.downs + [[]],
        cutoffs := s.cutoffs + [s.clock - c.window]);
      Some(Deliver(made, d))
  }

  function SweepObjs(s: State, now: int, jitters: seq<int>, c: Config): (r: seq<Managed>)
    requires Shaped(s) && |jitters| == |s.objs|
    ensures |r| == |s.objs|
  {
    seq(|s.objs|, i requires 0 <= i < |s.objs| =>
      if Registered(s, i) then Inspect(s.objs[i], now, jitters[i], c).0 else s.objs[i])
  }

  function SweepDowns(s: State, now: int): (r: seq<seq<int>>)
    requires Shaped(s)
    ensures |r| == |s.objs|
  {
    seq(|s.objs|, i requires 0 <= i < |s.objs| =>
      if Registered(s, i) && !s.objs[i].quarantined && !s.objs[i].running then s.downs[i] + [now] else s.downs[i])
  }

  function SweepCutoffs(s: State, now: int, c: Config): (r: seq<int>)
    requires Shaped(s)
    ensures |r| == |s.objs|
  {
    seq(|s.objs|, i requires 0 <= i < |s.objs| =>
      if Registered(s, i) && !s.objs[i].quarantined then now - c.window else s.cutoffs[i])
  }

  /** The indices below `n` whose restart the sweep schedules. */
  function Scheduled(s: State, now: int, jitters: seq<int>, c: Config, n: nat): (r: seq<nat>)
    requires Shaped(s) && |jitters| == |s.objs| && n <= |s.objs|
    ensures forall k: nat :: k in r <==> k < n && Registered(s, k) && Inspect(s.objs[k], now, jitters[k], c).1
  {
    if n == 0 then []
    else
      Scheduled(s, now, jitters, c, n - 1) +
      if Registered(s, n - 1) && Inspect(s.objs[n - 1], now, jitters[n - 1], c).1 then [n - 1] else []
  }

  function SweepStep(s: State, now: int, jitters: seq<int>, c: Config): Option<State>
    requires Shaped(s)
  {
    if now < s.clock || |jitters| != |s.objs| || exists i | 0 <= i < |s.objs| :: !IsJitter(jitters[i], s.objs[i].backoffNext)
    then None
    else Some(s.(
      objs := SweepObjs(s, now, jitters, c),
      timers := s.timers + Scheduled(s, now, jitters, c, |s.objs|),
      clock := now,
      downs := SweepDowns(s, now),
      cutoffs := SweepCutoffs(s, now, c)))
  }

  /** Stopping the supervisor stops every registered actor and empties the registry. */
  function StoppedObjs(s: State): (r: seq<Managed>)
    requires Shaped(s)
    ensures |r| == |s.objs|
  {
    seq(|s.objs|, i requires 0 <= i < |s.objs| => if Registered(s, i) then s.objs[i].(running := false) else s.objs[i])
  }

  function Step(s: State, e: Event, c: Config): Option<State>
    requires Shaped(s)
  {
    match e
    case Route(t, d) => RouteStep(s, t, d, c)
    case ActorStops(i) =>
      if i < |s.objs| then Some(s.(objs := s.objs[i := s.objs[i].(running := false)])) else None
    case Sweep(now, jitters) => SweepStep(s, now, jitters, c)
    case TimerFires(k) =>
      if k < |s.timers| then
        var i := s.timers[k];
        assert i in s.timers;
        Some(s.(objs := s.objs[i := Restart(s.objs[i])], timers := s.timers[..k] + s.timers[k + 1..]))
      else None
    case Release(t) =>
      if t in s.actors then
        var i := s.actors[t];
        Some(s.(
          objs := s.objs[i := s.objs[i].(quarantined := false, restarts := [], backoffNext := c.backoffMin)],
          actors := s.actors - {t},
          downs := s.downs[i := []]))
      else Some(s)
    case Stop => Some(s.(objs := StoppedObjs(s), actors := map[]))
  }

  // ---------- invariants ----------

  /** One actor: quarantined means down; the restart list is the window of the sweeps that found
      it down; quarantine is exactly too many of them; the backoff stays within its bounds. */
  predicate ObjOk(m: Managed, downs: seq<int>, cutoff: int, clock: int, c: Config) {
    && (m.quarantined ==> !m.running)
    && Sorted(downs) && (forall t <- downs :: t <= clock) && cutoff <= clock - c.window
    && m.restarts == Within(downs, cutoff)
    && (m.quarantined <==> |m.restarts| > c.maxRestarts)
    && c.backoffMin <= m.backoffNext <= c.backoffMax
  }

  predicate Inv(s: State, c: Config) {
    && Shaped(s)
    && forall i | 0 <= i < |s.objs| :: ObjOk(s.objs[i], s.downs[i], s.cutoffs[i], s.clock, c)
  }

  lemma InspectOk(m: Managed, downs: seq<int>, cutoff: int, clock: int, now: int, jitter: int, c: Config)
    requires c.Valid() && ObjOk(m, downs, cutoff, clock, c) && clock <= now && IsJitter(jitter, m.backoffNext)
    ensures var downs' := if !m.quarantined && !m.running then downs + [now] else downs;
            var cutoff' := if m.quarantined then cutoff else now - c.window;
            ObjOk(Inspect(m, now, jitter, c).0, downs', cutoff', now, c)
    ensures m.backoffNext <= Inspect(m, now, jitter, c).0.backoffNext
  {
    hide IsJitter, NextBackoff;
    BackoffGrows(m.backoffNext, c.backoffMax, jitter);
    if !m.quarantined {
      var cut := now - c.window;
      WindowMoves(downs, cutoff, cut, now);
      hide Trim, Within;
      if !m.running {
        LaterDown(downs, clock, now);
      }
    }
  }

  lemma LaterDown(downs: seq<int>, clock: int, now: int)
    requires Sorted(downs) && (forall t <- downs :: t <= clock) && clock <= now
    ensures Sorted(downs + [now]) && forall t <- downs + [now] :: t <= now
  {
    assert forall k | 0 <= k < |downs| :: downs[k] in downs;
  }

  /** Trimming the old window gives the new one. */
  lemma WindowMoves(downs: seq<int>, early: int, late: int, now: int)
    requires Sorted(downs) && early <= late <= now
    ensures Trim(Within(downs, early), late) == Within(downs, late)
    ensures Within(downs + [now], late) == Within(downs, late) + [now]
    ensures |Within(downs, late)| <= |Within(downs, early)|
  {
    WithinSorted(downs, early);
    TrimSorted(Within(downs, early), late);
    WithinTwice(downs, early, late);
    WithinSnoc(downs, now, late);
    WithinShorter(Within(downs, early), late);
  }

  lemma {:induction false} WithinSorted(ts: seq<int>, cutoff: int)
    requires Sorted(ts)
    ensures Sorted(Within(ts, cutoff))
  {
    TrimSorted(ts, cutoff);
  }

  lemma {:induction false} WithinShorter(ts: seq<int>, cutoff: int)
    ensures |Within(ts, cutoff)| <= |ts|
  {
    if ts != [] {
      WithinShorter(ts[1..], cutoff);
    }
  }

  lemma LaterClock(m: Managed, downs: seq<int>, cutoff: int, clock: int, now: int, c: Config)
    requires ObjOk(m, downs, cutoff, clock, c) && clock <= now
    ensures ObjOk(m, downs, cutoff, now, c)
  {}

  lemma StepKeepsShape(s: State, e: Event, c: Config)
    requires Shaped(s) && Step(s, e, c).Some?
    ensures Shaped(Step(s, e, c).value)
  {
    match e
    case Route(t, d) => RouteKeepsShape(s, t, d, c);
    case Sweep(now, jitters) => SweepKeepsShape(s, now, jitters, c);
    case TimerFires(k) => TimerKeepsShape(s, k, c);
    case _ =>
  }

  /** A route leaves every object in place and makes at most one, for its own tenant. */
  lemma RouteKeepsObjs(s: State, t: string, d: Delivery, c: Config)
    requires Shaped(s) && RouteStep(s, t, d, c).Some?
    ensures var n := RouteStep(s, t, d, c).value;
            && n.timers == s.timers && |n.downs| == |n.cutoffs| == |n.objs|
            && if t in s.actors then n.objs == s.objs && n.actors == s.actors
               else n.objs == s.objs + [Managed(t, true, [], c.backoffMin, false)] && n.actors == s.actors[t := |s.objs|]
  {}

  lemma RouteKeepsShape(s: State, t: string, d: Delivery, c: Config)
    requires Shaped(s) && RouteStep(s, t, d, c).Some?
    ensures Shaped(RouteStep(s, t, d, c).value)
  {
    RouteKeepsObjs(s, t, d, c);
    hide RouteStep;
  }

  lemma SweepKeepsShape(s: State, now: int, jitters: seq<int>, c: Config)
    requires Shaped(s) && SweepStep(s, now, jitters, c).Some?
    ensures Shaped(SweepStep(s, now, jitters, c).value)
  {}

  lemma TimerKeepsShape(s: State, k: nat, c: Config)
    requires Shaped(s) && k < |s.timers|
    ensures Shaped(Step(s, TimerFires(k), c).value)
  {
    var n := Step(s, TimerFires(k), c).value;
    assert n.timers == s.timers[..k] + s.timers[k + 1..];
    assert s.timers[k] in s.timers && forall i <- n.timers :: i in s.timers;
    assert forall i | 0 <= i < |s.objs| :: n.objs[i].tenant == s.objs[i].tenant;
  }

  lemma SweepKeepsObjs(s: State, now: int, jitters: seq<int>, c: Config)
    requires c.Valid() && Inv(s, c) && SweepStep(s, now, jitters, c).Some?
    ensures var n := SweepStep(s, now, jitters, c).value;
            forall i | 0 <= i < |n.objs| ::
              ObjOk(n.objs[i], n.downs[i], n.cutoffs[i], n.clock, c) && s.objs[i].backoffNext <= n.objs[i].backoffNext
  {
    hide Inspect, IsJitter, ObjOk;
    var n := SweepStep(s, now, jitters, c).value;
    forall i | 0 <= i < |n.objs|
      ensures ObjOk(n.objs[i], n.downs[i], n.cutoffs[i], n.clock, c) && s.objs[i].backoffNext <= n.objs[i].backoffNext
    {
      assert ObjOk(s.objs[i], s.downs[i], s.cutoffs[i], s.clock, c);
      if Registered(s, i) {
        InspectOk(s.objs[i], s.downs[i], s.cutoffs[i], s.clock, now, jitters[i], c);
      } else {
        LaterClock(s.objs[i], s.downs[i], s.cutoffs[i], s.clock, now, c);
      }
    }
  }

  /** What can happen to an actor between sweeps: it stops, a timer starts it, it is released. */
  lemma OkMoves(m: Managed, downs: seq<int>, cutoff: int, clock: int, c: Config)
    requires c.Valid() && ObjOk(m, downs, cutoff, clock, c)
    ensures ObjOk(m.(running := false), downs, cutoff, clock, c) && ObjOk(Restart(m), downs, cutoff, clock, c)
    ensures ObjOk(m.(quarantined := false, restarts := [], backoffNext := c.backoffMin), [], cutoff, clock, c)
  {}

  lemma OkFresh(t: string, clock: int, c: Config)
    requires c.Valid()
    ensures ObjOk(Managed(t, true, [], c.backoffMin, false), [], clock - c.window, clock, c)
  {}

  lemma OtherStepKeepsObjs(s: State, e: Event, c: Config)
    requires c.Valid() && Inv(s, c) && Step(s, e, c).Some? && !e.Sweep?
    ensures Shaped(Step(s, e, c).value)
    ensures var n := Step(s, e, c).value;
            forall i | 0 <= i < |n.objs| :: ObjOk(n.objs[i], n.downs[i], n.cutoffs[i], n.clock, c)
  {
    StepKeepsShape(s, e, c);
    hide ObjOk, Restart, SweepStep;
    var n := Step(s, e, c).value;
    forall i | 0 <= i < |n.objs| ensures ObjOk(n.objs[i], n.downs[i], n.cutoffs[i], n.clock, c) {
      if i < |s.objs| {
        assert ObjOk(s.objs[i], s.downs[i], s.cutoffs[i], s.clock, c);
        OkMoves(s.objs[i], s.downs[i], s.cutoffs[i], s.clock, c);
      } else {
        OkFresh(e.tenant, s.clock, c);
      }
    }
  }

  /** Every step keeps the invariant of every actor. */
  lemma StepKeepsInv(s: State, e: Event, c: Config)
    requires c.Valid() && Inv(s, c) && Step(s, e, c).Some?
    ensures Inv(Step(s, e, c).value, c)
  {
    StepKeepsShape(s, e, c);
    hide ObjOk, Shaped;
    if e.Sweep? {
      SweepKeepsObjs(s, e.now, e.jitters, c);
    } else {
      OtherStepKeepsObjs(s, e, c);
    }
  }

  /** Only a release or shutdown can shrink a backoff, and a release only that of its own tenant. */
  lemma BackoffNeverShrinks(s: State, e: Event, c: Config, i: nat)
    requires c.Valid() && Inv(s, c) && Step(s, e, c).Some? && i < |s.objs|
    requires !(e.Release? && e.tenant in s.actors && s.actors[e.tenant] == i)
    ensures i < |Step(s, e, c).value.objs|
    ensures s.objs[i].backoffNext <= Step(s, e, c).value.objs[i].backoffNext <= c.backoffMax
  {
    hide Inspect, IsJitter;
    if e.Sweep? {
      SweepKeepsObjs(s, e.now, e.jitters, c);
    }
    StepKeepsInv(s, e, c);
  }

  function Run(s: State, events: seq<Event>, c: Config): (r: Option<State>)
    requires Shaped(s)
    ensures r.Some? ==> Shaped(r.value)
    decreases |events|
  {
    if events == [] then Some(s)
    else
      match Run(s, events[..|events| - 1], c)
      case None => None
      case Some(prev) =>
        var n := Step(prev, events[|events| - 1], c);
        if n.Some? then StepKeepsShape(prev, events[|events| - 1], c); n else None
  }

  /** Every reachable state satisfies the invariant. */
  lemma {:induction false} RunKeepsInv(s: State, events: seq<Event>, c: Config)
    requires c.Valid() && Shaped(s) && Inv(s, c) && Run(s, events, c).Some?
    ensures Inv(Run(s, events, c).value, c)
    decreases |events|
  {
    hide Inv, Step;
    if events != [] {
      var before := events[..|events| - 1];
      RunKeepsInv(s, before, c);
      StepKeepsInv(Run(s, before, c).value, events[|events| - 1], c);
    }
  }

  lemma ReachableInv(events: seq<Event>, c: Config)
    requires c.Valid() && Run(Init(), events, c).Some?
    ensures Inv(Run(Init(), events, c).value, c)
  {
    RunKeepsInv(Init(), events, c);
  }

  // ---------- quarantine ----------

  predicate Quarantined(s: State, t: string)
    requires Shaped(s)
  {
    t in s.actors && s.objs[s.actors[t]].quarantined
  }

  function RoutesTo(events: seq<Event>, t: string): nat {
    if events == [] then 0
    else
      RoutesTo(events[..|events| - 1], t) +
      if events[|events| - 1].Route? && events[|events| - 1].tenant == t then 1 else 0
  }

  lemma QuarantineStep(s: State, e: Event, c: Config, t: string)
    requires c.Valid() && Inv(s, c) && Quarantined(s, t) && Step(s, e, c).Some?
    requires e != Stop && e != Release(t)
    ensures var n := Step(s, e, c).value;
            && Inv(n, c) && Quarantined(n, t) && n.actors[t] == s.actors[t] && !n.objs[n.actors[t]].running
            && n.dropped >= s.dropped
            && (e.Route? && e.tenant == t ==>
                  n == s.(dropped := s.dropped + 1))
  {
    StepKeepsInv(s, e, c);
    hide Inv, NextBackoff, IsJitter, Trim;
    var n, i := Step(s, e, c).value, s.actors[t];
    assert Registered(s, i);
    match e
    case Sweep(now, jitters) => assert n.objs[i] == s.objs[i];
    case _ =>
    QuarantinedIsDown(n, c, t);
  }

  /** Until it is released or the supervisor stops, a quarantined tenant stays quarantined, its
      actor stays down through every pending timer, and each of its signals counts as dropped. */
  lemma {:induction false} QuarantineHolds(s: State, events: seq<Event>, c: Config, t: string)
    requires c.Valid() && Shaped(s) && Inv(s, c) && Quarantined(s, t) && Run(s, events, c).Some?
    requires Stop !in events && Release(t) !in events
    ensures var n := Run(s, events, c).value;
            && Quarantined(n, t) && n.actors[t] == s.actors[t] && !n.objs[n.actors[t]].running
            && n.dropped >= s.dropped + RoutesTo(events, t)
    decreases |events|
  {
    hide Step, Inv;
    if events == [] {
      QuarantinedIsDown(s, c, t);
    } else {
      var before, e := events[..|events| - 1], events[|events| - 1];
      assert e in events && forall x <- before :: x in events;
      QuarantineHolds(s, before, c, t);
      RunKeepsInv(s, before, c);
      QuarantineStep(Run(s, before, c).value, e, c, t);
    }
  }

  lemma QuarantinedIsDown(s: State, c: Config, t: string)
    requires Inv(s, c) && Quarantined(s, t)
    ensures !s.objs[s.actors[t]].running
  {}

  // ---------- one live actor per tenant ----------

  /** Nothing outside the registry runs. */
  predicate Exclusive(s: State)
    requires Shaped(s)
  {
    forall i | 0 <= i < |s.objs| && s.objs[i].running :: Registered(s, i)
  }

  /** No pending timer can start anything outside the registry. */
  predicate TimersRegistered(s: State)
    requires Shaped(s)
  {
    forall k <- s.timers :: Registered(s, k)
  }

  ghost predicate OneLiveActorEach(s: State) {
    forall i, j | 0 <= i < |s.objs| && 0 <= j < |s.objs| && s.objs[i].running && s.objs[j].running
                  && s.objs[i].tenant == s.objs[j].tenant :: i == j
  }

  /** A release is safe when the tenant's actor is down and no restart timer is pending for it. */
  predicate SafeRelease(s: State, t: string)
    requires Shaped(s)
  {
    t in s.actors ==> !s.objs[s.actors[t]].running && s.actors[t] !in s.timers
  }

  /** The pending timer in this slot, if there is one, belongs to a registered actor. */
  predicate FiresRegistered(s: State, slot: nat)
    requires Shaped(s)
  {
    slot < |s.timers| ==>
      var i := s.timers[slot];
      assert i in s.timers;
      Registered(s, i)
  }

  lemma StepKeepsExclusive(s: State, e: Event, c: Config)
    requires Shaped(s) && Exclusive(s) && Step(s, e, c).Some?
    requires e.Release? ==> SafeRelease(s, e.tenant)
    requires e.TimerFires? ==> FiresRegistered(s, e.slot)
    ensures Shaped(Step(s, e, c).value) && Exclusive(Step(s, e, c).value)
  {
    StepKeepsShape(s, e, c);
    hide Inspect, IsJitter;
    var n := Step(s, e, c).value;
    match e
    case Route(t, d) => RouteKeepsRegistered(s, t, d, c);
    case TimerFires(_) => assert forall i | 0 <= i < |s.objs| :: Registered(n, i) <==> Registered(s, i);
    case _ =>
  }

  lemma StepKeepsTimers(s: State, e: Event, c: Config)
    requires Shaped(s) && TimersRegistered(s) && Step(s, e, c).Some? && e != Stop
    requires e.Release? ==> SafeRelease(s, e.tenant)
    ensures Shaped(Step(s, e, c).value) && TimersRegistered(Step(s, e, c).value)
  {
    StepKeepsShape(s, e, c);
    hide Inspect, IsJitter;
    var n := Step(s, e, c).value;
    match e
    case Route(t, d) => RouteKeepsRegistered(s, t, d, c);
    case TimerFires(_) => assert forall i <- n.timers :: i in s.timers;
    case _ =>
  }

  lemma RouteKeepsRegistered(s: State, t: string, d: Delivery, c: Config)
    requires Shaped(s) && RouteStep(s, t, d, c).Some?
    ensures var n := RouteStep(s, t, d, c).value;
            && Shaped(n) && |s.objs| <= |n.objs| && n.timers == s.timers
            && (forall i | 0 <= i < |s.objs| :: n.objs[i] == s.objs[i] && (Registered(s, i) ==> Registered(n, i)))
            && (forall i | |s.objs| <= i < |n.objs| :: Registered(n, i))
  {
    RouteKeepsShape(s, t, d, c);
    RouteKeepsObjs(s, t, d, c);
    hide RouteStep;
  }

  /** Every release is of a tenant whose actor is down with no timer pending; and once the supervisor
      has stopped, which cancels the pending timers, those of before do not fire any more. */
  predicate SafeRun(s: State, events: seq<Event>, c: Config)
    requires Shaped(s)
    decreases |events|
  {
    events != [] ==>
      var before, e := events[..|events| - 1], events[|events| - 1];
      && SafeRun(s, before, c)
      && var prev := Run(s, before, c);
      prev.Some? ==>
        && (e.Release? ==> SafeRelease(prev.value, e.tenant))
        && (e.TimerFires? && Stop in before ==> FiresRegistered(prev.value, e.slot))
  }

  lemma {:induction false} SafeRunsStayExclusive(events: seq<Event>, c: Config)
    requires Run(Init(), events, c).Some? && SafeRun(Init(), events, c)
    ensures Exclusive(Run(Init(), events, c).value)
    ensures Stop !in events ==> TimersRegistered(Run(Init(), events, c).value)
    decreases |events|
  {
    if events != [] {
      var before, e := events[..|events| - 1], events[|events| - 1];
      SafeRunsStayExclusive(before, c);
      var prev := Run(Init(), before, c).value;
      hide Step, Registered, Exclusive;
      StepKeepsExclusive(prev, e, c);
      if Stop !in events {
        assert e in events && forall x <- before :: x in events;
        StepKeepsTimers(prev, e, c);
      }
    }
  }

  /** In every such run, shutdowns included, no tenant ever has two live actors, and a quarantined
      tenant has none at all. */
  lemma SafeRunsKeepOneActor(events: seq<Event>, c: Config)
    requires c.Valid() && Run(Init(), events, c).Some? && SafeRun(Init(), events, c)
    ensures var s := Run(Init(), events, c).value;
            && OneLiveActorEach(s)
            && forall t, i | Quarantined(s, t) && 0 <= i < |s.objs| && s.objs[i].tenant == t :: !s.objs[i].running
  {
    SafeRunsStayExclusive(events, c);
    hide Step, Inv, Run, SafeRun;
    var s := Run(Init(), events, c).value;
    ReachableInv(events, c);
    forall t, i | Quarantined(s, t) && 0 <= i < |s.objs| && s.objs[i].tenant == t ensures !s.objs[i].running {
      QuarantinedIsDown(s, c, t);
      assert s.objs[i].running ==> Registered(s, i);
    }
  }

  /** The condition is needed: after any unsafe release, some continuation gives the tenant two
      live actors, once a new signal is routed and, if the old actor was down, its timer fires. */
  lemma UnsafeReleaseBreaksIt(s: State, c: Config, t: string)
    requires c.Valid() && Inv(s, c) && t in s.actors && !SafeRelease(s, t)
    ensures exists events ::
              Run(s, [Release(t)] + events, c).Some? && !OneLiveActorEach(Run(s, [Release(t)] + events, c).value)
  {
    var i := s.actors[t];
    var s1 := Step(s, Release(t), c).value;
    StepKeepsShape(s, Release(t), c);
    var s2 := Step(s1, Route(t, Accepted), c).value;
    StepKeepsShape(s1, Route(t, Accepted), c);
    assert s2.objs[|s.objs|] == Managed(t, true, [], c.backoffMin, false);
    RunOne(s, Release(t), c);
    if s.objs[i].running {
      assert s2.objs[i].running && s2.objs[i].tenant == t;
      assert [Release(t)] + [Route(t, Accepted)] == [Release(t)] + [Route(t, Accepted)];
      assert !OneLiveActorEach(s2);
    } else {
      var k :| 0 <= k < |s.timers| && s.timers[k] == i;
      var s3 := Step(s2, TimerFires(k), c).value;
      assert s3.objs[i].running && s3.objs[i].tenant == t;
      assert s3.objs[|s.objs|].running && s3.objs[|s.objs|].tenant == t;
      assert !OneLiveActorEach(s3);
      assert [Release(t)] + [Route(t, Accepted)] + [TimerFires(k)] == [Release(t)] + [Route(t, Accepted), TimerFires(k)];
    }
  }

  lemma RunOne(s: State, e: Event, c: Config)
    requires Shaped(s) && Step(s, e, c).Some?
    ensures Run(s, [e], c) == Step(s, e, c)
  {}
}
