/** The tenant-actor supervisor (pkg/supervisor/supervisor.go): restarts with backoff, the sliding
    restart window, quarantine and release, with pending restart timers as separate steps.
    Times and durations are integers; the random jitter is a parameter. */
module Supervisor {
  // ---------- backoff ----------

  const TWO63: int := 0x8000_0000_0000_0000

  /** 64-bit wrap-around of one addition or doubling. */
  function Wrap(x: int): int {
    if x >= TWO63 then x - 2 * TWO63 else if x < -TWO63 then x + 2 * TWO63 else x
  }

  /** At most a fifth of the doubled delay, either way. */
  predicate IsJitter(jitter: int, curr: int) {
    -Abs(Wrap(curr * 2)) <= 5 * jitter <= Abs(Wrap(curr * 2))
  }

  function Abs(x: int): int {
    if x < 0 then -x else x
  }

  function NextBackoff(curr: int, max: int, jitter: int): int {
    var next := Wrap(Wrap(curr * 2) + jitter);
    var capped := if next > max then max else next;
    if capped < 0 then curr else capped
  }

  /** The delay never shrinks and never passes the maximum, even when doubling overflows. */
  lemma BackoffGrows(curr: int, max: int, jitter: int)
    requires 0 < curr <= max < TWO63 && IsJitter(jitter, curr)
    ensures curr <= NextBackoff(curr, max, jitter) <= max
  {}

  // ---------- the restart window ----------

  predicate Sorted(ts: seq<int>) {
    forall i, j | 0 <= i < j < |ts| :: ts[i] <= ts[j]
  }

  /** trimBefore: drop the leading times before the cutoff. */
  function Trim(ts: seq<int>, cutoff: int): seq<int> {
    if ts != [] && ts[0] < cutoff then Trim(ts[1..], cutoff) else ts
  }

  /** The times at or after the cutoff. */
  function Within(ts: seq<int>, cutoff: int): seq<int> {
    if ts == [] then [] else (if ts[0] >= cutoff then [ts[0]] else []) + Within(ts[1..], cutoff)
  }

  method TrimBefore(ts: seq<int>, cutoff: int) returns (out: seq<int>)
    ensures out == Trim(ts, cutoff)
  {
    var i := 0;
    assert ts[0..] == ts;
    while i < |ts| && ts[i] < cutoff
      invariant 0 <= i <= |ts|
      invariant Trim(ts[i..], cutoff) == Trim(ts, cutoff)
    {
      assert ts[i..][1..] == ts[i + 1..];
      i := i + 1;
    }
    return ts[i..];
  }

  lemma {:induction false} TrimSorted(ts: seq<int>, cutoff: int)
    requires Sorted(ts)
    ensures Trim(ts, cutoff) == Within(ts, cutoff) && Sorted(Within(ts, cutoff))
  {
    if ts != [] {
      TrimSorted(ts[1..], cutoff);
      if ts[0] >= cutoff {
        WithinAll(ts, cutoff);
      }
    }
  }

  lemma {:induction false} WithinAll(ts: seq<int>, cutoff: int)
    requires forall t <- ts :: t >= cutoff
    ensures Within(ts, cutoff) == ts
  {
    if ts != [] {
      assert ts[0] in ts && forall t <- ts[1..] :: t in ts;
      WithinAll(ts[1..], cutoff);
      assert ts == [ts[0]] + ts[1..];
    }
  }

  lemma {:induction false} WithinTwice(ts: seq<int>, early: int, late: int)
    requires early <= late
    ensures Within(Within(ts, early), late) == Within(ts, late)
  {
    if ts != [] {
      var rest := Within(ts[1..], early);
      WithinTwice(ts[1..], early, late);
      if ts[0] >= early {
        assert ([ts[0]] + rest)[1..] == rest;
      } else {
        assert [] + rest == rest;
      }
    }
  }

  lemma {:induction false} WithinSnoc(ts: seq<int>, t: int, cutoff: int)
    requires t >= cutoff
    ensures Within(ts + [t], cutoff) == Within(ts, cutoff) + [t]
  {
    if ts == [] {
      assert [] + [t] == [t];
    } else {
      WithinSnoc(ts[1..], t, cutoff);
      assert (ts + [t])[1..] == ts[1..] + [t];
    }
  }

  // ---------- one managed actor ----------

  datatype Config = Config(maxRestarts: nat, window: nat, backoffMin: int, backoffMax: int) {
    predicate Valid() {
      0 < backoffMin <= backoffMax < TWO63
    }
  }

  datatype Managed = Managed(tenant: string, running: bool, restarts: seq<int>, backoffNext: int, quarantined: bool)

  /** What one sweep does to one registered actor, and whether it schedules a restart. */
  function Inspect(m: Managed, now: int, jitter: int, c: Config): (r: (Managed, bool)) {
    var cutoff := now - c.window;
    if m.quarantined then (m, false)
    else if m.running then (m.(restarts := Trim(m.restarts, cutoff)), false)
    else
      var restarts := Trim(m.restarts, cutoff) + [now];
      if |restarts| > c.maxRestarts then (m.(restarts := restarts, quarantined := true), false)
      else (m.(restarts := restarts, backoffNext := NextBackoff(m.backoffNext, c.backoffMax, jitter)), true)
  }

  /** restartActor: what a firing timer does. */
  function Restart(m: Managed): Managed {
    if m.quarantined || m.running then m else m.(running := true)
  }

  class ManagedActor {
    const tenant: string
    var running: bool
    var restarts: seq<int>
    var backoffNext: int
    var quarantined: bool

    constructor (tenant: string, backoffMin: int)
      ensures this.tenant == tenant && Value() == Managed(tenant, true, [], backoffMin, false)
    {
      this.tenant, running, restarts, backoffNext, quarantined := tenant, true, [], backoffMin, false;
    }

    function Value(): Managed
      reads this
    {
      Managed(tenant, running, restarts, backoffNext, quarantined)
    }

    method Sweep(now: int, jitter: int, c: Config) returns (schedule: bool)
      modifies this
      ensures (Value(), schedule) == Inspect(old(Value()), now, jitter, c)
    {
      var cutoff := now - c.window;
      if quarantined {
        return false;
      }
      restarts := TrimBefore(restarts, cutoff);
      if running {
        return false;
      }
      restarts := restarts + [now];
      if |restarts| > c.maxRestarts {
        quarantined := true;
        return false;
      }
      backoffNext := NextBackoff(backoffNext, c.backoffMax, jitter);
      return true;
    }

    method Fire()
      modifies this`running
      ensures Value() == Restart(old(Value()))
    {
      if !quarantined && !running {
        running := true;
      }
    }

    method Release(backoffMin: int)
      modifies this
      ensures Value() == old(Value()).(quarantined := false, restarts := [], backoffNext := backoffMin)
    {
      quarantined, restarts, backoffNext := false, [], backoffMin;
    }
  }

  /** The registry of a supervisor: one actor object per tenant. */
  class Registry {
    const c: Config
    var actors: map<string, ManagedActor>
    var routed: nat
    var spilled: nat
    var dropped: nat

    constructor (c: Config)
      ensures this.c == c && actors == map[] && routed == spilled == dropped == 0 && Valid()
    {
      this.c, actors, routed, spilled, dropped := c, map[], 0, 0, 0;
    }

    ghost predicate Valid()
      reads this
    {
      forall t <- actors :: actors[t].tenant == t
    }

    /** getOrCreate: nil for a quarantined tenant, otherwise its actor, made on first use. */
    method GetOrCreate(tenant: string) returns (m: ManagedActor?)
      requires Valid()
      modifies this`actors
      ensures Valid() && (tenant in old(actors) ==> actors == old(actors))
      ensures tenant in old(actors) ==> m == if actors[tenant].quarantined then null else actors[tenant]
      ensures tenant !in old(actors) ==> m != null && fresh(m) && actors == old(actors)[tenant := m]
                                          && m.Value() == Managed(tenant, true, [], c.backoffMin, false)
    {
      if tenant in actors {
        m := actors[tenant];
        if m.quarantined {
          m := null;
        }
        return;
      }
      m := new ManagedActor(tenant, c.backoffMin);
      actors := actors[tenant := m];
    }

    /** RouteToTenant: each signal is counted once, and a quarantined tenant's always as dropped. */
    method RouteToTenant(tenant: string, mailboxFull: bool, spills: bool)
      requires Valid()
      modifies this
      ensures Valid() && routed + spilled + dropped == old(routed + spilled + dropped) + 1
      ensures tenant in old(actors) ==> actors == old(actors)
      ensures tenant !in old(actors) ==> actors.Keys == old(actors).Keys + {tenant}
      ensures tenant in old(actors) && old(actors)[tenant].quarantined ==> dropped == old(dropped) + 1
      ensures !(tenant in old(actors) && old(actors)[tenant].quarantined) ==>
                && routed == old(routed) + (if mailboxFull then 0 else 1)
                && spilled == old(spilled) + (if mailboxFull && spills then 1 else 0)
    {
      var m := GetOrCreate(tenant);
      if m == null {
        dropped := dropped + 1;
        return;
      }
      if !mailboxFull {
        routed := routed + 1;
      } else if spills {
        spilled := spilled + 1;
      } else {
        dropped := dropped + 1;
      }
    }

    /** sweep: inspect every registered actor once; `due` are the tenants it schedules a restart for. */
    method SweepAll(now: int, jitter: string -> int) returns (due: set<string>)
      requires Valid()
      modifies actors.Values
      ensures Valid()
      ensures forall t <- actors :: actors[t].Value() == Inspect(old(actors[t].Value()), now, jitter(t), c).0
      ensures due == set t | t in actors && Inspect(old(actors[t].Value()), now, jitter(t), c).1
    {
      hide Inspect;
      var left := actors.Keys;
      due := {};
      while left != {}
        invariant left <= actors.Keys
        invariant forall t <- actors | t !in left :: actors[t].Value() == Inspect(old(actors[t].Value()), now, jitter(t), c).0
        invariant forall t <- left :: actors[t].Value() == old(actors[t].Value())
        invariant due == set t | t in actors && t !in left && Inspect(old(actors[t].Value()), now, jitter(t), c).1
        decreases left
      {
        var t :| t in left;
        var m := actors[t];
        var schedule := m.Sweep(now, jitter(t), c);
        if schedule {
          due := due + {t};
        }
        left := left - {t};
      }
    }

    /** ReleaseQuarantine: reset the actor and forget it. */
    method ReleaseQuarantine(tenant: string)
      requires Valid()
      modifies `actors, if tenant in actors then {actors[tenant]} else {}
      ensures Valid() && actors == old(actors) - {tenant}
      ensures tenant in old(actors) ==>
                old(actors)[tenant].Value() ==
                old(actors[tenant].Value()).(quarantined := false, restarts := [], backoffNext := c.backoffMin)
    {
      if tenant in actors {
        actors[tenant].Release(c.backoffMin);
        actors := actors - {tenant};
      }
    }
  }
}
