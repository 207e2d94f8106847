// Drain epochs: the cooldown-limited trigger and the per-connection drain decision
// (src/http_server_class.c:1538-1629, src/core/http_connection.c:3080-3111,
// src/http3/http3_connection.c:545-563).
module Drain {
  import opened Common
  import opened Codel

  // ------------------------------------------------------------------ trigger

  // `lastFired` 0 means never fired.
  datatype Epochs = Epochs(current: nat, lastFired: nat, cooldown: nat, fired: nat, blocked: nat)

  predicate Blocks(e: Epochs, now: nat)
    requires e.lastFired <= UINT64_MAX && now <= UINT64_MAX
  {
    e.cooldown > 0 && e.lastFired != 0 && Elapsed(now, e.lastFired) < e.cooldown
  }

  function Triggered(e: Epochs, now: nat): (r: Epochs)
    requires e.lastFired <= UINT64_MAX && now <= UINT64_MAX
    ensures r.lastFired <= UINT64_MAX
  {
    if Blocks(e, now) then e.(blocked := e.blocked + 1)
    else e.(current := e.current + 1, lastFired := now, fired := e.fired + 1)
  }

  // Trigger times: positive, never decreasing, on the 64-bit clock.
  predicate Clocked(times: seq<nat>)
  {
    && (forall i :: 0 <= i < |times| ==> 0 < times[i] <= UINT64_MAX)
    && (forall i, j :: 0 <= i <= j < |times| ==> times[i] <= times[j])
  }

  function Start(cooldown: nat): Epochs { Epochs(0, 0, cooldown, 0, 0) }

  function Run(cooldown: nat, times: seq<nat>): (e: Epochs)
    requires Clocked(times)
    ensures e.lastFired <= UINT64_MAX
  {
    if times == [] then Start(cooldown) else Triggered(Run(cooldown, times[..|times| - 1]), times[|times| - 1])
  }

  // The times at which the epoch went up.
  function Bumps(cooldown: nat, times: seq<nat>): seq<nat>
    requires Clocked(times)
  {
    if times == [] then []
    else
      var front, now := times[..|times| - 1], times[|times| - 1];
      if Blocks(Run(cooldown, front), now) then Bumps(cooldown, front) else Bumps(cooldown, front) + [now]
  }

  predicate Spaced(bumps: seq<nat>, cooldown: nat)
  {
    forall i :: 0 < i < |bumps| ==> bumps[i - 1] + cooldown <= bumps[i]
  }

  // Every trigger is counted once, as fired or as blocked; the epoch counts the bumps; and
  // consecutive bumps are at least one cooldown apart.
  lemma {:induction false} BumpsAreSpaced(cooldown: nat, times: seq<nat>)
    requires Clocked(times)
    ensures var e := Run(cooldown, times);
            && e.cooldown == cooldown && e.fired + e.blocked == |times|
            && e.current == e.fired == |Bumps(cooldown, times)|
            && e.lastFired == (if Bumps(cooldown, times) == [] then 0 else Bumps(cooldown, times)[|Bumps(cooldown, times)| - 1])
            && (times == [] ==> e.lastFired == 0) && (times != [] ==> e.lastFired <= times[|times| - 1])
    ensures Spaced(Bumps(cooldown, times), cooldown)
  {
    if times != [] {
      BumpsAreSpaced(cooldown, times[..|times| - 1]);
    }
  }

  // No bump is later than the last one, nor than the present.
  predicate UpTo(bumps: seq<nat>, now: nat)
  {
    && (forall i :: 0 <= i < |bumps| ==> bumps[i] <= bumps[|bumps| - 1])
    && (bumps != [] ==> 0 < bumps[|bumps| - 1] <= now)
  }

  lemma {:induction false} BumpsUpTo(cooldown: nat, times: seq<nat>, now: nat)
    requires Clocked(times) && 0 < now && (times != [] ==> times[|times| - 1] <= now)
    ensures UpTo(Bumps(cooldown, times), now)
  {
    if times != [] {
      var front, last := times[..|times| - 1], times[|times| - 1];
      assert front != [] ==> front[|front| - 1] == times[|times| - 2];
      BumpsUpTo(cooldown, front, last);
    }
  }

  // A trigger bumps the epoch exactly when no earlier bump lies within the cooldown.
  lemma {:induction false} BumpsExactly(cooldown: nat, times: seq<nat>, now: nat)
    requires Clocked(times) && Clocked(times + [now])
    ensures Run(cooldown, times + [now]).current
            == Run(cooldown, times).current + if forall b :: b in Bumps(cooldown, times) ==> b + cooldown <= now then 1 else 0
  {
    var bumps, all := Bumps(cooldown, times), times + [now];
    assert all[..|times|] == times && all[|times|] == now && (times != [] ==> all[|times| - 1] == times[|times| - 1]);
    BumpsAreSpaced(cooldown, times);
    BumpsUpTo(cooldown, times, now);
    if bumps != [] {
      assert bumps[|bumps| - 1] in bumps;
    }
  }

  // --------------------------------------------------------------- connection

  const NEVER: nat := UINT64_MAX   // no drain time set

  datatype Conn = Conn(pending: bool, notBefore: nat, epochSeen: nat)

  datatype Tally = Tally(proactive: nat, reactive: nat)

  // One evaluation: the connection and the counters after it. `aging` says that a maximum
  // connection age is configured.
  function Evaluated(c: Conn, t: Tally, aging: bool, epoch: nat, now: nat): (Conn, Tally)
  {
    var due := !c.pending && aging && c.notBefore != NEVER && now >= c.notBefore;
    var c1 := if due then c.(pending := true) else c;
    var t1 := if due then t.(proactive := t.proactive + 1) else t;
    if c1.epochSeen < epoch then
      if c1.pending then (c1.(epochSeen := epoch), t1)
      else (Conn(true, now, epoch), t1.(reactive := t1.reactive + 1))
    else (c1, t1)
  }

  predicate Drains(c: Conn, now: nat) { c.pending && c.notBefore != NEVER && now >= c.notBefore }

  // The decision as computed, field by field: the new connection state and counters, and the
  // verdict.
  method Evaluate(c: Conn, t: Tally, aging: bool, epoch: nat, now: nat) returns (r: Conn, u: Tally, drain: bool)
    ensures (r, u) == Evaluated(c, t, aging, epoch, now) && drain == Drains(r, now)
    ensures r.pending && !c.pending && now < NEVER ==> drain && Total(u) == Total(t) + 1
    ensures c.pending ==> r.pending && r.notBefore == c.notBefore && u == t
  {
    r, u := c, t;
    if !r.pending && aging && r.notBefore != NEVER && now >= r.notBefore {
      r := r.(pending := true);
      u := u.(proactive := u.proactive + 1);
    }
    if r.epochSeen < epoch {
      r := r.(epochSeen := epoch);
      if !r.pending {
        r := r.(pending := true, notBefore := now);
        u := u.(reactive := u.reactive + 1);
      }
    }
    drain := r.pending && r.notBefore != NEVER && now >= r.notBefore;
  }

  // An evaluation as the connection meets it: the epoch and the time never go back.
  datatype Look = Look(epoch: nat, now: nat)

  predicate Ordered(looks: seq<Look>)
  {
    && (forall i :: 0 <= i < |looks| ==> looks[i].now < NEVER)
    && (forall i, j :: 0 <= i <= j < |looks| ==> looks[i].now <= looks[j].now && looks[i].epoch <= looks[j].epoch)
  }

  function Looked(c: Conn, t: Tally, aging: bool, looks: seq<Look>): (Conn, Tally)
  {
    if looks == [] then (c, t)
    else
      var (c1, t1) := Looked(c, t, aging, looks[..|looks| - 1]);
      Evaluated(c1, t1, aging, looks[|looks| - 1].epoch, looks[|looks| - 1].now)
  }

  function Total(t: Tally): nat { t.proactive + t.reactive }

  // A connection enters draining at most once, is counted exactly once when it does, and
  // answers "drain" at that evaluation and at every later one.
  lemma {:induction false} DrainsOnce(c: Conn, t: Tally, aging: bool, looks: seq<Look>)
    requires !c.pending && Ordered(looks)
    ensures var (r, u) := Looked(c, t, aging, looks);
            && Total(u) == Total(t) + (if r.pending then 1 else 0)
            && (r.pending ==> looks != [] && r.notBefore <= looks[|looks| - 1].now)
            && (looks != [] ==> (Drains(r, looks[|looks| - 1].now) <==> r.pending))
            && (!r.pending ==> r.notBefore == c.notBefore && r.epochSeen == c.epochSeen)
  {
    if looks != [] {
      DrainsOnce(c, t, aging, looks[..|looks| - 1]);
    }
  }

  // What calls for draining at one evaluation: a maximum age that is reached, or an epoch the
  // connection has not seen.
  predicate CallsFor(c: Conn, aging: bool, look: Look)
  {
    (aging && c.notBefore != NEVER && look.now >= c.notBefore) || c.epochSeen < look.epoch
  }

  // A connection is draining exactly when some evaluation called for it.
  lemma {:induction false} DrainsExactly(c: Conn, t: Tally, aging: bool, looks: seq<Look>)
    requires !c.pending && Ordered(looks)
    ensures Looked(c, t, aging, looks).0.pending <==> exists i :: 0 <= i < |looks| && CallsFor(c, aging, looks[i])
  {
    if looks != [] {
      var front := looks[..|looks| - 1];
      DrainsExactly(c, t, aging, front);
      DrainsOnce(c, t, aging, front);
      assert forall i :: 0 <= i < |front| ==> front[i] == looks[i];
    }
  }

  // Draining is for good.
  lemma {:induction false} DrainingStays(c: Conn, t: Tally, aging: bool, looks: seq<Look>, k: nat)
    requires !c.pending && Ordered(looks) && k <= |looks| && Looked(c, t, aging, looks[..k]).0.pending
    ensures Looked(c, t, aging, looks).0.pending
    decreases |looks| - k
  {
    if k < |looks| {
      assert looks[..|looks| - 1][..k] == looks[..k];
      DrainingStays(c, t, aging, looks[..|looks| - 1], k);
    } else {
      assert looks[..k] == looks;
    }
  }

  // ------------------------------------------------------------------ stamps

  // The epoch a new connection starts from: HTTP/1 and HTTP/2 take the current one, HTTP/3
  // takes 0.
  datatype Protocol = Http1 | Http2 | Http3

  function Fresh(protocol: Protocol, epoch: nat): Conn
  {
    Conn(false, NEVER, if protocol == Http3 then 0 else epoch)
  }

  // The promise: epochs that fired before a connection arrived never drain it. Over any number
  // of evaluations with no later bump and no maximum age, it holds exactly unless the
  // connection is HTTP/3 and some epoch had fired before.
  lemma {:induction false} OldEpochIgnored(protocol: Protocol, arrival: nat, looks: seq<Look>, t: Tally)
    requires Ordered(looks) && forall l :: l in looks ==> l.epoch == arrival
    ensures Looked(Fresh(protocol, arrival), t, false, looks).0.pending
            <==> looks != [] && protocol == Http3 && 0 < arrival
  {
    if looks != [] {
      var last := looks[|looks| - 1];
      assert last in looks;
      OldEpochIgnored(protocol, arrival, looks[..|looks| - 1], t);
      DrainsOnce(Fresh(protocol, arrival), t, false, looks[..|looks| - 1]);
    }
  }

  // A concrete failure: the first answer on a new HTTP/3 connection, one old epoch.
  lemma {:induction false} OldEpochDrainsHttp3()
    ensures Looked(Fresh(Http3, 1), Tally(0, 0), false, [Look(1, 5)]) == (Conn(true, 5, 1), Tally(0, 1))
  {
    assert [Look(1, 5)][..0] == [];
  }
}
