// Admission control: the connection cap with hysteresis, CoDel pauses, and the drain trigger
// they share (src/http_server_class.c:1012-1123, 1538-1561, 1668-1685, 2077-2197, 3728-3743).
// Every connection that is destroyed runs the close hook, also one that never got as far as
// being counted (src/core/http_connection.c:387, 3005-3042, 3143-3146).
module Backpressure {
  import opened Common
  import opened Codel
  import Drain

  // `active` is the server's counter; `live` is what it is meant to count, the connections
  // made and not yet destroyed.
  datatype State = State(
    active: nat, live: nat, paused: bool, cap: nat, target: nat,
    detector: Detector, epochs: Drain.Epochs,
    pauses: nat, trips: nat, rejected: nat)

  // The resume level: 80 percent of the cap, rounded down. It is below the cap by itself, so
  // the source's clamp to one below the cap never applies.
  function Low(cap: nat): (low: nat)
    ensures 100 * low <= 80 * cap < 100 * (low + 1)
    ensures cap > 0 ==> low < cap
  {
    cap * 80 / 100
  }

  predicate WordSized(s: State) { Codel.Words(s.detector) && s.epochs.lastFired <= UINT64_MAX }

  function Initial(cap: nat, target: nat, cooldown: nat): State
  {
    State(0, 0, false, cap, target, RESET, Drain.Start(cooldown), 0, 0, 0)
  }

  // What becomes of an accepted socket: no connection is made; one is made, destroyed again
  // and refused (TLS set-up); one is destroyed by its first read and yet reported as spawned;
  // or one lives.
  datatype Spawn = Unmade | Refused | Dies | Lives

  datatype Event =
    | Accept(spawn: Spawn, coarse: nat)
    | Close                                           // a live connection is destroyed
    | Report(sample: Sample, coarse: nat)             // a request reports its timing

  predicate ClockWords(e: Event)
  {
    match e
    case Accept(_, coarse) => coarse <= UINT64_MAX
    case Close => true
    case Report(sample, coarse) => sample.now <= UINT64_MAX && coarse <= UINT64_MAX
  }

  function Paused(s: State, coarse: nat): State
    requires WordSized(s) && coarse <= UINT64_MAX
  {
    if s.paused then s
    else s.(paused := true, pauses := s.pauses + 1, epochs := Drain.Triggered(s.epochs, coarse))
  }

  function Resumed(s: State): State { if s.paused then s.(paused := false, detector := RESET) else s }

  // The close hook.
  function Hooked(s: State): State
  {
    var t := if s.active > 0 then s.(active := s.active - 1) else s;
    if t.paused && t.active <= Low(t.cap) then Resumed(t) else t
  }

  function Spawned(s: State, spawn: Spawn): State
  {
    match spawn
    case Unmade => s
    case Refused => Hooked(s)
    case Dies => Hooked(s)
    case Lives => s.(live := s.live + 1)
  }

  function Counted(s: State, coarse: nat): State
    requires WordSized(s) && coarse <= UINT64_MAX
  {
    var t := s.(active := s.active + 1);
    if !t.paused && t.cap > 0 && t.active >= t.cap then Paused(t, coarse) else t
  }

  predicate AtCap(s: State) { s.cap > 0 && s.active >= s.cap }

  function Accepted(s: State, spawn: Spawn, coarse: nat): State
    requires WordSized(s) && coarse <= UINT64_MAX
  {
    if AtCap(s) then Paused(s.(rejected := s.rejected + 1), coarse)
    else if spawn.Dies? || spawn.Lives? then Counted(Spawned(s, spawn), coarse)
    else Spawned(s, spawn)
  }

  function Closed(s: State): State { Hooked(s.(live := if s.live > 0 then s.live - 1 else 0)) }

  predicate Trips(s: State, sample: Sample)
    requires WordSized(s) && sample.now <= UINT64_MAX
  {
    s.target != 0 && !s.paused && Asks(s.detector, s.target, sample)
  }

  function Reported(s: State, sample: Sample, coarse: nat): State
    requires WordSized(s) && sample.now <= UINT64_MAX && coarse <= UINT64_MAX
  {
    if s.target == 0 then s
    else
      var t := s.(detector := Observed(s.detector, s.target, sample));
      if Trips(s, sample) then Paused(t.(trips := t.trips + 1), coarse) else t
  }

  function Next(s: State, e: Event): (r: State)
    requires WordSized(s) && ClockWords(e)
    ensures WordSized(r)
  {
    match e
    case Accept(spawn, coarse) => Accepted(s, spawn, coarse)
    case Close => Closed(s)
    case Report(sample, coarse) => Reported(s, sample, coarse)
  }

  // ------------------------------------------------------------------ server

  class Server {
    var active: nat
    ghost var live: nat
    var paused: bool
    const cap: nat
    const target: nat
    var high: nat
    var low: nat
    var windowStart: nat
    var minimum: nat
    var firstAbove: nat
    var epochs: Drain.Epochs
    var pauses: nat
    var trips: nat
    var rejected: nat
    const present: seq<bool>       // which listener rows have a listen event
    const polling: array<bool>     // which of them are being polled

    ghost function View(): State
      reads this
    {
      State(active, live, paused, cap, target, Detector(windowStart, minimum, firstAbove), epochs, pauses, trips, rejected)
    }

    // The listeners are polled exactly when they are not paused.
    ghost predicate Valid()
      reads this, polling
    {
      && WordSized(View()) && high == cap && low == Low(cap) && polling.Length == |present|
      && forall i :: 0 <= i < |present| && present[i] ==> polling[i] == !paused
    }

    constructor (maxConnections: nat, target: nat, cooldown: nat, present: seq<bool>)
      ensures Valid() && View() == Initial(maxConnections, target, cooldown) && fresh(polling) && this.present == present
    {
      this.cap, this.target, this.present := maxConnections, target, present;
      if maxConnections > 0 {
        high, low := maxConnections, maxConnections * 80 / 100;
      } else {
        high, low := 0, 0;
      }
      active, live, paused, windowStart, minimum, firstAbove := 0, 0, false, 0, 0, 0;
      epochs := Drain.Start(cooldown);
      pauses, trips, rejected := 0, 0, 0;
      polling := new bool[|present|](_ => true);
    }

    method TriggerDrain(now: nat)
      requires epochs.lastFired <= UINT64_MAX && now <= UINT64_MAX
      modifies this`epochs
      ensures epochs == Drain.Triggered(old(epochs), now)
    {
      if epochs.cooldown > 0 && epochs.lastFired != 0 && Elapsed(now, epochs.lastFired) < epochs.cooldown {
        epochs := epochs.(blocked := epochs.blocked + 1);
        return;
      }
      epochs := epochs.(current := epochs.current + 1, lastFired := now, fired := epochs.fired + 1);
    }

    method SetPolling(on: bool)
      requires polling.Length == |present|
      modifies polling
      ensures forall i :: 0 <= i < |present| && present[i] ==> polling[i] == on
    {
      for i := 0 to |present|
        invariant forall k :: 0 <= k < i && present[k] ==> polling[k] == on
      {
        if present[i] {
          polling[i] := on;
        }
      }
    }

    method PauseListeners(coarse: nat)
      requires Valid() && coarse <= UINT64_MAX
      modifies this, polling
      ensures Valid() && View() == Paused(old(View()), coarse)
    {
      if paused {
        return;
      }
      SetPolling(false);
      paused := true;
      pauses := pauses + 1;
      TriggerDrain(coarse);
    }

    method ResumeListeners()
      requires Valid()
      modifies this, polling
      ensures Valid() && View() == Resumed(old(View()))
    {
      if !paused {
        return;
      }
      SetPolling(true);
      paused := false;
      windowStart, minimum, firstAbove := 0, 0, 0;
    }

    // The close hook, which every destroyed connection runs.
    method OnConnectionClose()
      requires Valid()
      modifies this, polling
      ensures Valid() && View() == Hooked(old(View()))
    {
      if active > 0 {
        active := active - 1;
      }
      if paused && active <= low {
        ResumeListeners();
      }
    }

    // Makes a connection; one that is destroyed on the way runs the hook.
    method SpawnConnection(spawn: Spawn) returns (ok: bool)
      requires Valid()
      modifies this, polling
      ensures Valid() && View() == Spawned(old(View()), spawn) && ok == (spawn.Dies? || spawn.Lives?)
    {
      match spawn
      case Unmade => return false;
      case Refused =>
        OnConnectionClose();
        return false;
      case Dies =>
        OnConnectionClose();
        return true;
      case Lives =>
        live := live + 1;
        return true;
    }

    method OnAccept(spawn: Spawn, coarse: nat)
      requires Valid() && coarse <= UINT64_MAX
      modifies this, polling
      ensures Valid() && View() == Accepted(old(View()), spawn, coarse)
    {
      if cap > 0 && active >= cap {
        rejected := rejected + 1;
        if !paused {
          PauseListeners(coarse);
        }
        return;
      }
      var ok := SpawnConnection(spawn);
      if !ok {
        return;
      }
      active := active + 1;
      if !paused && high > 0 && active >= high {
        PauseListeners(coarse);
      }
    }

    // A live connection is destroyed.
    method DestroyConnection()
      requires Valid()
      modifies this, polling
      ensures Valid() && View() == Closed(old(View()))
    {
      live := if live > 0 then live - 1 else 0;
      OnConnectionClose();
    }

    method OnSample(sample: Sample, coarse: nat)
      requires Valid() && sample.now <= UINT64_MAX && coarse <= UINT64_MAX
      modifies this, polling
      ensures Valid() && View() == Reported(old(View()), sample, coarse)
    {
      if target == 0 {
        return;
      }
      var now := sample.now;
      if windowStart == 0 || Elapsed(now, windowStart) >= INTERVAL {
        windowStart, minimum := now, sample.sojourn;
      } else if sample.sojourn < minimum {
        minimum := sample.sojourn;
      }
      if minimum < target {
        firstAbove := 0;
        return;
      }
      if firstAbove == 0 {
        firstAbove := Later(now);
      } else if now >= firstAbove && !paused {
        trips := trips + 1;
        PauseListeners(coarse);
      }
    }
  }

  // -------------------------------------------------------------------- runs

  predicate Clocks(events: seq<Event>) { forall e :: e in events ==> ClockWords(e) }

  function RunFrom(s: State, events: seq<Event>): (r: State)
    requires WordSized(s) && Clocks(events)
    ensures WordSized(r)
  {
    if events == [] then s else Next(RunFrom(s, events[..|events| - 1]), events[|events| - 1])
  }

  // A property of each event, given the state it meets.
  ghost predicate Throughout(s: State, events: seq<Event>, ok: (State, Event) -> bool)
    requires WordSized(s) && Clocks(events)
  {
    events != [] ==>
      && Throughout(s, events[..|events| - 1], ok)
      && ok(RunFrom(s, events[..|events| - 1]), events[|events| - 1])
  }

  // A property of each state on the way, the first and the last included.
  ghost predicate AllAlong(s: State, events: seq<Event>, holds: State -> bool)
    requires WordSized(s) && Clocks(events)
  {
    holds(RunFrom(s, events)) && (events != [] ==> AllAlong(s, events[..|events| - 1], holds))
  }

  // What each event does to one property, exactly, it does to whole runs.
  lemma {:induction false} Exactly(s: State, events: seq<Event>, possible: (State, Event) -> bool,
                                   holds: State -> bool, fine: (State, Event) -> bool)
    requires WordSized(s) && Clocks(events) && holds(s) && Throughout(s, events, possible)
    requires forall t, e :: WordSized(t) && ClockWords(e) && possible(t, e) && holds(t) ==> (holds(Next(t, e)) <==> fine(t, e))
    ensures AllAlong(s, events, holds) <==> Throughout(s, events, fine)
  {
    if events != [] {
      var front, last := events[..|events| - 1], events[|events| - 1];
      assert last in events;
      Exactly(s, front, possible, holds, fine);
      if AllAlong(s, front, holds) {
        assert holds(RunFrom(s, front)) by { AlongEnd(s, front, holds); }
      }
    }
  }

  lemma {:induction false} AlongEnd(s: State, events: seq<Event>, holds: State -> bool)
    requires WordSized(s) && Clocks(events) && AllAlong(s, events, holds)
    ensures holds(RunFrom(s, events))
  {
  }

  // Only a live connection can be destroyed.
  predicate Possible(s: State, e: Event) { e.Close? ==> s.live > 0 }

  // ------------------------------------------------------------- the counter

  predicate Sound(s: State)
  {
    && (s.cap > 0 ==> s.active <= s.cap)
    && s.pauses == s.epochs.fired + s.epochs.blocked && s.epochs.current == s.epochs.fired
  }

  lemma {:induction false} StepSound(s: State, e: Event)
    requires WordSized(s) && ClockWords(e) && Sound(s)
    ensures Sound(Next(s, e)) && Next(s, e).cap == s.cap && Next(s, e).target == s.target
  {
    match e
    case Accept(spawn, _) =>
      match spawn {
        case Unmade =>
        case Refused =>
        case Dies =>
        case Lives =>
      }
    case Close =>
    case Report(_, _) =>
  }

  // In every run the counter stays within the cap, each overload pause triggers one drain, and
  // every trigger is counted as fired or as blocked.
  lemma {:induction false} RunKeeps(s: State, events: seq<Event>)
    requires WordSized(s) && Clocks(events) && Sound(s)
    ensures Sound(RunFrom(s, events)) && RunFrom(s, events).cap == s.cap && RunFrom(s, events).target == s.target
  {
    if events != [] {
      var front, last := events[..|events| - 1], events[|events| - 1];
      assert last in events;
      RunKeeps(s, front);
      StepSound(RunFrom(s, front), last);
    }
  }

  // The events that take the counter below the live connections, and above them.
  predicate Loses(s: State, e: Event) { e.Accept? && e.spawn.Refused? && !AtCap(s) && s.active > 0 }

  predicate Gains(s: State, e: Event)
  {
    s.active == 0 && (e.Close? || (e.Accept? && e.spawn.Dies? && !AtCap(s)))
  }

  ghost function Count(s: State, events: seq<Event>, what: (State, Event) -> bool): nat
    requires WordSized(s) && Clocks(events)
  {
    if events == [] then 0
    else
      Count(s, events[..|events| - 1], what)
      + (if what(RunFrom(s, events[..|events| - 1]), events[|events| - 1]) then 1 else 0)
  }

  lemma {:induction false} StepAccounts(s: State, e: Event)
    requires WordSized(s) && ClockWords(e) && Possible(s, e)
    ensures Next(s, e).live - Next(s, e).active
         == s.live - s.active + (if Loses(s, e) then 1 else 0) - (if Gains(s, e) then 1 else 0)
  {
  }

  // The exact account over every run: the live connections are the counter, plus one for every
  // refused connection it was charged with, less one for every dead one it was credited with.
  lemma {:induction false} LiveAccounting(s: State, events: seq<Event>)
    requires WordSized(s) && Clocks(events) && Throughout(s, events, Possible)
    ensures RunFrom(s, events).live - RunFrom(s, events).active
         == s.live - s.active + Count(s, events, Loses) - Count(s, events, Gains)
  {
    if events != [] {
      var front, last := events[..|events| - 1], events[|events| - 1];
      assert last in events;
      LiveAccounting(s, front);
      StepAccounts(RunFrom(s, front), last);
    }
  }

  // --------------------------------------------------------------- admission

  predicate Tracks(s: State) { s.active == s.live }

  predicate WithinCap(s: State) { s.cap > 0 ==> s.live <= s.cap }

  // Paused listeners have a connection left whose close can resume them.
  predicate Attended(s: State) { s.paused ==> s.live > 0 }

  predicate Healthy(s: State) { Tracks(s) && WithinCap(s) && Attended(s) }

  // A spawn is charged to or credited by the counter alone.
  predicate Drifts(s: State, e: Event)
  {
    e.Accept? && !AtCap(s) && ((e.spawn.Refused? && s.active > 0) || (e.spawn.Dies? && s.active == 0))
  }

  // A sample from outside the counted connections trips.
  predicate TripsAlone(s: State, e: Event)
  {
    WordSized(s) && ClockWords(e) && e.Report? && Trips(s, e.sample) && s.live == 0
  }

  predicate Benign(s: State, e: Event) { !Drifts(s, e) && !TripsAlone(s, e) }

  lemma {:induction false} HealthyStep(s: State, e: Event)
    requires WordSized(s) && ClockWords(e) && Possible(s, e) && Healthy(s)
    ensures Healthy(Next(s, e)) <==> Benign(s, e)
  {
  }

  // Admission, exactly: at every point of a run the counter is the number of live connections,
  // that number is within the cap, and paused listeners have a connection left, if and only if
  // no spawn is refused or dies at the counter's expense and no uncounted sample trips.
  lemma {:induction false} Admission(s: State, events: seq<Event>)
    requires WordSized(s) && Clocks(events) && Healthy(s) && Throughout(s, events, Possible)
    ensures AllAlong(s, events, Healthy) <==> Throughout(s, events, Benign)
  {
    forall t, e | WordSized(t) && ClockWords(e) && Possible(t, e) && Healthy(t)
      ensures Healthy(Next(t, e)) <==> Benign(t, e)
    {
      HealthyStep(t, e);
    }
    Exactly(s, events, Possible, Healthy, Benign);
  }

  // The parts of it one by one, each with its own condition. The live connections pass the cap
  // exactly when one is spawned while only the counter is below it.
  predicate Fits(s: State, e: Event) { !(e.Accept? && e.spawn.Lives? && 0 < s.cap <= s.live && s.active < s.cap) }

  lemma {:induction false} LiveCap(s: State, events: seq<Event>)
    requires WordSized(s) && Clocks(events) && WithinCap(s) && Throughout(s, events, Possible)
    ensures AllAlong(s, events, WithinCap) <==> Throughout(s, events, Fits)
  {
    forall t, e | WordSized(t) && ClockWords(e) && Possible(t, e) && WithinCap(t)
      ensures WithinCap(Next(t, e)) <==> Fits(t, e)
    {
      FitsStep(t, e);
    }
    Exactly(s, events, Possible, WithinCap, Fits);
  }

  lemma {:induction false} FitsStep(s: State, e: Event)
    requires WordSized(s) && ClockWords(e) && Possible(s, e) && WithinCap(s)
    ensures WithinCap(Next(s, e)) <==> Fits(s, e)
  {
  }

  // The listeners are left paused with no connection exactly by an uncounted sample that trips,
  // by the last close when the counter is still well above the resume level, or by the cap when
  // the counter alone reaches it.
  predicate Minds(s: State, e: Event)
  {
    match e
    case Report(_, _) => !TripsAlone(s, e)
    case Close => !(s.paused && s.live == 1 && s.active > Low(s.cap) + 1)
    case Accept(spawn, _) => !(s.live == 0 && (AtCap(s) || (spawn.Dies? && s.active == 0 && s.cap == 1)))
  }

  lemma {:induction false} NeverPausedAlone(s: State, events: seq<Event>)
    requires WordSized(s) && Clocks(events) && Attended(s) && Throughout(s, events, Possible)
    ensures AllAlong(s, events, Attended) <==> Throughout(s, events, Minds)
  {
    forall t, e | WordSized(t) && ClockWords(e) && Possible(t, e) && Attended(t)
      ensures Attended(Next(t, e)) <==> Minds(t, e)
    {
      MindsStep(t, e);
    }
    Exactly(s, events, Possible, Attended, Minds);
  }

  lemma {:induction false} MindsStep(s: State, e: Event)
    requires WordSized(s) && ClockWords(e) && Possible(s, e) && Attended(s)
    ensures Attended(Next(s, e)) <==> Minds(s, e)
  {
  }

  // -------------------------------------------------------------- witnesses

  lemma {:induction false} RunStep(s: State, events: seq<Event>, k: nat)
    requires WordSized(s) && Clocks(events) && k < |events|
    ensures Clocks(events[..k]) && Clocks(events[..k + 1]) && ClockWords(events[k])
    ensures RunFrom(s, events[..k + 1]) == Next(RunFrom(s, events[..k]), events[k])
  {
    var head := events[..k + 1];
    assert head[..k] == events[..k] && head[k] == events[k] && events[k] in events;
    assert forall e :: e in head ==> e in events;
  }

  const TARGET: nat := 5_000_000
  const SLOW: Event := Report(Sample(10_000_000, 1), 1)
  const STILL_SLOW: Event := Report(Sample(10_000_000, 100_000_001), 2)
  const ABOVE: Detector := Detector(1, 10_000_000, 100_000_001)

  lemma {:induction false} SlowOnce(s: State)
    requires WordSized(s) && s.detector == RESET && s.target == TARGET
    ensures Next(s, SLOW) == s.(detector := ABOVE)
  {
  }

  lemma {:induction false} SlowTwice(s: State)
    requires WordSized(s) && s.detector == ABOVE && s.target == TARGET && !s.paused
    ensures var t := Next(s, STILL_SLOW); t.paused && t.active == s.active && t.live == s.live && t.cap == s.cap
  {
  }

  // Two slow samples from no counted connection pause an idle server.
  const ALONE: seq<Event> := [SLOW, STILL_SLOW]

  lemma {:induction false} PausedAlone()
    ensures var s := RunFrom(Initial(0, TARGET, 0), ALONE); s.paused && s.live == 0
  {
    var s0 := Initial(0, TARGET, 0);
    assert ALONE[..0] == [] && ALONE[..2] == ALONE;
    RunStep(s0, ALONE, 0);
    RunStep(s0, ALONE, 1);
    SlowOnce(s0);
    SlowTwice(s0.(detector := ABOVE));
  }

  // A client whose first read fails is counted after it is gone. The next one comes, is slow
  // enough to pause the listeners, and leaves: nobody is left and the listeners stay paused,
  // although every sample was counted.
  const GHOST: seq<Event> := [Accept(Dies, 1), Accept(Lives, 1), SLOW, STILL_SLOW, Close]

  lemma {:induction false} GhostCounted()
    ensures RunFrom(Initial(0, TARGET, 0), GHOST[..2]) == Initial(0, TARGET, 0).(active := 2, live := 1)
  {
    var s0 := Initial(0, TARGET, 0);
    assert GHOST[..0] == [];
    RunStep(s0, GHOST, 0);
    RunStep(s0, GHOST, 1);
    assert Next(s0, Accept(Dies, 1)) == s0.(active := 1);
  }

  lemma {:induction false} PausedByGhost()
    ensures var s := RunFrom(Initial(0, TARGET, 0), GHOST); s.paused && s.live == 0 && s.active == 1
  {
    var s0 := Initial(0, TARGET, 0);
    var s2 := s0.(active := 2, live := 1);
    GhostCounted();
    RunStep(s0, GHOST, 2);
    SlowOnce(s2);
    RunStep(s0, GHOST, 3);
    SlowTwice(s2.(detector := ABOVE));
    RunStep(s0, GHOST, 4);
    assert GHOST[..5] == GHOST;
  }

  // From a server paused with no connection, no sample ever resumes it.
  lemma {:induction false} StuckAlone(s: State, events: seq<Event>)
    requires WordSized(s) && Clocks(events) && s.paused && s.live == 0 && forall e :: e in events ==> e.Report?
    ensures RunFrom(s, events).paused && RunFrom(s, events).live == 0
  {
    if events != [] {
      StuckAlone(s, events[..|events| - 1]);
      assert events[|events| - 1] in events;
    }
  }

  // A refused TLS connection is charged to the counter, and one client too many gets in.
  const OVERFULL: seq<Event> := [Accept(Lives, 1), Accept(Refused, 1), Accept(Lives, 1), Accept(Lives, 1)]

  lemma {:induction false} OneMoreLives(s: State)
    requires WordSized(s) && !s.paused && s.active + 1 < s.cap
    ensures Next(s, Accept(Lives, 1)) == s.(active := s.active + 1, live := s.live + 1)
  {
  }

  lemma {:induction false} OneRefused(s: State)
    requires WordSized(s) && !s.paused && 0 < s.active < s.cap
    ensures Next(s, Accept(Refused, 1)) == s.(active := s.active - 1)
  {
  }

  lemma {:induction false} LastLives(s: State)
    requires WordSized(s) && !s.paused && s.active + 1 == s.cap
    ensures var t := Next(s, Accept(Lives, 1)); t.cap == s.cap == t.active && t.live == s.live + 1
  {
  }

  // The four steps, for any server that starts empty with a cap of two.
  lemma {:induction false} OverfullRun(s: State)
    requires WordSized(s) && !s.paused && s.active == s.live == 0 && s.cap == 2
    ensures RunFrom(s, OVERFULL[..3]) == s.(active := s.cap - 1, live := s.cap)
  {
    assert OVERFULL[..0] == [];
    RunStep(s, OVERFULL, 0);
    OneMoreLives(s);
    RunStep(s, OVERFULL, 1);
    OneRefused(s.(active := 1, live := 1));
    RunStep(s, OVERFULL, 2);
    OneMoreLives(s.(active := 0, live := 1));
  }

  lemma {:induction false} OverfullEnd(s: State, t: State)
    requires WordSized(s) && RunFrom(s, OVERFULL[..3]) == t && !t.paused && t.active + 1 == t.cap == t.live
    ensures RunFrom(s, OVERFULL).cap == t.cap && RunFrom(s, OVERFULL).live == t.cap + 1
  {
    RunStep(s, OVERFULL, 3);
    LastLives(t);
    assert OVERFULL[..4] == OVERFULL;
  }

  lemma {:induction false} CapExceeded()
    ensures var s := RunFrom(Initial(2, 0, 0), OVERFULL); s.cap == 2 && s.live == 3
  {
    var s0 := Initial(2, 0, 0);
    OverfullRun(s0);
    OverfullEnd(s0, s0.(active := 1, live := 2));
  }

  // ------------------------------------------------------------- hysteresis

  // The events that run the close hook.
  predicate RunsHook(s: State, e: Event)
  {
    e.Close? || (e.Accept? && !AtCap(s) && (e.spawn.Refused? || e.spawn.Dies?))
  }

  predicate Holding(s: State) { s.paused && s.active > Low(s.cap) }

  predicate AboveLow(s: State, e: Event) { !(RunsHook(s, e) && s.active == Low(s.cap) + 1) }

  // From a paused server above the resume level, the only step that resumes it is the hook that
  // brings the counter to exactly that level.
  lemma {:induction false} ResumesAtLow(s: State, e: Event)
    requires WordSized(s) && ClockWords(e) && Holding(s)
    ensures Holding(Next(s, e)) <==> AboveLow(s, e)
    ensures !Next(s, e).paused <==> !AboveLow(s, e)
    ensures !AboveLow(s, e) ==> Hooked(s).active == Low(s.cap) && !Hooked(s).paused
  {
  }

  predicate Any(s: State, e: Event) { true }

  lemma {:induction false} ThroughoutAny(s: State, events: seq<Event>)
    requires WordSized(s) && Clocks(events)
    ensures Throughout(s, events, Any)
  {
    if events != [] {
      ThroughoutAny(s, events[..|events| - 1]);
    }
  }

  // A capped pause lasts exactly until the close that reaches the resume level.
  lemma {:induction false} CappedPauseLasts(s: State, events: seq<Event>)
    requires WordSized(s) && Clocks(events) && Holding(s)
    ensures AllAlong(s, events, Holding) <==> Throughout(s, events, AboveLow)
  {
    ThroughoutAny(s, events);
    forall t, e | WordSized(t) && ClockWords(e) && Any(t, e) && Holding(t)
      ensures Holding(Next(t, e)) <==> AboveLow(t, e)
    {
      ResumesAtLow(t, e);
    }
    Exactly(s, events, Any, Holding, AboveLow);
  }

  // The pause the cap causes starts above the resume level.
  lemma {:induction false} CapPauses(s: State, coarse: nat)
    requires WordSized(s) && coarse <= UINT64_MAX && s.cap > 0 && s.active + 1 == s.cap && !s.paused
    ensures Holding(Accepted(s, Lives, coarse)) && Accepted(s, Lives, coarse).active == s.cap
  {
  }
}
