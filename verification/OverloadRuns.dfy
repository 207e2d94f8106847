// CoDel and the drain epochs over whole server runs, with connections coming and going between
// the samples (src/http_server_class.c:1012-1123, 1538-1561).
module OverloadRuns {
  import opened Common
  import opened Codel
  import opened Backpressure
  import Drain

  // ------------------------------------------------------------ the detector

  // Whether an event resumes the listeners, and so resets the detector.
  predicate Resumes(s: State, e: Event)
  {
    RunsHook(s, e) && s.paused && (if s.active > 0 then s.active - 1 else 0) <= Low(s.cap)
  }

  // The samples since the listeners were last resumed.
  function Recent(s: State, events: seq<Event>): seq<Sample>
    requires WordSized(s) && Clocks(events)
  {
    if events == [] then []
    else
      var front, last := events[..|events| - 1], events[|events| - 1];
      if last.Report? then Recent(s, front) + [last.sample]
      else if Resumes(RunFrom(s, front), last) then []
      else Recent(s, front)
  }

  function Samples(events: seq<Event>): seq<Sample>
  {
    if events == [] then []
    else
      Samples(events[..|events| - 1])
      + (if events[|events| - 1].Report? then [events[|events| - 1].sample] else [])
  }

  lemma {:induction false} RecentIsSuffix(s: State, events: seq<Event>)
    requires WordSized(s) && Clocks(events)
    ensures |Recent(s, events)| <= |Samples(events)|
    ensures Recent(s, events) == Samples(events)[|Samples(events)| - |Recent(s, events)|..]
  {
    if events != [] {
      RecentIsSuffix(s, events[..|events| - 1]);
    }
  }

  lemma {:induction false} FrontClocked(samples: seq<Sample>, last: seq<Sample>)
    requires Codel.Clocked(samples + last)
    ensures Codel.Clocked(samples)
  {
    assert forall i :: 0 <= i < |samples| ==> (samples + last)[i] == samples[i];
  }

  lemma {:induction false} RecentClocked(s: State, events: seq<Event>)
    requires WordSized(s) && Clocks(events) && Codel.Clocked(Samples(events))
    ensures Codel.Clocked(Recent(s, events))
  {
    RecentIsSuffix(s, events);
    var all, k := Samples(events), |Samples(events)| - |Recent(s, events)|;
    assert forall i :: 0 <= i < |Recent(s, events)| ==> Recent(s, events)[i] == all[k + i];
  }

  // What one event does to the detector.
  lemma {:induction false} DetectorStep(s: State, e: Event)
    requires WordSized(s) && ClockWords(e)
    ensures Next(s, e).target == s.target
    ensures e.Report? && s.target > 0 ==> Next(s, e).detector == Observed(s.detector, s.target, e.sample)
    ensures !e.Report? ==> Next(s, e).detector == if Resumes(s, e) then RESET else s.detector
  {
    if e.Accept? {
      match e.spawn
      case Unmade =>
      case Refused =>
      case Dies =>
      case Lives =>
    }
  }

  // The detector of a server is that of the samples since the last resume.
  lemma {:induction false} DetectorFollows(s: State, target: nat, events: seq<Event>)
    requires WordSized(s) && target > 0 && s.target == target && s.detector == RESET
    requires Clocks(events) && Codel.Clocked(Samples(events))
    ensures Codel.Clocked(Recent(s, events)) && RunFrom(s, events).target == target
    ensures RunFrom(s, events).detector == Codel.Run(target, Recent(s, events))
  {
    RecentClocked(s, events);
    if events != [] {
      var front, last := events[..|events| - 1], events[|events| - 1];
      assert last in events;
      FrontClocked(Samples(front), if last.Report? then [last.sample] else []);
      assert last.Report? || Samples(front) + [] == Samples(front);
      DetectorFollows(s, target, front);
      DetectorStep(RunFrom(s, front), last);
      if last.Report? {
        RunSnoc(target, Recent(s, front), last.sample);
      }
    }
  }

  lemma {:induction false} RunSnoc(target: nat, samples: seq<Sample>, last: Sample)
    requires Codel.Clocked(samples) && Codel.Clocked(samples + [last])
    ensures last.now <= UINT64_MAX
    ensures Codel.Run(target, samples + [last]) == Observed(Codel.Run(target, samples), target, last)
  {
    assert (samples + [last])[..|samples|] == samples && (samples + [last])[|samples|] == last;
  }

  // Soundness over whole runs: a pause by CoDel ends a stretch of consecutive samples since
  // the last resume, all at or above the target, spanning at least 100 ms.
  lemma {:induction false} TripsOnlyUnderPressure(s: State, target: nat, events: seq<Event>, last: Sample, coarse: nat)
    requires WordSized(s) && target > 0 && s.target == target && s.detector == RESET
    requires Clocks(events + [Report(last, coarse)]) && Clocks(events)
    requires Codel.Clocked(Samples(events + [Report(last, coarse)]))
    requires last.now <= UINT64_MAX && Trips(RunFrom(s, events), last)
    ensures var stretch := Recent(s, events) + [last];
            exists j :: AboveFrom(stretch, target, j) && last.now - stretch[j].now >= 100_000_000
  {
    var whole := events + [Report(last, coarse)];
    assert whole[..|events|] == events && Samples(whole) == Samples(events) + [last];
    FrontClocked(Samples(events), [last]);
    DetectorFollows(s, target, events);
    RecentClocked(s, whole);
    assert Recent(s, whole) == Recent(s, events) + [last];
    TripIsSound(target, Recent(s, events), last);
  }

  // ------------------------------------------------------------ completeness

  lemma {:induction false} RunFront(s: State, events: seq<Event>)
    requires WordSized(s) && events != [] && Clocks(events)
    ensures ClockWords(events[0]) && Clocks(events[1..])
    ensures RunFrom(s, events) == RunFrom(Next(s, events[0]), events[1..])
    decreases |events|
  {
    assert events[0] in events && forall e :: e in events[1..] ==> e in events;
    var front, last := events[..|events| - 1], events[|events| - 1];
    if front == [] {
      assert events == [last] && events[1..] == [];
    } else {
      RunFront(s, front);
      assert events[1..][..|events| - 2] == front[1..] && events[1..][|events| - 2] == last;
    }
  }

  lemma {:induction false} SamplesFront(events: seq<Event>)
    requires events != []
    ensures Samples(events) == (if events[0].Report? then [events[0].sample] else []) + Samples(events[1..])
    decreases |events|
  {
    var front, last := events[..|events| - 1], events[|events| - 1];
    if front == [] {
      assert events == [last] && events[1..] == [] && events[..0] == [];
    } else {
      SamplesFront(front);
      assert events[1..][..|events| - 2] == front[1..] && events[1..][|events| - 2] == last;
    }
  }

  predicate Ascending(samples: seq<Sample>)
  {
    forall i, j :: 0 <= i <= j < |samples| ==> samples[i].now <= samples[j].now <= UINT64_MAX
  }

  lemma {:induction false} PressingAscends(samples: seq<Sample>, target: nat, gap: nat, since: nat)
    requires Pressing(samples, target, gap, since)
    ensures Ascending(samples) && forall i :: 0 <= i < |samples| ==> since <= samples[i].now
    decreases |samples|
  {
    if samples != [] {
      PressingAscends(samples[1..], target, gap, samples[0].now);
      assert forall i :: 0 < i < |samples| ==> samples[i] == samples[1..][i - 1];
    }
  }

  // Every sample so far was before `bound`.
  predicate Before(events: seq<Event>, bound: nat) { forall x :: x in Samples(events) ==> x.now < bound }

  ghost predicate PausesBefore(s: State, events: seq<Event>, bound: nat)
    requires WordSized(s) && Clocks(events)
  {
    exists n :: 0 <= n <= |events| && PausedAfter(s, events, n, bound)
  }

  predicate PausedAfter(s: State, events: seq<Event>, n: nat, bound: nat)
    requires WordSized(s) && Clocks(events) && n <= |events|
  {
    Clocks(events[..n]) && RunFrom(s, events[..n]).paused && Before(events[..n], bound)
  }

  lemma {:induction false} PausedHere(s: State, events: seq<Event>, bound: nat)
    requires WordSized(s) && Clocks(events) && events != [] && ClockWords(events[0])
    requires Next(s, events[0]).paused && (events[0].Report? ==> events[0].sample.now < bound)
    ensures PausesBefore(s, events, bound)
  {
    var one := events[..1];
    assert one == [events[0]] && one[..0] == [] && RunFrom(s, []) == s && Samples([]) == [];
    assert PausedAfter(s, events, 1, bound);
  }

  lemma {:induction false} PausedFurther(s: State, events: seq<Event>, bound: nat)
    requires WordSized(s) && Clocks(events) && events != [] && ClockWords(events[0]) && Clocks(events[1..])
    requires PausesBefore(Next(s, events[0]), events[1..], bound) && (events[0].Report? ==> events[0].sample.now < bound)
    ensures PausesBefore(s, events, bound)
  {
    var n :| 0 <= n <= |events| - 1 && PausedAfter(Next(s, events[0]), events[1..], n, bound);
    var head := events[..n + 1];
    assert forall e :: e in head ==> e in events;
    assert head[1..] == events[1..][..n] && head[0] == events[0];
    RunFront(s, head);
    SamplesFront(head);
    assert PausedAfter(s, events, n + 1, bound);
  }

  // What an event does to an unpaused server, unless it pauses it.
  lemma {:induction false} UnpausedStep(s: State, e: Event)
    requires WordSized(s) && ClockWords(e) && !s.paused && s.target > 0
    ensures Next(s, e).target == s.target
    ensures e.Report? ==> Next(s, e).paused == Asks(s.detector, s.target, e.sample)
    ensures Next(s, e).detector == if e.Report? then Observed(s.detector, s.target, e.sample) else s.detector
  {
    DetectorStep(s, e);
  }

  lemma {:induction false} TripsLater(d: Detector, target: nat, all: seq<Sample>, bound: nat)
    requires Words(d) && all != [] && Ascending(all)
    requires forall i :: 0 <= i < |all| ==> all[i].now <= UINT64_MAX
    requires TripsBefore(d, target, all, bound)
    ensures all[0].now < bound && Ascending(all[1..])
    ensures !Asks(d, target, all[0]) ==> TripsBefore(Observed(d, target, all[0]), target, all[1..], bound)
  {
    var k := FirstTrip(d, target, all).value;
    assert all[0].now <= all[k].now;
    assert forall i :: 0 <= i < |all[1..]| ==> all[1..][i] == all[i + 1];
  }

  lemma {:induction false} SameClocks(events: seq<Event>)
    requires Clocks(events) && events != []
    ensures ClockWords(events[0]) && Clocks(events[1..])
  {
    assert events[0] in events && forall e :: e in events[1..] ==> e in events;
  }

  // Unless the first event pauses the server, the trip is still to come.
  lemma {:induction false} TripAhead(s: State, events: seq<Event>, bound: nat)
    requires WordSized(s) && Clocks(events) && events != [] && ClockWords(events[0]) && !s.paused && s.target > 0
    requires Ascending(Samples(events)) && TripsBefore(s.detector, s.target, Samples(events), bound)
    ensures events[0].Report? ==> events[0].sample.now < bound
    ensures Ascending(Samples(events[1..])) && Next(s, events[0]).target == s.target
    ensures !Next(s, events[0]).paused ==> TripsBefore(Next(s, events[0]).detector, s.target, Samples(events[1..]), bound)
  {
    var first, rest := events[0], events[1..];
    SamplesFront(events);
    UnpausedStep(s, first);
    if first.Report? {
      assert Samples(events)[0] == first.sample && Samples(events)[1..] == Samples(rest);
      TripsLater(s.detector, s.target, Samples(events), bound);
    } else {
      assert Samples(events) == Samples(rest);
    }
  }

  // Connections may come and go meanwhile: an unpaused server whose samples trip the detector
  // is paused by then, by CoDel or by the cap.
  lemma {:induction false} TripPauses(s: State, events: seq<Event>, bound: nat)
    requires WordSized(s) && Clocks(events) && !s.paused && s.target > 0 && Ascending(Samples(events))
    requires TripsBefore(s.detector, s.target, Samples(events), bound)
    ensures PausesBefore(s, events, bound)
    decreases |events|
  {
    SameClocks(events);
    TripAhead(s, events, bound);
    if Next(s, events[0]).paused {
      PausedHere(s, events, bound);
    } else {
      TripPauses(Next(s, events[0]), events[1..], bound);
      PausedFurther(s, events, bound);
    }
  }

  // Completeness over whole runs: whatever connections come and go, an unpaused server whose
  // samples from now on stay at or above the target, with gaps below `gap`, is paused within
  // 200 ms and two gaps of the first of them.
  lemma {:induction false} PressurePauses(s: State, target: nat, events: seq<Event>, more: seq<Event>, gap: nat)
    requires WordSized(s) && target > 0 && s.target == target && s.detector == RESET
    requires Clocks(events) && Codel.Clocked(Samples(events)) && !RunFrom(s, events).paused
    requires Clocks(more) && Samples(more) != []
    requires Samples(events) != [] ==> Samples(events)[|Samples(events)| - 1].now <= Samples(more)[0].now
    requires Pressing(Samples(more), target, gap, Samples(more)[0].now)
    requires Reaches(Samples(more), Samples(more)[0].now + 200_000_000 + 2 * gap)
    ensures PausesBefore(RunFrom(s, events), more, Samples(more)[0].now + 200_000_000 + 2 * gap)
  {
    DetectorFollows(s, target, events);
    LastRecent(s, events);
    PressureFrom(RunFrom(s, events), target, Recent(s, events), more, gap, Samples(more)[0].now);
  }

  lemma {:induction false} PressureFrom(t: State, target: nat, history: seq<Sample>, more: seq<Event>, gap: nat, start: nat)
    requires WordSized(t) && target > 0 && t.target == target && !t.paused
    requires Codel.Clocked(history) && t.detector == Codel.Run(target, history)
    requires Clocks(more) && Samples(more) != [] && start == Samples(more)[0].now
    requires history != [] ==> history[|history| - 1].now <= start
    requires Pressing(Samples(more), target, gap, start) && Reaches(Samples(more), start + 2 * INTERVAL + 2 * gap)
    ensures PausesBefore(t, more, start + 2 * INTERVAL + 2 * gap)
  {
    PressureIsAnswered(target, history, Samples(more), gap);
    PressingAscends(Samples(more), target, gap, start);
    TripPauses(t, more, start + 2 * INTERVAL + 2 * gap);
  }

  lemma {:induction false} LastRecent(s: State, events: seq<Event>)
    requires WordSized(s) && Clocks(events)
    ensures Recent(s, events) != [] ==>
              Samples(events) != [] && Recent(s, events)[|Recent(s, events)| - 1] == Samples(events)[|Samples(events)| - 1]
  {
    RecentIsSuffix(s, events);
  }

  // ------------------------------------------------------------------ epochs

  // Whether an event pauses the listeners, and so triggers a drain.
  predicate Pauses(s: State, e: Event)
    requires WordSized(s) && ClockWords(e)
  {
    Next(s, e).pauses > s.pauses
  }

  // The readings of the coarse clock, and those at which a drain was triggered.
  function Readings(events: seq<Event>): seq<nat>
  {
    if events == [] then []
    else
      Readings(events[..|events| - 1])
      + (if !events[|events| - 1].Close? then [events[|events| - 1].coarse] else [])
  }

  function Triggers(s: State, events: seq<Event>): seq<nat>
    requires WordSized(s) && Clocks(events)
  {
    if events == [] then []
    else
      var front, last := events[..|events| - 1], events[|events| - 1];
      Triggers(s, front)
      + (if !last.Close? && ClockWords(last) && Pauses(RunFrom(s, front), last) then [last.coarse] else [])
  }

  lemma {:induction false} EpochStep(s: State, e: Event)
    requires WordSized(s) && ClockWords(e)
    ensures e.Close? ==> !Pauses(s, e)
    ensures Next(s, e).pauses == s.pauses + (if Pauses(s, e) then 1 else 0)
    ensures Next(s, e).epochs == if !e.Close? && Pauses(s, e) then Drain.Triggered(s.epochs, e.coarse) else s.epochs
  {
    if e.Accept? {
      match e.spawn
      case Unmade =>
      case Refused =>
      case Dies =>
      case Lives =>
    }
  }

  lemma {:induction false} TriggersAreReadings(s: State, events: seq<Event>)
    requires WordSized(s) && Clocks(events)
    ensures forall t :: t in Triggers(s, events) ==> t in Readings(events)
  {
    if events != [] {
      TriggersAreReadings(s, events[..|events| - 1]);
    }
  }

  // A part of a clocked sequence, and one reading more.
  lemma {:induction false} ClockedSnoc(part: seq<nat>, all: seq<nat>, now: nat)
    requires Drain.Clocked(part) && Drain.Clocked(all + [now]) && forall t :: t in part ==> t in all
    ensures Drain.Clocked(part + [now])
  {
    assert (all + [now])[|all|] == now;
    forall i | 0 <= i < |part| ensures part[i] <= now {
      assert part[i] in part;
      var k :| 0 <= k < |all| && all[k] == part[i];
      assert (all + [now])[k] == part[i];
    }
  }

  lemma {:induction false} ClockedFront(all: seq<nat>, now: nat)
    requires Drain.Clocked(all + [now])
    ensures Drain.Clocked(all)
  {
    assert forall i :: 0 <= i < |all| ==> (all + [now])[i] == all[i];
  }

  lemma {:induction false} TriggersClocked(s: State, events: seq<Event>)
    requires WordSized(s) && Clocks(events) && Drain.Clocked(Readings(events))
    ensures Drain.Clocked(Triggers(s, events))
  {
    if events != [] {
      var front, last := events[..|events| - 1], events[|events| - 1];
      if last.Close? {
        assert Readings(events) == Readings(front) && Triggers(s, events) == Triggers(s, front);
        TriggersClocked(s, front);
      } else {
        ClockedFront(Readings(front), last.coarse);
        TriggersClocked(s, front);
        TriggersAreReadings(s, front);
        ClockedSnoc(Triggers(s, front), Readings(front), last.coarse);
        assert Triggers(s, front) + [] == Triggers(s, front);
      }
    }
  }

  lemma {:induction false} EpochsFollow(s: State, cooldown: nat, events: seq<Event>)
    requires WordSized(s) && Clocks(events) && s.epochs == Drain.Start(cooldown) && Drain.Clocked(Triggers(s, events))
    ensures RunFrom(s, events).epochs == Drain.Run(cooldown, Triggers(s, events))
    ensures RunFrom(s, events).pauses == s.pauses + |Triggers(s, events)|
  {
    if events != [] {
      var front, last := events[..|events| - 1], events[|events| - 1];
      var before, after := Triggers(s, front), Triggers(s, events);
      assert last in events;
      assert after[..|before|] == before;
      assert forall i :: 0 <= i < |before| ==> after[i] == before[i];
      EpochsFollow(s, cooldown, front);
      EpochStep(RunFrom(s, front), last);
      assert |after| == |before| ==> after == before;
    }
  }

  // Over every run with a monotone coarse clock, the epoch goes up once per bump, bumps are at
  // least one cooldown apart, and every pause triggered once.
  lemma {:induction false} EpochsSpaced(cap: nat, target: nat, cooldown: nat, events: seq<Event>)
    requires Clocks(events) && Drain.Clocked(Readings(events))
    ensures var s := Initial(cap, target, cooldown);
            && Drain.Clocked(Triggers(s, events))
            && Drain.Spaced(Drain.Bumps(cooldown, Triggers(s, events)), cooldown)
            && RunFrom(s, events).epochs.current == |Drain.Bumps(cooldown, Triggers(s, events))|
            && RunFrom(s, events).pauses == |Triggers(s, events)|
  {
    var s := Initial(cap, target, cooldown);
    TriggersClocked(s, events);
    EpochsFollow(s, cooldown, events);
    Drain.BumpsAreSpaced(cooldown, Triggers(s, events));
  }
}
