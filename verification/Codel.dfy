// The CoDel overload detector: the minimum queueing time over 100 ms windows, with a trip
// when it stays at or above the target for a further 100 ms (src/http_server_class.c:1069-1123).
module Codel {
  import opened Common

  const INTERVAL: nat := 100_000_000   // ns

  // The three words of detector state; 0 in `windowStart` or `firstAbove` means unset.
  datatype Detector = Detector(windowStart: nat, minimum: nat, firstAbove: nat)

  const RESET := Detector(0, 0, 0)

  datatype Sample = Sample(sojourn: nat, now: nat)

  // Unsigned 64-bit subtraction and addition of clock words.
  function Elapsed(now: nat, since: nat): nat
    requires now <= UINT64_MAX && since <= UINT64_MAX
  {
    if now >= since then now - since else now + UINT64_MAX + 1 - since
  }

  function Later(now: nat): nat { (now + INTERVAL) % (UINT64_MAX + 1) }

  predicate Words(d: Detector) { d.windowStart <= UINT64_MAX && d.firstAbove <= UINT64_MAX }

  function Windowed(d: Detector, s: Sample): Detector
    requires Words(d) && s.now <= UINT64_MAX
  {
    if d.windowStart == 0 || Elapsed(s.now, d.windowStart) >= INTERVAL then d.(windowStart := s.now, minimum := s.sojourn)
    else if s.sojourn < d.minimum then d.(minimum := s.sojourn)
    else d
  }

  // The detector after a sample, and whether the sample asks for a pause.
  function Observed(d: Detector, target: nat, s: Sample): (r: Detector)
    requires Words(d) && s.now <= UINT64_MAX
    ensures Words(r)
  {
    var w := Windowed(d, s);
    if w.minimum < target then w.(firstAbove := 0)
    else if w.firstAbove == 0 then w.(firstAbove := Later(s.now))
    else w
  }

  predicate Asks(d: Detector, target: nat, s: Sample)
    requires Words(d) && s.now <= UINT64_MAX
  {
    var w := Windowed(d, s);
    w.minimum >= target && w.firstAbove != 0 && s.now >= w.firstAbove
  }

  // ------------------------------------------------------------------- traces

  // Times are positive, never decrease and stay clear of the end of the clock.
  predicate Clocked(samples: seq<Sample>)
  {
    && (forall i :: 0 <= i < |samples| ==> 0 < samples[i].now && samples[i].now + INTERVAL <= UINT64_MAX)
    && (forall i, j :: 0 <= i <= j < |samples| ==> samples[i].now <= samples[j].now)
  }

  // The detector after a trace, from a fresh start.
  function Run(target: nat, samples: seq<Sample>): (d: Detector)
    requires Clocked(samples)
    ensures Words(d)
  {
    if samples == [] then RESET
    else Observed(Run(target, samples[..|samples| - 1]), target, samples[|samples| - 1])
  }

  // From sample `j` on, every sample is at or above the target.
  predicate AboveFrom(samples: seq<Sample>, target: nat, j: int)
  {
    0 <= j < |samples| && forall i :: j <= i < |samples| ==> samples[i].sojourn >= target
  }

  ghost predicate Onset(samples: seq<Sample>, target: nat, deadline: nat)
  {
    exists j :: OnsetAt(samples, target, deadline, j)
  }

  predicate OnsetAt(samples: seq<Sample>, target: nat, deadline: nat, j: int)
  {
    AboveFrom(samples, target, j) && samples[j].now + INTERVAL == deadline
  }

  lemma {:induction false} OneMore(samples: seq<Sample>, last: Sample, target: nat, deadline: nat)
    requires Onset(samples, target, deadline) && last.sojourn >= target
    ensures Onset(samples + [last], target, deadline)
  {
    var j :| OnsetAt(samples, target, deadline, j);
    assert OnsetAt(samples + [last], target, deadline, j);
  }

  lemma {:induction false} FirstOne(samples: seq<Sample>, last: Sample, target: nat)
    requires last.sojourn >= target
    ensures Onset(samples + [last], target, last.now + INTERVAL)
  {
    assert OnsetAt(samples + [last], target, last.now + INTERVAL, |samples|);
  }

  // The deadline a sample leaves: none, the old one, or one set by itself; and with a deadline
  // the sample was not below the target.
  lemma {:induction false} DeadlineStep(d: Detector, target: nat, s: Sample)
    requires Words(d) && s.now + INTERVAL <= UINT64_MAX
    ensures var r := Observed(d, target, s);
            r.firstAbove != 0 ==>
              s.sojourn >= target && r.firstAbove == if d.firstAbove != 0 then d.firstAbove else s.now + INTERVAL
  {
  }

  // A pending deadline was set by a sample since which nothing fell below the target.
  lemma {:induction false} DeadlineHasOnset(target: nat, samples: seq<Sample>)
    requires Clocked(samples)
    ensures Run(target, samples).firstAbove != 0 ==> Onset(samples, target, Run(target, samples).firstAbove)
  {
    if samples != [] {
      var front, last := samples[..|samples| - 1], samples[|samples| - 1];
      assert samples == front + [last];
      DeadlineHasOnset(target, front);
      var d := Run(target, front);
      DeadlineStep(d, target, last);
      if Observed(d, target, last).firstAbove != 0 {
        if d.firstAbove != 0 {
          OneMore(front, last, target, d.firstAbove);
        } else {
          FirstOne(front, last, target);
        }
      }
    }
  }

  // Soundness: a sample that asks for a pause ends a stretch of consecutive samples, all at or
  // above the target, that spans at least 100 ms.
  lemma {:induction false} TripIsSound(target: nat, samples: seq<Sample>, last: Sample)
    requires Clocked(samples + [last]) && Clocked(samples)
    requires last.now <= UINT64_MAX && Asks(Run(target, samples), target, last)
    ensures exists j :: AboveFrom(samples + [last], target, j) && last.now - (samples + [last])[j].now >= 100_000_000
  {
    var d := Run(target, samples);
    DeadlineHasOnset(target, samples);
    assert d.firstAbove != 0;
    OneMore(samples, last, target, d.firstAbove);
    var j :| OnsetAt(samples + [last], target, d.firstAbove, j);
  }

  // The first sample of a trace that asks for a pause, observed from `d`.
  function FirstTrip(d: Detector, target: nat, samples: seq<Sample>): (r: Option<nat>)
    requires Words(d) && forall i :: 0 <= i < |samples| ==> samples[i].now <= UINT64_MAX
    ensures r.Some? ==> r.value < |samples|
    decreases |samples|
  {
    if samples == [] then None
    else if Asks(d, target, samples[0]) then Some(0)
    else
      var later := FirstTrip(Observed(d, target, samples[0]), target, samples[1..]);
      if later.Some? then Some(later.value + 1) else None
  }

  // Above target throughout, the first sample less than `gap` after `since` and each later
  // one less than `gap` after its predecessor.
  predicate Pressing(samples: seq<Sample>, target: nat, gap: nat, since: nat)
    decreases |samples|
  {
    samples != [] ==>
      && 0 < samples[0].now && samples[0].now + INTERVAL <= UINT64_MAX
      && since <= samples[0].now < since + gap && samples[0].sojourn >= target
      && Pressing(samples[1..], target, gap, samples[0].now)
  }

  lemma {:induction false} PressingWords(samples: seq<Sample>, target: nat, gap: nat, since: nat)
    requires Pressing(samples, target, gap, since)
    ensures forall i :: 0 <= i < |samples| ==> samples[i].now <= UINT64_MAX
    decreases |samples|
  {
    if samples != [] {
      PressingWords(samples[1..], target, gap, samples[0].now);
      assert samples == [samples[0]] + samples[1..];
    }
  }

  predicate Reaches(samples: seq<Sample>, time: nat) { samples != [] && samples[|samples| - 1].now >= time }

  // The trace trips, before `bound`.
  predicate TripsBefore(d: Detector, target: nat, samples: seq<Sample>, bound: nat)
    requires Words(d) && forall i :: 0 <= i < |samples| ==> samples[i].now <= UINT64_MAX
  {
    var r := FirstTrip(d, target, samples);
    r.Some? && samples[r.value].now < bound
  }

  lemma {:induction false} TripsInTail(d: Detector, target: nat, samples: seq<Sample>, bound: nat)
    requires Words(d) && samples != [] && forall i :: 0 <= i < |samples| ==> samples[i].now <= UINT64_MAX
    requires TripsBefore(Observed(d, target, samples[0]), target, samples[1..], bound)
    requires samples[0].now < bound
    ensures TripsBefore(d, target, samples, bound)
  {
  }

  // With a deadline set and the minimum above target, the first sample at the deadline trips.
  lemma {:induction false} TripsAtDeadline(d: Detector, target: nat, samples: seq<Sample>, gap: nat, since: nat)
    requires Words(d) && Pressing(samples, target, gap, since)
    requires d.minimum >= target && 0 < d.firstAbove && 0 < d.windowStart <= since < d.firstAbove
    requires Reaches(samples, d.firstAbove)
    ensures forall i :: 0 <= i < |samples| ==> samples[i].now <= UINT64_MAX
    ensures TripsBefore(d, target, samples, d.firstAbove + gap)
    decreases |samples|
  {
    PressingWords(samples, target, gap, since);
    if samples[0].now < d.firstAbove {
      TripsAtDeadline(Observed(d, target, samples[0]), target, samples[1..], gap, samples[0].now);
      TripsInTail(d, target, samples, d.firstAbove + gap);
    }
  }

  // A window that began low ends within 100 ms of its start, and the next one is above target.
  lemma {:induction false} TripsAfterLowWindow(d: Detector, target: nat, samples: seq<Sample>, gap: nat, since: nat)
    requires Words(d) && Pressing(samples, target, gap, since)
    requires d.minimum < target && d.firstAbove == 0 && 0 < d.windowStart <= since < d.windowStart + INTERVAL
    requires Reaches(samples, d.windowStart + 2 * INTERVAL + gap)
    ensures forall i :: 0 <= i < |samples| ==> samples[i].now <= UINT64_MAX
    ensures TripsBefore(d, target, samples, d.windowStart + 2 * INTERVAL + 2 * gap)
    decreases |samples|
  {
    PressingWords(samples, target, gap, since);
    var t := samples[0].now;
    var r := Observed(d, target, samples[0]);
    if t - d.windowStart >= INTERVAL {
      assert r == Detector(t, samples[0].sojourn, t + INTERVAL);
      TripsAtDeadline(r, target, samples[1..], gap, t);
      TripsInTail(d, target, samples, d.windowStart + 2 * INTERVAL + 2 * gap);
    } else {
      assert r == d;
      TripsAfterLowWindow(d, target, samples[1..], gap, t);
      TripsInTail(d, target, samples, d.windowStart + 2 * INTERVAL + 2 * gap);
    }
  }

  // What every trace leaves, with the time of its last sample.
  predicate Settled(d: Detector, target: nat, now: nat)
  {
    && Words(d) && d.windowStart <= now && (d.firstAbove != 0 ==> d.firstAbove <= now + INTERVAL)
    && (d.windowStart != 0 && d.minimum < target ==> d.firstAbove == 0)
    && (d.windowStart == 0 ==> d == RESET)
  }

  lemma {:induction false} RunSettles(target: nat, samples: seq<Sample>)
    requires Clocked(samples)
    ensures Settled(Run(target, samples), target, if samples == [] then 0 else samples[|samples| - 1].now)
  {
    if samples != [] {
      RunSettles(target, samples[..|samples| - 1]);
    }
  }

  lemma {:induction false} PressureTrips(d: Detector, target: nat, samples: seq<Sample>, gap: nat, start: nat)
    requires target > 0 && samples != [] && start == samples[0].now && Settled(d, target, start)
    requires Pressing(samples, target, gap, start) && Reaches(samples, start + 2 * INTERVAL + 2 * gap)
    ensures forall i :: 0 <= i < |samples| ==> samples[i].now <= UINT64_MAX
    ensures TripsBefore(d, target, samples, start + 2 * INTERVAL + 2 * gap)
  {
    PressingWords(samples, target, gap, start);
    if !Asks(d, target, samples[0]) {
      FirstSample(d, target, samples[0]);
      PressureGoesOn(Observed(d, target, samples[0]), target, samples[1..], gap, start);
      TripsInTail(d, target, samples, start + 2 * INTERVAL + 2 * gap);
    }
  }

  // What a first sample at or above the target leaves when it does not trip: a deadline ahead,
  // or a window that began low.
  lemma {:induction false} FirstSample(d: Detector, target: nat, s: Sample)
    requires target > 0 && Settled(d, target, s.now) && 0 < s.now && s.now + INTERVAL <= UINT64_MAX
    requires s.sojourn >= target && !Asks(d, target, s)
    ensures var r := Observed(d, target, s);
            && 0 < r.windowStart <= s.now
            && (r.minimum >= target ==> s.now < r.firstAbove <= s.now + INTERVAL)
            && (r.minimum < target ==> r.firstAbove == 0 && s.now < r.windowStart + INTERVAL)
  {
  }

  lemma {:induction false} PressureGoesOn(r: Detector, target: nat, rest: seq<Sample>, gap: nat, start: nat)
    requires Words(r) && Pressing(rest, target, gap, start) && Reaches(rest, start + 2 * INTERVAL + 2 * gap)
    requires 0 < r.windowStart <= start
    requires r.minimum >= target ==> start < r.firstAbove <= start + INTERVAL
    requires r.minimum < target ==> r.firstAbove == 0 && start < r.windowStart + INTERVAL
    ensures forall i :: 0 <= i < |rest| ==> rest[i].now <= UINT64_MAX
    ensures TripsBefore(r, target, rest, start + 2 * INTERVAL + 2 * gap)
  {
    if r.minimum >= target {
      TripsAtDeadline(r, target, rest, gap, start);
    } else {
      TripsAfterLowWindow(r, target, rest, gap, start);
    }
  }

  // Completeness: after any history, while samples stay at or above a positive target with gaps
  // below `gap`, and nothing else pauses the listeners, a trip comes within 200 ms and two gaps
  // of the first of them.
  lemma {:induction false} PressureIsAnswered(target: nat, history: seq<Sample>, samples: seq<Sample>, gap: nat)
    requires target > 0 && Clocked(history) && samples != []
    requires history != [] ==> history[|history| - 1].now <= samples[0].now
    requires Pressing(samples, target, gap, samples[0].now) && Reaches(samples, samples[0].now + 200_000_000 + 2 * gap)
    ensures forall i :: 0 <= i < |samples| ==> samples[i].now <= UINT64_MAX
    ensures TripsBefore(Run(target, history), target, samples, samples[0].now + 200_000_000 + 2 * gap)
  {
    RunSettles(target, history);
    PressureTrips(Run(target, history), target, samples, gap, samples[0].now);
  }
}
