// What starting and reloading the pool bring about, read off the events of a run
// (src/http_server_class.c:3460-3489, 4569-4707).
module PoolReload {
  import opened Common
  import opened PoolChannel
  import opened PoolProtocol

  function Count(events: seq<Event>, e: Event): nat
  {
    if events == [] then 0
    else Count(events[..|events| - 1], e) + (if events[|events| - 1] == e then 1 else 0)
  }

  function Taken(events: seq<Event>): nat { Count(events, SubmitOne(true)) }

  function Offered(events: seq<Event>): nat { Taken(events) + Count(events, SubmitOne(false)) }

  lemma {:induction false} CountSnoc(events: seq<Event>, last: Event, e: Event)
    ensures Count(events + [last], e) == Count(events, e) + (if last == e then 1 else 0)
  {
    assert (events + [last])[..|events + [last]| - 1] == events;
  }

  // ------------------------------------------------------------------ cohorts

  // The newest cohort is the last `size` workers, one cohort for every reload().
  ghost predicate Staffed(size: nat, events: seq<Event>, p: Pool)
  {
    && p.parent.size == size && size <= |p.workers|
    && p.parent.cohort == Count(events, ReloadCall)
    && (p.parent.stopping <==> StopCall in events)
    && Newest(p)
  }

  ghost predicate Newest(p: Pool)
  {
    forall i :: 0 <= i < |p.workers| ==> (p.workers[i].cohort == p.parent.cohort <==> |p.workers| - p.parent.size <= i)
  }

  lemma {:induction false} WorkerStaff(p: Pool, e: Event)
    requires HasWorker(e) && WorkerEnabled(p, e) && Newest(p)
    ensures var q := WorkerNext(p, e);
            && Newest(q) && q.parent.size == p.parent.size && |q.workers| == |p.workers|
            && q.parent.cohort == p.parent.cohort && q.parent.stopping == p.parent.stopping
  {
    WorkerShape(p, e);
    assert WorkerAfter(p, e).cohort == p.workers[e.w].cohort;
  }

  lemma {:induction false} ReloadStaff(p: Pool)
    requires Inv(p) && ParentEnabled(p, ReloadCall)
    ensures Newest(ParentNext(p, ReloadCall))
  {
    var q := ParentNext(p, ReloadCall);
    forall i | 0 <= i < |q.workers|
      ensures q.workers[i].cohort == q.parent.cohort <==> |q.workers| - q.parent.size <= i
    {
      assert i < |p.workers| ==> q.workers[i] == p.workers[i] && Local(p.parent, i, p.workers[i]);
    }
  }

  lemma {:induction false} ParentStaff(p: Pool, e: Event)
    requires Inv(p) && !HasWorker(e) && ParentEnabled(p, e) && Newest(p)
    ensures var q := ParentNext(p, e);
            && Newest(q) && q.parent.size == p.parent.size && |q.workers| >= |p.workers|
            && q.parent.cohort == p.parent.cohort + (if e == ReloadCall then 1 else 0)
            && (q.parent.stopping <==> p.parent.stopping || e == StopCall)
  {
    if e == ReloadCall {
      ReloadStaff(p);
    } else {
      var q := ParentNext(p, e);
      assert |q.workers| == |p.workers| && forall i :: 0 <= i < |p.workers| ==> q.workers[i].cohort == p.workers[i].cohort;
    }
  }

  lemma {:induction false} StaffedRun(size: nat, events: seq<Event>)
    requires size > 1 && Run(size, events).Some?
    ensures Inv(Run(size, events).value) && Staffed(size, events, Run(size, events).value)
  {
    RunKeeps(size, events);
    if events != [] {
      var front, e := events[..|events| - 1], events[|events| - 1];
      StaffedRun(size, front);
      assert events == front + [e];
      CountSnoc(front, e, ReloadCall);
      if HasWorker(e) {
        WorkerStaff(Run(size, front).value, e);
      } else {
        ParentStaff(Run(size, front).value, e);
      }
    }
  }

  // --------------------------------------------------------------- submitting

  // While a cohort is submitted only its tasks are handed over and workers run.
  predicate Submits(e: Event) { e.SubmitOne? || HasWorker(e) }

  predicate AllSubmit(events: seq<Event>) { forall i :: 0 <= i < |events| ==> Submits(events[i]) }

  lemma {:induction false} WorkerWhileSubmitting(p: Pool, e: Event)
    requires Inv(p) && p.parent.pc.Submitting? && HasWorker(e) && WorkerEnabled(p, e)
    ensures var q := WorkerNext(p, e); q.parent == p.parent && Outstanding(q.workers) == Outstanding(p.workers)
  {
    assert Local(p.parent, e.w, p.workers[e.w]);
    WorkerShape(p, e);
    WorkerTotals(p, e);
    CountUpdate(p.workers, e.w, WorkerAfter(p, e));
  }

  lemma {:induction false} SubmitCounts(p: Pool, ok: bool)
    requires Inv(p) && ParentEnabled(p, SubmitOne(ok))
    ensures Outstanding(ParentNext(p, SubmitOne(ok)).workers) == Outstanding(p.workers) + (if ok then 1 else 0)
  {
    var w := p.parent.base + p.parent.pc.next;
    assert Local(p.parent, w, p.workers[w]);
    if ok {
      CountUpdate(p.workers, w, p.workers[w].(phase := Queued));
    }
  }

  // A reload() that no stop() overtook: the command is withdrawn, all_done has not fired, every
  // task of the new cohort is offered, a refused one or not, and those taken are exactly the
  // tasks outstanding.
  ghost predicate Rehiring(size: nat, cohort: nat, more: seq<Event>, p: Pool)
  {
    && p.parent.command == NoCommand && p.parent.fired == 0
    && Outstanding(p.workers) == Taken(more)
    && (forall w :: w in p.workers && IsOutstanding(w) ==> w.cohort == cohort)
    && Offered(more) <= size
    && (forall ok :: Enabled(p, SubmitOne(ok)) <==> Offered(more) < size)
    && (Enabled(p, EndSubmit) <==> Offered(more) == size)
  }

  ghost predicate Midway(size: nat, more: seq<Event>, p: Pool)
  {
    p.parent.pc == Submitting(Offered(more)) && p.parent.rotating && Outstanding(p.workers) == Taken(more)
  }

  lemma {:induction false} MidwayStart(p: Pool)
    requires Inv(p) && ParentEnabled(p, RotationDone) && !p.parent.stopping
    ensures Midway(p.parent.size, [], ParentNext(p, RotationDone))
  {
    CountNobody(p.workers);
  }

  lemma {:induction false} MidwayStep(size: nat, more: seq<Event>, p: Pool, e: Event)
    requires Inv(p) && p.parent.size == size && Midway(size, more, p) && Submits(e) && Enabled(p, e)
    ensures Midway(size, more + [e], Next(p, e))
  {
    CountSnoc(more, e, SubmitOne(true));
    CountSnoc(more, e, SubmitOne(false));
    if HasWorker(e) {
      WorkerWhileSubmitting(p, e);
    } else {
      SubmitCounts(p, e.ok);
    }
  }

  lemma {:induction false} MidwayRun(size: nat, events: seq<Event>, more: seq<Event>)
    requires size > 1 && Run(size, events + [RotationDone] + more).Some?
    requires StopCall !in events && AllSubmit(more)
    ensures Midway(size, more, Run(size, events + [RotationDone] + more).value)
  {
    var start := events + [RotationDone];
    if more == [] {
      assert start + more == start && start[..|start| - 1] == events;
      StaffedRun(size, events);
      MidwayStart(Run(size, events).value);
    } else {
      var front, e := more[..|more| - 1], more[|more| - 1];
      assert (start + more)[..|start + more| - 1] == start + front && more == front + [e];
      MidwayRun(size, events, front);
      StaffedRun(size, start + front);
      MidwayStep(size, front, Run(size, start + front).value, e);
    }
  }

  lemma {:induction false} NoReloadMeanwhile(events: seq<Event>, more: seq<Event>)
    requires AllSubmit(more)
    ensures Count(events + [RotationDone] + more, ReloadCall) == Count(events, ReloadCall)
  {
    var start := events + [RotationDone];
    if more == [] {
      assert start + more == start;
      CountSnoc(events, RotationDone, ReloadCall);
    } else {
      var front, e := more[..|more| - 1], more[|more| - 1];
      assert start + more == (start + front) + [e];
      NoReloadMeanwhile(events, front);
      CountSnoc(start + front, e, ReloadCall);
    }
  }

  lemma {:induction false} OutstandingAreNewest(p: Pool)
    requires Inv(p) && Newest(p) && p.parent.pc.Submitting? && p.parent.rotating
    ensures forall w :: w in p.workers && IsOutstanding(w) ==> w.cohort == p.parent.cohort
  {
    forall w | w in p.workers && IsOutstanding(w)
      ensures w.cohort == p.parent.cohort
    {
      var i :| 0 <= i < |p.workers| && p.workers[i] == w;
      assert Local(p.parent, i, p.workers[i]);
    }
  }

  lemma {:induction false} ReloadRehires(size: nat, events: seq<Event>, more: seq<Event>)
    requires size > 1 && Run(size, events + [RotationDone] + more).Some?
    requires StopCall !in events && AllSubmit(more)
    ensures Rehiring(size, Count(events, ReloadCall), more, Run(size, events + [RotationDone] + more).value)
  {
    var p := Run(size, events + [RotationDone] + more).value;
    MidwayRun(size, events, more);
    StaffedRun(size, events + [RotationDone] + more);
    NoReloadMeanwhile(events, more);
    OutstandingAreNewest(p);
  }

  // And once all were offered: the tasks taken of the new cohort are up, the shells of every
  // older cohort are released, and all_done has fired only if not one was taken.
  lemma {:induction false} ReloadBringsUp(size: nat, events: seq<Event>, more: seq<Event>)
    requires size > 1 && Run(size, events + [RotationDone] + more + [EndSubmit]).Some?
    requires StopCall !in events && AllSubmit(more)
    ensures var p := Run(size, events + [RotationDone] + more + [EndSubmit]).value;
            && Offered(more) == size && Outstanding(p.workers) == Taken(more)
            && (forall w :: w in p.workers && IsOutstanding(w) ==> w.cohort == Count(events, ReloadCall))
            && (forall w :: w in p.workers ==> (w.shell <==> w.cohort == Count(events, ReloadCall)))
            && p.parent.command == NoCommand && p.parent.awaiting && !p.parent.rotating
            && p.parent.fired == if Taken(more) == 0 then 1 else 0
  {
    var all := events + [RotationDone] + more;
    assert (all + [EndSubmit])[..|all + [EndSubmit]| - 1] == all;
    var p := Run(size, all).value;
    ReloadRehires(size, events, more);
    MidwayRun(size, events, more);
    StaffedRun(size, all);
    NoReloadMeanwhile(events, more);
    EndOfSubmission(p);
  }

  lemma {:induction false} EndOfSubmission(p: Pool)
    requires Inv(p) && Newest(p) && p.parent.rotating && ParentEnabled(p, EndSubmit)
    ensures var q := ParentNext(p, EndSubmit);
            && Outstanding(q.workers) == Outstanding(p.workers)
            && (forall w :: w in q.workers && IsOutstanding(w) ==> w.cohort == p.parent.cohort)
            && (forall w :: w in q.workers ==> (w.shell <==> w.cohort == p.parent.cohort))
            && q.parent.command == NoCommand && q.parent.awaiting && !q.parent.rotating
            && q.parent.fired == if Outstanding(p.workers) == 0 then 1 else 0
  {
    var q := ParentNext(p, EndSubmit);
    CountAgree(q.workers, p.workers);
    OutstandingAreNewest(p);
    forall w | w in q.workers
      ensures (w.shell <==> w.cohort == p.parent.cohort) && (IsOutstanding(w) ==> w.cohort == p.parent.cohort)
    {
      var i :| 0 <= i < |q.workers| && q.workers[i] == w;
      assert Local(p.parent, i, p.workers[i]) && p.workers[i] in p.workers;
    }
  }

  // -------------------------------------------------------- given-up rotations

  // A rotation overtaken by stop() ends the pool: all_done fires, and no task is ever
  // submitted again.
  lemma {:induction false} StoppedReloadEnds(size: nat, events: seq<Event>, more: seq<Event>)
    requires size > 1 && Run(size, events + [RotationDone]).Some? && Run(size, events + [RotationDone] + more).Some?
    requires StopCall in events
    ensures Run(size, events + [RotationDone]).value.parent.fired == 1
    ensures forall w :: w in Run(size, events + [RotationDone] + more).value.workers ==> !IsOutstanding(w)
    ensures forall ok :: !Enabled(Run(size, events + [RotationDone] + more).value, SubmitOne(ok))
  {
    var start := events + [RotationDone];
    assert start[..|start| - 1] == events;
    StaffedRun(size, events);
    var p, q := Run(size, events).value, Run(size, start).value;
    CountNobody(p.workers);
    RunKeeps(size, start);
    CountAgree(q.workers, p.workers);
    forall p, e | Inv(p) && Ending(p) && Enabled(p, e)
      ensures Ending(Next(p, e))
    {
      EndingStays(p, e);
    }
    Always(size, start, more, Ending);
    RunKeeps(size, start + more);
    NobodyOutstanding(Run(size, start + more).value.workers);
  }

  predicate Ending(p: Pool) { p.parent.command == Stop && !p.parent.pc.Submitting? && Outstanding(p.workers) == 0 }

  lemma {:induction false} EndingStays(p: Pool, e: Event)
    requires Inv(p) && Ending(p) && Enabled(p, e)
    ensures Ending(Next(p, e))
  {
    StopStays(p, e);
    StepKeeps(p, e);
    if HasWorker(e) {
      assert Local(p.parent, e.w, p.workers[e.w]);
      WorkerShape(p, e);
      CountMember(p.workers, e.w);
      CountUpdate(p.workers, e.w, WorkerAfter(p, e));
    } else {
      assert |Next(p, e).workers| == |p.workers|;
      CountAgreeWeakly(Next(p, e).workers, p.workers);
    }
  }

  lemma {:induction false} CountAgreeWeakly(a: seq<Worker>, b: seq<Worker>)
    requires |a| == |b| && forall i :: 0 <= i < |a| ==> (IsOutstanding(a[i]) <==> IsOutstanding(b[i]))
    ensures Outstanding(a) == Outstanding(b)
  {
    if a != [] {
      CountAgreeWeakly(a[..|a| - 1], b[..|b| - 1]);
    }
  }

  lemma {:induction false} NobodyOutstanding(ws: seq<Worker>)
    requires Outstanding(ws) == 0
    ensures forall w :: w in ws ==> !IsOutstanding(w)
  {
    forall w | w in ws
      ensures !IsOutstanding(w)
    {
      var i :| 0 <= i < |ws| && ws[i] == w;
      CountMember(ws, i);
    }
  }

  // A rotation that threw gives up its own cohort and nothing else: its shells are released
  // unsubmitted, the other workers are as they were, and all_done fires exactly when none of
  // them is outstanding.
  lemma {:induction false} ThrownReloadGivesUp(size: nat, events: seq<Event>)
    requires size > 1 && Run(size, events + [RotationThrew]).Some?
    ensures Run(size, events).Some?
    ensures var p, q := Run(size, events).value, Run(size, events + [RotationThrew]).value;
            && |q.workers| == |p.workers| && !q.parent.rotating && q.parent.command == p.parent.command
            && (forall i :: 0 <= i < |q.workers| ==>
                  if q.workers[i].cohort == Count(events, ReloadCall)
                  then q.workers[i].phase.Shelved? && !q.workers[i].shell
                  else q.workers[i] == p.workers[i])
            && q.parent.fired == if Outstanding(p.workers) == 0 then 1 else 0
  {
    var all := events + [RotationThrew];
    assert all[..|all| - 1] == events;
    StaffedRun(size, events);
    var p, q := Run(size, events).value, Run(size, all).value;
    forall i | 0 <= i < |q.workers|
      ensures if q.workers[i].cohort == Count(events, ReloadCall)
              then q.workers[i].phase.Shelved? && !q.workers[i].shell
              else q.workers[i] == p.workers[i]
    {
      assert Local(p.parent, i, p.workers[i]);
    }
  }

  // When the parent object goes, it lets go of every shell; so once the clones are gone too the
  // channel is freed.
  lemma {:induction false} NothingLeaks(size: nat, events: seq<Event>)
    requires size > 1 && Run(size, events + [FreeParent]).Some?
    ensures var p := Run(size, events + [FreeParent]).value;
            && (forall w :: w in p.workers ==> !w.shell)
            && (p.frees == 1 <==> forall w :: w in p.workers ==> !w.clone)
  {
    var all := events + [FreeParent];
    assert all[..|all| - 1] == events;
    var p := Run(size, all).value;
    assert !p.parent.holds && forall w :: w in p.workers ==> !w.shell;
    ChannelFreedOnce(size, all);
  }

  // ------------------------------------------------------------- first cohort

  // start_pool() offers its tasks until one is refused; those taken are outstanding, and it
  // waits exactly if there is one.
  lemma {:induction false} StartSubmits(size: nat, more: seq<Event>)
    requires size > 1 && Run(size, more).Some? && AllSubmit(more)
    ensures var p := Run(size, more).value;
            var refused := SubmitOne(false) in more;
            && p.parent.command == NoCommand && p.parent.fired == 0 && !p.parent.awaiting
            && Outstanding(p.workers) == Taken(more)
            && (forall ok :: Enabled(p, SubmitOne(ok)) <==> !refused && Offered(more) < size)
            && (Enabled(p, EndSubmit) <==> refused || Offered(more) == size)
            && (Enabled(p, EndSubmit) ==> (Next(p, EndSubmit).parent.awaiting <==> Taken(more) > 0))
  {
    StartRun(size, more);
    RunKeeps(size, more);
  }

  ghost predicate Starting(more: seq<Event>, p: Pool)
  {
    && !p.parent.rotating && Outstanding(p.workers) == Taken(more)
    && p.parent.pc.Submitting?
    && if SubmitOne(false) in more then p.parent.pc.next == p.parent.size
       else p.parent.pc.next == Offered(more)
  }

  lemma {:induction false} StartStep(more: seq<Event>, p: Pool, e: Event)
    requires Inv(p) && Starting(more, p) && Submits(e) && Enabled(p, e)
    ensures Starting(more + [e], Next(p, e))
  {
    CountSnoc(more, e, SubmitOne(true));
    CountSnoc(more, e, SubmitOne(false));
    if HasWorker(e) {
      WorkerWhileSubmitting(p, e);
    } else {
      SubmitCounts(p, e.ok);
    }
  }

  lemma {:induction false} StartRun(size: nat, more: seq<Event>)
    requires size > 1 && Run(size, more).Some? && AllSubmit(more)
    ensures Starting(more, Run(size, more).value) && Run(size, more).value.parent.size == size
  {
    if more == [] {
      CountShells([], size, 0);
      assert [] + Cohort(size, 0) == Cohort(size, 0);
    } else {
      var front, e := more[..|more| - 1], more[|more| - 1];
      assert more == front + [e];
      StartRun(size, front);
      RunKeeps(size, front);
      StartStep(front, Run(size, front).value, e);
      StaffedRun(size, more);
    }
  }
}
