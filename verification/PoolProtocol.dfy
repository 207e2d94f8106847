// The worker pool's start / reload / stop protocol as an interleaved state machine.
//
// The parent is one thread: its events run from one suspension point to the next, except
// that storing a command, ringing the table and submitting a task are separate events so
// that worker threads can run in between. A worker's events are its atomic accesses to
// the channel (src/http_server_class.c:2215-2289, 3318-3608, 3675-3690, 4407-4707).
module PoolProtocol {
  import opened Common
  import opened PoolChannel

  datatype Phase =
    | Shelved              // transit shell built, task not submitted
    | Queued               // submitted, no thread has loaded the shell yet
    | Loaded               // clone built, command word not read yet
    | Cleared              // read NONE, not published yet
    | Serving(slot: nat)   // wake handle published in this slot
    | Returned             // start() is over: never joined, or left the channel
    | Finished             // task over, completion on its way to the parent
    | Delivered            // completion callback has run

  datatype Worker = Worker(
    cohort: nat,
    phase: Phase,
    shell: bool,      // the transit shell holds a channel reference
    clone: bool,      // the clone holds a channel reference
    rung: bool,       // its handle has been rung
    missed: bool,     // a whole broadcast fell between its check and its publication,
                      // and none has run since
    retiring: bool,   // the wake callback queued the retirement
    closed: bool)     // its handle is closed

  datatype Pc = Ready | Ringing | Submitting(next: nat)

  // What only the parent writes. Workers read the command word and nothing else of it.
  datatype Parent = Parent(
    size: nat,              // workers per cohort
    built: nat,             // shells ever built
    base: nat,              // first worker of the newest cohort
    command: Command,
    commandCohort: nat,     // newest cohort a published RELOAD is meant for
    cohort: nat,            // newest cohort
    pc: Pc,
    awaiting: bool,         // start_pool is suspended on all_done
    rotating: bool,         // reload_in_progress
    stopping: bool,
    pending: int,
    fired: nat,             // notifications of all_done
    holds: bool)            // the parent's own channel reference

  datatype Pool = Pool(
    parent: Parent,
    workers: seq<Worker>,   // one per shell ever built, oldest first
    wake: seq<Option<Handle>>,
    refcount: int,
    frees: nat)             // times the channel was freed

  datatype Event =
    | SubmitOne(ok: bool)
    | EndSubmit
    | StopCall
    | RingAll
    | ReloadCall
    | RotationThrew
    | RotationDone
    | Complete(w: nat)
    | Teardown
    | FreeParent
    | Load(w: nat, ok: bool)
    | Check(w: nat)
    | Join(w: nat, created: bool)
    | Wake(w: nat)
    | Leave(w: nat)
    | Finish(w: nat)
    | FreeClone(w: nat)

  predicate HasWorker(e: Event)
  {
    e.Complete? || e.Load? || e.Check? || e.Join? || e.Wake? || e.Leave? || e.Finish? || e.FreeClone?
  }

  // ---------------------------------------------------------------- counting

  // Submitted and not yet reported to the parent.
  predicate IsOutstanding(w: Worker) { !w.phase.Shelved? && !w.phase.Delivered? }

  // Between LOAD and the end of start(): the code that reads the channel.
  predicate OnChannel(w: Worker) { w.phase.Loaded? || w.phase.Cleared? || w.phase.Serving? }

  function RefWeight(w: Worker): nat { (if w.shell then 1 else 0) + (if w.clone then 1 else 0) }

  function Refs(ws: seq<Worker>): nat
  {
    if ws == [] then 0 else Refs(ws[..|ws| - 1]) + RefWeight(ws[|ws| - 1])
  }

  function Outstanding(ws: seq<Worker>): nat
  {
    if ws == [] then 0
    else Outstanding(ws[..|ws| - 1]) + (if IsOutstanding(ws[|ws| - 1]) then 1 else 0)
  }

  // Completion slots held for a cohort that is not, or not wholly, submitted yet.
  function Reserved(c: Parent): int
  {
    match c.pc
    case Submitting(i) => c.size - i
    case _ => if c.rotating then c.size else 0
  }

  // ------------------------------------------------------------- transitions

  function Cohort(n: nat, cohort: nat): (ws: seq<Worker>)
  {
    seq(n, i => Worker(cohort, Shelved, true, false, false, false, false, false))
  }

  // start_pool once the shells exist and every completion slot is counted.
  function Initial(size: nat): Pool
  {
    Pool(Parent(size, size, 0, NoCommand, 0, 0, Submitting(0), false, false, false, size, 0, true),
         Cohort(size, 0), seq(size, i => None), 1 + size, 0)
  }

  // Dropping references; the one that reaches zero frees the channel.
  function Drop(p: Pool, n: int): Pool
  {
    p.(refcount := p.refcount - n,
       frees := if n > 0 && p.refcount - n == 0 then p.frees + 1 else p.frees)
  }

  function NotifyIfIdle(c: Parent): Parent
  {
    if c.pending == 0 then c.(fired := c.fired + 1) else c
  }

  function DropShell(w: Worker): Worker { w.(shell := false) }

  function DropShells(ws: seq<Worker>, lo: nat, hi: nat): (r: seq<Worker>)
    ensures |r| == |ws|
  {
    seq(|ws|, i requires 0 <= i < |ws| => if lo <= i < hi then DropShell(ws[i]) else ws[i])
  }

  // Shells lo..hi are released and the parent moves on to `c`.
  function Release(p: Pool, c: Parent, lo: nat, hi: nat): Pool
  {
    var ws := DropShells(p.workers, lo, hi);
    Drop(p.(parent := c, workers := ws), Refs(p.workers) - Refs(ws))
  }

  // One broadcast under the lock: every published worker is rung; a worker that has
  // checked but not published is passed over.
  function Heard(w: Worker): Worker
  {
    if w.phase.Serving? then w.(rung := true, missed := false)
    else if w.phase.Cleared? then w.(missed := true)
    else w
  }

  function RingWorkers(ws: seq<Worker>): (r: seq<Worker>)
    ensures |r| == |ws|
  {
    seq(|ws|, i requires 0 <= i < |ws| => Heard(ws[i]))
  }

  // A rotation that ends without a fresh cohort (exception, or stop() in between) gives
  // its completion slots back.
  function AbandonedParent(c: Parent): Parent
  {
    NotifyIfIdle(c.(pending := c.pending - c.size, rotating := false))
  }

  function SubmitParent(c: Parent, ok: bool): Parent
    requires c.pc.Submitting?
  {
    var i := c.pc.next;
    if ok then c.(pc := Submitting(i + 1))
    else if c.rotating then c.(pending := c.pending - 1, pc := Submitting(i + 1))
    else c.(pending := c.pending - (c.size - i), pc := Submitting(c.size))
  }

  function EndSubmitParent(c: Parent): Parent
  {
    if c.rotating then NotifyIfIdle(c.(pc := Ready, rotating := false))
    else c.(pc := Ready, awaiting := c.pending > 0)
  }

  function ReloadParent(c: Parent): Parent
  {
    c.(base := c.built, built := c.built + c.size, pending := c.pending + c.size,
       command := Reload, commandCohort := c.cohort, cohort := c.cohort + 1,
       rotating := true, pc := Ringing)
  }

  predicate WorkerEnabled(p: Pool, e: Event)
    requires HasWorker(e)
  {
    e.w < |p.workers| &&
    var w := p.workers[e.w];
    match e
    case Complete(_) => p.parent.pc.Ready? && p.parent.awaiting && w.phase.Finished?
    case Load(_, _) => w.phase.Queued?
    case Check(_) => w.phase.Loaded?
    case Join(_, _) => w.phase.Cleared?
    case Wake(_) => w.phase.Serving? && w.rung && !w.retiring
    case Leave(_) => w.phase.Serving? && w.phase.slot < |p.wake|
    case Finish(_) => w.phase.Returned?
    case FreeClone(_) => w.clone && !OnChannel(w)
  }

  predicate ParentEnabled(p: Pool, e: Event)
    requires !HasWorker(e)
  {
    var c := p.parent;
    match e
    case SubmitOne(_) => c.pc.Submitting? && c.pc.next < c.size && c.base + c.pc.next < |p.workers|
    case EndSubmit => c.pc.Submitting? && c.pc.next == c.size
    case StopCall => c.pc.Ready? && c.awaiting && !c.stopping
    case RingAll => c.pc.Ringing?
    // a reload() entered after all_done fired is outside the modelled runs
    case ReloadCall => c.pc.Ready? && c.awaiting && !c.rotating && !c.stopping && c.fired == 0
    case RotationThrew => c.pc.Ready? && c.rotating
    // ThreadPool reload() returns only once every task is over and reported
    case RotationDone => c.pc.Ready? && c.rotating && (forall w :: w in p.workers ==> !IsOutstanding(w))
    case Teardown => c.pc.Ready? && c.holds && (c.awaiting ==> c.fired > 0)
    case FreeParent => c.pc.Ready? && !c.holds
  }

  predicate Enabled(p: Pool, e: Event)
  {
    if HasWorker(e) then WorkerEnabled(p, e) else ParentEnabled(p, e)
  }

  // The worker an event belongs to, after it.
  function WorkerAfter(p: Pool, e: Event): Worker
    requires HasWorker(e)
    requires WorkerEnabled(p, e)
  {
    var w := p.workers[e.w];
    match e
    case Complete(_) => w.(phase := Delivered)
    case Load(_, ok) => if ok then w.(phase := Loaded, clone := true) else w.(phase := Returned)
    case Check(_) => w.(phase := if p.parent.command == NoCommand then Cleared else Returned)
    case Join(_, created) =>
      if !created then w.(phase := Returned)
      else if FirstFree(p.wake) == |p.wake| then w.(phase := Returned, closed := true)
      else w.(phase := Serving(FirstFree(p.wake)))
    case Wake(_) => if p.parent.command == NoCommand then w.(rung := false) else w.(retiring := true)
    case Leave(_) => w.(phase := Returned, closed := true)
    case Finish(_) => w.(phase := Finished)
    case FreeClone(_) => w.(clone := false)
  }

  function WorkerNext(p: Pool, e: Event): Pool
    requires HasWorker(e)
    requires WorkerEnabled(p, e)
  {
    var q := p.(workers := p.workers[e.w := WorkerAfter(p, e)]);
    match e
    case Complete(_) => q.(parent := NotifyIfIdle(p.parent.(pending := p.parent.pending - 1)))
    case Load(_, ok) => if ok then q.(refcount := p.refcount + 1) else q
    case Join(w, created) =>
      var slot := FirstFree(p.wake);
      if created && slot < |p.wake| then q.(wake := p.wake[slot := Some(w)]) else q
    case Leave(w) => q.(wake := p.wake[p.workers[w].phase.slot := None])
    case FreeClone(_) => Drop(q, 1)
    case _ => q
  }

  function ParentNext(p: Pool, e: Event): Pool
    requires !HasWorker(e) && ParentEnabled(p, e)
  {
    var c := p.parent;
    match e
    case SubmitOne(ok) =>
      var w := c.base + c.pc.next;
      var q := p.(parent := SubmitParent(c, ok));
      if ok then q.(workers := p.workers[w := p.workers[w].(phase := Queued)]) else q
    case EndSubmit =>
      if c.rotating then Release(p, EndSubmitParent(c), 0, c.base) else p.(parent := EndSubmitParent(c))
    case StopCall => p.(parent := c.(stopping := true, command := Stop, pc := Ringing))
    case RingAll => p.(parent := c.(pc := Ready), workers := RingWorkers(p.workers))
    case ReloadCall =>
      p.(parent := ReloadParent(c), workers := p.workers + Cohort(c.size, c.cohort + 1),
         refcount := p.refcount + c.size)
    case RotationThrew => Release(p, AbandonedParent(c), c.base, |p.workers|)
    case RotationDone =>
      if c.stopping then Release(p, AbandonedParent(c), c.base, |p.workers|)
      else p.(parent := c.(command := NoCommand, pc := Submitting(0)))
    case Teardown => Drop(p.(parent := c.(holds := false, awaiting := false)), 1)
    case FreeParent => Release(p, c, 0, |p.workers|)
  }

  function Next(p: Pool, e: Event): Pool
    requires Enabled(p, e)
  {
    if HasWorker(e) then WorkerNext(p, e) else ParentNext(p, e)
  }

  // The pool after a whole run, or None when some event was not possible.
  function Run(size: nat, events: seq<Event>): Option<Pool>
  {
    if events == [] then Some(Initial(size))
    else
      var before := Run(size, events[..|events| - 1]);
      var e := events[|events| - 1];
      if before.Some? && Enabled(before.value, e) then Some(Next(before.value, e)) else None
  }

  // --------------------------------------------------------------- invariants

  ghost predicate Sane(c: Parent)
  {
    && c.size > 1
    && c.base <= c.built
    && (c.rotating ==> c.awaiting)
    && (c.awaiting ==> c.holds)
    && (c.pc.Ringing? ==> c.awaiting)
    && (c.pc.Submitting? ==> c.holds && c.pc.next <= c.size && (c.rotating <==> c.awaiting))
    && (c.rotating || c.pc.Submitting? ==> c.base + c.size == c.built)
    && (c.stopping <==> c.command == Stop)
    && (c.pc.Submitting? ==> c.command == NoCommand)
    && (c.rotating && !c.pc.Submitting? ==> c.command != NoCommand)
    && (c.pc.Ringing? ==> c.command != NoCommand)
    && (c.command == Reload ==> c.commandCohort < c.cohort)
    && c.fired <= 1
    && (c.fired > 0 ==> c.pending == 0 && !c.rotating && !c.pc.Submitting?)
    && (c.awaiting && !c.pc.Submitting? ==> (c.fired > 0 <==> c.pending == 0))
    && (!c.awaiting && !c.pc.Submitting? ==> c.pending == 0)
  }

  // Only the newest cohort, past the submission cursor, is still on the shelf; while a
  // cohort is being submitted its predecessors are over.
  ghost predicate Placed(c: Parent, i: nat, w: Worker)
  {
    && (c.pc.Submitting? && c.rotating && i < c.base ==> !IsOutstanding(w))
    && (c.pc.Submitting? && c.base + c.pc.next <= i ==> w.phase.Shelved?)
    && (c.rotating && !c.pc.Submitting? && c.base <= i ==> w.phase.Shelved?)
    && ((c.rotating || c.pc.Submitting?) && c.base <= i ==> w.shell)
    && (w.phase.Queued? ==> w.shell)
    && (OnChannel(w) ==> w.clone)
    && (w.clone ==> !w.phase.Shelved? && !w.phase.Queued?)
    && (w.closed ==> !w.phase.Shelved? && !w.phase.Queued? && !OnChannel(w))
  }

  // The command each worker is subject to, and whether it has been told.
  ghost predicate Told(c: Parent, w: Worker)
  {
    && w.cohort <= c.cohort
    && (c.command == Reload && IsOutstanding(w) ==> w.cohort <= c.commandCohort)
    && (w.phase.Shelved? || w.phase.Queued? || w.phase.Loaded? ==> !w.rung && !w.missed)
    && (w.phase.Cleared? ==> !w.rung)
    && (c.command == NoCommand && (w.phase.Cleared? || w.phase.Serving?) ==> !w.rung && !w.missed)
    && (c.command != NoCommand && !c.pc.Ringing? && w.phase.Cleared? ==> w.missed)
    && (c.command != NoCommand && !c.pc.Ringing? && w.phase.Serving? ==> (w.rung <==> !w.missed))
  }

  ghost predicate Local(c: Parent, i: nat, w: Worker) { Placed(c, i, w) && Told(c, w) }

  ghost predicate Locals(c: Parent, ws: seq<Worker>)
  {
    forall i :: 0 <= i < |ws| ==> Local(c, i, ws[i])
  }

  // The wake table and the workers' own view of their slots agree.
  ghost predicate Table(ws: seq<Worker>, wake: seq<Option<Handle>>)
  {
    && (forall i :: 0 <= i < |wake| && wake[i].Some? ==>
          wake[i].value < |ws| && ws[wake[i].value].phase == Serving(i))
    && (forall w :: 0 <= w < |ws| && ws[w].phase.Serving? ==>
          ws[w].phase.slot < |wake| && wake[ws[w].phase.slot] == Some(w))
  }

  ghost predicate Counted(p: Pool)
  {
    && p.refcount == (if p.parent.holds then 1 else 0) + Refs(p.workers)
    && p.frees == (if p.refcount == 0 then 1 else 0)
    && p.parent.pending == Outstanding(p.workers) + Reserved(p.parent)
  }

  ghost predicate Inv(p: Pool)
  {
    && Sane(p.parent)
    && |p.wake| == p.parent.size
    && |p.workers| == p.parent.built
    && Locals(p.parent, p.workers)
    && Table(p.workers, p.wake)
    && Counted(p)
  }

  // ----------------------------------------------------------- counting lemmas

  lemma {:induction false} CountUpdate(ws: seq<Worker>, i: nat, w: Worker)
    requires i < |ws|
    ensures Refs(ws[i := w]) == Refs(ws) - RefWeight(ws[i]) + RefWeight(w)
    ensures Outstanding(ws[i := w])
         == Outstanding(ws) - (if IsOutstanding(ws[i]) then 1 else 0) + (if IsOutstanding(w) then 1 else 0)
  {
    var n := |ws| - 1;
    if i == n {
      assert ws[i := w][..n] == ws[..n];
    } else {
      assert ws[i := w][..n] == ws[..n][i := w];
      CountUpdate(ws[..n], i, w);
    }
  }

  lemma {:induction false} CountAgree(a: seq<Worker>, b: seq<Worker>)
    requires |a| == |b|
    requires forall i :: 0 <= i < |a| ==> RefWeight(a[i]) <= RefWeight(b[i])
    requires forall i :: 0 <= i < |a| ==> (IsOutstanding(a[i]) <==> IsOutstanding(b[i]))
    ensures Refs(a) <= Refs(b)
    ensures Outstanding(a) == Outstanding(b)
  {
    if a != [] {
      CountAgree(a[..|a| - 1], b[..|b| - 1]);
    }
  }

  lemma {:induction false} CountShells(ws: seq<Worker>, n: nat, cohort: nat)
    ensures Refs(ws + Cohort(n, cohort)) == Refs(ws) + n
    ensures Outstanding(ws + Cohort(n, cohort)) == Outstanding(ws)
  {
    if n == 0 {
      assert ws + Cohort(n, cohort) == ws;
    } else {
      var all := ws + Cohort(n, cohort);
      assert all[..|all| - 1] == ws + Cohort((n - 1) as nat, cohort);
      CountShells(ws, n - 1, cohort);
    }
  }

  lemma {:induction false} CountMember(ws: seq<Worker>, i: nat)
    requires i < |ws|
    ensures Refs(ws) >= RefWeight(ws[i])
    ensures IsOutstanding(ws[i]) ==> Outstanding(ws) > 0
  {
    var n := |ws| - 1;
    if i < n {
      CountMember(ws[..n], i);
    }
  }

  lemma {:induction false} CountNobody(ws: seq<Worker>)
    requires forall w :: w in ws ==> !IsOutstanding(w)
    ensures Outstanding(ws) == 0
  {
    if ws != [] {
      CountNobody(ws[..|ws| - 1]);
    }
  }

  // --------------------------------------------------- what every event keeps

  lemma {:induction false} InitialHolds(size: nat)
    requires size > 1
    ensures Inv(Initial(size))
  {
    CountShells([], size, 0);
    assert [] + Cohort(size, 0) == Cohort(size, 0);
  }

  // Releasing shells that no queued task still needs.
  lemma {:induction false} ReleaseKeeps(p: Pool, c: Parent, lo: nat, hi: nat)
    requires Inv(p) && Sane(c) && c.holds == p.parent.holds
    requires c.size == p.parent.size && c.built == p.parent.built
    requires c.pending == Outstanding(p.workers) + Reserved(c)
    requires forall i :: 0 <= i < |p.workers| ==>
      Local(c, i, if lo <= i < hi then DropShell(p.workers[i]) else p.workers[i])
    ensures Inv(Release(p, c, lo, hi))
  {
    var ws := DropShells(p.workers, lo, hi);
    CountAgree(ws, p.workers);
    assert Table(ws, p.wake);
  }

  lemma {:induction false} SubmitLocals(c: Parent, c': Parent, ws: seq<Worker>, ok: bool)
    requires Sane(c) && Locals(c, ws) && c.pc.Submitting? && c.base + c.pc.next < |ws| && c' == SubmitParent(c, ok)
    ensures Locals(c', if ok then ws[c.base + c.pc.next := ws[c.base + c.pc.next].(phase := Queued)] else ws)
  {
    var w := c.base + c.pc.next;
    var after := if ok then ws[w := ws[w].(phase := Queued)] else ws;
    forall i | 0 <= i < |after|
      ensures Local(c', i, after[i])
    {
      assert Local(c, i, ws[i]);
    }
  }

  lemma {:induction false} SubmitOneKeeps(p: Pool, ok: bool)
    requires Inv(p) && ParentEnabled(p, SubmitOne(ok))
    ensures Inv(ParentNext(p, SubmitOne(ok)))
  {
    var c := p.parent;
    var w := c.base + c.pc.next;
    var after := p.workers[w].(phase := Queued);
    assert Local(c, w, p.workers[w]);
    CountUpdate(p.workers, w, after);
    TableKept(p.workers, p.wake, w, after);
    SubmitLocals(c, SubmitParent(c, ok), p.workers, ok);
  }

  lemma {:induction false} EndSubmitKeeps(p: Pool)
    requires Inv(p) && ParentEnabled(p, EndSubmit)
    ensures Inv(ParentNext(p, EndSubmit))
  {
    var c := p.parent;
    var c' := EndSubmitParent(c);
    forall i | 0 <= i < |p.workers|
      ensures Local(c', i, p.workers[i])
      ensures c.rotating && i < c.base ==> Local(c', i, DropShell(p.workers[i]))
    {
      assert Local(c, i, p.workers[i]);
    }
    if c.rotating {
      ReleaseKeeps(p, c', 0, c.base);
    }
  }

  lemma {:induction false} StopCallKeeps(p: Pool)
    requires Inv(p) && ParentEnabled(p, StopCall)
    ensures Inv(ParentNext(p, StopCall))
  {
    var c := p.parent;
    var c' := c.(stopping := true, command := Stop, pc := Ringing);
    forall i | 0 <= i < |p.workers|
      ensures Local(c', i, p.workers[i])
    {
      assert Local(c, i, p.workers[i]);
    }
  }

  lemma {:induction false} RingLocals(c: Parent, ws: seq<Worker>)
    requires Locals(c, ws) && c.pc.Ringing? && c.command != NoCommand
    ensures Locals(c.(pc := Ready), RingWorkers(ws))
  {
    forall i | 0 <= i < |ws|
      ensures Local(c.(pc := Ready), i, RingWorkers(ws)[i])
    {
      assert Local(c, i, ws[i]);
    }
  }

  lemma {:induction false} RingTable(ws: seq<Worker>, wake: seq<Option<Handle>>)
    requires Table(ws, wake)
    ensures Table(RingWorkers(ws), wake)
  {
    assert forall i :: 0 <= i < |ws| ==> RingWorkers(ws)[i].phase == ws[i].phase;
  }

  lemma {:induction false} RingAllKeeps(p: Pool)
    requires Inv(p) && ParentEnabled(p, RingAll)
    ensures Inv(ParentNext(p, RingAll))
  {
    var ws := RingWorkers(p.workers);
    RingLocals(p.parent, p.workers);
    RingTable(p.workers, p.wake);
    CountAgree(ws, p.workers);
    CountAgree(p.workers, ws);
  }

  lemma {:induction false} ReloadCallKeeps(p: Pool)
    requires Inv(p) && ParentEnabled(p, ReloadCall)
    ensures Inv(ParentNext(p, ReloadCall))
  {
    var c := p.parent;
    var ws := p.workers + Cohort(c.size, c.cohort + 1);
    CountShells(p.workers, c.size, c.cohort + 1);
    forall i | 0 <= i < |ws|
      ensures Local(ReloadParent(c), i, ws[i])
    {
      assert i < c.built ==> Local(c, i, p.workers[i]);
    }
    assert Table(ws, p.wake);
  }

  lemma {:induction false} AbandonKeeps(p: Pool)
    requires Inv(p) && p.parent.pc.Ready? && p.parent.rotating
    ensures Inv(Release(p, AbandonedParent(p.parent), p.parent.base, |p.workers|))
  {
    var c := p.parent;
    var c' := AbandonedParent(c);
    forall i | 0 <= i < |p.workers|
      ensures Local(c', i, if c.base <= i < |p.workers| then DropShell(p.workers[i]) else p.workers[i])
    {
      assert Local(c, i, p.workers[i]);
    }
    ReleaseKeeps(p, c', c.base, |p.workers|);
  }

  lemma {:induction false} RotationDoneKeeps(p: Pool)
    requires Inv(p) && ParentEnabled(p, RotationDone)
    ensures Inv(ParentNext(p, RotationDone))
  {
    var c := p.parent;
    if c.stopping {
      AbandonKeeps(p);
    } else {
      CountNobody(p.workers);
      forall i | 0 <= i < |p.workers|
        ensures Local(c.(command := NoCommand, pc := Submitting(0)), i, p.workers[i])
      {
        assert Local(c, i, p.workers[i]) && p.workers[i] in p.workers;
      }
    }
  }

  lemma {:induction false} TeardownKeeps(p: Pool)
    requires Inv(p) && ParentEnabled(p, Teardown)
    ensures Inv(ParentNext(p, Teardown))
  {
    var c := p.parent;
    forall i | 0 <= i < |p.workers|
      ensures Local(c.(holds := false, awaiting := false), i, p.workers[i])
    {
      assert Local(c, i, p.workers[i]);
    }
  }

  lemma {:induction false} FreeParentKeeps(p: Pool)
    requires Inv(p) && ParentEnabled(p, FreeParent)
    ensures Inv(ParentNext(p, FreeParent))
  {
    var c := p.parent;
    forall i | 0 <= i < |p.workers|
      ensures Local(c, i, DropShell(p.workers[i]))
    {
      assert Local(c, i, p.workers[i]);
      CountMember(p.workers, i);
    }
    ReleaseKeeps(p, c, 0, |p.workers|);
  }

  lemma {:induction false} CompleteLocals(c: Parent, c': Parent, ws: seq<Worker>, w: nat)
    requires Locals(c, ws) && w < |ws| && ws[w].phase.Finished?
    requires c' == c.(pending := c'.pending, fired := c'.fired)
    ensures Locals(c', ws[w := ws[w].(phase := Delivered)])
  {
    var ws' := ws[w := ws[w].(phase := Delivered)];
    forall i | 0 <= i < |ws'|
      ensures Local(c', i, ws'[i])
    {
      assert Local(c, i, ws[i]);
    }
  }

  lemma {:induction false} CompleteCounted(p: Pool, w: nat)
    requires Sane(p.parent) && Counted(p) && WorkerEnabled(p, Complete(w)) && Local(p.parent, w, p.workers[w])
    ensures Counted(WorkerNext(p, Complete(w))) && Sane(WorkerNext(p, Complete(w)).parent)
  {
    CountMember(p.workers, w);
    CountUpdate(p.workers, w, p.workers[w].(phase := Delivered));
  }

  lemma {:induction false} CompleteKeeps(p: Pool, w: nat)
    requires Inv(p) && WorkerEnabled(p, Complete(w))
    ensures Inv(WorkerNext(p, Complete(w)))
  {
    var c := p.parent;
    var c' := NotifyIfIdle(c.(pending := c.pending - 1));
    var after := p.workers[w].(phase := Delivered);
    assert Local(c, w, p.workers[w]);
    CompleteCounted(p, w);
    TableKept(p.workers, p.wake, w, after);
    CompleteLocals(c, c', p.workers, w);
  }

  // A worker's own event: the other workers and the parent are untouched.
  lemma {:induction false} WorkerLocal(p: Pool, e: Event)
    requires HasWorker(e) && !e.Complete?
    requires WorkerEnabled(p, e) && Local(p.parent, e.w, p.workers[e.w])
    ensures Local(p.parent, e.w, WorkerAfter(p, e))
    ensures IsOutstanding(p.workers[e.w]) == IsOutstanding(WorkerAfter(p, e))
  {
  }

  lemma {:induction false} TableKept(ws: seq<Worker>, wake: seq<Option<Handle>>, w: nat, after: Worker)
    requires Table(ws, wake) && w < |ws|
    requires after.phase == ws[w].phase || (!after.phase.Serving? && !ws[w].phase.Serving?)
    ensures Table(ws[w := after], wake)
  {
  }

  lemma {:induction false} TableJoined(ws: seq<Worker>, wake: seq<Option<Handle>>, w: nat, after: Worker)
    requires Table(ws, wake) && w < |ws| && !ws[w].phase.Serving?
    requires FirstFree(wake) < |wake| && after.phase == Serving(FirstFree(wake))
    ensures Table(ws[w := after], wake[FirstFree(wake) := Some(w)])
  {
  }

  lemma {:induction false} TableLeft(ws: seq<Worker>, wake: seq<Option<Handle>>, w: nat, after: Worker)
    requires Table(ws, wake) && w < |ws| && ws[w].phase.Serving?
    requires ws[w].phase.slot < |wake| && !after.phase.Serving?
    ensures Table(ws[w := after], wake[ws[w].phase.slot := None])
  {
  }

  // What a worker's step does to the table besides moving that worker.
  function WakeAfter(p: Pool, e: Event): seq<Option<Handle>>
    requires HasWorker(e) && WorkerEnabled(p, e)
  {
    if e.Join? && e.created && FirstFree(p.wake) < |p.wake| then p.wake[FirstFree(p.wake) := Some(e.w)]
    else if e.Leave? then p.wake[p.workers[e.w].phase.slot := None]
    else p.wake
  }

  lemma {:induction false} WorkerShape(p: Pool, e: Event)
    requires HasWorker(e) && WorkerEnabled(p, e)
    ensures WorkerNext(p, e).workers == p.workers[e.w := WorkerAfter(p, e)] && WorkerNext(p, e).wake == WakeAfter(p, e)
  {
  }

  lemma {:induction false} WorkerTable(p: Pool, e: Event)
    requires HasWorker(e) && !e.Complete?
    requires Table(p.workers, p.wake) && WorkerEnabled(p, e)
    ensures Table(WorkerNext(p, e).workers, WorkerNext(p, e).wake)
  {
    WorkerShape(p, e);
    var after := WorkerAfter(p, e);
    if e.Leave? {
      TableLeft(p.workers, p.wake, e.w, after);
    } else if e.Join? && e.created && FirstFree(p.wake) < |p.wake| {
      TableJoined(p.workers, p.wake, e.w, after);
    } else {
      TableKept(p.workers, p.wake, e.w, after);
    }
  }

  lemma {:induction false} WorkerWeight(p: Pool, e: Event)
    requires HasWorker(e) && !e.Complete?
    requires WorkerEnabled(p, e) && Local(p.parent, e.w, p.workers[e.w])
    ensures RefWeight(WorkerAfter(p, e)) - RefWeight(p.workers[e.w])
         == if e.Load? && e.ok then 1 else if e.FreeClone? then -1 else 0
    ensures e.Load? || e.FreeClone? ==> RefWeight(p.workers[e.w]) > 0
  {
  }

  // What a worker's step does to the count and the parent.
  lemma {:induction false} WorkerTotals(p: Pool, e: Event)
    requires HasWorker(e) && !e.Complete? && WorkerEnabled(p, e)
    ensures var q := WorkerNext(p, e);
            && q.parent == p.parent
            && q.refcount == p.refcount + (if e.Load? && e.ok then 1 else if e.FreeClone? then -1 else 0)
            && q.frees == p.frees + (if e.FreeClone? && q.refcount == 0 then 1 else 0)
  {
  }

  lemma {:induction false} WorkerCounted(p: Pool, e: Event)
    requires HasWorker(e) && !e.Complete?
    requires WorkerEnabled(p, e) && Counted(p) && Local(p.parent, e.w, p.workers[e.w])
    ensures Counted(WorkerNext(p, e))
  {
    WorkerShape(p, e);
    WorkerTotals(p, e);
    CountMember(p.workers, e.w);
    CountUpdate(p.workers, e.w, WorkerAfter(p, e));
    WorkerLocal(p, e);
    WorkerWeight(p, e);
  }

  lemma {:induction false} WorkerKeeps(p: Pool, e: Event)
    requires HasWorker(e) && !e.Complete?
    requires Inv(p) && WorkerEnabled(p, e)
    ensures Inv(WorkerNext(p, e))
  {
    assert Local(p.parent, e.w, p.workers[e.w]);
    WorkerLocal(p, e);
    WorkerTable(p, e);
    WorkerCounted(p, e);
  }

  lemma {:induction false} ParentKeeps(p: Pool, e: Event)
    requires !HasWorker(e)
    requires Inv(p) && ParentEnabled(p, e)
    ensures Inv(ParentNext(p, e))
  {
    match e
    case SubmitOne(ok) => SubmitOneKeeps(p, ok);
    case EndSubmit => EndSubmitKeeps(p);
    case StopCall => StopCallKeeps(p);
    case RingAll => RingAllKeeps(p);
    case ReloadCall => ReloadCallKeeps(p);
    case RotationThrew => AbandonKeeps(p);
    case RotationDone => RotationDoneKeeps(p);
    case Teardown => TeardownKeeps(p);
    case FreeParent => FreeParentKeeps(p);
  }

  lemma {:induction false} StepKeeps(p: Pool, e: Event)
    requires Inv(p) && Enabled(p, e)
    ensures Inv(Next(p, e))
  {
    if !HasWorker(e) {
      ParentKeeps(p, e);
    } else if e.Complete? {
      CompleteKeeps(p, e.w);
    } else {
      WorkerKeeps(p, e);
    }
  }

  lemma {:induction false} RunKeeps(size: nat, events: seq<Event>)
    requires size > 1 && Run(size, events).Some?
    ensures Inv(Run(size, events).value)
  {
    if events == [] {
      InitialHolds(size);
    } else {
      var prefix := events[..|events| - 1];
      RunKeeps(size, prefix);
      StepKeeps(Run(size, prefix).value, events[|events| - 1]);
    }
  }

  // ------------------------------------------------------- completion accounting

  // In every run `pending` is exactly the tasks submitted and not reported, plus the slots
  // an in-flight rotation (or the initial submit loop) still reserves.
  lemma {:induction false} CompletionAccounting(size: nat, events: seq<Event>)
    requires size > 1 && Run(size, events).Some?
    ensures var p := Run(size, events).value;
            p.parent.pending == Outstanding(p.workers) + Reserved(p.parent) >= 0
  {
    RunKeeps(size, events);
  }

  // all_done fires at most once, never in a rotation and never with a task outstanding;
  // and when the parent is parked with nothing outstanding or reserved, it has fired.
  lemma {:induction false} AllDoneExactlyWhenIdle(size: nat, events: seq<Event>)
    requires size > 1 && Run(size, events).Some?
    ensures var p := Run(size, events).value;
            && p.parent.fired <= 1
            && (p.parent.fired == 1 ==> !p.parent.rotating && forall w :: w in p.workers ==> !IsOutstanding(w))
            && (p.parent.awaiting && !p.parent.rotating && (forall w :: w in p.workers ==> !IsOutstanding(w))
                ==> p.parent.fired == 1)
  {
    RunKeeps(size, events);
    var p := Run(size, events).value;
    if p.parent.fired == 1 {
      forall w | w in p.workers
        ensures !IsOutstanding(w)
      {
        var i :| 0 <= i < |p.workers| && p.workers[i] == w;
        CountMember(p.workers, i);
      }
    }
    if forall w :: w in p.workers ==> !IsOutstanding(w) {
      CountNobody(p.workers);
    }
  }

  // ------------------------------------------------------------------- commands

  lemma {:induction false} RunExtends(size: nat, events: seq<Event>, e: Event)
    requires Run(size, events).Some? && Enabled(Run(size, events).value, e)
    ensures Run(size, events + [e]) == Some(Next(Run(size, events).value, e))
  {
    assert (events + [e])[..|events + [e]| - 1] == events;
  }

  // A property that every possible event keeps holds after every continuation.
  lemma {:induction false} Always(size: nat, events: seq<Event>, more: seq<Event>, kept: Pool -> bool)
    requires size > 1 && Run(size, events + more).Some?
    requires Run(size, events).Some? && kept(Run(size, events).value)
    requires forall p, e :: e in more && Inv(p) && kept(p) && Enabled(p, e) ==> kept(Next(p, e))
    ensures kept(Run(size, events + more).value)
  {
    if more == [] {
      assert events + more == events;
    } else {
      var init := more[..|more| - 1];
      assert (events + more)[..|events + more| - 1] == events + init;
      assert more[|more| - 1] in more;
      Always(size, events, init, kept);
      RunKeeps(size, events + init);
    }
  }

  // Once stop() has stored its command, no continuation of the run ever changes it.
  lemma {:induction false} StopDominates(size: nat, events: seq<Event>, more: seq<Event>)
    requires size > 1 && Run(size, events + more).Some?
    requires Run(size, events).Some? && Run(size, events).value.parent.command == Stop
    ensures Run(size, events + more).value.parent.command == Stop
  {
    var kept := (p: Pool) => p.parent.command == Stop;
    forall p, e | Inv(p) && kept(p) && Enabled(p, e)
      ensures kept(Next(p, e))
    {
      StopStays(p, e);
    }
    Always(size, events, more, kept);
  }

  lemma {:induction false} StopStays(p: Pool, e: Event)
    requires Inv(p) && p.parent.command == Stop && Enabled(p, e)
    ensures Next(p, e).parent.command == Stop
    ensures !p.parent.pc.Ringing? ==> !Next(p, e).parent.pc.Ringing?
  {
  }

  // A task that can still read the command word finds a RELOAD there only when that RELOAD
  // was published for its own cohort or a later one; and while a fresh cohort is being
  // submitted the word is NONE.
  lemma {:induction false} ReloadIsForThisCohort(size: nat, events: seq<Event>, w: nat)
    requires size > 1 && Run(size, events).Some?
    requires w < |Run(size, events).value.workers| && IsOutstanding(Run(size, events).value.workers[w])
    ensures var p := Run(size, events).value;
            && (p.parent.command == Reload ==> p.workers[w].cohort <= p.parent.commandCohort < p.parent.cohort)
            && (p.parent.pc.Submitting? ==> p.parent.command == NoCommand)
  {
    RunKeeps(size, events);
    var p := Run(size, events).value;
    assert Local(p.parent, w, p.workers[w]);
  }

  // No ring is swallowed: whenever a wake callback runs, the command is still there.
  lemma {:induction false} RingIsHeeded(size: nat, events: seq<Event>, w: nat)
    requires size > 1 && Run(size, events).Some? && Enabled(Run(size, events).value, Wake(w))
    ensures Next(Run(size, events).value, Wake(w)).workers[w].retiring
  {
    RunKeeps(size, events);
    var p := Run(size, events).value;
    assert Local(p.parent, w, p.workers[w]);
  }

  // What one event can do to one worker.
  lemma {:induction false} ParentFate(p: Pool, e: Event, w: nat)
    requires !HasWorker(e) && ParentEnabled(p, e) && w < |ParentNext(p, e).workers|
    ensures |p.workers| <= |ParentNext(p, e).workers|
    ensures var after := ParentNext(p, e).workers[w];
            if w >= |p.workers| then after.phase.Shelved? && !after.missed
            else
              var before := p.workers[w];
              if e == RingAll then after == Heard(before)
              else
                && after.rung == before.rung && after.missed == before.missed && after.closed == before.closed
                && (after.phase == before.phase || (e.SubmitOne? && after.phase.Queued?))
  {
  }

  lemma {:induction false} WorkerFate(p: Pool, e: Event, w: nat)
    requires HasWorker(e) && WorkerEnabled(p, e) && w < |p.workers|
    ensures |p.workers| == |WorkerNext(p, e).workers|
    ensures WorkerNext(p, e).workers[w] == if e.w == w then WorkerAfter(p, e) else p.workers[w]
  {
  }

  // How far a worker has come; it never goes back.
  function Rank(phase: Phase): nat
  {
    match phase
    case Shelved => 0 case Queued => 1 case Loaded => 2 case Cleared => 3
    case Serving(_) => 4 case Returned => 5 case Finished => 6 case Delivered => 7
  }

  predicate IsJoin(e: Event, w: nat) { e.Join? && e.w == w }

  // What one event makes of a worker, as far as commands are concerned.
  ghost predicate Traced(before: Worker, e: Event, after: Worker, w: nat)
  {
    && Rank(before.phase) <= Rank(after.phase)
    && (e == Check(w) ==> before.phase.Loaded? && Rank(after.phase) > Rank(Loaded))
    && (IsJoin(e, w) ==> before.phase.Cleared? && Rank(after.phase) > Rank(Cleared))
    && (after.phase.Cleared? ==> before.phase.Cleared? || e == Check(w))
    && (after.phase.Serving? ==> before.phase.Serving? || IsJoin(e, w))
    && after.missed == if e == RingAll then Heard(before).missed else before.missed
  }

  lemma {:induction false} OwnTraced(p: Pool, e: Event)
    requires HasWorker(e) && WorkerEnabled(p, e)
    ensures Traced(p.workers[e.w], e, WorkerAfter(p, e), e.w)
  {
  }

  lemma {:induction false} WorkerTraced(p: Pool, e: Event, w: nat)
    requires HasWorker(e) && WorkerEnabled(p, e) && w < |p.workers|
    ensures Traced(p.workers[w], e, WorkerNext(p, e).workers[w], w)
  {
    WorkerFate(p, e, w);
    if e.w == w {
      OwnTraced(p, e);
    }
  }

  lemma {:induction false} ParentTraced(p: Pool, e: Event, w: nat)
    requires Inv(p) && !HasWorker(e) && ParentEnabled(p, e) && w < |p.workers|
    ensures |p.workers| <= |ParentNext(p, e).workers|
    ensures Traced(p.workers[w], e, ParentNext(p, e).workers[w], w)
  {
    assert Local(p.parent, w, p.workers[w]);
    ParentFate(p, e, w);
  }

  // A published worker keeps its place until it leaves, and is rung only by a broadcast.
  lemma {:induction false} ServingFate(p: Pool, e: Event, w: nat)
    requires Inv(p) && Enabled(p, e) && w < |p.workers| && p.workers[w].phase.Serving?
    requires e != Leave(w) && e != RingAll && p.parent.command != NoCommand
    ensures |p.workers| <= |Next(p, e).workers|
    ensures Next(p, e).workers[w].phase.Serving?
    ensures Next(p, e).workers[w].rung == p.workers[w].rung
  {
    assert Local(p.parent, w, p.workers[w]);
    if HasWorker(e) {
      WorkerFate(p, e, w);
    } else {
      ParentFate(p, e, w);
    }
  }

  lemma {:induction false} ClosedFate(p: Pool, e: Event, w: nat)
    requires Inv(p) && Enabled(p, e) && w < |p.workers| && p.workers[w].closed
    ensures |p.workers| <= |Next(p, e).workers|
    ensures Next(p, e).workers[w].closed
    ensures Next(p, e).workers[w].rung == p.workers[w].rung
  {
    assert Local(p.parent, w, p.workers[w]);
    if HasWorker(e) {
      WorkerFate(p, e, w);
    } else {
      ParentFate(p, e, w);
    }
  }

  // A broadcast ran between `w`'s check and its publication, and none after it.
  ghost predicate PassedOver(events: seq<Event>, w: nat)
  {
    exists i, j, m :: Passes(events, w, i, j, m)
  }

  ghost predicate Passes(events: seq<Event>, w: nat, i: int, j: int, m: int)
  {
    && 0 <= i < j < m < |events|
    && events[i] == Check(w) && events[j] == RingAll && IsJoin(events[m], w)
    && forall k :: m < k < |events| ==> events[k] != RingAll
  }

  // One worker's history: what it was before the run and after each event.
  ghost predicate Chronicle(events: seq<Event>, view: seq<Worker>, w: nat)
  {
    && |view| == |events| + 1
    && view[0].phase.Shelved? && !view[0].missed
    && forall k :: 0 <= k < |events| ==> Traced(view[k], events[k], view[k + 1], w)
  }

  function Peek(p: Pool, w: nat): Worker
  {
    if w < |p.workers| then p.workers[w] else UNBUILT
  }

  const UNBUILT := Worker(0, Shelved, true, false, false, false, false, false)

  // A worker that does not exist yet.
  lemma {:induction false} UnbuiltTraced(p: Pool, e: Event, w: nat)
    requires Enabled(p, e) && |p.workers| <= w
    ensures Traced(UNBUILT, e, Peek(Next(p, e), w), w)
  {
    if HasWorker(e) {
      assert |WorkerNext(p, e).workers| == |p.workers|;
    } else if w < |ParentNext(p, e).workers| {
      ParentFate(p, e, w);
    }
  }

  lemma {:induction false} PeekTraced(p: Pool, e: Event, w: nat)
    requires Inv(p) && Enabled(p, e)
    ensures Traced(Peek(p, w), e, Peek(Next(p, e), w), w)
  {
    if w < |p.workers| {
      if HasWorker(e) {
        WorkerTraced(p, e, w);
      } else {
        ParentTraced(p, e, w);
      }
    } else {
      UnbuiltTraced(p, e, w);
    }
  }

  lemma {:induction false} ChronicleExtends(events: seq<Event>, view: seq<Worker>, e: Event, after: Worker, w: nat)
    requires Chronicle(events, view, w) && Traced(view[|events|], e, after, w)
    ensures Chronicle(events + [e], view + [after], w)
  {
    var all, seen := events + [e], view + [after];
    forall k | 0 <= k < |all|
      ensures Traced(seen[k], all[k], seen[k + 1], w)
    {
      assert k < |events| ==> Traced(view[k], events[k], view[k + 1], w);
    }
  }

  lemma {:induction false} Chronicled(size: nat, events: seq<Event>, w: nat) returns (view: seq<Worker>)
    requires size > 1 && Run(size, events).Some?
    ensures Chronicle(events, view, w)
    ensures view[|events|] == Peek(Run(size, events).value, w)
  {
    if events == [] {
      view := [Peek(Initial(size), w)];
    } else {
      var init, e := events[..|events| - 1], events[|events| - 1];
      var earlier := Chronicled(size, init, w);
      var p := Run(size, init).value;
      RunKeeps(size, init);
      PeekTraced(p, e, w);
      ChronicleExtends(init, earlier, e, Peek(Next(p, e), w), w);
      assert events == init + [e];
      view := earlier + [Peek(Next(p, e), w)];
    }
  }

  lemma {:induction false} NeverBack(events: seq<Event>, view: seq<Worker>, w: nat, lo: nat, hi: nat)
    requires Chronicle(events, view, w) && lo <= hi <= |events|
    ensures Rank(view[lo].phase) <= Rank(view[hi].phase)
    decreases hi - lo
  {
    if lo < hi {
      NeverBack(events, view, w, lo, hi - 1);
      assert Traced(view[hi - 1], events[hi - 1], view[hi], w);
    }
  }

  // A worker that has checked and not joined got there by its check.
  lemma {:induction false} ClearedSince(events: seq<Event>, view: seq<Worker>, w: nat, hi: nat) returns (i: nat)
    requires Chronicle(events, view, w) && hi <= |events| && view[hi].phase.Cleared?
    ensures i < hi && events[i] == Check(w)
    decreases hi
  {
    var n := hi - 1;
    assert n >= 0 && Traced(view[n], events[n], view[n + 1], w);
    if view[n].phase.Cleared? {
      i := ClearedSince(events, view, w, n);
    } else {
      i := n;
    }
  }

  // A published worker got there by its join, and has been published since.
  lemma {:induction false} ServingSince(events: seq<Event>, view: seq<Worker>, w: nat, hi: nat) returns (m: nat)
    requires Chronicle(events, view, w) && hi <= |events| && view[hi].phase.Serving?
    ensures m < hi && IsJoin(events[m], w) && forall k :: m < k <= hi ==> view[k].phase.Serving?
    decreases hi
  {
    var n := hi - 1;
    assert n >= 0 && Traced(view[n], events[n], view[n + 1], w);
    if view[n].phase.Serving? {
      m := ServingSince(events, view, w, n);
    } else {
      m := n;
    }
  }

  // A published worker is missed exactly as it was when it joined, until a broadcast.
  lemma {:induction false} MissedWhileServing(events: seq<Event>, view: seq<Worker>, w: nat, m: nat, hi: nat)
    requires Chronicle(events, view, w) && m < hi <= |events| && IsJoin(events[m], w)
    requires forall k :: m < k <= hi ==> view[k].phase.Serving?
    ensures view[hi].missed <==> view[m].missed && forall k :: m < k < hi ==> events[k] != RingAll
    decreases hi
  {
    assert Traced(view[hi - 1], events[hi - 1], view[hi], w);
    if m < hi - 1 {
      MissedWhileServing(events, view, w, m, hi - 1);
    }
  }

  // Before it joins, it is missed exactly when a broadcast came after its check.
  lemma {:induction false} MissedWhileCleared(events: seq<Event>, view: seq<Worker>, w: nat, i: nat, hi: nat)
    requires Chronicle(events, view, w) && i < hi <= |events| && events[i] == Check(w) && view[hi].phase.Cleared?
    ensures view[hi].missed <==> view[i].missed || exists j :: i < j < hi && events[j] == RingAll
    decreases hi
  {
    assert Traced(view[i], events[i], view[i + 1], w);
    assert Traced(view[hi - 1], events[hi - 1], view[hi], w);
    if i < hi - 1 {
      NeverBack(events, view, w, i + 1, hi - 1);
      NeverBack(events, view, w, hi - 1, hi);
      assert view[hi - 1].phase.Cleared?;
      MissedWhileCleared(events, view, w, i, hi - 1);
    }
  }

  // Before its check no broadcast can miss it.
  lemma {:induction false} NotMissedEarly(events: seq<Event>, view: seq<Worker>, w: nat, hi: nat)
    requires Chronicle(events, view, w) && hi <= |events| && Rank(view[hi].phase) < 3
    ensures !view[hi].missed
    decreases hi
  {
    if hi > 0 {
      NeverBack(events, view, w, hi - 1, hi);
      NotMissedEarly(events, view, w, hi - 1);
      assert Traced(view[hi - 1], events[hi - 1], view[hi], w);
    }
  }

  // A worker checks once and joins once.
  lemma {:induction false} ChecksOnce(events: seq<Event>, view: seq<Worker>, w: nat, i: nat, k: nat)
    requires Chronicle(events, view, w) && i < |events| && k < |events| && events[i] == Check(w) && events[k] == Check(w)
    requires exists m :: i < m < |events| && IsJoin(events[m], w) && k < m
    ensures i == k
  {
    var m :| i < m < |events| && IsJoin(events[m], w) && k < m;
    assert Traced(view[m], events[m], view[m + 1], w);
    assert Traced(view[i], events[i], view[i + 1], w) && Traced(view[k], events[k], view[k + 1], w);
    if i < k {
      AfterCheck(events, view, w, i, m, k);
    } else if k < i {
      AfterCheck(events, view, w, k, m, i);
    }
  }

  lemma {:induction false} AfterCheck(events: seq<Event>, view: seq<Worker>, w: nat, i: nat, m: nat, k: nat)
    requires Chronicle(events, view, w) && i < k <= m < |events| && events[i] == Check(w) && view[m].phase.Cleared?
    ensures view[k].phase.Cleared?
  {
    FirstAfterCheck(events, view, w, i, m);
    NeverBack(events, view, w, i + 1, k);
    NeverBack(events, view, w, k, m);
  }

  // A check that leads to a join found the word clear.
  lemma {:induction false} FirstAfterCheck(events: seq<Event>, view: seq<Worker>, w: nat, i: nat, m: nat)
    requires Chronicle(events, view, w) && i < m < |events| && events[i] == Check(w) && view[m].phase.Cleared?
    ensures view[i + 1].phase.Cleared?
  {
    assert Traced(view[i], events[i], view[i + 1], w);
    NeverBack(events, view, w, i + 1, m);
  }

  // A published worker is missed exactly when it was passed over.
  lemma {:induction false} MissedIsPassedOver(events: seq<Event>, view: seq<Worker>, w: nat)
    requires Chronicle(events, view, w) && view[|events|].phase.Serving?
    ensures view[|events|].missed <==> PassedOver(events, w)
  {
    var m := ServingSince(events, view, w, |events|);
    assert Traced(view[m], events[m], view[m + 1], w);
    var i := ClearedSince(events, view, w, m);
    MissedWhileServing(events, view, w, m, |events|);
    MissedWhileCleared(events, view, w, i, m);
    assert Traced(view[i], events[i], view[i + 1], w);
    NotMissedEarly(events, view, w, i);
    if view[|events|].missed {
      var j :| i < j < m && events[j] == RingAll;
      assert Passes(events, w, i, j, m);
    }
    if PassedOver(events, w) {
      var a, j, b :| Passes(events, w, a, j, b);
      JoinsOnce(events, view, w, m, b);
      ChecksOnce(events, view, w, i, a);
    }
  }

  lemma {:induction false} JoinsOnce(events: seq<Event>, view: seq<Worker>, w: nat, m: nat, b: nat)
    requires Chronicle(events, view, w) && m < |events| && b < |events| && IsJoin(events[m], w) && IsJoin(events[b], w)
    requires forall k :: m < k <= |events| ==> view[k].phase.Serving?
    ensures b == m
  {
    assert Traced(view[b], events[b], view[b + 1], w) && Traced(view[m], events[m], view[m + 1], w);
    if b < m {
      AfterJoin(events, view, w, b, m);
    }
  }

  // After a join a worker is not before its join again.
  lemma {:induction false} AfterJoin(events: seq<Event>, view: seq<Worker>, w: nat, b: nat, k: nat)
    requires Chronicle(events, view, w) && b < k <= |events| && IsJoin(events[b], w)
    ensures !view[k].phase.Cleared?
  {
    assert Traced(view[b], events[b], view[b + 1], w);
    NeverBack(events, view, w, b + 1, k);
  }

  // Outside a broadcast, a published worker that has not been rung while a command stands is
  // exactly one that a broadcast passed over: one ran between its check and its join, and none
  // has run since.
  lemma {:induction false} NoLostCommand(size: nat, events: seq<Event>, w: nat)
    requires size > 1 && Run(size, events).Some? && w < |Run(size, events).value.workers|
    requires var p := Run(size, events).value;
             p.workers[w].phase.Serving? && p.parent.command != NoCommand && !p.parent.pc.Ringing?
    ensures !Run(size, events).value.workers[w].rung <==> PassedOver(events, w)
  {
    RunKeeps(size, events);
    var p := Run(size, events).value;
    assert Local(p.parent, w, p.workers[w]);
    var view := Chronicled(size, events, w);
    MissedIsPassedOver(events, view, w);
  }

  // The window is real: check, a whole stop() broadcast, then the join.
  const LOST := [SubmitOne(true), SubmitOne(true), EndSubmit, Load(0, true), Check(0),
                 StopCall, RingAll, Join(0, true)]

  // The pools along that run, for a cohort of two.
  function LostPool(pc: Pc, awaiting: bool, command: Command, w0: Worker, queued: bool,
                    wake0: Option<Handle>, refcount: int): Pool
  {
    var w1 := Worker(0, if queued then Queued else Shelved, true, false, false, false, false, false);
    Pool(Parent(2, 2, 0, command, 0, 0, pc, awaiting, false, command == Stop, 2, 0, true),
         [w0, w1], [wake0, None], refcount, 0)
  }

  function LostWorker(phase: Phase, clone: bool, missed: bool): Worker
  {
    Worker(0, phase, true, clone, false, missed, false, false)
  }

  lemma {:induction false} LostSubmitFirst()
    ensures Run(2, LOST[..1]) == Some(LostPool(Submitting(1), false, NoCommand, LostWorker(Queued, false, false), false, None, 3))
  {
    var p0 := LostPool(Submitting(0), false, NoCommand, LostWorker(Shelved, false, false), false, None, 3);
    var p1 := LostPool(Submitting(1), false, NoCommand, LostWorker(Queued, false, false), false, None, 3);
    assert Cohort(2, 0) == p0.workers && seq(2, i => None) == p0.wake;
    assert Initial(2) == p0 && LOST[..1] == [] + [SubmitOne(true)];
    RunExtends(2, [], SubmitOne(true));
    assert p0.workers[0 := p1.workers[0]] == p1.workers;
  }

  lemma {:induction false} LostSubmitSecond()
    ensures Run(2, LOST[..2]) == Some(LostPool(Submitting(2), false, NoCommand, LostWorker(Queued, false, false), true, None, 3))
  {
    var p1 := LostPool(Submitting(1), false, NoCommand, LostWorker(Queued, false, false), false, None, 3);
    var p2 := LostPool(Submitting(2), false, NoCommand, LostWorker(Queued, false, false), true, None, 3);
    LostSubmitFirst();
    assert LOST[..2] == LOST[..1] + [SubmitOne(true)];
    RunExtends(2, LOST[..1], SubmitOne(true));
    assert p1.workers[1 := p2.workers[1]] == p2.workers;
  }

  lemma {:induction false} LostEndSubmit()
    ensures Run(2, LOST[..3]) == Some(LostPool(Ready, true, NoCommand, LostWorker(Queued, false, false), true, None, 3))
  {
    LostSubmitSecond();
    assert LOST[..3] == LOST[..2] + [EndSubmit];
    RunExtends(2, LOST[..2], EndSubmit);
  }

  lemma {:induction false} LostLoad()
    ensures Run(2, LOST[..4]) == Some(LostPool(Ready, true, NoCommand, LostWorker(Loaded, true, false), true, None, 4))
  {
    LostEndSubmit();
    var p := LostPool(Ready, true, NoCommand, LostWorker(Queued, false, false), true, None, 3);
    assert LOST[..4] == LOST[..3] + [Load(0, true)];
    RunExtends(2, LOST[..3], Load(0, true));
    assert p.workers[0 := LostWorker(Loaded, true, false)] == [LostWorker(Loaded, true, false), p.workers[1]];
  }

  lemma {:induction false} LostCheck()
    ensures Run(2, LOST[..5]) == Some(LostPool(Ready, true, NoCommand, LostWorker(Cleared, true, false), true, None, 4))
  {
    LostLoad();
    var q := Run(2, LOST[..4]).value;
    assert LOST[..5] == LOST[..4] + [Check(0)];
    RunExtends(2, LOST[..4], Check(0));
    assert q.workers[0 := LostWorker(Cleared, true, false)] == [LostWorker(Cleared, true, false), q.workers[1]];
  }

  lemma {:induction false} LostStop()
    ensures Run(2, LOST[..6]) == Some(LostPool(Ringing, true, Stop, LostWorker(Cleared, true, false), true, None, 4))
  {
    LostCheck();
    assert LOST[..6] == LOST[..5] + [StopCall];
    RunExtends(2, LOST[..5], StopCall);
  }

  lemma {:induction false} LostRing()
    ensures Run(2, LOST[..7]) == Some(LostPool(Ready, true, Stop, LostWorker(Cleared, true, true), true, None, 4))
  {
    LostStop();
    var p := LostPool(Ringing, true, Stop, LostWorker(Cleared, true, false), true, None, 4);
    assert LOST[..7] == LOST[..6] + [RingAll];
    RunExtends(2, LOST[..6], RingAll);
    assert RingWorkers(p.workers) == [LostWorker(Cleared, true, true), p.workers[1]];
  }

  lemma {:induction false} LostCommandWitness()
    ensures Run(2, LOST).Some?
    ensures var p := Run(2, LOST).value;
            Wedged(p, 0) && p.parent.fired == 0
  {
    LostRing();
    assert LOST == LOST[..7] + [Join(0, true)];
    RunExtends(2, LOST[..7], Join(0, true));
  }

  // And it is not healed: however the run goes on, until that worker leaves of its own
  // accord it keeps serving un-rung and stop() keeps waiting.
  lemma {:induction false} LostCommandWedgesStop(size: nat, events: seq<Event>, more: seq<Event>, w: nat)
    requires size > 1 && Run(size, events + more).Some? && Run(size, events).Some?
    requires Wedged(Run(size, events).value, w)
    requires Leave(w) !in more
    ensures Wedged(Run(size, events + more).value, w)
    ensures Run(size, events + more).value.parent.fired == 0
  {
    forall p, e | e in more && Inv(p) && Wedged(p, w) && Enabled(p, e)
      ensures Wedged(Next(p, e), w)
    {
      StopStays(p, e);
      ServingFate(p, e, w);
    }
    Always(size, events, more, p => Wedged(p, w));
    RunKeeps(size, events + more);
    CountMember(Run(size, events + more).value.workers, w);
  }

  // Published, un-rung, and the last broadcast of the run is already over.
  predicate Wedged(p: Pool, w: nat)
  {
    && w < |p.workers| && p.workers[w].phase.Serving? && !p.workers[w].rung
    && p.parent.command == Stop && !p.parent.pc.Ringing?
  }

  // -------------------------------------------------------------- channel safety

  // No handle sits in two slots, and what a broadcast would ring is open.
  lemma {:induction false} WakeTableSafe(size: nat, events: seq<Event>)
    requires size > 1 && Run(size, events).Some?
    ensures var p := Run(size, events).value;
            && (forall i, j :: 0 <= i < j < |p.wake| && p.wake[i].Some? ==> p.wake[i] != p.wake[j])
            && (forall h :: h in Published(p.wake) ==>
                  h < |p.workers| && p.workers[h].phase.Serving? && !p.workers[h].closed)
  {
    RunKeeps(size, events);
    var p := Run(size, events).value;
    forall h | h in Published(p.wake)
      ensures h < |p.workers| && p.workers[h].phase.Serving? && !p.workers[h].closed
    {
      var i :| 0 <= i < |p.wake| && p.wake[i] == Some(h);
      assert Local(p.parent, h, p.workers[h]);
    }
  }

  // A closed handle stays closed and is never rung again, in any continuation.
  lemma {:induction false} NeverRungAfterClose(size: nat, events: seq<Event>, more: seq<Event>, w: nat)
    requires size > 1 && Run(size, events + more).Some? && Run(size, events).Some?
    requires w < |Run(size, events).value.workers| && Run(size, events).value.workers[w].closed
    ensures var p, q := Run(size, events).value, Run(size, events + more).value;
            && w < |q.workers| && q.workers[w].closed
            && q.workers[w].rung == p.workers[w].rung
            && w !in Published(q.wake)
  {
    var rung := Run(size, events).value.workers[w].rung;
    var kept := (p: Pool) => w < |p.workers| && p.workers[w].closed && p.workers[w].rung == rung;
    forall p, e | Inv(p) && kept(p) && Enabled(p, e)
      ensures kept(Next(p, e))
    {
      ClosedFate(p, e, w);
    }
    Always(size, events, more, kept);
    WakeTableSafe(size, events + more);
  }

  // The count is parent + shells + clones, so the channel is freed exactly once, and only
  // when none of them is left.
  lemma {:induction false} ChannelFreedOnce(size: nat, events: seq<Event>)
    requires size > 1 && Run(size, events).Some?
    ensures var p := Run(size, events).value;
            && p.refcount == (if p.parent.holds then 1 else 0) + Refs(p.workers)
            && p.frees <= 1
            && (p.frees == 1 ==> !p.parent.holds && forall w :: w in p.workers ==> !w.shell && !w.clone)
            && ((!p.parent.holds && forall w :: w in p.workers ==> !w.shell && !w.clone) ==> p.frees == 1)
  {
    RunKeeps(size, events);
    var p := Run(size, events).value;
    if p.frees == 1 {
      forall w | w in p.workers
        ensures !w.shell && !w.clone
      {
        var i :| 0 <= i < |p.workers| && p.workers[i] == w;
        CountMember(p.workers, i);
      }
    }
    if forall w :: w in p.workers ==> !w.shell && !w.clone {
      NoWeight(p.workers);
    }
  }

  lemma {:induction false} NoWeight(ws: seq<Worker>)
    requires forall w :: w in ws ==> !w.shell && !w.clone
    ensures Refs(ws) == 0
  {
    if ws != [] {
      NoWeight(ws[..|ws| - 1]);
    }
  }

  // Events that read or write the channel's memory.
  predicate TouchesChannel(p: Pool, e: Event)
  {
    match e
    case Load(_, ok) => ok
    case Check(_) => true
    case Join(_, _) => true
    case Wake(_) => true
    case Leave(_) => true
    case FreeClone(_) => true
    case StopCall => true
    case RingAll => true
    case ReloadCall => true
    case RotationThrew => true
    case RotationDone => true
    case Teardown => true
    case EndSubmit => p.parent.rotating
    case FreeParent => exists w :: w in p.workers && w.shell
    case _ => false
  }

  lemma {:induction false} NoUseAfterFree(size: nat, events: seq<Event>, e: Event)
    requires size > 1 && Run(size, events).Some?
    requires Enabled(Run(size, events).value, e) && TouchesChannel(Run(size, events).value, e)
    ensures Run(size, events).value.frees == 0
  {
    RunKeeps(size, events);
    var p := Run(size, events).value;
    if HasWorker(e) {
      assert Local(p.parent, e.w, p.workers[e.w]);
      CountMember(p.workers, e.w);
    } else if e.FreeParent? {
      var w :| w in p.workers && w.shell;
      var i :| 0 <= i < |p.workers| && p.workers[i] == w;
      CountMember(p.workers, i);
    }
  }
}
