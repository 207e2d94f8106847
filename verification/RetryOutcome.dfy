// What becomes of every post of the reverse path, by the answers of the mailboxes
// (src/http_server_class.c:2905-2946, 3046-3096).
module RetryOutcome {
  import opened Common
  import opened RetryFifo

  // ------------------------------------------------------------------- flushes

  predicate Late(p: Post, now: nat) { p.deadline != 0 && p.deadline <= now }

  // How many parked posts a living pool settles when the mailbox answers its attempts, the
  // k-th one first: up to a post that is neither taken nor late.
  ghost predicate Reaches(queue: seq<Post>, mailbox: seq<bool>, k: nat, now: nat, n: nat)
  {
    && n <= |queue|
    && (forall i :: 0 <= i < n ==> Takes(mailbox, k + i) || Late(queue[i], now))
    && (n < |queue| ==> !Takes(mailbox, k + n) && !Late(queue[n], now))
  }

  function Reach(queue: seq<Post>, mailbox: seq<bool>, k: nat, now: nat): (n: nat)
    ensures Reaches(queue, mailbox, k, now, n)
  {
    if queue == [] || (!Takes(mailbox, k) && !Late(queue[0], now)) then 0
    else
      var n := Reach(queue[1..], mailbox, k + 1, now);
      assert forall i :: 1 <= i < 1 + n ==> queue[i] == queue[1..][i - 1] && k + i == k + 1 + (i - 1);
      1 + n
  }

  function GivenUp(p: Post): Effect { if p.kind.SlotRelease? then Dropped(p) else Discarded(p) }

  function Settlement(p: Post, taken: bool): Effect { if taken then Accepted(p) else GivenUp(p) }

  function Settlements(queue: seq<Post>, mailbox: seq<bool>, k: nat, n: nat): seq<Effect>
    requires n <= |queue|
  {
    seq(n, i requires 0 <= i < n => Settlement(queue[i], Takes(mailbox, k + i)))
  }

  // From the n-th on, all given up.
  function GivenUpFrom(queue: seq<Post>, n: nat): seq<Effect>
    requires n <= |queue|
  {
    seq(|queue| - n, i requires 0 <= i < |queue| - n => GivenUp(queue[n + i]))
  }

  lemma {:induction false} GiveUpRest(queue: seq<Post>, n: nat)
    requires n <= |queue|
    ensures GiveUpAll(queue[n..]) == GivenUpFrom(queue, n)
  {
    var rest, effects := queue[n..], GivenUpFrom(queue, n);
    forall i | 0 <= i < |rest|
      ensures GiveUpAll(rest)[i] == effects[i]
    {
      assert rest[i] == queue[n + i];
    }
  }

  lemma {:induction false} DrainReaches(f: Fifo, mailbox: seq<bool>, k: nat, now: nat, n: nat)
    requires Reaches(f.queue, mailbox, k, now, n)
    ensures Drain(f, mailbox, k, true, now)
            == f.(queue := f.queue[n..], log := f.log + Settlements(f.queue, mailbox, k, n))
    decreases n
  {
    var effects := Settlements(f.queue, mailbox, k, n);
    if n == 0 {
      assert f.queue[0..] == f.queue && f.log + effects == f.log;
    } else {
      var e := Settlement(f.queue[0], Takes(mailbox, k));
      var g := f.(queue := f.queue[1..], log := f.log + [e]);
      ReachesNext(f.queue, mailbox, k, now, n);
      DrainReaches(g, mailbox, k + 1, now, n - 1);
      SettlementsCons(f.log, f.queue, mailbox, k, n);
      assert g.queue[n - 1..] == f.queue[n..];
    }
  }

  lemma {:induction false} ReachesNext(queue: seq<Post>, mailbox: seq<bool>, k: nat, now: nat, n: nat)
    requires Reaches(queue, mailbox, k, now, n) && n > 0
    ensures Reaches(queue[1..], mailbox, k + 1, now, n - 1)
  {
    var rest := queue[1..];
    assert forall i :: 0 <= i < |rest| ==> rest[i] == queue[i + 1] && k + (i + 1) == k + 1 + i;
  }

  lemma {:induction false} SettlementsCons(log: seq<Effect>, queue: seq<Post>, mailbox: seq<bool>, k: nat, n: nat)
    requires 0 < n <= |queue|
    ensures log + Settlements(queue, mailbox, k, n)
            == log + [Settlement(queue[0], Takes(mailbox, k))] + Settlements(queue[1..], mailbox, k + 1, n - 1)
  {
    var e, more := Settlement(queue[0], Takes(mailbox, k)), Settlements(queue[1..], mailbox, k + 1, n - 1);
    assert Settlements(queue, mailbox, k, n) == [e] + more;
    assert log + ([e] + more) == log + [e] + more;
  }

  // A flush of a living pool: every post before the first that is neither taken nor late is
  // settled by its own answer, and from that post on the queue stays as it is, with a tick;
  // only when no tick is to be had is the rest given up. A flush of a pool that is gone gives
  // everything up.
  lemma {:induction false} FlushOutcome(f: Fifo, mailbox: seq<bool>, alive: bool, now: nat, timer: bool, n: nat)
    requires Reaches(f.queue, mailbox, 0, now, n)
    ensures var g := Flush(f, mailbox, alive, now, timer);
            var settled := f.log + Settlements(f.queue, mailbox, 0, n);
            if !alive then g == f.(queue := [], log := f.log + GivenUpFrom(f.queue, 0))
            else if n == |f.queue| then g == f.(queue := [], log := settled)
            else if f.armed || timer then g == f.(queue := f.queue[n..], armed := true, log := settled)
            else g == f.(queue := [], log := settled + GivenUpFrom(f.queue, n))
  {
    if alive {
      DrainReaches(f, mailbox, 0, now, n);
      GiveUpRest(f.queue, n);
    } else {
      DrainDead(f, mailbox, 0, now);
      GiveUpRest(f.queue, 0);
      assert f.queue[0..] == f.queue;
    }
  }

  // --------------------------------------------------------------- submissions

  predicate IsSubmission(op: Op) { op.SinkOp? || op.ReleaseOp? }

  // The post a submission makes: a wire lives 100 ms, a release for ever.
  function Submitted(op: Op, id: nat): Post
    requires IsSubmission(op)
  {
    match op
    case SinkOp(kind, reactor, _, _, now, _) => Post(id, kind, reactor, now + 100_000_000)
    case ReleaseOp(reactor, _, _, _) => Post(id, SlotRelease, reactor, 0)
  }

  // Whether it is handed over at once: the pool lives, its mailbox takes it, and it is a whole
  // response or nothing is parked before it.
  predicate GoesDirectly(op: Op, queue: seq<Post>)
    requires IsSubmission(op)
  {
    op.alive && op.takes && ((op.SinkOp? && op.kind.Full?) || queue == [])
  }

  // Whether it is parked instead: the pool lives, it is no whole response, and it has a tick.
  predicate IsParked(op: Op, queue: seq<Post>, armed: bool)
    requires IsSubmission(op)
  {
    op.alive && !GoesDirectly(op, queue) && !(op.SinkOp? && op.kind.Full?) && (armed || op.timer)
  }

  // Over every run, the next submission goes directly, is parked last, or is given back: a wire
  // to its discard callback, a release to the caller.
  lemma {:induction false} SubmissionOutcome(ops: seq<Op>, op: Op)
    requires IsSubmission(op) && Run(ops + [op]).Some?
    ensures Run(ops).Some?
    ensures var f, g := Run(ops).value.fifo, Run(ops + [op]).value.fifo;
            var p := Submitted(op, Run(ops).value.submitted);
            if GoesDirectly(op, f.queue) then g == f.(log := f.log + [Accepted(p)])
            else if IsParked(op, f.queue, f.armed) then g == f.(queue := f.queue + [p], armed := true)
            else g == f.(log := f.log + [if op.SinkOp? then Discarded(p) else Refused(p)])
  {
    assert (ops + [op])[..|ops + [op]| - 1] == ops;
  }

  // --------------------------------------------------------- accepted is taken

  function AcceptedIn(log: seq<Effect>): seq<Post>
  {
    if log == [] then []
    else
      AcceptedIn(log[..|log| - 1]) + (if log[|log| - 1].Accepted? then [log[|log| - 1].post] else [])
  }

  // The parked posts among the first n whose attempt was taken.
  function TakenOf(queue: seq<Post>, mailbox: seq<bool>, n: nat): seq<Post>
    requires n <= |queue|
  {
    if n == 0 then [] else TakenOf(queue, mailbox, n - 1) + (if Takes(mailbox, n - 1) then [queue[n - 1]] else [])
  }

  // The posts whose attempt a mailbox takes in one operation, in order.
  function Took(s: State, op: Op): seq<Post>
  {
    match op
    case TickOp(teardown, mailbox, alive, now, _) =>
      if teardown || !alive then [] else TakenOf(s.fifo.queue, mailbox, Reach(s.fifo.queue, mailbox, 0, now))
    case DrainOp(mailbox, alive, now, _) =>
      if !alive then [] else TakenOf(s.fifo.queue, mailbox, Reach(s.fifo.queue, mailbox, 0, now))
    case _ => if GoesDirectly(op, s.fifo.queue) then [Submitted(op, s.submitted)] else []
  }

  function TookAll(ops: seq<Op>): seq<Post>
    requires Run(ops).Some?
  {
    if ops == [] then [] else TookAll(ops[..|ops| - 1]) + Took(Run(ops[..|ops| - 1]).value, ops[|ops| - 1])
  }

  lemma {:induction false} AcceptedSnoc(log: seq<Effect>, e: Effect)
    ensures AcceptedIn(log + [e]) == AcceptedIn(log) + (if e.Accepted? then [e.post] else [])
  {
    assert (log + [e])[..|log + [e]| - 1] == log;
  }

  lemma {:induction false} AcceptedSettled(log: seq<Effect>, queue: seq<Post>, mailbox: seq<bool>, n: nat)
    requires n <= |queue|
    ensures AcceptedIn(log + Settlements(queue, mailbox, 0, n)) == AcceptedIn(log) + TakenOf(queue, mailbox, n)
  {
    var effects := Settlements(queue, mailbox, 0, n);
    if n == 0 {
      assert log + effects == log;
    } else {
      var e := Settlement(queue[n - 1], Takes(mailbox, n - 1));
      AcceptedSettled(log, queue, mailbox, n - 1);
      assert log + effects == (log + Settlements(queue, mailbox, 0, n - 1)) + [e];
      AcceptedSnoc(log + Settlements(queue, mailbox, 0, n - 1), e);
    }
  }

  lemma {:induction false} AcceptedGivenUp(log: seq<Effect>, posts: seq<Effect>)
    requires forall i :: 0 <= i < |posts| ==> !posts[i].Accepted?
    ensures AcceptedIn(log + posts) == AcceptedIn(log)
  {
    if posts == [] {
      assert log + posts == log;
    } else {
      var front := posts[..|posts| - 1];
      AcceptedGivenUp(log, front);
      assert log + posts == (log + front) + [posts[|posts| - 1]];
      AcceptedSnoc(log + front, posts[|posts| - 1]);
    }
  }

  lemma {:induction false} FlushAccepts(f: Fifo, mailbox: seq<bool>, alive: bool, now: nat, timer: bool)
    ensures AcceptedIn(Flush(f, mailbox, alive, now, timer).log)
            == AcceptedIn(f.log) + if alive then TakenOf(f.queue, mailbox, Reach(f.queue, mailbox, 0, now)) else []
  {
    var n := Reach(f.queue, mailbox, 0, now);
    FlushOutcome(f, mailbox, alive, now, timer, n);
    if alive {
      AcceptedSettled(f.log, f.queue, mailbox, n);
      AcceptedGivenUp(f.log + Settlements(f.queue, mailbox, 0, n), GivenUpFrom(f.queue, n));
    } else {
      AcceptedGivenUp(f.log, GivenUpFrom(f.queue, 0));
    }
  }

  // Over every run, the posts logged as accepted are, in order, exactly those whose own attempt
  // a mailbox took.
  lemma {:induction false} AcceptedIsTaken(ops: seq<Op>)
    requires Run(ops).Some?
    ensures AcceptedIn(Run(ops).value.fifo.log) == TookAll(ops)
  {
    if ops != [] {
      var front, op := ops[..|ops| - 1], ops[|ops| - 1];
      var s := Run(front).value;
      AcceptedIsTaken(front);
      match op
      case TickOp(teardown, mailbox, alive, now, timer) =>
        FlushAccepts(s.fifo.(armed := false), mailbox, alive, now, timer);
      case DrainOp(mailbox, alive, now, timer) =>
        FlushAccepts(s.fifo, mailbox, alive, now, timer);
      case _ =>
        assert ops == front + [op];
        SubmissionAccepts(front, op);
    }
  }

  lemma {:induction false} SubmissionAccepts(ops: seq<Op>, op: Op)
    requires IsSubmission(op) && Run(ops).Some? && Run(ops + [op]).Some?
    ensures AcceptedIn(Run(ops + [op]).value.fifo.log)
            == AcceptedIn(Run(ops).value.fifo.log) + Took(Run(ops).value, op)
  {
    var s := Run(ops).value;
    var p := Submitted(op, s.submitted);
    SubmissionOutcome(ops, op);
    AcceptedSnoc(s.fifo.log, Accepted(p));
    AcceptedSnoc(s.fifo.log, Discarded(p));
    AcceptedSnoc(s.fifo.log, Refused(p));
  }
}
