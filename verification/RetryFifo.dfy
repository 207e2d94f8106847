// The worker-to-reactor reverse path: posts that did not fit a reactor mailbox wait in a
// FIFO that a one-shot timer retries in order (src/http_server_class.c:2877-3121).
module RetryFifo {
  import opened Common
  import opened LinkedQueue

  const TTL_NS: nat := 100 * 1000000

  // A FULL wire is a whole response; stream wires are ordered fragments; a slot release
  // must not overtake the wires of its stream.
  datatype Kind = Full | Fragment | SlotRelease

  // `id` numbers the submissions of a worker; deadline 0 means no expiry.
  datatype Post = Post(id: nat, kind: Kind, reactor: nat, deadline: nat)

  datatype Effect =
    | Accepted(post: Post)    // the reactor mailbox took it
    | Discarded(post: Post)   // its discard callback ran
    | Dropped(post: Post)     // given up without a callback (releases have none)
    | Refused(post: Post)     // reported to the caller, which falls back

  datatype Fifo = Fifo(
    queue: seq<Post>,
    armed: bool,
    torn: bool,           // a timer ended with the loop going down
    log: seq<Effect>)

  // Whether the mailbox takes the k-th post attempted.
  predicate Takes(mailbox: seq<bool>, k: nat) { k < |mailbox| && mailbox[k] }

  function GiveUp(post: Post): Effect
  {
    if post.kind.SlotRelease? then Dropped(post) else Discarded(post)
  }

  function GiveUpAll(posts: seq<Post>): (effects: seq<Effect>)
    ensures |effects| == |posts|
  {
    seq(|posts|, i requires 0 <= i < |posts| => GiveUp(posts[i]))
  }

  // The retry loop: from the head, until a post that neither fits nor may be given up.
  function Drain(f: Fifo, mailbox: seq<bool>, k: nat, alive: bool, now: nat): Fifo
    decreases |f.queue|
  {
    if f.queue == [] then f
    else
      var n := f.queue[0];
      var posted := alive && Takes(mailbox, k);
      if !posted && alive && (n.deadline == 0 || now < n.deadline) then f
      else
        Drain(f.(queue := f.queue[1..], log := f.log + [if posted then Accepted(n) else GiveUp(n)]),
              mailbox, k + 1, alive, now)
  }

  // Re-arm for what is left; when no timer can be had, fail the whole queue now.
  function Rearm(f: Fifo, timer: bool): Fifo
  {
    if f.queue == [] then f
    else if f.armed || timer then f.(armed := true)
    else f.(queue := [], log := f.log + GiveUpAll(f.queue))
  }

  function Flush(f: Fifo, mailbox: seq<bool>, alive: bool, now: nat, timer: bool): Fifo
  {
    Rearm(Drain(f, mailbox, 0, alive, now), timer)
  }

  function Tick(f: Fifo, teardown: bool, mailbox: seq<bool>, alive: bool, now: nat, timer: bool): Fifo
  {
    if teardown then f.(armed := false, torn := true)
    else Flush(f.(armed := false), mailbox, alive, now, timer)
  }

  // Parks a post, or leaves the queue as it was when no timer can be armed.
  function Defer(f: Fifo, post: Post, timer: bool): Option<Fifo>
  {
    if f.armed || timer then Some(f.(queue := f.queue + [post], armed := true)) else None
  }

  function SinkWire(f: Fifo, id: nat, kind: Kind, reactor: nat, alive: bool, takes: bool, now: nat, timer: bool): Fifo
    requires !kind.SlotRelease?
  {
    var post := Post(id, kind, reactor, now + TTL_NS);
    if alive && (kind.Full? || f.queue == []) && takes then f.(log := f.log + [Accepted(post)])
    else if alive && kind.Fragment? && Defer(f, post, timer).Some? then Defer(f, post, timer).value
    else f.(log := f.log + [Discarded(post)])
  }

  function PostRelease(f: Fifo, id: nat, reactor: nat, alive: bool, takes: bool, timer: bool): Fifo
  {
    var post := Post(id, SlotRelease, reactor, 0);
    if !alive then f.(log := f.log + [Refused(post)])
    else if f.queue == [] && takes then f.(log := f.log + [Accepted(post)])
    else if Defer(f, post, timer).Some? then Defer(f, post, timer).value
    else f.(log := f.log + [Refused(post)])
  }

  class ReversePath {
    const pending: Chain<Post>
    var armed: bool
    var torn: bool
    var log: seq<Effect>

    ghost predicate Valid()
      reads this, pending, pending.spine
    {
      pending.Valid()
    }

    ghost function Value(): Fifo
      reads this, pending
    {
      Fifo(pending.contents, armed, torn, log)
    }

    constructor ()
      ensures Valid() && fresh(pending) && pending.spine == []
      ensures Value() == Fifo([], false, false, [])
    {
      pending := new Chain<Post>();
      armed, torn, log := false, false, [];
    }

    method ArmTimer(timer: bool) returns (ok: bool)
      modifies this`armed
      ensures ok == (old(armed) || timer) && armed == ok
    {
      if armed {
        return true;
      }
      if !timer {
        return false;
      }
      armed := true;
      return true;
    }

    method DoDefer(post: Post, timer: bool) returns (ok: bool)
      requires Valid()
      modifies this`armed, pending, pending.spine
      ensures Valid() && forall n :: n in pending.spine ==> n in old(pending.spine) || fresh(n)
      ensures ok == Defer(old(Value()), post, timer).Some?
      ensures Value() == if ok then Defer(old(Value()), post, timer).value else old(Value())
    {
      pending.Append(post);
      ok := ArmTimer(timer);
      if !ok {
        pending.RemoveLast();
      }
    }

    method DoFlush(mailbox: seq<bool>, alive: bool, now: nat, timer: bool)
      requires Valid()
      modifies this`armed, this`log, pending
      ensures Valid() && forall n :: n in pending.spine ==> n in old(pending.spine)
      ensures Value() == Flush(old(Value()), mailbox, alive, now, timer)
    {
      ghost var start := Value();
      var k := 0;
      while pending.head != null
        invariant Valid() && armed == old(armed) && torn == old(torn)
        invariant forall n :: n in pending.spine ==> n in old(pending.spine)
        invariant Drain(Value(), mailbox, k, alive, now) == Drain(start, mailbox, 0, alive, now)
        decreases |pending.contents|
      {
        var n := pending.head.data;
        var posted := alive && k < |mailbox| && mailbox[k];
        if !posted && alive && (n.deadline == 0 || now < n.deadline) {
          break;
        }
        log := log + [if posted then Accepted(n) else GiveUp(n)];
        var _ := pending.RemoveFirst();
        k := k + 1;
      }
      assert Value() == Drain(start, mailbox, 0, alive, now);
      if pending.head != null {
        var ok := ArmTimer(timer);
        if !ok {
          FailAll();
        }
      }
    }

    method FailAll()
      requires Valid()
      modifies this`log, pending
      ensures Valid() && forall n :: n in pending.spine ==> n in old(pending.spine)
      ensures pending.contents == [] && log == old(log) + GiveUpAll(old(pending.contents))
    {
      ghost var all := pending.contents;
      ghost var done := 0;
      while pending.head != null
        invariant Valid() && 0 <= done <= |all| && pending.contents == all[done..]
        invariant forall n :: n in pending.spine ==> n in old(pending.spine)
        invariant log == old(log) + GiveUpAll(all)[..done]
        decreases |pending.contents|
      {
        log := log + [GiveUp(pending.head.data)];
        var _ := pending.RemoveFirst();
        done := done + 1;
      }
      assert GiveUpAll(all)[..done] == GiveUpAll(all);
    }

    method TimerFired(teardown: bool, mailbox: seq<bool>, alive: bool, now: nat, timer: bool)
      requires Valid()
      modifies this, pending
      ensures Valid()
      ensures Value() == Tick(old(Value()), teardown, mailbox, alive, now, timer)
    {
      armed := false;
      if teardown {
        torn := true;
        return;
      }
      DoFlush(mailbox, alive, now, timer);
    }

    method Sink(id: nat, kind: Kind, reactor: nat, alive: bool, takes: bool, now: nat, timer: bool)
      returns (ok: bool)
      requires Valid() && !kind.SlotRelease?
      modifies this, pending, pending.spine
      ensures Valid()
      ensures Value() == SinkWire(old(Value()), id, kind, reactor, alive, takes, now, timer)
    {
      var post := Post(id, kind, reactor, now + TTL_NS);
      if alive {
        var stream := kind != Full;
        if (!stream || pending.head == null) && takes {
          log := log + [Accepted(post)];
          return true;
        }
        if stream {
          var parked := DoDefer(post, timer);
          if parked {
            return true;
          }
        }
      }
      log := log + [Discarded(post)];
      return false;
    }

    method Release(id: nat, reactor: nat, alive: bool, takes: bool, timer: bool) returns (ok: bool)
      requires Valid()
      modifies this, pending, pending.spine
      ensures Valid()
      ensures Value() == PostRelease(old(Value()), id, reactor, alive, takes, timer)
      ensures !ok <==> Value().log == old(Value()).log + [Refused(Post(id, SlotRelease, reactor, 0))]
    {
      var post := Post(id, SlotRelease, reactor, 0);
      if !alive {
        log := log + [Refused(post)];
        return false;
      }
      if pending.head == null && takes {
        log := log + [Accepted(post)];
        assert log[|log| - 1] == Accepted(post);
        return true;
      }
      ok := DoDefer(post, timer);
      if !ok {
        log := log + [Refused(post)];
      }
    }
  }

  // --------------------------------------------------------------------- runs

  datatype Op =
    | SinkOp(kind: Kind, reactor: nat, alive: bool, takes: bool, now: nat, timer: bool)
    | ReleaseOp(reactor: nat, alive: bool, takes: bool, timer: bool)
    | TickOp(teardown: bool, mailbox: seq<bool>, alive: bool, now: nat, timer: bool)
    | DrainOp(mailbox: seq<bool>, alive: bool, now: nat, timer: bool)   // the retire path's direct flush

  // Submissions are numbered in the order the worker makes them.
  datatype State = State(fifo: Fifo, submitted: nat)

  predicate Possible(s: State, op: Op)
  {
    match op
    case SinkOp(kind, _, _, _, _, _) => !kind.SlotRelease?
    case TickOp(_, _, _, _, _) => s.fifo.armed
    case _ => true
  }

  function Step(s: State, op: Op): State
    requires Possible(s, op)
  {
    match op
    case SinkOp(kind, reactor, alive, takes, now, timer) =>
      State(SinkWire(s.fifo, s.submitted, kind, reactor, alive, takes, now, timer), s.submitted + 1)
    case ReleaseOp(reactor, alive, takes, timer) =>
      State(PostRelease(s.fifo, s.submitted, reactor, alive, takes, timer), s.submitted + 1)
    case TickOp(teardown, mailbox, alive, now, timer) =>
      s.(fifo := Tick(s.fifo, teardown, mailbox, alive, now, timer))
    case DrainOp(mailbox, alive, now, timer) =>
      s.(fifo := Flush(s.fifo, mailbox, alive, now, timer))
  }

  function Run(ops: seq<Op>): Option<State>
  {
    if ops == [] then Some(State(Fifo([], false, false, []), 0))
    else
      var before := Run(ops[..|ops| - 1]);
      if before.Some? && Possible(before.value, ops[|ops| - 1])
      then Some(Step(before.value, ops[|ops| - 1])) else None
  }

  // The ordered posts a reactor took, in the order it took them.
  function Taken(log: seq<Effect>): seq<nat>
  {
    if log == [] then []
    else
      var last := log[|log| - 1];
      Taken(log[..|log| - 1]) + (if last.Accepted? && !last.post.kind.Full? then [last.post.id] else [])
  }

  // How often submission `id` was settled, and how often it is parked.
  function Settled(log: seq<Effect>, id: nat): nat
  {
    if log == [] then 0
    else Settled(log[..|log| - 1], id) + (if log[|log| - 1].post.id == id then 1 else 0)
  }

  function Parked(queue: seq<Post>, id: nat): nat
  {
    if queue == [] then 0 else (if queue[0].id == id then 1 else 0) + Parked(queue[1..], id)
  }

  function Census(f: Fifo, id: nat): nat { Settled(f.log, id) + Parked(f.queue, id) }

  ghost predicate Increasing(ids: seq<nat>)
  {
    forall i, j :: 0 <= i < j < |ids| ==> ids[i] < ids[j]
  }

  // A parked post is ordered and carries a deadline exactly when it is a wire.
  ghost predicate Parkable(p: Post, bound: nat)
  {
    p.id < bound && !p.kind.Full? && (p.deadline == 0 <==> p.kind.SlotRelease?)
  }

  ghost predicate QueueOrdered(queue: seq<Post>, bound: nat)
  {
    && (forall i, j :: 0 <= i < j < |queue| ==> queue[i].id < queue[j].id)
    && (forall i :: 0 <= i < |queue| ==> Parkable(queue[i], bound))
  }

  ghost predicate AllBelow(ids: seq<nat>, bound: nat)
  {
    forall i :: 0 <= i < |ids| ==> ids[i] < bound
  }

  // Everything taken was submitted before everything parked, and both are in order.
  ghost predicate InOrder(f: Fifo, bound: nat)
  {
    && Increasing(Taken(f.log))
    && QueueOrdered(f.queue, bound)
    && AllBelow(Taken(f.log), if f.queue == [] then bound else f.queue[0].id)
  }

  // A queue with something in it has its timer armed, unless the loop is going down.
  ghost predicate Watched(f: Fifo) { f.queue == [] || f.armed || f.torn }

  ghost predicate Inv(s: State) { InOrder(s.fifo, s.submitted) && Watched(s.fifo) }

  lemma {:induction false} LogOne(log: seq<Effect>, e: Effect, id: nat)
    ensures Taken(log + [e]) == Taken(log) + (if e.Accepted? && !e.post.kind.Full? then [e.post.id] else [])
    ensures Settled(log + [e], id) == Settled(log, id) + (if e.post.id == id then 1 else 0)
  {
    assert (log + [e])[..|log + [e]| - 1] == log;
  }

  lemma {:induction false} ParkOne(queue: seq<Post>, p: Post, id: nat)
    ensures Parked(queue + [p], id) == Parked(queue, id) + (if p.id == id then 1 else 0)
  {
    if queue == [] {
      assert queue + [p] == [p];
    } else {
      assert (queue + [p])[1..] == queue[1..] + [p];
      ParkOne(queue[1..], p, id);
    }
  }

  lemma {:induction false} LogGivenUp(log: seq<Effect>, posts: seq<Post>, id: nat)
    ensures Taken(log + GiveUpAll(posts)) == Taken(log)
    ensures Settled(log + GiveUpAll(posts), id) == Settled(log, id) + Parked(posts, id)
    decreases |posts|
  {
    if posts == [] {
      assert log + GiveUpAll(posts) == log;
    } else {
      LogOne(log, GiveUp(posts[0]), id);
      LogGivenUp(log + [GiveUp(posts[0])], posts[1..], id);
      assert log + GiveUpAll(posts) == log + [GiveUp(posts[0])] + GiveUpAll(posts[1..]);
    }
  }

  // Settling the head keeps the order and the census.
  lemma {:induction false} TakeHead(f: Fifo, bound: nat, e: Effect, id: nat)
    requires InOrder(f, bound) && f.queue != [] && e.post == f.queue[0]
    ensures var g := f.(queue := f.queue[1..], log := f.log + [e]);
            InOrder(g, bound) && Census(g, id) == Census(f, id)
  {
    LogOne(f.log, e, id);
    assert Parkable(f.queue[0], bound);
  }

  lemma {:induction false} DrainKeeps(f: Fifo, bound: nat, mailbox: seq<bool>, k: nat, alive: bool, now: nat, id: nat)
    requires InOrder(f, bound)
    ensures var d := Drain(f, mailbox, k, alive, now);
            InOrder(d, bound) && Census(d, id) == Census(f, id)
    decreases |f.queue|
  {
    if f.queue != [] {
      var n := f.queue[0];
      var posted := alive && Takes(mailbox, k);
      if posted || !alive || (n.deadline != 0 && now >= n.deadline) {
        var e := if posted then Accepted(n) else GiveUp(n);
        TakeHead(f, bound, e, id);
        DrainKeeps(f.(queue := f.queue[1..], log := f.log + [e]), bound, mailbox, k + 1, alive, now, id);
      }
    }
  }

  // Emptying the queue without anything being taken.
  lemma {:induction false} EmptiedKeeps(d: Fifo, log: seq<Effect>, bound: nat)
    requires InOrder(d, bound) && d.queue != [] && Taken(log) == Taken(d.log)
    ensures InOrder(d.(queue := [], log := log), bound)
  {
    assert Parkable(d.queue[0], bound);
    var ids, first := Taken(d.log), d.queue[0].id;
    assert AllBelow(ids, first) && first < bound;
    assert forall i :: 0 <= i < |ids| ==> ids[i] < bound;
  }

  lemma {:induction false} RearmKeeps(d: Fifo, bound: nat, timer: bool, id: nat)
    requires InOrder(d, bound)
    ensures InOrder(Rearm(d, timer), bound) && Watched(Rearm(d, timer))
    ensures Census(Rearm(d, timer), id) == Census(d, id)
  {
    if d.queue != [] {
      if !d.armed && !timer {
        GivenUpKeeps(d, bound, id, d.log + GiveUpAll(d.queue));
      } else {
        assert Rearm(d, timer) == d.(armed := true);
      }
    }
  }

  lemma {:induction false} GivenUpKeeps(d: Fifo, bound: nat, id: nat, log: seq<Effect>)
    requires InOrder(d, bound) && d.queue != [] && log == d.log + GiveUpAll(d.queue)
    ensures InOrder(d.(queue := [], log := log), bound)
    ensures Census(d.(queue := [], log := log), id) == Census(d, id)
  {
    LogGivenUp(d.log, d.queue, id);
    EmptiedKeeps(d, log, bound);
  }

  lemma {:induction false} FlushKeeps(f: Fifo, bound: nat, mailbox: seq<bool>, alive: bool, now: nat, timer: bool, id: nat)
    requires InOrder(f, bound)
    ensures var g := Flush(f, mailbox, alive, now, timer);
            InOrder(g, bound) && Watched(g) && Census(g, id) == Census(f, id)
  {
    DrainKeeps(f, bound, mailbox, 0, alive, now, id);
    RearmKeeps(Drain(f, mailbox, 0, alive, now), bound, timer, id);
  }

  lemma {:induction false} ParkKeeps(s: State, post: Post)
    requires Inv(s) && post.id == s.submitted && Parkable(post, s.submitted + 1)
    ensures Inv(State(s.fifo.(queue := s.fifo.queue + [post], armed := true), s.submitted + 1))
  {
    var queue := s.fifo.queue + [post];
    forall i | 0 <= i < |queue|
      ensures Parkable(queue[i], s.submitted + 1)
    {
      assert i < |s.fifo.queue| ==> Parkable(s.fifo.queue[i], s.submitted);
    }
    assert forall i :: 0 <= i < |s.fifo.queue| ==> Parkable(s.fifo.queue[i], s.submitted);
  }

  lemma {:induction false} SettleKeeps(s: State, e: Effect)
    requires Inv(s) && e.post.id == s.submitted
    requires e.Accepted? ==> e.post.kind.Full? || s.fifo.queue == []
    ensures Inv(State(s.fifo.(log := s.fifo.log + [e]), s.submitted + 1))
  {
    LogOne(s.fifo.log, e, 0);
    forall i | 0 <= i < |s.fifo.queue|
      ensures Parkable(s.fifo.queue[i], s.submitted + 1)
    {
      assert Parkable(s.fifo.queue[i], s.submitted);
    }
  }

  lemma {:induction false} SinkKeeps(s: State, kind: Kind, reactor: nat, alive: bool, takes: bool, now: nat, timer: bool)
    requires Inv(s) && !kind.SlotRelease?
    ensures Inv(State(SinkWire(s.fifo, s.submitted, kind, reactor, alive, takes, now, timer), s.submitted + 1))
  {
    var post := Post(s.submitted, kind, reactor, now + TTL_NS);
    if alive && (kind.Full? || s.fifo.queue == []) && takes {
      SettleKeeps(s, Accepted(post));
    } else if alive && kind.Fragment? && (s.fifo.armed || timer) {
      ParkKeeps(s, post);
    } else {
      SettleKeeps(s, Discarded(post));
    }
  }

  lemma {:induction false} ReleaseKeeps(s: State, reactor: nat, alive: bool, takes: bool, timer: bool)
    requires Inv(s)
    ensures Inv(State(PostRelease(s.fifo, s.submitted, reactor, alive, takes, timer), s.submitted + 1))
  {
    var post := Post(s.submitted, SlotRelease, reactor, 0);
    if alive && s.fifo.queue == [] && takes {
      SettleKeeps(s, Accepted(post));
    } else if alive && (s.fifo.armed || timer) {
      ParkKeeps(s, post);
    } else {
      SettleKeeps(s, Refused(post));
    }
  }

  lemma {:induction false} SinkStep(s: State, op: Op)
    requires Inv(s) && Possible(s, op) && op.SinkOp?
    ensures Inv(Step(s, op))
  {
    SinkKeeps(s, op.kind, op.reactor, op.alive, op.takes, op.now, op.timer);
  }

  lemma {:induction false} ReleaseStep(s: State, op: Op)
    requires Inv(s) && op.ReleaseOp?
    ensures Inv(Step(s, op))
  {
    ReleaseKeeps(s, op.reactor, op.alive, op.takes, op.timer);
  }

  lemma {:induction false} TickStep(s: State, op: Op)
    requires Inv(s) && Possible(s, op) && op.TickOp?
    ensures Inv(Step(s, op))
  {
    if !op.teardown {
      FlushKeeps(s.fifo.(armed := false), s.submitted, op.mailbox, op.alive, op.now, op.timer, 0);
    }
  }

  lemma {:induction false} DrainStep(s: State, op: Op)
    requires Inv(s) && op.DrainOp?
    ensures Inv(Step(s, op))
  {
    FlushKeeps(s.fifo, s.submitted, op.mailbox, op.alive, op.now, op.timer, 0);
  }

  lemma {:induction false} StepKeeps(s: State, op: Op)
    requires Inv(s) && Possible(s, op)
    ensures Inv(Step(s, op))
  {
    if op.SinkOp? {
      SinkStep(s, op);
    } else if op.ReleaseOp? {
      ReleaseStep(s, op);
    } else if op.TickOp? {
      TickStep(s, op);
    } else {
      DrainStep(s, op);
    }
  }

  lemma {:induction false} RunKeeps(ops: seq<Op>)
    requires Run(ops).Some?
    ensures Inv(Run(ops).value)
  {
    if ops != [] {
      RunKeeps(ops[..|ops| - 1]);
      StepKeeps(Run(ops[..|ops| - 1]).value, ops[|ops| - 1]);
    }
  }

  // In every run the stream wires and slot releases that reactors took are in submission
  // order, whatever was refused, expired or bypassed: no release overtakes an earlier wire.
  lemma {:induction false} OrderPreserved(ops: seq<Op>)
    requires Run(ops).Some?
    ensures var f := Run(ops).value.fifo;
            && Increasing(Taken(f.log))
            && forall i :: 0 <= i < |f.queue| ==> AllBelow(Taken(f.log), f.queue[i].id)
  {
    RunKeeps(ops);
  }

  lemma {:induction false} SinkCensus(s: State, op: Op, id: nat)
    requires Inv(s) && Possible(s, op) && op.SinkOp?
    ensures Census(Step(s, op).fifo, id) == Census(s.fifo, id) + (if id == s.submitted then 1 else 0)
  {
    var post := Post(s.submitted, op.kind, op.reactor, op.now + TTL_NS);
    ParkOne(s.fifo.queue, post, id);
    LogOne(s.fifo.log, Accepted(post), id);
    LogOne(s.fifo.log, Discarded(post), id);
  }

  lemma {:induction false} ReleaseCensus(s: State, op: Op, id: nat)
    requires Inv(s) && op.ReleaseOp?
    ensures Census(Step(s, op).fifo, id) == Census(s.fifo, id) + (if id == s.submitted then 1 else 0)
  {
    var post := Post(s.submitted, SlotRelease, op.reactor, 0);
    ParkOne(s.fifo.queue, post, id);
    LogOne(s.fifo.log, Accepted(post), id);
    LogOne(s.fifo.log, Refused(post), id);
  }

  lemma {:induction false} FlushCensus(s: State, op: Op, id: nat)
    requires Inv(s) && Possible(s, op) && (op.TickOp? || op.DrainOp?)
    ensures Census(Step(s, op).fifo, id) == Census(s.fifo, id)
  {
    if op.DrainOp? {
      FlushKeeps(s.fifo, s.submitted, op.mailbox, op.alive, op.now, op.timer, id);
    } else if !op.teardown {
      FlushKeeps(s.fifo.(armed := false), s.submitted, op.mailbox, op.alive, op.now, op.timer, id);
    }
  }

  // One step counts the submission it makes, if it makes one, and nothing else.
  lemma {:induction false} StepCensus(s: State, op: Op, id: nat)
    requires Inv(s) && Possible(s, op)
    ensures Census(Step(s, op).fifo, id) == Census(s.fifo, id)
              + (if (op.SinkOp? || op.ReleaseOp?) && id == s.submitted then 1 else 0)
  {
    if op.SinkOp? {
      SinkCensus(s, op, id);
    } else if op.ReleaseOp? {
      ReleaseCensus(s, op, id);
    } else {
      FlushCensus(s, op, id);
    }
  }

  // Every submission is in exactly one place, exactly once: settled in the log (taken,
  // discarded, dropped or refused) or still parked.
  lemma {:induction false} NothingLostOrDoubled(ops: seq<Op>, id: nat)
    requires Run(ops).Some?
    ensures var s := Run(ops).value;
            Settled(s.fifo.log, id) + Parked(s.fifo.queue, id) == if id < s.submitted then 1 else 0
  {
    if ops != [] {
      var init := ops[..|ops| - 1];
      NothingLostOrDoubled(init, id);
      RunKeeps(init);
      StepCensus(Run(init).value, ops[|ops| - 1], id);
    }
  }

  // Outside loop teardown a non-empty queue always has its timer armed.
  lemma {:induction false} TimerArmed(ops: seq<Op>)
    requires Run(ops).Some? && !Run(ops).value.fifo.torn
    ensures Run(ops).value.fifo.queue != [] ==> Run(ops).value.fifo.armed
  {
    RunKeeps(ops);
  }

  // A wire never ends without its discard callback: only releases are dropped silently.
  ghost predicate WiresDiscarded(log: seq<Effect>)
  {
    forall e :: e in log && (e.Dropped? || e.Refused?) ==> e.post.kind.SlotRelease?
  }

  lemma {:induction false} DrainDiscards(f: Fifo, mailbox: seq<bool>, k: nat, alive: bool, now: nat)
    requires WiresDiscarded(f.log)
    ensures WiresDiscarded(Drain(f, mailbox, k, alive, now).log)
    decreases |f.queue|
  {
    if f.queue != [] {
      var n := f.queue[0];
      var posted := alive && Takes(mailbox, k);
      if posted || !alive || (n.deadline != 0 && now >= n.deadline) {
        DrainDiscards(f.(queue := f.queue[1..], log := f.log + [if posted then Accepted(n) else GiveUp(n)]),
                      mailbox, k + 1, alive, now);
      }
    }
  }

  lemma {:induction false} WiresNeverVanish(ops: seq<Op>)
    requires Run(ops).Some?
    ensures WiresDiscarded(Run(ops).value.fifo.log)
  {
    if ops != [] {
      WiresNeverVanish(ops[..|ops| - 1]);
      var s, op := Run(ops[..|ops| - 1]).value, ops[|ops| - 1];
      match op
      case TickOp(teardown, mailbox, alive, now, timer) =>
        DrainDiscards(s.fifo.(armed := false), mailbox, 0, alive, now);
      case DrainOp(mailbox, alive, now, timer) =>
        DrainDiscards(s.fifo, mailbox, 0, alive, now);
      case _ =>
    }
  }

  // ------------------------------------------------------- what is given up

  ghost predicate AllParkable(queue: seq<Post>, bound: nat) { forall i :: 0 <= i < |queue| ==> Parkable(queue[i], bound) }

  predicate Expired(p: Post, now: nat) { p.kind.Fragment? && p.deadline <= now }

  // Nothing but stream wires past their deadline was given up.
  predicate Harmless(effects: seq<Effect>, now: nat)
  {
    forall i :: 0 <= i < |effects| ==> effects[i].Accepted? || (effects[i].Discarded? && Expired(effects[i].post, now))
  }

  // The drain loop of a living pool: it gives up only expired wires, and stops at a post that
  // is not expired.
  lemma {:induction false} DrainHarmless(f: Fifo, mailbox: seq<bool>, k: nat, now: nat, bound: nat)
    requires AllParkable(f.queue, bound)
    ensures var d := Drain(f, mailbox, k, true, now);
            && f.log <= d.log && Harmless(d.log[|f.log|..], now) && AllParkable(d.queue, bound)
            && d.armed == f.armed && (d.queue != [] ==> !Expired(d.queue[0], now))
    decreases |f.queue|
  {
    if f.queue != [] {
      var n := f.queue[0];
      assert Parkable(n, bound);
      var posted := Takes(mailbox, k);
      if posted || (n.deadline != 0 && now >= n.deadline) {
        var e := if posted then Accepted(n) else GiveUp(n);
        var g := f.(queue := f.queue[1..], log := f.log + [e]);
        DrainHarmless(g, mailbox, k + 1, now, bound);
        HarmlessCons(f.log, e, Drain(g, mailbox, k + 1, true, now).log, now);
      }
    }
  }

  lemma {:induction false} HarmlessCons(log: seq<Effect>, e: Effect, all: seq<Effect>, now: nat)
    requires log + [e] <= all && Harmless(all[|log| + 1..], now)
    requires e.Accepted? || (e.Discarded? && Expired(e.post, now))
    ensures log <= all && Harmless(all[|log|..], now)
  {
    var after := all[|log|..];
    assert after[0] == e && forall i :: 1 <= i < |after| ==> after[i] == all[|log| + 1..][i - 1];
  }

  // A pool that is gone gives up the whole queue.
  lemma {:induction false} DrainDead(f: Fifo, mailbox: seq<bool>, k: nat, now: nat)
    ensures Drain(f, mailbox, k, false, now) == f.(queue := [], log := f.log + GiveUpAll(f.queue))
    decreases |f.queue|
  {
    if f.queue == [] {
      assert f.log + GiveUpAll(f.queue) == f.log;
    } else {
      var e := GiveUp(f.queue[0]);
      DrainDead(f.(queue := f.queue[1..], log := f.log + [e]), mailbox, k + 1, now);
      assert f.log + GiveUpAll(f.queue) == f.log + [e] + GiveUpAll(f.queue[1..]);
    }
  }

  lemma {:induction false} GiveUpHarmless(log: seq<Effect>, before: nat, posts: seq<Post>, now: nat, bound: nat)
    requires AllParkable(posts, bound) && before <= |log| && Harmless(log[before..], now)
    ensures Harmless((log + GiveUpAll(posts))[before..], now) <==> forall i :: 0 <= i < |posts| ==> Expired(posts[i], now)
  {
    var all, n := (log + GiveUpAll(posts))[before..], |log| - before;
    assert forall i :: 0 <= i < n ==> all[i] == log[before..][i];
    assert forall i :: 0 <= i < |posts| ==> all[n + i] == GiveUp(posts[i]);
    assert forall i :: 0 <= i < |posts| ==> Parkable(posts[i], bound);
    if forall i :: 0 <= i < |posts| ==> Expired(posts[i], now) {
      assert forall i :: n <= i < |all| ==> all[i] == GiveUp(posts[i - n]);
    }
  }

  // What a flush gives up. With the pool alive it is only stream wires past their deadline,
  // exactly when a tick is scheduled, can be, or is not needed; with the pool gone it is
  // everything, so exactly when everything had expired.
  lemma {:induction false} FlushGivesUpOnlyExpired(f: Fifo, mailbox: seq<bool>, alive: bool, now: nat, timer: bool, bound: nat)
    requires AllParkable(f.queue, bound)
    ensures f.log <= Flush(f, mailbox, alive, now, timer).log
    ensures Harmless(Flush(f, mailbox, alive, now, timer).log[|f.log|..], now)
            <==> if alive then f.armed || timer || Drain(f, mailbox, 0, true, now).queue == []
                 else forall i :: 0 <= i < |f.queue| ==> Expired(f.queue[i], now)
  {
    if alive {
      DrainHarmless(f, mailbox, 0, now, bound);
      var d := Drain(f, mailbox, 0, true, now);
      GiveUpHarmless(d.log, |f.log|, d.queue, now, bound);
    } else {
      DrainDead(f, mailbox, 0, now);
      GiveUpHarmless(f.log, |f.log|, f.queue, now, bound);
    }
  }

  const PARKS_AND_TICKS: seq<Op> := [ReleaseOp(0, true, false, true), TickOp(false, [], true, 0, false)]

  // A run of a living pool: a release is parked with its tick; the tick finds the mailbox full
  // and no timer to be had, and drops it.
  lemma {:induction false} ReleaseDropped()
    ensures Run(PARKS_AND_TICKS).Some?
    ensures Run(PARKS_AND_TICKS).value.fifo == Fifo([], false, false, [Dropped(Post(0, SlotRelease, 0, 0))])
  {
    var p := Post(0, SlotRelease, 0, 0);
    var park, tick := PARKS_AND_TICKS[0], PARKS_AND_TICKS[1];
    var parked := State(Fifo([p], true, false, []), 1);
    assert Run([]) == Some(State(Fifo([], false, false, []), 0));
    assert [park][..0] == [] && [] + [p] == [p];
    assert Run([park]) == Some(parked);
    assert PARKS_AND_TICKS[..1] == [park];
    assert GiveUpAll([p]) == [Dropped(p)];
    assert Step(parked, tick).fifo == Flush(parked.fifo.(armed := false), [], true, 0, false);
  }

  // ------------------------------------------------------- releases over runs

  predicate NoneDropped(log: seq<Effect>) { forall i :: 0 <= i < |log| ==> !log[i].Dropped? }

  predicate HasRelease(queue: seq<Post>) { exists i :: 0 <= i < |queue| && queue[i].kind.SlotRelease? }

  lemma {:induction false} GiveUpDrops(log: seq<Effect>, posts: seq<Post>)
    requires NoneDropped(log)
    ensures NoneDropped(log + GiveUpAll(posts)) <==> !HasRelease(posts)
  {
    var all := log + GiveUpAll(posts);
    assert forall i :: 0 <= i < |posts| ==> all[|log| + i] == GiveUp(posts[i]);
    if !HasRelease(posts) {
      assert forall i :: |log| <= i < |all| ==> all[i] == GiveUp(posts[i - |log|]);
    }
  }

  lemma {:induction false} HarmlessDrops(log: seq<Effect>, all: seq<Effect>, now: nat)
    requires NoneDropped(log) && log <= all && Harmless(all[|log|..], now)
    ensures NoneDropped(all)
  {
    assert forall i :: |log| <= i < |all| ==> all[i] == all[|log|..][i - |log|];
  }

  // Whether a flush spares the parked releases.
  predicate FlushSpares(f: Fifo, mailbox: seq<bool>, alive: bool, now: nat, timer: bool)
  {
    if alive then f.armed || timer || !HasRelease(Drain(f, mailbox, 0, true, now).queue) else !HasRelease(f.queue)
  }

  lemma {:induction false} FlushDrops(f: Fifo, mailbox: seq<bool>, alive: bool, now: nat, timer: bool, bound: nat)
    requires AllParkable(f.queue, bound) && NoneDropped(f.log)
    ensures NoneDropped(Flush(f, mailbox, alive, now, timer).log) <==> FlushSpares(f, mailbox, alive, now, timer)
  {
    if alive {
      DrainHarmless(f, mailbox, 0, now, bound);
      var d := Drain(f, mailbox, 0, true, now);
      HarmlessDrops(f.log, d.log, now);
      GiveUpDrops(d.log, d.queue);
    } else {
      DrainDead(f, mailbox, 0, now);
      GiveUpDrops(f.log, f.queue);
    }
  }

  predicate Spares(f: Fifo, op: Op)
  {
    match op
    case TickOp(teardown, mailbox, alive, now, timer) =>
      teardown || FlushSpares(f.(armed := false), mailbox, alive, now, timer)
    case DrainOp(mailbox, alive, now, timer) => FlushSpares(f, mailbox, alive, now, timer)
    case _ => true
  }

  lemma {:induction false} StepDrops(s: State, op: Op)
    requires Inv(s) && Possible(s, op) && NoneDropped(s.fifo.log)
    ensures NoneDropped(Step(s, op).fifo.log) <==> Spares(s.fifo, op)
  {
    match op
    case TickOp(teardown, mailbox, alive, now, timer) =>
      if !teardown {
        FlushDrops(s.fifo.(armed := false), mailbox, alive, now, timer, s.submitted);
      }
    case DrainOp(mailbox, alive, now, timer) =>
      FlushDrops(s.fifo, mailbox, alive, now, timer, s.submitted);
    case _ =>
  }

  predicate AllSpared(ops: seq<Op>)
    requires Run(ops).Some?
  {
    ops != [] ==> AllSpared(ops[..|ops| - 1]) && Spares(Run(ops[..|ops| - 1]).value.fifo, ops[|ops| - 1])
  }

  lemma {:induction false} LogGrows(s: State, op: Op)
    requires Inv(s) && Possible(s, op)
    ensures s.fifo.log <= Step(s, op).fifo.log
  {
    match op
    case TickOp(teardown, mailbox, alive, now, timer) =>
      FlushGivesUpOnlyExpired(s.fifo.(armed := false), mailbox, alive, now, timer, s.submitted);
    case DrainOp(mailbox, alive, now, timer) =>
      FlushGivesUpOnlyExpired(s.fifo, mailbox, alive, now, timer, s.submitted);
    case _ =>
  }

  // Over every run: no slot release is ever dropped silently, exactly when every flush found
  // the pool alive and a tick scheduled or to be had, or no release left to give up.
  lemma {:induction false} ReleasesSurvive(ops: seq<Op>)
    requires Run(ops).Some?
    ensures NoneDropped(Run(ops).value.fifo.log) <==> AllSpared(ops)
  {
    if ops != [] {
      var front, last := ops[..|ops| - 1], ops[|ops| - 1];
      ReleasesSurvive(front);
      RunKeeps(front);
      var s := Run(front).value;
      LogGrows(s, last);
      if NoneDropped(s.fifo.log) {
        StepDrops(s, last);
      } else {
        assert forall i :: 0 <= i < |s.fifo.log| ==> Step(s, last).fifo.log[i] == s.fifo.log[i];
      }
    }
  }

  // In particular when every flush is alive with a timer to be had.
  predicate Provided(op: Op)
  {
    match op
    case TickOp(_, _, alive, _, timer) => alive && timer
    case DrainOp(_, alive, _, timer) => alive && timer
    case _ => true
  }

  lemma {:induction false} ProvidedSpares(ops: seq<Op>)
    requires Run(ops).Some? && forall i :: 0 <= i < |ops| ==> Provided(ops[i])
    ensures NoneDropped(Run(ops).value.fifo.log)
  {
    AllProvided(ops);
    ReleasesSurvive(ops);
  }

  lemma {:induction false} AllProvided(ops: seq<Op>)
    requires Run(ops).Some? && forall i :: 0 <= i < |ops| ==> Provided(ops[i])
    ensures AllSpared(ops)
  {
    if ops != [] {
      AllProvided(ops[..|ops| - 1]);
      assert Provided(ops[|ops| - 1]);
    }
  }
}
