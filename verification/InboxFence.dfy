// Retiring a worker's inbox: unpublish it, send a fence through every reactor, and resume
// only when each fence has run or could not be delivered
// (src/http_server_class.c:3126-3212, src/core/worker_registry.c:79-98).
module InboxFence {
  import opened Common

  // A reactor dispatches synchronously: it loads an inbox from the registry, posts into it
  // and lets go, and only then drains its mailbox.
  datatype Reactor = Reactor(
    holding: bool,      // in a dispatch that loaded the inbox being retired
    sent: bool,         // the worker has dealt with this reactor's fence
    delivered: bool,    // its mailbox took the fence
    ran: bool)          // the fence callback has run

  datatype Fence = Fence(
    published: bool,        // the registry can still hand the inbox out
    reactors: seq<Reactor>,
    sent: nat,              // reactors 0..sent have been dealt with
    remaining: int,
    fired: nat,             // triggers of the done event
    resumed: bool)          // the worker is past the fence; the inbox may be freed

  datatype Event =
    | BeginDispatch(i: nat)
    | EndDispatch(i: nat)
    | Retire
    | SendFence(taken: bool)   // to reactor number `sent`; not taken: full mailbox or gone
    | RunFence(i: nat)
    | Resume

  function Initial(n: nat): Fence
  {
    Fence(true, seq(n, i => Reactor(false, false, false, false)), 0, n, 0, false)
  }

  // The atomic decrement both sides use; the one that takes 1 away from 1 triggers.
  function Arrive(f: Fence): Fence
  {
    f.(remaining := f.remaining - 1, fired := if f.remaining == 1 then f.fired + 1 else f.fired)
  }

  predicate Enabled(f: Fence, e: Event)
  {
    match e
    case BeginDispatch(i) => i < |f.reactors| && f.published && !f.reactors[i].holding
    case EndDispatch(i) => i < |f.reactors| && f.reactors[i].holding
    case Retire => f.published
    case SendFence(_) => !f.published && f.sent < |f.reactors|
    case RunFence(i) =>
      i < |f.reactors| && f.reactors[i].delivered && !f.reactors[i].ran && !f.reactors[i].holding
    // the worker resumes on the trigger, after its posting loop
    case Resume => f.sent == |f.reactors| && f.fired > 0 && !f.resumed
  }

  function SetReactor(f: Fence, i: nat, r: Reactor): Fence
    requires i < |f.reactors|
  {
    f.(reactors := f.reactors[i := r])
  }

  function Next(f: Fence, e: Event): Fence
    requires Enabled(f, e)
  {
    match e
    case BeginDispatch(i) => SetReactor(f, i, f.reactors[i].(holding := true))
    case EndDispatch(i) => SetReactor(f, i, f.reactors[i].(holding := false))
    case Retire => f.(published := false)
    case SendFence(taken) =>
      var g := SetReactor(f, f.sent, f.reactors[f.sent].(sent := true, delivered := taken)).(sent := f.sent + 1);
      if taken then g else Arrive(g)
    case RunFence(i) => Arrive(SetReactor(f, i, f.reactors[i].(ran := true)))
    case Resume => f.(resumed := true)
  }

  function Run(n: nat, events: seq<Event>): Option<Fence>
  {
    if events == [] then Some(Initial(n))
    else
      var before := Run(n, events[..|events| - 1]);
      var e := events[|events| - 1];
      if before.Some? && Enabled(before.value, e) then Some(Next(before.value, e)) else None
  }

  // Fences not accounted for yet: not sent, or taken by a mailbox and not run.
  predicate Open(r: Reactor) { !r.sent || (r.delivered && !r.ran) }

  function OpenCount(rs: seq<Reactor>): nat
  {
    if rs == [] then 0 else OpenCount(rs[..|rs| - 1]) + (if Open(rs[|rs| - 1]) then 1 else 0)
  }

  ghost predicate Sound(f: Fence, i: nat, r: Reactor)
  {
    && (r.sent <==> i < f.sent)
    && (r.delivered ==> r.sent)
    && (r.ran ==> r.delivered)
    && (r.sent ==> !f.published)
    && (r.ran ==> !r.holding)
  }

  ghost predicate Inv(f: Fence)
  {
    && f.sent <= |f.reactors|
    && (forall i :: 0 <= i < |f.reactors| ==> Sound(f, i, f.reactors[i]))
    && f.remaining == OpenCount(f.reactors)
    && f.fired == (if f.remaining == 0 && |f.reactors| > 0 then 1 else 0)
    && (f.resumed ==> f.fired == 1)
  }

  lemma {:induction false} OpenUpdate(rs: seq<Reactor>, i: nat, r: Reactor)
    requires i < |rs|
    ensures OpenCount(rs[i := r]) == OpenCount(rs) - (if Open(rs[i]) then 1 else 0) + (if Open(r) then 1 else 0)
    ensures Open(rs[i]) ==> OpenCount(rs) > 0
  {
    var n := |rs| - 1;
    if i == n {
      assert rs[i := r][..n] == rs[..n];
    } else {
      assert rs[i := r][..n] == rs[..n][i := r];
      OpenUpdate(rs[..n], i, r);
    }
  }

  lemma {:induction false} AllOpen(n: nat)
    ensures OpenCount(Initial(n).reactors) == n
  {
    if n > 0 {
      assert Initial(n).reactors[..n - 1] == Initial(n - 1).reactors;
      AllOpen(n - 1);
    }
  }

  lemma {:induction false} StepKeeps(f: Fence, e: Event)
    requires Inv(f) && Enabled(f, e)
    ensures Inv(Next(f, e))
  {
    var g := Next(f, e);
    var k := match e
      case BeginDispatch(i) => i
      case EndDispatch(i) => i
      case SendFence(_) => f.sent
      case RunFence(i) => i
      case _ => 0;
    if k < |f.reactors| {
      assert Sound(f, k, f.reactors[k]);
      OpenUpdate(f.reactors, k, g.reactors[k]);
      assert f.reactors[k := g.reactors[k]] == g.reactors;
    }
    forall i | 0 <= i < |g.reactors|
      ensures Sound(g, i, g.reactors[i])
    {
      assert Sound(f, i, f.reactors[i]);
    }
  }

  lemma {:induction false} RunKeeps(n: nat, events: seq<Event>)
    requires Run(n, events).Some?
    ensures Inv(Run(n, events).value) && |Run(n, events).value.reactors| == n
  {
    if events == [] {
      AllOpen(n);
    } else {
      RunKeeps(n, events[..|events| - 1]);
      StepKeeps(Run(n, events[..|events| - 1]).value, events[|events| - 1]);
    }
  }

  lemma {:induction false} OpenMember(rs: seq<Reactor>, i: nat)
    requires i < |rs| && Open(rs[i])
    ensures OpenCount(rs) > 0
  {
    if i < |rs| - 1 {
      OpenMember(rs[..|rs| - 1], i);
    }
  }

  lemma {:induction false} NoneOpen(rs: seq<Reactor>)
    requires forall r :: r in rs ==> !Open(r)
    ensures OpenCount(rs) == 0
  {
    if rs != [] {
      NoneOpen(rs[..|rs| - 1]);
    }
  }

  // For any mix of delivered and undeliverable posts the done event is triggered at most
  // once, and exactly when every fence has run or was taken over by the worker.
  lemma {:induction false} TriggersExactlyOnce(n: nat, events: seq<Event>)
    requires n > 0 && Run(n, events).Some?
    ensures var f := Run(n, events).value;
            && f.fired <= 1
            && (f.fired == 1 <==> forall r :: r in f.reactors ==> !Open(r))
  {
    RunKeeps(n, events);
    var f := Run(n, events).value;
    if f.fired == 1 {
      forall r | r in f.reactors
        ensures !Open(r)
      {
        var i :| 0 <= i < |f.reactors| && f.reactors[i] == r;
        if Open(r) {
          OpenMember(f.reactors, i);
        }
      }
    }
    if forall r :: r in f.reactors ==> !Open(r) {
      NoneOpen(f.reactors);
    }
  }

  // Once the worker is past the fence, a reactor whose mailbox took it does not hold the
  // retired inbox and cannot obtain it, and no fence is left that would touch the freed
  // bookkeeping; with every post taken, that is every reactor.
  lemma {:induction false} InboxExcluded(n: nat, events: seq<Event>, i: nat)
    requires n > 0 && Run(n, events).Some? && Run(n, events).value.resumed
    requires i < |Run(n, events).value.reactors| && Run(n, events).value.reactors[i].delivered
    ensures var f := Run(n, events).value;
            && !f.reactors[i].holding
            && !Enabled(f, BeginDispatch(i))
            && !Enabled(f, RunFence(i))
  {
    RunKeeps(n, events);
    TriggersExactlyOnce(n, events);
    var f := Run(n, events).value;
    assert Sound(f, i, f.reactors[i]) && f.reactors[i] in f.reactors;
  }

  lemma {:induction false} AllDelivered(n: nat, events: seq<Event>, i: nat)
    requires Run(n, events).Some? && SendFence(false) !in events
    requires i < |Run(n, events).value.reactors| && Run(n, events).value.reactors[i].sent
    ensures Run(n, events).value.reactors[i].delivered
  {
    if events != [] {
      var init, e := events[..|events| - 1], events[|events| - 1];
      var f := Run(n, init).value;
      assert e in events && |f.reactors| == |Next(f, e).reactors|;
      if f.reactors[i].sent {
        RunKeeps(n, init);
        assert Sound(f, i, f.reactors[i]);
        AllDelivered(n, init, i);
      }
    }
  }

  // The whole promise: all posts taken and the worker resumed on the trigger, so nobody
  // holds the inbox and nobody can get it, now or in any later state of the run.
  lemma {:induction false} InboxQuiesced(n: nat, events: seq<Event>)
    requires n > 0 && Run(n, events).Some? && Run(n, events).value.resumed
    requires SendFence(false) !in events
    ensures var f := Run(n, events).value;
            !f.published && forall i :: 0 <= i < |f.reactors| ==> !f.reactors[i].holding
  {
    RunKeeps(n, events);
    TriggersExactlyOnce(n, events);
    var f := Run(n, events).value;
    forall i | 0 <= i < |f.reactors|
      ensures !f.reactors[i].holding && !f.published
    {
      assert f.reactors[i] in f.reactors && Sound(f, i, f.reactors[i]);
      AllDelivered(n, events, i);
      InboxExcluded(n, events, i);
    }
    assert Sound(f, 0, f.reactors[0]);
  }

  // Delivery is needed: a reactor whose full mailbox refused the fence can still be inside
  // its dispatch when the worker goes on.
  const STRAY := [BeginDispatch(0), Retire, SendFence(false), Resume]

  lemma {:induction false} UndeliverableFenceExcludesNothing()
    ensures Run(1, STRAY).Some?
    ensures Run(1, STRAY).value.resumed && Run(1, STRAY).value.reactors[0].holding
  {
    var s1, s2, s3 := STRAY[..1], STRAY[..2], STRAY[..3];
    assert s1[..0] == [] && s2[..1] == s1 && s3[..2] == s2 && STRAY[..3] == s3;
    assert Run(1, []) == Some(Initial(1));
    var f1 := Fence(true, [Reactor(true, false, false, false)], 0, 1, 0, false);
    assert Initial(1).reactors == [Reactor(false, false, false, false)];
    assert Initial(1).reactors[0 := f1.reactors[0]] == f1.reactors;
    assert Run(1, s1) == Some(f1);
    assert Run(1, s2) == Some(f1.(published := false));
    assert f1.reactors[0 := Reactor(true, true, false, false)] == [Reactor(true, true, false, false)];
    assert Run(1, s3) == Some(Fence(false, [Reactor(true, true, false, false)], 1, 0, 1, false));
  }
}
