// The file-delivery engine: one asynchronous state from send_file() through the deferred
// tick and the protocol operation to its end (src/send_file.c:52-80, 162-240, 507-763).
// A NULL callback is a callback that does nothing.
module FileEngine {
  import opened Common
  import opened FileResponse

  datatype Result = Passthrough | Handled | Async

  // What the caller can observe, in order: its callbacks, and the engine state going away.
  datatype Note = Armed | Freed | Done(status: int) | PassedThrough

  // What the surroundings do while send_file() runs.
  datatype Setup = Setup(
    badArguments: bool, noOperation: bool, openFails: bool, cached: bool, statFails: bool,
    handleFails: bool, timerFails: bool)

  // The protocol operation, by its contract: it completes exactly once if and only if it
  // returned 0, perhaps before returning. It may refuse at once, or late, when submitting the
  // head fails.
  datatype Operation = Gone | Refuses(late: bool) | CompletesNow(status: int) | CompletesLater

  // A late refusal after which the file is closed although the engine has it back: HTTP/2 and
  // HTTP/3 dispose of a file they need not send before they submit the head
  // (src/http2/http2_static_response.c:839-880, src/http3/http3_static_response.c:583-600).
  predicate Spoils(protocol: Protocol, h: Handover, op: Operation)
  {
    op == Refuses(true) && !protocol.Http1? && h.withFile && h.headOnly
  }

  predicate Accepts(op: Operation) { op.CompletesNow? || op.CompletesLater? }

  // Whether the answer keeps the open file but asks only for the head.
  predicate HeadWithFile(req: Request, plan: Plan, f: File)
  {
    plan.NotModified? || ((plan.Partial? || plan.Whole?) && (req.isHead || |f.content| == 0))
  }

  // What a run puts on the wire.
  datatype Reply = Reply(status: int, body: string)

  // What an answer puts on the wire, when the operation accepts it.
  function ReplyOf(protocol: Protocol, cfg: Config, body: string, req: Request, plan: Plan, f: File, slurps: bool): Reply
  {
    Reply(StatusOf(cfg, plan), SentFor(protocol, cfg, body, req, plan, f, slurps))
  }

  // What the tick answers: the planned error, or what the request and the file call for.
  ghost function Chosen(error: Option<Plan>, cfg: Config, req: Request, f: File, other: int): Plan
  {
    if error.Some? then error.value else PlanOf(cfg, req, f, other)
  }

  // What outlives the engine state: descriptors opened, closed and closed behind the engine's
  // back, and the operation in flight, which says whether it owns a file.
  class World {
    const protocol: Protocol
    var opens: nat
    var closes: nat
    var spoilt: nat
    var notes: seq<Note>
    var unlinked: bool
    var flight: Option<bool>

    constructor (protocol: Protocol)
      ensures this.protocol == protocol
      ensures opens == 0 && closes == 0 && spoilt == 0 && notes == [] && !unlinked && flight == None
    {
      this.protocol := protocol;
      opens, closes, spoilt, notes, unlinked, flight := 0, 0, 0, [], false, None;
    }
  }

  function One(b: bool): nat { if b then 1 else 0 }

  class Engine {
    const world: World
    const response: Response
    const cfg: Config
    const deletes: bool

    var alive: bool            // allocated; every method that reads the state demands it
    var armed: bool
    var timer: bool            // the one-shot tick is scheduled
    var fileIo: bool           // the engine owns an open file
    var error: Option<Plan>    // an error to emit on the tick

    constructor (world: World, response: Response, cfg: Config, deletes: bool)
      ensures alive && !armed && !timer && !fileIo && error == None
      ensures this.world == world && this.response == response && this.cfg == cfg && this.deletes == deletes
    {
      this.world, this.response, this.cfg, this.deletes := world, response, cfg, deletes;
      alive, armed, timer, fileIo, error := true, false, false, false, None;
    }

    // Every open descriptor has one owner, the engine or the operation in flight, and a spoilt
    // one is closed twice.
    ghost predicate Owned()
      reads this, world
    {
      world.opens + world.spoilt == world.closes + One(fileIo) + One(world.flight == Some(true))
    }

    ghost predicate Scripted()
      reads this
    {
      error.Some? ==> IsError(error.value)
    }

    // Armed and waiting for its tick or deciding; nothing handed over yet.
    ghost predicate Ready()
      reads this, world
    {
      alive && armed && Owned() && Scripted() && world.flight == None
    }

    // Waiting for the operation.
    ghost predicate Waiting()
      reads this, world
    {
      alive && armed && Owned() && Scripted() && !timer && !fileIo && world.flight.Some?
    }

    // Gone: freed, with every descriptor closed once, or twice if spoilt.
    ghost predicate Over()
      reads this, world
    {
      !alive && !timer && !fileIo && world.flight == None && world.opens + world.spoilt == world.closes
    }

    method DeferCleanup()
      requires alive
      modifies this`timer
      ensures !timer
    {
      timer := false;
    }

    method CloseFile()
      requires alive && fileIo
      modifies this`fileIo, world`closes
      ensures !fileIo && world.closes == old(world.closes) + 1
    {
      world.closes := world.closes + 1;
      fileIo := false;
    }

    method Finalize(status: int)
      requires Ready()
      modifies this, world
      ensures Over() && world.opens == old(world.opens) && world.spoilt == old(world.spoilt)
      ensures world.notes == old(world.notes) + [Freed, Done(status)]
      ensures world.unlinked == (old(world.unlinked) || (deletes && status == 0))
    {
      DeferCleanup();
      if fileIo {
        CloseFile();
      }
      if deletes && status == 0 {
        world.unlinked := true;
      }
      var wasArmed := armed;
      alive := false;
      world.notes := world.notes + [Freed];
      if wasArmed {
        world.notes := world.notes + [Done(status)];
      }
    }

    // The operation. It owns the file from here on, unless it refuses.
    method SendStatic(h: Handover, op: Operation) returns (rc: int)
      requires alive && armed && Scripted() && !timer && !fileIo && world.flight == None && !op.Gone?
      requires world.opens + world.spoilt == world.closes + One(h.withFile)
      modifies this, world
      ensures world.opens == old(world.opens) && world.spoilt == old(world.spoilt) + One(Spoils(world.protocol, h, op))
      ensures rc == 0 <==> !op.Refuses?
      ensures op.Refuses? ==> unchanged(this) && world.flight == None && world.notes == old(world.notes)
                              && world.unlinked == old(world.unlinked)
                              && world.closes == old(world.closes) + One(Spoils(world.protocol, h, op))
      ensures op.CompletesLater? ==> Waiting() && world.flight == Some(h.withFile) && world.notes == old(world.notes)
                                     && world.unlinked == old(world.unlinked)
      ensures op.CompletesNow? ==> Over() && world.notes == old(world.notes) + [Freed, Done(op.status)]
                                   && world.unlinked == (old(world.unlinked) || (deletes && op.status == 0))
    {
      match op
      case Refuses(late) =>
        if late && h.withFile && h.headOnly && !world.protocol.Http1? {
          world.closes, world.spoilt := world.closes + 1, world.spoilt + 1;
        }
        rc := -1;
      case CompletesLater =>
        world.flight := Some(h.withFile);
        rc := 0;
      case CompletesNow(status) =>
        if h.withFile {
          world.closes := world.closes + 1;
        }
        Finalize(status);
        rc := 0;
    }

    // An operation that was in flight completes: it disposes of its file and calls back.
    method Complete(status: int)
      requires Waiting()
      modifies this, world
      ensures Over() && world.opens == old(world.opens) && world.spoilt == old(world.spoilt)
      ensures world.notes == old(world.notes) + [Freed, Done(status)]
      ensures world.unlinked == (old(world.unlinked) || (deletes && status == 0))
    {
      if world.flight == Some(true) {
        world.closes := world.closes + 1;
      }
      world.flight := None;
      Finalize(status);
    }

    // Hands the response over, with the engine's file or without it. Once this answers true
    // the state may be gone, so nothing after it may touch the state.
    method Delegate(h: Handover, op: Operation) returns (accepted: bool)
      requires Ready() && !timer && (h.withFile ==> fileIo)
      modifies this, world
      ensures world.opens == old(world.opens) && world.spoilt == old(world.spoilt) + One(Spoils(world.protocol, h, op))
      ensures accepted <==> op.CompletesNow? || op.CompletesLater?
      ensures !accepted ==> Ready() && !timer && world.notes == old(world.notes)
                            && world.unlinked == old(world.unlinked)
      ensures op.CompletesLater? ==> Waiting() && world.flight == Some(h.withFile) && world.notes == old(world.notes)
                                     && world.unlinked == old(world.unlinked)
      ensures op.CompletesNow? ==> Over() && world.notes == old(world.notes) + [Freed, Done(op.status)]
                                   && world.unlinked == (old(world.unlinked) || (deletes && op.status == 0))
    {
      if op.Gone? {
        return false;
      }
      if !h.withFile && fileIo {
        CloseFile();
      }
      fileIo := false;
      var rc := SendStatic(h, op);
      if rc != 0 {
        fileIo := h.withFile;
        return false;
      }
      return true;
    }

    // Hands over, and ends the run when that is refused.
    method DelegateOrEnd(h: Handover, op: Operation)
      requires Ready() && !timer && (h.withFile ==> fileIo)
      modifies this, world
      ensures world.opens == old(world.opens) && world.spoilt == old(world.spoilt) + One(Spoils(world.protocol, h, op))
      ensures TickOutcome(op, old(world.notes), old(world.unlinked))
    {
      var accepted := Delegate(h, op);
      if !accepted {
        Finalize(-1);
      }
    }

    // How a tick leaves things, given what the operation did.
    ghost predicate TickOutcome(op: Operation, notes: seq<Note>, unlinked: bool)
      reads this, world
    {
      if op.CompletesLater? then
        Waiting() && world.notes == notes && world.unlinked == unlinked
      else
        var status := if op.CompletesNow? then op.status else -1;
        Over() && world.notes == notes + [Freed, Done(status)] && world.unlinked == (unlinked || (deletes && status == 0))
    }

    // The tick of the deferred timer: the planned error, or the file.
    method DeferDispatch(req: Request, f: File, other: int, keepAlive: bool, slurps: bool, op: Operation)
      returns (h: Handover)
      requires Ready() && timer && (error.None? ==> fileIo) && Sizeable(f)
      modifies this, world, response
      ensures world.opens == old(world.opens) && world.spoilt == old(world.spoilt) + One(Spoils(world.protocol, h, op))
      ensures TickOutcome(op, old(world.notes), old(world.unlinked))
      ensures var plan := Chosen(old(error), cfg, req, f, other);
              && response.status == StatusOf(cfg, plan)
              && response.headers == HeadersOf(old(response.headers), cfg, plan, f, keepAlive)
              && response.body == BodyOf(old(response.body), req, plan, f, slurps)
              && h == HandoverOf(req, plan, f, slurps)
    {
      DeferCleanup();
      if error.Some? {
        var plan := error.value;
        response.EmitError(plan.status, plan.text, keepAlive);
        h := Handover(false, 0, 0, true);
      } else {
        var plan := Decide(cfg, req, f, other);
        Planned(cfg, req, f, other);
        h := response.Fill(cfg, req, plan, f, keepAlive, slurps);
      }
      DelegateOrEnd(h, op);
    }

    // The tick as seen on the wire.
    method Tick(req: Request, f: File, other: int, keepAlive: bool, slurps: bool, op: Operation) returns (reply: Option<Reply>)
      requires Ready() && timer && (error.None? ==> fileIo) && Sizeable(f)
      modifies this, world, response
      ensures world.opens == old(world.opens) && TickOutcome(op, old(world.notes), old(world.unlinked))
      ensures var plan := Chosen(old(error), cfg, req, f, other);
              && reply == (if Accepts(op) then Some(ReplyOf(world.protocol, cfg, old(response.body), req, plan, f, slurps)) else None)
              && world.spoilt == old(world.spoilt)
                                 + One(op == Refuses(true) && !world.protocol.Http1? && HeadWithFile(req, plan, f))
    {
      var h := DeferDispatch(req, f, other, keepAlive, slurps, op);
      if Accepts(op) {
        var body := Sent(world.protocol, response.status, req.isHead, response.body, h, f.content);
        return Some(Reply(response.status, body));
      }
      return None;
    }

    // The tick and, if the operation is then in flight, its completion.
    method Drive(req: Request, f: File, other: int, keepAlive: bool, slurps: bool, op: Operation, later: int)
      returns (reply: Option<Reply>, ticked: seq<Note>)
      requires Ready() && timer && (error.None? ==> fileIo) && Sizeable(f)
      modifies this, world, response
      ensures Over() && world.opens == old(world.opens)
      ensures var status := if op.CompletesLater? then later else if op.CompletesNow? then op.status else -1;
              && world.notes == old(world.notes) + [Freed, Done(status)]
              && world.unlinked == (old(world.unlinked) || (deletes && status == 0))
      ensures ticked == if op.CompletesLater? then old(world.notes) else world.notes
      ensures var plan := Chosen(old(error), cfg, req, f, other);
              && reply == (if Accepts(op) then Some(ReplyOf(world.protocol, cfg, old(response.body), req, plan, f, slurps)) else None)
              && world.spoilt == old(world.spoilt)
                                 + One(op == Refuses(true) && !world.protocol.Http1? && HeadWithFile(req, plan, f))
    {
      reply := Tick(req, f, other, keepAlive, slurps, op);
      ticked := world.notes;
      if op.CompletesLater? {
        Complete(later);
      }
    }

    method DeferSchedule(fails: bool) returns (ok: bool)
      requires alive
      modifies this`timer
      ensures ok == !fails && timer == (ok || old(timer))
    {
      if fails {
        return false;
      }
      timer := true;
      return true;
    }

    method Arm()
      requires alive
      modifies this`armed, world`notes
      ensures armed && world.notes == old(world.notes) + [Armed]
    {
      world.notes := world.notes + [Armed];
      armed := true;
    }

    // Arms and schedules the tick; without a tick the run ends at once.
    method ArmAndSchedule(plan: Option<Plan>, timerFails: bool)
      requires alive && !armed && !timer && Owned() && world.flight == None
      requires plan.Some? ==> IsError(plan.value)
      modifies this, world
      ensures world.opens == old(world.opens) && world.spoilt == old(world.spoilt)
      ensures !timerFails ==> Ready() && timer && error == plan && fileIo == old(fileIo)
                              && world.notes == old(world.notes) + [Armed] && world.unlinked == old(world.unlinked)
      ensures timerFails ==> Over() && world.notes == old(world.notes) + [Armed, Freed, Done(-1)]
                             && world.unlinked == old(world.unlinked)
    {
      Arm();
      error := plan;
      var ok := DeferSchedule(timerFails);
      if !ok {
        Finalize(-1);
      }
    }

    // Only here is the state given up without on_done: nothing was armed yet.
    method HandleOpenFailure(timerFails: bool) returns (r: Result)
      requires alive && !armed && !timer && !fileIo && Owned() && world.flight == None
      modifies this, world
      ensures world.opens == old(world.opens) && world.spoilt == old(world.spoilt) && world.unlinked == old(world.unlinked)
      ensures r == if cfg.onError == PassthroughPhp then Passthrough else Async
      ensures r == Passthrough ==> Over() && world.notes == old(world.notes) + [Freed, PassedThrough]
      ensures r == Async ==> Started(timerFails, old(world.notes), Some(OpenError(cfg)))
    {
      if cfg.onError == PassthroughPhp {
        alive := false;
        world.notes := world.notes + [Freed];
        world.notes := world.notes + [PassedThrough];
        return Passthrough;
      }
      ArmAndSchedule(Some(OpenError(cfg)), timerFails);
      return Async;
    }

    // How an asynchronous send_file() leaves the engine.
    ghost predicate Started(timerFails: bool, notes: seq<Note>, plan: Option<Plan>)
      reads this, world
    {
      if timerFails then Over() && world.notes == notes + [Armed, Freed, Done(-1)]
      else Ready() && timer && error == plan && (plan.None? ==> fileIo) && world.notes == notes + [Armed]
    }
  }

  function OpenError(cfg: Config): Plan
  {
    if cfg.onError == EmitViaOp then Broken(404, "Not Found") else Broken(500, "Internal Server Error")
  }

  // The error send_file() plans for its tick, if opening, examining or wrapping the file fails.
  function PlannedError(cfg: Config, setup: Setup): Option<Plan>
  {
    if setup.openFails then Some(OpenError(cfg))
    else if (!setup.cached && setup.statFails) || setup.handleFails then Some(Broken(500, "Internal Server Error"))
    else None
  }

  function ResultOf(cfg: Config, setup: Setup): Result
  {
    if setup.badArguments || setup.noOperation then Handled
    else if setup.openFails && cfg.onError == PassthroughPhp then Passthrough
    else Async
  }

  method SendFile(world: World, response: Response, cfg: Config, deletes: bool, setup: Setup) returns (r: Result, e: Engine?)
    requires world.opens + world.spoilt == world.closes && world.flight == None
    modifies world
    ensures r == ResultOf(cfg, setup) && (r == Handled <==> e == null) && (e != null ==> fresh(e))
    ensures world.unlinked == old(world.unlinked) && world.spoilt == old(world.spoilt)
    ensures e != null ==> e.world == world && e.response == response && e.cfg == cfg && e.deletes == deletes
    ensures r == Handled ==> unchanged(world)
    ensures r == Passthrough ==> e.Over() && world.opens == old(world.opens) && world.notes == old(world.notes) + [Freed, PassedThrough]
    ensures r == Async ==> e.Started(setup.timerFails, old(world.notes), PlannedError(cfg, setup))
    ensures r == Async ==> world.opens == old(world.opens) + One(!setup.openFails)
  {
    if setup.badArguments || setup.noOperation {
      return Handled, null;
    }
    e := new Engine(world, response, cfg, deletes);
    if setup.openFails {
      r := e.HandleOpenFailure(setup.timerFails);
      return;
    }
    world.opens := world.opens + 1;
    if !setup.cached && setup.statFails {
      world.closes := world.closes + 1;
      e.ArmAndSchedule(Some(Broken(500, "Internal Server Error")), setup.timerFails);
      return Async, e;
    }
    if setup.handleFails {
      world.closes := world.closes + 1;
      e.ArmAndSchedule(Some(Broken(500, "Internal Server Error")), setup.timerFails);
      return Async, e;
    }
    e.fileIo := true;
    e.ArmAndSchedule(None, setup.timerFails);
    return Async, e;
  }

  // A whole run, seen from outside: the notes after send_file() returned, after the tick and
  // after the operation completed, the reply the operation accepted, and the final accounts.
  datatype Trace = Trace(
    result: Result, sent: seq<Note>, ticked: seq<Note>, ended: seq<Note>, reply: Option<Reply>,
    opens: nat, closes: nat, unlinked: bool)

  // What a run answers, from the surroundings, the request and the file.
  ghost function Answer(cfg: Config, setup: Setup, req: Request, f: File, other: int): Plan
  {
    Chosen(PlannedError(cfg, setup), cfg, req, f, other)
  }

  lemma {:induction false} Answered(cfg: Config, setup: Setup, req: Request, f: File, other: int)
    ensures WellPlanned(Answer(cfg, setup, req, f, other), f)
  {
    Planned(cfg, req, f, other);
  }

  // The status a run reports: the operation's, or -1 when the run never reached one.
  function FinalStatus(setup: Setup, op: Operation, later: int): int
  {
    if setup.timerFails || op.Gone? || op.Refuses? then -1
    else if op.CompletesNow? then op.status
    else later
  }

  // Whether the run answers with a success: the file is opened, examined and regular, neither
  // unmodified nor asked for past its end, and its status is not overridden by another kind.
  ghost predicate Succeeds(cfg: Config, setup: Setup, req: Request, f: File, other: int)
  {
    && !setup.openFails && (setup.cached || !setup.statFails) && !setup.handleFails
    && f.regular && !Unchanged(cfg, req, f, other) && !RangeOutcome(cfg, req, f).NotSatisfiable?
    && (cfg.statusOverride == 0 || 200 <= cfg.statusOverride < 300)
  }

  // Whether an answer puts exactly the file on the wire: as a whole or as the range of all of
  // it, or because what goes out instead happens to be the same.
  predicate Delivers(protocol: Protocol, cfg: Config, body: string, req: Request, plan: Plan, f: File, slurps: bool)
  {
    if SendsFile(req, plan, f) then
      !Swallowed(protocol, cfg, req, plan, f, slurps) && (plan.Partial? ==> plan.first == 0 && plan.last + 1 == |f.content|)
    else Instead(protocol, cfg, body, req, plan) == f.content
  }

  // An answer delivers exactly when it sends exactly the file.
  lemma {:induction false} DeliversFile(protocol: Protocol, cfg: Config, body: string, req: Request, plan: Plan, f: File, slurps: bool)
    requires WellPlanned(plan, f)
    ensures SentFor(protocol, cfg, body, req, plan, f, slurps) == f.content
            <==> Delivers(protocol, cfg, body, req, plan, f, slurps)
  {
    BytesSent(protocol, cfg, body, req, plan, f, slurps);
    assert f.content[0..|f.content|] == f.content;
  }

  lemma {:induction false} SuccessStatus(cfg: Config, setup: Setup, req: Request, f: File, other: int)
    ensures 200 <= StatusOf(cfg, Answer(cfg, setup, req, f, other)) < 300 <==> Succeeds(cfg, setup, req, f, other)
  {
  }

  // Exactly once, over every run: HANDLED calls nothing; PASSTHROUGH calls only
  // on_passthrough; ASYNC calls on_armed, then on_done once with the final status, the state
  // having been freed once just before. on_done comes inside send_file() exactly when the tick
  // cannot be scheduled. Every descriptor opened is closed exactly once, unless HTTP/2 or HTTP/3
  // refuses late a file of which only the head was asked for. The reply is that of the answer.
  method Serve(protocol: Protocol, cfg: Config, deletes: bool, setup: Setup, buffered: string, req: Request, f: File, other: int,
               keepAlive: bool, slurps: bool, op: Operation, later: int) returns (t: Trace)
    requires Sizeable(f)
    ensures t.result == ResultOf(cfg, setup)
    ensures t.result == Handled ==> t.ended == [] && t.opens == 0
    ensures t.result == Passthrough ==> t.sent == t.ended == [Freed, PassedThrough] && t.opens == 0
    ensures t.result == Async ==> t.ended == [Armed, Freed, Done(FinalStatus(setup, op, later))]
    ensures t.result == Async ==> t.sent == if setup.timerFails then t.ended else [Armed]
    ensures t.result == Async && !setup.timerFails ==> t.ticked == if op.CompletesLater? then [Armed] else t.ended
    ensures t.opens == One(t.result == Async && !setup.openFails)
    ensures t.closes == t.opens + One(t.result == Async && !setup.timerFails && op == Refuses(true) && !protocol.Http1?
                                      && HeadWithFile(req, Answer(cfg, setup, req, f, other), f))
    ensures t.reply == if t.result == Async && !setup.timerFails && Accepts(op)
                       then Some(ReplyOf(protocol, cfg, buffered, req, Answer(cfg, setup, req, f, other), f, slurps)) else None
    ensures t.unlinked <==> t.result == Async && deletes && FinalStatus(setup, op, later) == 0
  {
    var world := new World(protocol);
    var response := new Response(buffered);
    var r, e := SendFile(world, response, cfg, deletes, setup);
    var sent := world.notes;
    if r != Async || setup.timerFails {
      return Trace(r, sent, sent, sent, None, world.opens, world.closes, world.unlinked);
    }
    var reply, ticked := e.Drive(req, f, other, keepAlive, slurps, op, later);
    return Trace(r, sent, ticked, world.notes, reply, world.opens, world.closes, world.unlinked);
  }

  // A file is deleted exactly when the operation ended well: after a success or not, and after
  // it was sent or not, each with its exact condition.
  method ServeAndDelete(protocol: Protocol, cfg: Config, setup: Setup, buffered: string, req: Request, f: File, other: int,
                        keepAlive: bool, slurps: bool, op: Operation, later: int) returns (t: Trace)
    requires Sizeable(f)
    ensures t.unlinked <==> ResultOf(cfg, setup) == Async && FinalStatus(setup, op, later) == 0
    ensures t.unlinked ==> t.reply.Some?
    ensures t.unlinked ==> (200 <= t.reply.value.status < 300 <==> Succeeds(cfg, setup, req, f, other))
    ensures t.unlinked ==> (t.reply.value.body == f.content
                            <==> Delivers(protocol, cfg, buffered, req, Answer(cfg, setup, req, f, other), f, slurps))
  {
    t := Serve(protocol, cfg, true, setup, buffered, req, f, other, keepAlive, slurps, op, later);
    SuccessStatus(cfg, setup, req, f, other);
    Answered(cfg, setup, req, f, other);
    DeliversFile(protocol, cfg, buffered, req, Answer(cfg, setup, req, f, other), f, slurps);
  }

  const ALL_WELL := Setup(false, false, false, false, false, false, false)

  // Deleting after sending waits for the operation only, whatever the answer was: a HEAD request
  // answered well deletes a file of which nothing was sent, and so does an error.
  method DeletedAfterHead(protocol: Protocol, cfg: Config, f: File, other: int) returns (t: Trace)
    requires Sizeable(f) && f.regular
    ensures t.unlinked && t.reply.Some? && t.reply.value.body == ""
  {
    t := Serve(protocol, cfg, true, ALL_WELL, "", HEAD_REQUEST, f, other, true, true, CompletesNow(0), 0);
    Answered(cfg, ALL_WELL, HEAD_REQUEST, f, other);
    BytesSent(protocol, cfg, "", HEAD_REQUEST, Answer(cfg, ALL_WELL, HEAD_REQUEST, f, other), f, true);
  }

  method DeletedAfterError(protocol: Protocol, cfg: Config, req: Request, other: int) returns (t: Trace)
    ensures t.unlinked && t.reply.Some? && t.reply.value.status >= 400
  {
    t := Serve(protocol, cfg, true, ALL_WELL, "", req, DIRECTORY, other, true, true, CompletesNow(0), 0);
  }

  // A HEAD request over HTTP/2 whose head cannot be submitted closes its file twice.
  method ClosedTwice(cfg: Config, f: File, other: int) returns (t: Trace)
    requires Sizeable(f) && f.regular
    ensures t.opens == 1 && t.closes == 2
  {
    t := Serve(Http2, cfg, false, ALL_WELL, "", HEAD_REQUEST, f, other, true, true, Refuses(true), 0);
  }
}
