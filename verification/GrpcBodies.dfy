// What readMessage() returns on every request body, from a description of the bytes alone
// (src/grpc/grpc.c:232-283, src/grpc/grpc.h:34, src/http_request.c:365-484).
module GrpcBodies {
  import opened Common
  import opened BodyStream
  import opened GrpcReader

  // -------------------------------------------------------------------- bodies

  // The length a frame announces: four bytes, most significant first.
  function Announces(bytes: seq<byte>): nat
    requires |bytes| >= 5
  {
    ((bytes[1] as int * 256 + bytes[2] as int) * 256 + bytes[3] as int) * 256 + bytes[4] as int
  }

  // These bytes are this frame, of at most 16 MiB.
  predicate Spells(bytes: seq<byte>, f: Frame)
  {
    |bytes| == 5 + |f.payload| && bytes[0] == f.flag && Announces(bytes) == |f.payload| <= 16_777_216 && bytes[5..] == f.payload
  }

  // The body is these frames followed by the rest.
  ghost predicate Carries(body: seq<byte>, frames: seq<Frame>, rest: seq<byte>)
    decreases |frames|
  {
    if frames == [] then body == rest
    else
      var n := 5 + |frames[0].payload|;
      n <= |body| && Spells(body[..n], frames[0]) && Carries(body[n..], frames[1..], rest)
  }

  predicate IsOversize(rest: seq<byte>) { |rest| >= 5 && Announces(rest) > 16_777_216 }

  predicate IsIncomplete(rest: seq<byte>) { |rest| < 5 || (!IsOversize(rest) && |rest| < 5 + Announces(rest)) }

  // Every body is frames followed by an incomplete frame, perhaps empty, or an oversize header.
  lemma {:induction false} EveryBodyCarries(body: seq<byte>) returns (frames: seq<Frame>, rest: seq<byte>)
    ensures Carries(body, frames, rest) && (IsOversize(rest) || IsIncomplete(rest))
    decreases |body|
  {
    if IsOversize(body) || IsIncomplete(body) {
      return [], body;
    }
    var n := 5 + Announces(body);
    var f := Frame(body[0], body[5..n]);
    var more, rest' := EveryBodyCarries(body[n..]);
    assert body[..n][5..] == f.payload && Spells(body[..n], f);
    frames, rest := [f] + more, rest';
    assert frames[1..] == more;
  }

  // ------------------------------------------------------------- buffered reads

  lemma {:induction false} LengthThere(body: seq<byte>, at: nat)
    requires at + 5 <= |body|
    ensures LengthAt(body, at) == Announces(body[at..])
  {
    var s := body[at..];
    assert s[1] == body[at + 1] && s[2] == body[at + 2] && s[3] == body[at + 3] && s[4] == body[at + 4];
  }

  lemma {:induction false} ReadsFrame(body: seq<byte>, at: nat, f: Frame)
    requires at <= |body| && 5 + |f.payload| <= |body[at..]| && Spells(body[at..][..5 + |f.payload|], f)
    ensures BufferedRead(body, at) == (at + 5 + |f.payload|, Message(f))
  {
    var n, s := 5 + |f.payload|, body[at..];
    LengthThere(body, at);
    assert s[..n][0] == body[at] && Announces(s[..n]) == Announces(s);
    assert body[at + 5..at + n] == s[..n][5..];
  }

  lemma {:induction false} ReadsRest(body: seq<byte>, at: nat)
    requires at <= |body| && (IsOversize(body[at..]) || IsIncomplete(body[at..]))
    ensures BufferedRead(body, at) == (at, if IsOversize(body[at..]) then Oversize else EndOfBody)
  {
    if at + 5 <= |body| {
      LengthThere(body, at);
    }
  }

  // What the i-th call is to return.
  function Returns(frames: seq<Frame>, rest: seq<byte>, i: nat): Outcome
  {
    if i < |frames| then Message(frames[i]) else if IsOversize(rest) then Oversize else EndOfBody
  }

  // Where the buffered reader stands after some calls, and what is left there.
  lemma {:induction false} Walk(body: seq<byte>, frames: seq<Frame>, rest: seq<byte>, calls: nat)
    requires Carries(body, frames, rest) && (IsOversize(rest) || IsIncomplete(rest))
    ensures var at := BufferedCursor(body, calls);
            var done := if calls < |frames| then calls else |frames|;
            at <= |body| && Carries(body[at..], frames[done..], rest)
    decreases calls
  {
    if calls == 0 {
      assert body[0..] == body && frames[0..] == frames;
    } else {
      Walk(body, frames, rest, calls - 1);
      if calls - 1 < |frames| {
        Advance(body, BufferedCursor(body, calls - 1), frames[calls - 1..], rest);
        assert frames[calls - 1..][1..] == frames[calls..];
      } else {
        ReadsRest(body, BufferedCursor(body, calls - 1));
      }
    }
  }

  // And what it reads there.
  lemma {:induction false} WalkReads(body: seq<byte>, frames: seq<Frame>, rest: seq<byte>, calls: nat)
    requires Carries(body, frames, rest) && (IsOversize(rest) || IsIncomplete(rest))
    ensures BufferedRead(body, BufferedCursor(body, calls)).1 == Returns(frames, rest, calls)
  {
    Walk(body, frames, rest, calls);
    var at := BufferedCursor(body, calls);
    if calls < |frames| {
      assert frames[calls..][0] == frames[calls];
      ReadsFrame(body, at, frames[calls]);
    } else {
      ReadsRest(body, at);
    }
  }

  lemma {:induction false} Advance(body: seq<byte>, at: nat, frames: seq<Frame>, rest: seq<byte>)
    requires at <= |body| && frames != [] && Carries(body[at..], frames, rest)
    ensures var next := BufferedRead(body, at).0;
            next <= |body| && Carries(body[next..], frames[1..], rest)
  {
    var n := 5 + |frames[0].payload|;
    ReadsFrame(body, at, frames[0]);
    assert body[at..][n..] == body[at + n..];
  }

  // One outcome per call, as it should be.
  predicate AllReturn(outcomes: seq<Outcome>, frames: seq<Frame>, rest: seq<byte>)
  {
    forall i :: 0 <= i < |outcomes| ==> outcomes[i] == Returns(frames, rest, i)
  }

  lemma {:induction false} OneMoreReturn(outcomes: seq<Outcome>, out: Outcome, frames: seq<Frame>, rest: seq<byte>)
    requires AllReturn(outcomes, frames, rest) && out == Returns(frames, rest, |outcomes|)
    ensures AllReturn(outcomes + [out], frames, rest)
  {
  }

  lemma {:induction false} Collect(body: seq<byte>, frames: seq<Frame>, rest: seq<byte>, calls: nat)
    requires forall c: nat :: c < calls ==> BufferedRead(body, BufferedCursor(body, c)).1 == Returns(frames, rest, c)
    ensures AllReturn(BufferedOutcomes(body, calls), frames, rest)
  {
    if calls > 0 {
      var c := calls - 1;
      Collect(body, frames, rest, c);
      BufferedNext(body, c);
      OneMoreReturn(BufferedOutcomes(body, c), BufferedRead(body, BufferedCursor(body, c)).1, frames, rest);
    }
  }

  lemma {:induction false} WalkAll(body: seq<byte>, frames: seq<Frame>, rest: seq<byte>, calls: nat)
    requires Carries(body, frames, rest) && (IsOversize(rest) || IsIncomplete(rest))
    ensures AllReturn(BufferedOutcomes(body, calls), frames, rest)
  {
    forall c: nat | c < calls
      ensures BufferedRead(body, BufferedCursor(body, c)).1 == Returns(frames, rest, c)
    {
      WalkReads(body, frames, rest, c);
    }
    Collect(body, frames, rest, calls);
  }

  // -------------------------------------------------------------- single calls

  // One call or wakeup, against the bytes pushed so far: a message or the size error as soon as
  // the bytes show it, and otherwise the end, the error or a suspension, as the stream stands.
  lemma {:induction false} AttemptOutcome(r: Reader, pushed: seq<byte>)
    requires Aligned(r, pushed)
    ensures match BufferedRead(pushed, r.dropped + r.offset).1
            case EndOfBody =>
              Attempt(r).1 == if !r.body.eof then Suspended else if r.body.error then BodyError else EndOfBody
            case out => Attempt(r).1 == out
    decreases |r.body.queue|
  {
    if DeframeNext(r.buf, r.offset).NeedMore? && r.body.queue != [] {
      AttemptPulls(r);
      PullAligned(r, pushed);
      AttemptOutcome(Pull(r), pushed);
    } else {
      SeesWhole(r, pushed, pushed);
    }
  }

  // ------------------------------------------------------------------ sessions

  // Nothing ended before the stream did.
  lemma {:induction false} EndsAtEof(precredited: nat, events: seq<Event>)
    requires Run(precredited, events).Some? && !Run(precredited, events).value.reader.body.eof
    ensures EndOfBody !in Run(precredited, events).value.outcomes
  {
    if events != [] {
      var front, e := events[..|events| - 1], events[|events| - 1];
      var s := Run(precredited, front).value;
      EofStays(s, e);
      EndsAtEof(precredited, front);
      ChunkingInvariance(precredited, front, s.pushed);
      CompactAligned(s.reader, s.pushed);
      AttemptOutcome(s.reader, s.pushed);
      AttemptOutcome(Compact(s.reader), s.pushed);
    }
  }

  // Every session, on every body, chunking and interleaving: call i returns frame i; the calls
  // after the frames return the size error exactly when the rest announces more than 16 MiB,
  // and otherwise null, which comes only once the stream is closed.
  lemma {:induction false} EveryBodyReads(precredited: nat, events: seq<Event>, frames: seq<Frame>, rest: seq<byte>)
    requires Run(precredited, events).Some?
    requires Carries(Run(precredited, events).value.pushed, frames, rest) && (IsOversize(rest) || IsIncomplete(rest))
    ensures var s := Run(precredited, events).value;
            && AllReturn(s.outcomes, frames, rest)
            && (|s.outcomes| > |frames| ==> IsOversize(rest) || s.reader.body.eof)
  {
    var s := Run(precredited, events).value;
    ChunkingInvariance(precredited, events, s.pushed);
    WalkAll(s.pushed, frames, rest, |s.outcomes|);
    if |s.outcomes| > |frames| && !s.reader.body.eof {
      EndsAtEof(precredited, events);
      assert s.outcomes[|frames|] in s.outcomes;
    }
  }

  lemma {:induction false} ReturnsEnd(frames: seq<Frame>, rest: seq<byte>, i: nat)
    requires IsOversize(rest) || IsIncomplete(rest)
    ensures Returns(frames, rest, i) == EndOfBody <==> i >= |frames| && IsIncomplete(rest)
  {
  }

  // And a call waits exactly when the frames are used up, the rest is incomplete and the stream
  // is open; so the size error comes at once, without a byte of the payload.
  lemma {:induction false} WaitsExactly(precredited: nat, events: seq<Event>, e: Event, frames: seq<Frame>, rest: seq<byte>)
    requires (e.Call? || e.Resume?) && Run(precredited, events + [e]).Some?
    requires Run(precredited, events).Some?
    requires Carries(Run(precredited, events).value.pushed, frames, rest) && (IsOversize(rest) || IsIncomplete(rest))
    ensures var s := Run(precredited, events).value;
            Run(precredited, events + [e]).value.inCall
            <==> |s.outcomes| >= |frames| && IsIncomplete(rest) && !s.reader.body.eof
  {
    var s := Run(precredited, events).value;
    var expected := Returns(frames, rest, |s.outcomes|);
    assert NextIs(s, expected) by {
      StandsAt(precredited, events, frames, rest);
    }
    ReturnsEnd(frames, rest, |s.outcomes|);
    RunStep(precredited, events, e);
    WaitsFrom(s, e, Next(s, e), expected);
  }

  // A session that stands where the bytes pushed so far show this outcome.
  ghost predicate NextIs(s: Session, expected: Outcome)
  {
    Aligned(s.reader, s.pushed) && BufferedRead(s.pushed, s.reader.dropped + s.reader.offset).1 == expected
  }

  lemma {:induction false} StandsAt(precredited: nat, events: seq<Event>, frames: seq<Frame>, rest: seq<byte>)
    requires Run(precredited, events).Some?
    requires Carries(Run(precredited, events).value.pushed, frames, rest) && (IsOversize(rest) || IsIncomplete(rest))
    ensures NextIs(Run(precredited, events).value, Returns(frames, rest, |Run(precredited, events).value.outcomes|))
  {
    var s := Run(precredited, events).value;
    var expected := Returns(frames, rest, |s.outcomes|);
    assert BufferedRead(s.pushed, BufferedCursor(s.pushed, |s.outcomes|)).1 == expected by {
      WalkReads(s.pushed, frames, rest, |s.outcomes|);
    }
    ChunkingInvariance(precredited, events, s.pushed);
    SyncedStands(s, expected);
  }

  lemma {:induction false} SyncedStands(s: Session, expected: Outcome)
    requires SessionInv(s, s.pushed) && BufferedRead(s.pushed, BufferedCursor(s.pushed, |s.outcomes|)).1 == expected
    ensures NextIs(s, expected)
  {
  }

  lemma {:induction false} RunStep(precredited: nat, events: seq<Event>, e: Event)
    requires Run(precredited, events + [e]).Some? && Run(precredited, events).Some?
    ensures Run(precredited, events + [e]).value == Next(Run(precredited, events).value, e)
  {
    assert (events + [e])[..|events + [e]| - 1] == events;
  }

  lemma {:induction false} AttemptWaits(r: Reader, pushed: seq<byte>, out: Outcome, expected: Outcome)
    requires Aligned(r, pushed) && expected == BufferedRead(pushed, r.dropped + r.offset).1 && out == Attempt(r).1
    ensures out == Suspended <==> expected == EndOfBody && !r.body.eof
  {
    AttemptOutcome(r, pushed);
  }

  lemma {:induction false} Judge(s: Session, result: (Reader, Outcome), waits: bool)
    requires result.1 == Suspended <==> waits
    ensures Deliver(s, result).inCall <==> waits
  {
  }

  // The same place of the body, reached from another buffer.
  ghost predicate SamePlace(s: Session, start: Reader)
  {
    && Aligned(start, s.pushed) && start.body == s.reader.body
    && start.dropped + start.offset == s.reader.dropped + s.reader.offset
  }

  lemma {:induction false} CompactPlace(s: Session, start: Reader)
    requires Aligned(s.reader, s.pushed) && start == Compact(s.reader)
    ensures SamePlace(s, start)
  {
    CompactAligned(s.reader, s.pushed);
  }

  lemma {:induction false} StartWaits(s: Session, start: Reader, out: Outcome, expected: Outcome)
    requires NextIs(s, expected) && SamePlace(s, start) && out == Attempt(start).1
    ensures out == Suspended <==> expected == EndOfBody && !s.reader.body.eof
  {
    AttemptWaits(start, s.pushed, out, expected);
  }

  lemma {:induction false} WaitsFrom(s: Session, e: Event, d: Session, expected: Outcome)
    requires (e.Call? || e.Resume?) && NextIs(s, expected) && d == Next(s, e)
    ensures d.inCall <==> expected == EndOfBody && !s.reader.body.eof
  {
    var waits := expected == EndOfBody && !s.reader.body.eof;
    if e.Call? {
      CompactPlace(s, Compact(s.reader));
      StartWaits(s, Compact(s.reader), Attempt(Compact(s.reader)).1, expected);
      Judge(s, Attempt(Compact(s.reader)), waits);
    } else {
      StartWaits(s, s.reader, Attempt(s.reader).1, expected);
      Judge(s, Attempt(s.reader), waits);
    }
  }
}
