// gRPC messages out of a request body: the length-prefixed frame codec, the buffered
// reader and the streaming reader that reassembles frames from body chunks
// (src/http_request.c:323-484, src/grpc/grpc.c:140-148, 232-283).
module GrpcReader {
  import opened Common
  import opened BodyStream

  const MAX_MESSAGE: nat := 16 * 1024 * 1024

  // `flag` is the compressed flag byte; inflating a flagged payload happens afterwards.
  datatype Frame = Frame(flag: byte, payload: seq<byte>)

  // ---------------------------------------------------------------- frame codec

  function Header(flag: byte, len: nat): seq<byte>
  {
    [flag,
     (len / 0x100_0000 % 0x100) as byte, (len / 0x1_0000 % 0x100) as byte,
     (len / 0x100 % 0x100) as byte, (len % 0x100) as byte]
  }

  function FrameMessage(message: seq<byte>, compressed: bool): seq<byte>
  {
    Header(if compressed then 1 else 0, |message|) + message
  }

  function LengthAt(buf: seq<byte>, pos: nat): nat
    requires pos + 5 <= |buf|
  {
    buf[pos + 1] as int * 0x100_0000 + buf[pos + 2] as int * 0x1_0000
    + buf[pos + 3] as int * 0x100 + buf[pos + 4] as int
  }

  datatype Deframed = NeedMore | TooLong | Got(frame: Frame, next: nat)

  function DeframeNext(buf: seq<byte>, pos: nat): (d: Deframed)
    ensures d.Got? ==> pos + 5 <= d.next <= |buf| && d.next == pos + 5 + |d.frame.payload|
  {
    if pos + 5 > |buf| then NeedMore
    else
      var len := LengthAt(buf, pos);
      if len > MAX_MESSAGE then TooLong
      else if pos + 5 + len > |buf| then NeedMore
      else Got(Frame(buf[pos], buf[pos + 5..pos + 5 + len]), pos + 5 + len)
  }

  lemma {:induction false} SplitLength(len: nat)
    requires len < 0x1_0000_0000
    ensures len == len / 0x100_0000 % 0x100 * 0x100_0000 + len / 0x1_0000 % 0x100 * 0x1_0000
                 + len / 0x100 % 0x100 * 0x100 + len % 0x100
  {
    var a := len / 0x100;
    var b := a / 0x100;
    assert b == len / 0x1_0000;
    assert b / 0x100 == len / 0x100_0000;
  }

  // A frame written by writeMessage() is read back from wherever it sits in a body.
  lemma {:induction false} FrameRoundTrip(before: seq<byte>, message: seq<byte>, compressed: bool, rest: seq<byte>)
    requires |message| <= MAX_MESSAGE
    ensures DeframeNext(before + FrameMessage(message, compressed) + rest, |before|)
         == Got(Frame(if compressed then 1 else 0, message), |before + FrameMessage(message, compressed)|)
  {
    var framed := FrameMessage(message, compressed);
    var buf := before + framed + rest;
    SplitLength(|message|);
    assert forall i :: 0 <= i < 5 ==> buf[|before| + i] == framed[i];
    assert buf[|before| + 5..|before| + 5 + |message|] == message;
  }

  // Deframing looks only at the bytes of its own frame: seen through a window of the
  // body it says the same, unless it is still waiting for bytes past the window.
  lemma {:induction false} DeframeWindow(buf: seq<byte>, pos: nat, whole: seq<byte>, shift: nat)
    requires shift + |buf| <= |whole| && buf == whole[shift..shift + |buf|] && pos <= |buf|
    ensures match DeframeNext(buf, pos)
            case Got(frame, next) => DeframeNext(whole, shift + pos) == Got(frame, shift + next)
            case TooLong => DeframeNext(whole, shift + pos) == TooLong
            case NeedMore => shift + |buf| == |whole| ==> DeframeNext(whole, shift + pos) == NeedMore
  {
    if pos + 5 <= |buf| {
      assert buf[pos] == whole[shift + pos];
      assert LengthAt(buf, pos) == LengthAt(whole, shift + pos);
      var len := LengthAt(buf, pos);
      if pos + 5 + len <= |buf| {
        SliceOfSlice(whole, shift, |buf|, pos + 5, pos + 5 + len);
      }
    }
  }

  lemma {:induction false} SliceOfSlice(whole: seq<byte>, shift: nat, n: nat, i: nat, j: nat)
    requires shift + n <= |whole| && i <= j <= n
    ensures whole[shift..shift + n][i..j] == whole[shift + i..shift + j]
  {
    var a, b := whole[shift..shift + n][i..j], whole[shift + i..shift + j];
    assert forall k :: 0 <= k < j - i ==> a[k] == whole[shift + i + k] == b[k];
  }

  // ------------------------------------------------------------ buffered reading

  datatype Outcome = Message(frame: Frame) | EndOfBody | Oversize | BodyError | Suspended

  // One readMessage() over a fully received body: the cursor and what it returns.
  function BufferedRead(body: seq<byte>, cursor: nat): (r: (nat, Outcome))
  {
    match DeframeNext(body, cursor)
    case Got(frame, next) => (next, Message(frame))
    case TooLong => (cursor, Oversize)
    case NeedMore => (cursor, EndOfBody)
  }

  // The cursor after `calls` buffered reads from the start, and what they returned.
  function BufferedCursor(body: seq<byte>, calls: nat): nat
  {
    if calls == 0 then 0 else BufferedRead(body, BufferedCursor(body, calls - 1)).0
  }

  function BufferedOutcomes(body: seq<byte>, calls: nat): (r: seq<Outcome>)
    ensures |r| == calls
  {
    if calls == 0 then []
    else BufferedOutcomes(body, calls - 1) + [BufferedRead(body, BufferedCursor(body, calls - 1)).1]
  }

  // ----------------------------------------------------------- streaming reading

  datatype Reader = Reader(
    buf: seq<byte>,      // grpc_reassembly
    offset: nat,         // grpc_read_offset
    body: Body,
    dropped: nat,        // bytes compaction has dropped so far
    moved: nat)          // bytes compaction has moved so far

  // The prologue of a call: drop the consumed prefix once it dominates the buffer.
  function Compact(r: Reader): Reader
  {
    var total := |r.buf|;
    var remain := if r.offset < total then total - r.offset else 0;
    if r.offset == 0 then r
    else if remain == 0 then r.(buf := [], offset := 0, dropped := r.dropped + total)
    else if r.offset >= remain then
      r.(buf := r.buf[r.offset..], offset := 0, dropped := r.dropped + r.offset, moved := r.moved + remain)
    else r
  }

  function Pull(r: Reader): Reader
    requires r.body.queue != []
  {
    r.(buf := r.buf + r.body.queue[0], body := Popped(r.body))
  }

  // The loop of a call, from its start or from a wakeup, up to a return or a suspension.
  function Attempt(r: Reader): (Reader, Outcome)
    decreases |r.body.queue|
  {
    match DeframeNext(r.buf, r.offset)
    case Got(frame, next) => (r.(offset := next), Message(frame))
    case TooLong => (r, Oversize)
    case NeedMore =>
      if r.body.queue != [] then Attempt(Pull(r))
      else if r.body.eof then (r, if r.body.error then BodyError else EndOfBody)
      else (r, Suspended)
  }

  class Request {
    const stream: Stream
    var buffer: array<byte>      // grpc_reassembly: the first `length` bytes are in use
    var length: nat
    var offset: nat
    ghost var dropped: nat
    ghost var moved: nat

    ghost predicate Valid()
      reads this, buffer, stream, stream.queue, stream.queue.spine
    {
      stream.Valid() && length <= buffer.Length
    }

    ghost function Value(): Reader
      requires length <= buffer.Length
      reads this, buffer, stream, stream.queue
    {
      Reader(buffer[..length], offset, stream.Value(), dropped, moved)
    }

    constructor (stream: Stream)
      requires stream.Valid()
      ensures Valid() && this.stream == stream && fresh(buffer)
      ensures Value() == Reader([], 0, stream.Value(), 0, 0)
    {
      this.stream := stream;
      buffer := new byte[0];
      length, offset, dropped, moved := 0, 0, 0, 0;
    }

    // Moves the live bytes to the front of the buffer.
    method MoveDown(start: nat, count: nat)
      requires start + count <= buffer.Length
      modifies buffer
      ensures buffer[..count] == old(buffer[start..start + count])
    {
      ghost var before := buffer[..];
      for i := 0 to count
        invariant buffer[..i] == before[start..start + i] && buffer[i..] == before[i..]
      {
        assert buffer[start + i] == before[start + i];
        buffer[i] := buffer[start + i];
        assert buffer[..i + 1] == before[start..start + i + 1];
        assert buffer[i + 1..] == before[i + 1..];
      }
    }

    method CompactPrefix()
      requires Valid()
      modifies this, buffer
      ensures Valid() && buffer == old(buffer) && Value() == Compact(old(Value()))
    {
      if offset > 0 {
        var remain := if offset < length then length - offset else 0;
        if remain == 0 {
          dropped := dropped + length;
          length, offset := 0, 0;
        } else if offset >= remain {
          ghost var live := buffer[offset..length];
          assert live == buffer[..length][offset..];
          MoveDown(offset, remain);
          dropped, moved := dropped + offset, moved + remain;
          length, offset := remain, 0;
        }
      }
    }

    // Makes room for `more` bytes, in a larger buffer when there is none.
    method Reserve(more: nat)
      requires length <= buffer.Length
      modifies this`buffer
      ensures length + more <= buffer.Length && buffer[..length] == old(buffer[..length])
      ensures buffer == old(buffer) || fresh(buffer)
    {
      if length + more > buffer.Length {
        var full, larger := buffer, new byte[2 * (length + more)];
        for i := 0 to length
          modifies larger
          invariant forall k :: 0 <= k < i ==> larger[k] == full[k]
        {
          larger[i] := full[i];
        }
        buffer := larger;
        assert larger[..length] == full[..length];
      }
    }

    method Append(chunk: Chunk)
      requires length <= buffer.Length
      modifies this`buffer, this`length, buffer
      ensures length <= buffer.Length && buffer[..length] == old(buffer[..length]) + chunk
      ensures buffer == old(buffer) || fresh(buffer)
    {
      Reserve(|chunk|);
      ghost var before := buffer[..length];
      for i := 0 to |chunk|
        modifies buffer
        invariant buffer[..length] == before
        invariant forall k :: 0 <= k < i ==> buffer[length + k] == chunk[k]
      {
        buffer[length + i] := chunk[i];
      }
      assert buffer[..length + |chunk|] == before + chunk;
      length := length + |chunk|;
    }

    // Takes the oldest chunk into the buffer, if there is one.
    method PullChunk() returns (pulled: bool)
      requires Valid()
      modifies this`buffer, this`length, buffer, stream, stream.queue
      ensures Valid() && (buffer == old(buffer) || fresh(buffer))
      ensures pulled == (old(stream.queue.contents) != [])
      ensures !pulled ==> Value() == old(Value())
      ensures pulled ==> Value() == Pull(old(Value())) && |stream.queue.contents| < |old(stream.queue.contents)|
    {
      var chunk, _ := stream.Pop();
      if chunk.None? {
        return false;
      }
      Append(chunk.value);
      return true;
    }

    // readMessage() from its start (`resumed` false) or from a wakeup, up to the point
    // where it returns or suspends.
    method ReadMessage(resumed: bool) returns (out: Outcome)
      requires Valid()
      modifies this, buffer, stream, stream.queue
      ensures Valid() && (buffer == old(buffer) || fresh(buffer))
      ensures var start := if resumed then old(Value()) else Compact(old(Value()));
              (Value(), out) == Attempt(start)
    {
      if !resumed {
        CompactPrefix();
      }
      ghost var start := Value();
      while true
        invariant Valid() && (buffer == old(buffer) || fresh(buffer))
        invariant Attempt(Value()) == Attempt(start)
        decreases |stream.queue.contents|
      {
        var d := DeframeNext(buffer[..length], offset);
        if d.Got? {
          offset := d.next;
          return Message(d.frame);
        }
        if d.TooLong? {
          return Oversize;
        }
        var pulled := PullChunk();
        if pulled {
          continue;
        }
        if stream.eof {
          return if stream.error then BodyError else EndOfBody;
        }
        return Suspended;
      }
    }
  }

  // ------------------------------------------------------------- interleavings

  // The producer pushes chunks and closes; the handler calls readMessage(), and a call
  // that suspended is resumed by the data event.
  datatype Event = Push(data: Chunk) | Close | Call | Resume

  datatype Session = Session(
    reader: Reader,
    inCall: bool,
    pushed: seq<byte>,
    outcomes: seq<Outcome>)   // one per finished call

  predicate Possible(s: Session, e: Event)
  {
    match e
    case Push(_) => !s.reader.body.eof
    case Close => true
    case Call => !s.inCall
    case Resume => s.inCall
  }

  function Deliver(s: Session, result: (Reader, Outcome)): Session
  {
    if result.1 == Suspended then s.(reader := result.0, inCall := true)
    else s.(reader := result.0, inCall := false, outcomes := s.outcomes + [result.1])
  }

  function Next(s: Session, e: Event): Session
  {
    match e
    case Push(data) =>
      s.(reader := s.reader.(body := Pushed(s.reader.body, data, true)), pushed := s.pushed + data)
    case Close => s.(reader := s.reader.(body := s.reader.body.(eof := true)))
    case Call => Deliver(s, Attempt(Compact(s.reader)))
    case Resume => Deliver(s, Attempt(s.reader))
  }

  // A session without body errors, from the upgrade of a stream that was pre-credited.
  function Run(precredited: nat, events: seq<Event>): Option<Session>
  {
    if events == [] then
      Some(Session(Reader([], 0, Body([], 0, 0, precredited, false, false), 0, 0), false, [], []))
    else
      var before := Run(precredited, events[..|events| - 1]);
      var e := events[|events| - 1];
      if before.Some? && Possible(before.value, e) then Some(Next(before.value, e)) else None
  }

  // The reassembly buffer is a window of what was pushed, the queue is what follows it.
  ghost predicate Aligned(r: Reader, pushed: seq<byte>)
  {
    && r.offset <= |r.buf|
    && r.dropped + |r.buf| <= |pushed|
    && r.buf == pushed[r.dropped..r.dropped + |r.buf|]
    && Flat(r.body.queue) == pushed[r.dropped + |r.buf|..]
    && r.moved <= r.dropped
  }

  lemma {:induction false} CompactAligned(r: Reader, pushed: seq<byte>)
    requires Aligned(r, pushed)
    ensures Aligned(Compact(r), pushed)
    ensures Compact(r).dropped + Compact(r).offset == r.dropped + r.offset
    ensures Compact(r).body == r.body
  {
    var c := Compact(r);
    assert c.buf == r.buf[c.dropped - r.dropped..];
    assert c.buf == pushed[c.dropped..c.dropped + |c.buf|];
  }

  lemma {:induction false} PullAligned(r: Reader, pushed: seq<byte>)
    requires Aligned(r, pushed) && r.body.queue != []
    ensures Aligned(Pull(r), pushed)
  {
    var q := r.body.queue;
    var p := Pull(r);
    var tail := pushed[r.dropped + |r.buf|..];
    assert tail == q[0] + Flat(q[1..]);
    assert q[0] == tail[..|q[0]|] == pushed[r.dropped + |r.buf|..r.dropped + |p.buf|];
    assert p.buf == pushed[r.dropped..r.dropped + |p.buf|];
    assert Flat(q[1..]) == tail[|q[0]|..] == pushed[r.dropped + |p.buf|..];
  }

  lemma {:induction false} PushAligned(r: Reader, pushed: seq<byte>, data: Chunk)
    requires Aligned(r, pushed)
    ensures Aligned(r.(body := Pushed(r.body, data, true)), pushed + data)
  {
    FlatAppend(r.body.queue, [data]);
    assert Flat([data]) == data;
    var end := r.dropped + |r.buf|;
    assert (pushed + data)[r.dropped..end] == r.buf;
    assert (pushed + data)[end..] == pushed[end..] + data;
  }

  // `res` is what the loop made of `r`: still aligned, and unless it suspended, the place
  // and the outcome that were expected.
  ghost predicate Agrees(r: Reader, res: (Reader, Outcome), pushed: seq<byte>, expected: (nat, Outcome))
  {
    && Aligned(res.0, pushed)
    && res.0.body.eof == r.body.eof && res.0.body.error == r.body.error
    && (res.1 == Suspended ==> res.0.dropped + res.0.offset == r.dropped + r.offset)
    && (res.1 != Suspended ==> (res.0.dropped + res.0.offset, res.1) == expected)
  }

  // What the window shows, against what one buffered read of the whole body returns there.
  ghost predicate Foretells(r: Reader, d: Deframed, done: bool, expected: (nat, Outcome))
  {
    match d
    case Got(frame, next) => next <= |r.buf| && expected == (r.dropped + next, Message(frame))
    case TooLong => expected == (r.dropped + r.offset, Oversize)
    case NeedMore => done ==> expected == (r.dropped + r.offset, EndOfBody)
  }

  lemma {:induction false} SeesWhole(r: Reader, pushed: seq<byte>, whole: seq<byte>)
    requires Aligned(r, pushed) && pushed <= whole
    ensures Foretells(r, DeframeNext(r.buf, r.offset), r.body.queue == [] && pushed == whole,
                      BufferedRead(whole, r.dropped + r.offset))
  {
    SliceOfPrefix(pushed, whole, r.dropped, |r.buf|);
    DeframeWindow(r.buf, r.offset, whole, r.dropped);
  }

  lemma {:induction false} AttemptPulls(r: Reader)
    requires DeframeNext(r.buf, r.offset).NeedMore? && r.body.queue != []
    ensures Attempt(r) == Attempt(Pull(r))
    ensures Pull(r).dropped == r.dropped && Pull(r).offset == r.offset && |Pull(r).body.queue| < |r.body.queue|
    ensures Pull(r).body.eof == r.body.eof && Pull(r).body.error == r.body.error
  {
  }

  lemma {:induction false} AttemptAgrees(r: Reader, pushed: seq<byte>, whole: seq<byte>, expected: (nat, Outcome))
    requires Aligned(r, pushed) && pushed <= whole && (r.body.eof ==> pushed == whole) && !r.body.error
    requires expected == BufferedRead(whole, r.dropped + r.offset)
    ensures Agrees(r, Attempt(r), pushed, expected)
    decreases |r.body.queue|
  {
    if DeframeNext(r.buf, r.offset).NeedMore? && r.body.queue != [] {
      AttemptPulls(r);
      PullAligned(r, pushed);
      AttemptAgrees(Pull(r), pushed, whole, expected);
      AgreesPull(r, Attempt(Pull(r)), pushed, expected);
    } else {
      SeesWhole(r, pushed, whole);
      Immediate(r, pushed, pushed == whole, expected);
    }
  }

  lemma {:induction false} AgreesPull(r: Reader, res: (Reader, Outcome), pushed: seq<byte>, expected: (nat, Outcome))
    requires r.body.queue != [] && Agrees(Pull(r), res, pushed, expected)
    ensures Agrees(r, res, pushed, expected)
  {
  }

  lemma {:induction false} Immediate(r: Reader, pushed: seq<byte>, complete: bool, expected: (nat, Outcome))
    requires Aligned(r, pushed) && (r.body.eof ==> complete) && !r.body.error
    requires Foretells(r, DeframeNext(r.buf, r.offset), r.body.queue == [] && complete, expected)
    requires DeframeNext(r.buf, r.offset).NeedMore? ==> r.body.queue == []
    ensures Agrees(r, Attempt(r), pushed, expected)
  {
    var d := DeframeNext(r.buf, r.offset);
    if d.Got? {
      assert Attempt(r) == (r.(offset := d.next), Message(d.frame));
    }
  }

  lemma {:induction false} SliceOfPrefix(part: seq<byte>, whole: seq<byte>, shift: nat, n: nat)
    requires part <= whole && shift + n <= |part|
    ensures part[shift..shift + n] == whole[shift..shift + n]
  {
  }

  ghost predicate Synced(s: Session, cursor: nat, outcomes: seq<Outcome>)
  {
    && Aligned(s.reader, s.pushed)
    && !s.reader.body.error
    && s.reader.dropped + s.reader.offset == cursor
    && s.outcomes == outcomes
  }

  // The session stands where the buffered path would stand after as many calls.
  ghost predicate SessionInv(s: Session, whole: seq<byte>)
  {
    Synced(s, BufferedCursor(whole, |s.outcomes|), BufferedOutcomes(whole, |s.outcomes|))
  }

  lemma {:induction false} DeliverSynced(s: Session, start: Reader, res: (Reader, Outcome), expected: (nat, Outcome))
    requires Synced(s.(reader := start), start.dropped + start.offset, s.outcomes)
    requires Agrees(start, res, s.pushed, expected)
    ensures var d := Deliver(s, res);
            if res.1 == Suspended then Synced(d, start.dropped + start.offset, s.outcomes)
            else Synced(d, expected.0, s.outcomes + [expected.1])
  {
  }

  lemma {:induction false} BufferedNext(whole: seq<byte>, calls: nat)
    ensures var r := BufferedRead(whole, BufferedCursor(whole, calls));
            && BufferedCursor(whole, calls + 1) == r.0
            && BufferedOutcomes(whole, calls + 1) == BufferedOutcomes(whole, calls) + [r.1]
  {
  }

  lemma {:induction false} DeliverKeeps(s: Session, start: Reader, whole: seq<byte>)
    requires SessionInv(s.(reader := start), whole)
    requires s.pushed <= whole && (start.body.eof ==> s.pushed == whole)
    ensures SessionInv(Deliver(s, Attempt(start)), whole)
  {
    var cursor := BufferedCursor(whole, |s.outcomes|);
    assert start.dropped + start.offset == cursor;
    var expected := BufferedRead(whole, cursor);
    assert Agrees(start, Attempt(start), s.pushed, expected) by {
      AttemptAgrees(start, s.pushed, whole, expected);
    }
    BufferedNext(whole, |s.outcomes|);
    KeepsFrom(s, start, Attempt(start), expected, whole);
  }

  lemma {:induction false} KeepsFrom(s: Session, start: Reader, res: (Reader, Outcome), expected: (nat, Outcome), whole: seq<byte>)
    requires SessionInv(s.(reader := start), whole) && Agrees(start, res, s.pushed, expected)
    requires BufferedCursor(whole, |s.outcomes| + 1) == expected.0
    requires BufferedOutcomes(whole, |s.outcomes| + 1) == BufferedOutcomes(whole, |s.outcomes|) + [expected.1]
    ensures SessionInv(Deliver(s, res), whole)
  {
    DeliverSynced(s, start, res, expected);
  }

  lemma {:induction false} StepKeeps(s: Session, e: Event, whole: seq<byte>)
    requires SessionInv(s, whole) && Possible(s, e)
    requires Next(s, e).pushed <= whole
    requires Next(s, e).reader.body.eof ==> Next(s, e).pushed == whole
    requires s.reader.body.eof ==> s.pushed == whole
    ensures SessionInv(Next(s, e), whole)
  {
    match e
    case Push(data) =>
      PushAligned(s.reader, s.pushed, data);
    case Close =>
    case Call =>
      CompactAligned(s.reader, s.pushed);
      DeliverKeeps(s, Compact(s.reader), whole);
    case Resume =>
      DeliverKeeps(s, s.reader, whole);
  }

  lemma {:induction false} AttemptKeepsEof(r: Reader)
    ensures Attempt(r).0.body.eof == r.body.eof
    decreases |r.body.queue|
  {
    if DeframeNext(r.buf, r.offset).NeedMore? && r.body.queue != [] {
      AttemptKeepsEof(Pull(r));
    }
  }

  lemma {:induction false} EofStays(s: Session, e: Event)
    requires Possible(s, e)
    ensures s.pushed <= Next(s, e).pushed
    ensures s.reader.body.eof ==> Next(s, e).reader.body.eof && Next(s, e).pushed == s.pushed
  {
    AttemptKeepsEof(Compact(s.reader));
    AttemptKeepsEof(s.reader);
  }

  // Chunking invariance. However a body is cut into chunks and however pushes, calls and
  // wakeups interleave, the finished calls return, one for one, what the buffered path
  // returns on the whole body: the same messages, the same terminal null or size error.
  // `whole` is the body as it will be; once the stream is closed it is what was pushed.
  lemma {:induction false} ChunkingInvariance(precredited: nat, events: seq<Event>, whole: seq<byte>)
    requires Run(precredited, events).Some?
    requires Run(precredited, events).value.pushed <= whole
    requires Run(precredited, events).value.reader.body.eof ==> Run(precredited, events).value.pushed == whole
    ensures var s := Run(precredited, events).value;
            && s.outcomes == BufferedOutcomes(whole, |s.outcomes|)
            && SessionInv(s, whole)
  {
    if events == [] {
      assert Flat([]) == [];
    } else {
      var init, e := events[..|events| - 1], events[|events| - 1];
      var s := Run(precredited, init).value;
      EofStays(s, e);
      ChunkingInvariance(precredited, init, whole);
      StepKeeps(s, e, whole);
    }
  }

  // Compaction is cheap: over any session the bytes moved never exceed the bytes dropped,
  // which never exceed the body.
  lemma {:induction false} CompactionCost(precredited: nat, events: seq<Event>)
    requires Run(precredited, events).Some?
    ensures var s := Run(precredited, events).value;
            s.reader.moved <= s.reader.dropped <= |s.pushed|
  {
    ChunkingInvariance(precredited, events, Run(precredited, events).value.pushed);
  }

  // And it bounds the buffer: after the prologue the consumed prefix is empty or shorter
  // than the live remainder, so the buffer is under twice the live data.
  lemma {:induction false} CompactionBound(r: Reader)
    requires r.offset <= |r.buf|
    ensures var c := Compact(r);
            && c.offset <= |c.buf|
            && (c.offset == 0 || c.offset < |c.buf| - c.offset)
            && c.buf[c.offset..] == r.buf[r.offset..]
            && (c.offset > 0 ==> |c.buf| < 2 * (|c.buf| - c.offset))
  {
  }

  // ---------------------------------------------------------------- end to end

  function Framed(messages: seq<seq<byte>>): seq<byte>
  {
    if messages == [] then [] else Framed(messages[..|messages| - 1]) + FrameMessage(messages[|messages| - 1], false)
  }

  // What `calls` reads of such a body should return: the messages in order, then nulls.
  function Expected(messages: seq<seq<byte>>, calls: nat): (r: seq<Outcome>)
    ensures |r| == calls
  {
    seq(calls, i => if 0 <= i < |messages| then Message(Frame(0, messages[i])) else EndOfBody)
  }

  lemma {:induction false} ReadsOne(before: seq<byte>, message: seq<byte>, rest: seq<byte>)
    requires |message| <= MAX_MESSAGE
    ensures BufferedRead(before + FrameMessage(message, false) + rest, |before|)
         == (|before + FrameMessage(message, false)|, Message(Frame(0, message)))
  {
    FrameRoundTrip(before, message, false, rest);
  }

  lemma {:induction false} FramedSplit(messages: seq<seq<byte>>, rest: seq<byte>)
    requires messages != []
    ensures var init, framed := messages[..|messages| - 1], FrameMessage(messages[|messages| - 1], false);
            && Framed(messages) + rest == Framed(init) + (framed + rest)
            && Framed(messages) + rest == Framed(init) + framed + rest
            && Framed(messages) == Framed(init) + framed
  {
  }

  lemma {:induction false} ExpectedSnoc(messages: seq<seq<byte>>)
    requires messages != []
    ensures var init, last := messages[..|messages| - 1], messages[|messages| - 1];
            Expected(messages, |messages|) == Expected(init, |init|) + [Message(Frame(0, last))]
  {
  }

  lemma {:induction false} ExpectedMore(messages: seq<seq<byte>>, calls: nat)
    requires calls >= |messages|
    ensures Expected(messages, calls + 1) == Expected(messages, calls) + [EndOfBody]
  {
  }

  lemma {:induction false} ExpectedPrefix(messages: seq<seq<byte>>, few: nat, many: nat)
    requires few <= many
    ensures Expected(messages, many)[..few] == Expected(messages, few)
  {
  }

  // The first |messages| reads of a body that starts with these frames return them.
  lemma {:induction false} ReadsBack(messages: seq<seq<byte>>, rest: seq<byte>)
    requires forall m :: m in messages ==> |m| <= MAX_MESSAGE
    ensures BufferedCursor(Framed(messages) + rest, |messages|) == |Framed(messages)|
    ensures BufferedOutcomes(Framed(messages) + rest, |messages|) == Expected(messages, |messages|)
  {
    if messages != [] {
      var init, last := messages[..|messages| - 1], messages[|messages| - 1];
      var body := Framed(messages) + rest;
      FramedSplit(messages, rest);
      ReadsBack(init, FrameMessage(last, false) + rest);
      ReadsOne(Framed(init), last, rest);
      BufferedNext(body, |init|);
      ExpectedSnoc(messages);
    }
  }

  lemma {:induction false} PastEnd(body: seq<byte>)
    ensures BufferedRead(body, |body|) == (|body|, EndOfBody)
  {
  }

  lemma {:induction false} ReadsAll(messages: seq<seq<byte>>)
    requires forall m :: m in messages ==> |m| <= MAX_MESSAGE
    ensures BufferedCursor(Framed(messages), |messages|) == |Framed(messages)|
    ensures BufferedOutcomes(Framed(messages), |messages|) == Expected(messages, |messages|)
  {
    ReadsBack(messages, []);
    assert Framed(messages) + [] == Framed(messages);
  }

  // One read more, past the end.
  lemma {:induction false} ReadsOneMore(body: seq<byte>, calls: nat, before: seq<Outcome>, after: seq<Outcome>)
    requires BufferedCursor(body, calls) == |body| && BufferedOutcomes(body, calls) == before
    requires after == before + [EndOfBody]
    ensures BufferedCursor(body, calls + 1) == |body| && BufferedOutcomes(body, calls + 1) == after
  {
    PastEnd(body);
    BufferedNext(body, calls);
  }

  lemma {:induction false} ReadsPastEnd(messages: seq<seq<byte>>, body: seq<byte>, extra: nat)
    requires (forall m :: m in messages ==> |m| <= MAX_MESSAGE) && body == Framed(messages)
    ensures BufferedCursor(body, |messages| + extra) == |body|
    ensures BufferedOutcomes(body, |messages| + extra) == Expected(messages, |messages| + extra)
    decreases extra
  {
    if extra == 0 {
      ReadsAll(messages);
    } else {
      var calls := |messages| + extra - 1;
      ReadsPastEnd(messages, body, extra - 1);
      ExpectedMore(messages, calls);
      ReadsOneMore(body, calls, Expected(messages, calls), Expected(messages, calls + 1));
    }
  }

  lemma {:induction false} OutcomesPrefix(body: seq<byte>, few: nat, many: nat)
    requires few <= many
    ensures BufferedOutcomes(body, few) == BufferedOutcomes(body, many)[..few]
  {
    if few < many {
      OutcomesPrefix(body, few, many - 1);
      BufferedNext(body, many - 1);
      PrefixOfSnoc(BufferedOutcomes(body, many - 1), BufferedRead(body, BufferedCursor(body, many - 1)).1, few);
    }
  }

  lemma {:induction false} PrefixOfSnoc(all: seq<Outcome>, last: Outcome, n: nat)
    requires n <= |all|
    ensures (all + [last])[..n] == all[..n]
  {
  }

  lemma {:induction false} PrefixExpected(messages: seq<seq<byte>>, body: seq<byte>, few: nat, many: nat)
    requires few <= many && BufferedOutcomes(body, many) == Expected(messages, many)
    ensures BufferedOutcomes(body, few) == Expected(messages, few)
  {
    OutcomesPrefix(body, few, many);
    ExpectedPrefix(messages, few, many);
  }

  lemma {:induction false} BufferedIsExpected(messages: seq<seq<byte>>, body: seq<byte>, calls: nat)
    requires (forall m :: m in messages ==> |m| <= MAX_MESSAGE) && body == Framed(messages)
    ensures BufferedOutcomes(body, calls) == Expected(messages, calls)
  {
    var many := |messages| + calls;
    ReadsPastEnd(messages, body, calls);
    PrefixExpected(messages, body, calls, many);
  }

  // A peer that writes these messages and half-closes is read exactly so, whatever the
  // chunks and the interleaving: message i from call i, and null from every later call.
  lemma {:induction false} MessagesArrive(precredited: nat, events: seq<Event>, messages: seq<seq<byte>>)
    requires Run(precredited, events).Some?
    requires forall m :: m in messages ==> |m| <= MAX_MESSAGE
    requires Run(precredited, events).value.pushed == Framed(messages)
    ensures var outcomes := Run(precredited, events).value.outcomes;
            outcomes == Expected(messages, |outcomes|)
  {
    ChunkingInvariance(precredited, events, Framed(messages));
    BufferedIsExpected(messages, Framed(messages), |Run(precredited, events).value.outcomes|);
  }
}
