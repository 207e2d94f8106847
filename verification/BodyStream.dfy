// The streaming request body: a chunk queue filled by the protocol parser, drained by
// PHP, returning flow-control credit for what was drained (src/http_body_stream.c:42-157).
module BodyStream {
  import opened Common
  import opened LinkedQueue

  newtype byte = x: int | 0 <= x < 256

  type Chunk = seq<byte>

  function Flat(chunks: seq<Chunk>): seq<byte>
  {
    if chunks == [] then [] else chunks[0] + Flat(chunks[1..])
  }

  lemma {:induction false} FlatAppend(a: seq<Chunk>, b: seq<Chunk>)
    ensures Flat(a + b) == Flat(a) + Flat(b)
  {
    if a == [] {
      assert a + b == b;
    } else {
      assert (a + b)[1..] == a[1..] + b;
      FlatAppend(a[1..], b);
    }
  }

  // The abstract value of the stream fields of a request.
  datatype Body = Body(
    queue: seq<Chunk>,
    queuedBytes: int,
    consumedBytes: nat,
    precredited: nat,    // bytes credited while they were buffered before the upgrade
    eof: bool,
    error: bool)

  // `event`: whether the data event exists or could be created.
  function Pushed(b: Body, data: Chunk, event: bool): Body
  {
    if event then b.(queue := b.queue + [data], queuedBytes := b.queuedBytes + |data|)
    else b.(error := true)
  }

  function Skip(b: Body): nat
    requires b.queue != []
  {
    if |b.queue[0]| < b.precredited then |b.queue[0]| else b.precredited
  }

  // The credit a pop of the first chunk hands back to the peer.
  function Credit(b: Body): nat
    requires b.queue != []
  {
    |b.queue[0]| - Skip(b)
  }

  function Popped(b: Body): Body
    requires b.queue != []
  {
    b.(queue := b.queue[1..],
       queuedBytes := b.queuedBytes - |b.queue[0]|,
       consumedBytes := b.consumedBytes + |b.queue[0]|,
       precredited := b.precredited - Skip(b))
  }

  class Stream {
    const queue: Chain<Chunk>
    var bytesQueued: int
    var bytesConsumed: nat
    var precredited: nat
    var eof: bool
    var error: bool

    ghost predicate Valid()
      reads this, queue, queue.spine
    {
      queue.Valid()
    }

    ghost function Value(): Body
      reads this, queue
    {
      Body(queue.contents, bytesQueued, bytesConsumed, precredited, eof, error)
    }

    constructor (precredited: nat)
      ensures Valid() && fresh(queue)
      ensures Value() == Body([], 0, 0, precredited, false, false)
    {
      queue := new Chain<Chunk>();
      bytesQueued, bytesConsumed := 0, 0;
      this.precredited := precredited;
      eof, error := false, false;
    }

    method Push(data: Chunk, event: bool) returns (accepted: bool)
      requires Valid()
      modifies this, queue, queue.spine
      ensures Valid() && accepted == event
      ensures Value() == Pushed(old(Value()), data, event)
    {
      if !event {
        error := true;
        return false;
      }
      queue.Append(data);
      bytesQueued := bytesQueued + |data|;
      return true;
    }

    method Close()
      requires Valid()
      modifies this
      ensures Valid() && Value() == old(Value()).(eof := true)
    {
      if eof {
        return;
      }
      eof := true;
    }

    method Fail()
      requires Valid()
      modifies this
      ensures Valid() && Value() == old(Value()).(eof := true, error := true)
    {
      error := true;
      Close();
    }

    method Pop() returns (data: Option<Chunk>, credit: nat)
      requires Valid()
      modifies this, queue
      ensures Valid()
      ensures old(queue.contents) == [] ==> data.None? && credit == 0 && Value() == old(Value())
      ensures old(queue.contents) != [] ==>
                && data == Some(old(queue.contents)[0])
                && credit == Credit(old(Value()))
                && Value() == Popped(old(Value()))
    {
      if queue.head == null {
        return None, 0;
      }
      var chunk := queue.RemoveFirst();
      bytesQueued := bytesQueued - |chunk|;
      bytesConsumed := bytesConsumed + |chunk|;
      credit := |chunk|;
      if precredited > 0 {
        var skip := if credit < precredited then credit else precredited;
        precredited := precredited - skip;
        credit := credit - skip;
      }
      data := Some(chunk);
    }

    method Dispose()
      requires Valid()
      modifies this, queue
      ensures Valid() && Value() == old(Value()).(queue := [], queuedBytes := 0)
    {
      queue.Clear();
      bytesQueued := 0;
    }
  }

  // ---------------------------------------------------------------- histories

  datatype Op = Push(data: Chunk, event: bool) | Pop | Close | Fail

  // What a whole push/pop history leaves: the stream, the chunks that went in and came
  // out, and the credit granted along the way.
  datatype History = History(body: Body, pushed: seq<Chunk>, popped: seq<Chunk>, credit: nat)

  function Step(h: History, op: Op): History
  {
    match op
    case Push(data, event) =>
      h.(body := Pushed(h.body, data, event), pushed := if event then h.pushed + [data] else h.pushed)
    case Pop =>
      if h.body.queue == [] then h
      else h.(body := Popped(h.body), popped := h.popped + [h.body.queue[0]],
              credit := h.credit + Credit(h.body))
    case Close => h.(body := h.body.(eof := true))
    case Fail => h.(body := h.body.(eof := true, error := true))
  }

  function After(precredited: nat, ops: seq<Op>): History
  {
    if ops == [] then History(Body([], 0, 0, precredited, false, false), [], [], 0)
    else Step(After(precredited, ops[..|ops| - 1]), ops[|ops| - 1])
  }

  function Min(a: nat, b: nat): nat { if a < b then a else b }

  // For every history: what came out followed by what is queued is what went in, the byte
  // counters are the lengths of those two parts, and no byte is credited twice.
  lemma {:induction false} Conservation(precredited: nat, ops: seq<Op>)
    ensures var h := After(precredited, ops);
            && h.popped + h.body.queue == h.pushed
            && h.body.queuedBytes == |Flat(h.body.queue)|
            && h.body.consumedBytes == |Flat(h.popped)|
            && h.body.precredited == precredited - Min(h.body.consumedBytes, precredited)
            && h.credit == h.body.consumedBytes - Min(h.body.consumedBytes, precredited)
  {
    if ops != [] {
      var op := ops[|ops| - 1];
      var before := After(precredited, ops[..|ops| - 1]);
      Conservation(precredited, ops[..|ops| - 1]);
      match op
      case Push(data, event) =>
        FlatAppend(before.body.queue, [data]);
        assert before.popped + (before.body.queue + [data]) == before.pushed + [data];
      case Pop =>
        if before.body.queue != [] {
          var q := before.body.queue;
          FlatAppend(before.popped, [q[0]]);
          assert before.popped + q == (before.popped + [q[0]]) + q[1..];
        }
      case Close =>
      case Fail =>
    }
  }

  predicate RefusedOne(ops: seq<Op>) { exists i :: 0 <= i < |ops| && ops[i].Push? && !ops[i].event }

  lemma {:induction false} RefusedSnoc(ops: seq<Op>, op: Op)
    ensures RefusedOne(ops + [op]) <==> RefusedOne(ops) || (op.Push? && !op.event)
  {
    var all := ops + [op];
    assert all[|ops|] == op && forall i :: 0 <= i < |ops| ==> all[i] == ops[i];
  }

  lemma {:induction false} StepEnds(h: History, op: Op)
    ensures Step(h, op).body.eof == (h.body.eof || op == Close || op == Fail)
    ensures Step(h, op).body.error == (h.body.error || op == Fail || (op.Push? && !op.event))
  {
  }

  // A stream is over exactly when it was closed or failed, and in error exactly when it failed
  // or refused a chunk.
  lemma {:induction false} EndsExactly(precredited: nat, ops: seq<Op>)
    ensures After(precredited, ops).body.eof <==> Close in ops || Fail in ops
    ensures After(precredited, ops).body.error <==> Fail in ops || RefusedOne(ops)
  {
    if ops != [] {
      var front, op := ops[..|ops| - 1], ops[|ops| - 1];
      EndsExactly(precredited, front);
      StepEnds(After(precredited, front), op);
      RefusedSnoc(front, op);
      assert ops == front + [op];
    }
  }
}
