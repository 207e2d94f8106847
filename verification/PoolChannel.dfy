// The pool control channel: one command word, a locked table of wake handles and a
// reference count, shared by the pool parent and its worker threads
// (src/http_server_class.c:626-839).
module PoolChannel {
  import opened Common

  datatype Command = NoCommand | Reload | Stop

  // A wake handle is named by the worker that owns it.
  type Handle = nat

  // Where the join loop stops: the first unpublished slot, or the table size.
  function FirstFree(wake: seq<Option<Handle>>): (slot: nat)
    ensures slot <= |wake|
    ensures slot < |wake| ==> wake[slot].None?
    ensures forall i :: 0 <= i < slot ==> wake[i].Some?
  {
    if wake == [] then 0
    else if wake[0].None? then 0
    else 1 + FirstFree(wake[1..])
  }

  // The handles a broadcast rings, in slot order.
  function Published(wake: seq<Option<Handle>>): (handles: seq<Handle>)
    ensures forall h :: h in handles <==> Some(h) in wake
  {
    if wake == [] then []
    else
      assert wake == [wake[0]] + wake[1..];
      (if wake[0].Some? then [wake[0].value] else []) + Published(wake[1..])
  }

  lemma {:induction false} PublishedSplit(a: seq<Option<Handle>>, b: seq<Option<Handle>>)
    ensures Published(a + b) == Published(a) + Published(b)
  {
    if a == [] {
      assert a + b == b;
    } else {
      assert (a + b)[1..] == a[1..] + b;
      PublishedSplit(a[1..], b);
    }
  }

  class PoolCtl {
    var command: Command
    var refcount: int
    var freed: bool
    var wake: array<Option<Handle>>
    var closed: set<Handle>   // handles closed by leave(), or by a join() that found no slot

    ghost predicate Valid()
      reads this, wake
    {
      && (freed <==> refcount == 0)
      && refcount >= 0
      && (forall i :: 0 <= i < wake.Length && wake[i].Some? ==> wake[i].value !in closed)
      && (forall i, j :: 0 <= i < j < wake.Length && wake[i].Some? ==> wake[i] != wake[j])
    }

    constructor (slots: nat)
      ensures Valid() && fresh(wake)
      ensures command == NoCommand && refcount == 1 && !freed && closed == {}
      ensures wake[..] == seq(slots, i => None)
    {
      command, refcount, freed, closed := NoCommand, 1, false, {};
      wake := new Option<Handle>[slots](i => None);
    }

    method AddRef()
      requires Valid() && !freed
      modifies this`refcount
      ensures Valid() && refcount == old(refcount) + 1
    {
      refcount := refcount + 1;
    }

    // The release that takes the count to zero frees the channel; no other does.
    method Release()
      requires Valid() && !freed
      modifies this`refcount, this`freed
      ensures Valid() && refcount == old(refcount) - 1
      ensures freed <==> old(refcount) == 1
    {
      var before := refcount;
      refcount := refcount - 1;
      if before != 1 {
        return;
      }
      freed := true;
    }

    // Store first, then ring every published handle under the lock; NONE rings nobody.
    method Broadcast(cmd: Command) returns (rung: seq<Handle>)
      requires Valid() && !freed
      modifies this`command
      ensures Valid() && command == cmd
      ensures cmd == NoCommand ==> rung == []
      ensures cmd != NoCommand ==> rung == Published(wake[..])
      ensures forall h :: h in rung ==> h !in closed
    {
      command := cmd;
      rung := [];
      if cmd == NoCommand {
        return;
      }
      for i := 0 to wake.Length
        invariant command == cmd && rung == Published(wake[..i])
      {
        assert wake[..i + 1] == wake[..i] + [wake[i]];
        PublishedSplit(wake[..i], [wake[i]]);
        if wake[i].Some? {
          rung := rung + [wake[i].value];
        }
      }
      assert wake[..wake.Length] == wake[..];
    }

    // Claims the first free slot for a handle that was just created; a table with no
    // room closes the handle again and reports failure.
    method Join(h: Handle) returns (slot: Option<nat>)
      requires Valid() && !freed
      requires h !in closed && Some(h) !in wake[..]
      modifies wake, this`closed
      ensures Valid()
      ensures slot.None? <==> FirstFree(old(wake[..])) == wake.Length
      ensures slot.None? ==> wake[..] == old(wake[..]) && closed == old(closed) + {h}
      ensures slot.Some? ==>
                && slot.value == FirstFree(old(wake[..]))
                && wake[..] == old(wake[..])[slot.value := Some(h)]
                && closed == old(closed)
    {
      var i := 0;
      while i < wake.Length && wake[i].Some?
        invariant 0 <= i <= wake.Length
        invariant forall k :: 0 <= k < i ==> wake[k].Some?
      {
        i := i + 1;
      }
      assert FirstFree(wake[..]) == i;
      if i < wake.Length {
        wake[i] := Some(h);
        slot := Some(i);
      } else {
        closed := closed + {h};
        slot := None;
      }
    }

    // Empties the slot and closes its handle in one critical section, so a broadcast
    // either rang the handle before this or no longer finds it.
    method Leave(slot: nat)
      requires Valid() && !freed && slot < wake.Length
      modifies wake, this`closed
      ensures Valid()
      ensures wake[..] == old(wake[..])[slot := None]
      ensures closed == old(closed) + (if old(wake[slot]).Some? then {old(wake[slot]).value} else {})
      ensures old(wake[slot]).Some? ==> Some(old(wake[slot]).value) !in wake[..]
    {
      var t := wake[slot];
      wake[slot] := None;
      if t.Some? {
        closed := closed + {t.value};
      }
    }
  }
}
