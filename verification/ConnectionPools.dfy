/** The pool as an object whose calls update it in place; each call is one step of the model. */
module ConnectionPools {
  import opened Pool
  import opened PoolRuns

  datatype Status = OK | ESHUTDOWN | ENOBUFS | EBUSY | FAILED

  class ConnectionPool {
    const slots: array<Slot>
    var streams: seq<Stream>
    var phase: Phase
    var connectIndex: nat
    var repairing: bool
    var stats: Stats

    ghost function View(): PoolState
      reads this, slots
    {
      PoolState(slots[..], streams, phase, connectIndex, repairing, stats)
    }

    /** Some run leads here, so leases are conserved and all that `PoolRuns` says about runs holds. */
    ghost predicate Valid()
      reads this, slots
    {
      Reached(View())
    }

    constructor (capacity: nat)
      ensures Valid() && fresh(slots) && View() == Initial(capacity)
    {
      slots := new Slot[capacity](_ => Slot(CLOSED, 0, false, Nobody));
      streams, phase, connectIndex, repairing, stats := [], Connecting, 0, false, Stats(0, 0, 0, 0, 0);
      new;
      assert slots[..] == Initial(capacity).slots;
      InitialIsReached(capacity);
    }

    /** `redis_pool_command_open`: the first idle slot is lent; the connection may still refuse the command. */
    method CommandOpen(accepted: bool) returns (status: Status, id: nat)
      requires Valid()
      modifies this, slots
      ensures Valid() && View() == Step(old(View()), Open(accepted))
      ensures status == OK ==> Known(View(), id) && slots[streams[id].slot].state == BORROWED
      ensures status == OK ==> old(slots[..])[streams[id].slot].state == IDLE
      ensures status == ESHUTDOWN <==> phase != Ready
      ensures status == ENOBUFS ==> forall i :: 0 <= i < slots.Length ==> slots[i].state != IDLE
    {
      ReachedStep(View(), Open(accepted));
      id := 0;
      if phase != Ready { return ESHUTDOWN, 0; }
      var index := 0;
      while index < slots.Length && slots[index].state != IDLE
        invariant index <= slots.Length && forall j :: 0 <= j < index ==> slots[j].state != IDLE
      {
        index := index + 1;
      }
      ghost var first := FirstIn(slots[..], IDLE);
      if index == slots.Length {
        stats := stats.(rejected := stats.rejected + 1);
        return ENOBUFS, 0;
      }
      assert index == first;
      var slot := slots[index];
      slots[index] := slot.(state := BORROWED);
      if !slot.usable || slot.active != Nobody || !accepted {
        slots[index] := slot.(state := if slot.usable then IDLE else INVALID);
        return FAILED, 0;
      }
      id := |streams|;
      slots[index] := slots[index].(refs := slot.refs + 1, active := Command(id));
      streams := streams + [Stream(index, false, false, false, true)];
      stats := stats.(admitted := stats.admitted + 1);
      status := OK;
    }

    /** `redis_pool_release_stream`: the command is booked once, and a slot that goes back to be lent is usable in a ready
        pool. */
    method ReleaseStream(id: nat, failed: bool)
      requires Known(View(), id)
      modifies this, slots
      ensures View() == Release(old(View()), id, failed) && Known(View(), id) && streams[id].released
      ensures stats.completed + stats.failed + Count(streams, OpenAnywhere) ==
                old(stats.completed + stats.failed + Count(streams, OpenAnywhere))
      ensures old(SlotOk(View(), streams[id].slot)) ==> SlotOk(View(), streams[id].slot)
      ensures !old(streams[id].released) && slots[streams[id].slot].state == IDLE ==> phase == Ready && slots[streams[id].slot].usable
    {
      ReleaseConserves(View(), id, failed);
      var t := streams[id];
      if t.released { return; }
      if failed {
        stats := stats.(failed := stats.failed + 1);
      } else {
        stats := stats.(completed := stats.completed + 1);
      }
      if phase == Ready && slots[t.slot].usable {
        slots[t.slot] := slots[t.slot].(state := IDLE);
      } else {
        slots[t.slot] := slots[t.slot].(state := INVALID);
      }
      streams := streams[id := t.(released := true)];
    }

    /** The connection gives the stream up, and keeps any other it works for. */
    method ReleaseActive(id: nat, usable: bool)
      requires Known(View(), id)
      modifies this, slots
      ensures View() == EndCommand(old(View()), id, usable) && Known(View(), id)
      ensures streams[id].ended && slots[streams[id].slot].active != Command(id)
      ensures old(SlotOk(View(), streams[id].slot)) ==> SlotOk(View(), streams[id].slot)
    {
      EndConserves(View(), id, usable);
      var t := streams[id];
      var s := slots[t.slot];
      slots[t.slot] := s.(usable := usable, active := if s.active == Command(id) then Nobody else s.active);
      streams := streams[id := t.(ended := true)];
    }

    /** `redis_cflow_stream_next` on the stream's connection: whether the caller is handed an end, and whether as a failure. */
    method CommandNext(id: nat, answer: Answer) returns (ends: bool, failed: bool)
      requires Known(View(), id)
      modifies this, slots
      ensures View() == InnerNext(old(View()), id, answer) && Known(View(), id)
      ensures (ends, failed) == Terminates(old(View()), id, answer)
      ensures ends && answer != NoWaitable ==> streams[id].ended
    {
      ends, failed := !answer.Continues?, !answer.Ends?;
      if streams[id].ended {
        ends := true;
      } else if !slots[streams[id].slot].usable {
        ends, failed := true, true;
        ReleaseActive(id, false);
      } else if answer.Errs? {
        ReleaseActive(id, answer.reusable);
      } else if answer.Ends? {
        ReleaseActive(id, true);
      }
    }

    /** `redis_pool_stream_next`: the first end or error the caller is handed gives the slot back, once; no other slot and no
        other stream is touched. */
    method StreamNext(id: nat, answer: Answer) returns (ends: bool)
      requires Valid() && Known(View(), id)
      modifies this, slots
      ensures Valid() && Known(View(), id) && View() == Step(old(View()), Next(id, answer))
      ensures OnlyThis(old(View()), View(), id)
      ensures streams[id].released <==> old(streams[id].released) || ends
    {
      ghost var after := NextTells(View(), id, answer);
      var terminal := streams[id].terminal;
      var failed;
      ends, failed := CommandNext(id, answer);
      if !terminal && ends {
        streams := streams[id := streams[id].(terminal := true)];
        ReleaseStream(id, failed);
      }
      assert View() == after;
    }

    /** `redis_cflow_stream_cancel` on the stream's connection. */
    method CancelCommand(id: nat, stopped: bool) returns (status: Status)
      requires Known(View(), id)
      modifies this, slots
      ensures View() == InnerCancel(old(View()), id, stopped)
      ensures status == OK <==> streams[id].ended
    {
      var t := streams[id];
      if t.ended { return OK; }
      if !stopped {
        slots[t.slot] := slots[t.slot].(usable := false);
        return FAILED;
      }
      ReleaseActive(id, false);
      return OK;
    }

    /** The second half of `redis_pool_stream_cancel`: one more command is cancelled, and none is booked twice. */
    method BookCancelled(id: nat)
      requires Known(View(), id)
      modifies this, slots
      ensures View() == Pool.BookCancelled(old(View()), id) && streams[id].terminal && streams[id].released
      ensures stats.cancelled == old(stats.cancelled) + 1
    {
      streams := streams[id := streams[id].(terminal := true)];
      stats := stats.(cancelled := stats.cancelled + 1);
      ReleaseStream(id, true);
    }

    /** `redis_pool_stream_cancel`: succeeds if the operation in flight can be stopped, and touches no other slot or stream. */
    method StreamCancel(id: nat, stopped: bool) returns (status: Status)
      requires Valid() && Known(View(), id)
      modifies this, slots
      ensures Valid() && Known(View(), id) && View() == Step(old(View()), Cancel(id, stopped))
      ensures OnlyThis(old(View()), View(), id)
      ensures (status == OK <==> streams[id].terminal) && (stopped ==> status == OK)
    {
      ghost var after := CancelTells(View(), id, stopped);
      status := OK;
      if !streams[id].terminal {
        status := CancelCommand(id, stopped);
        if status == OK { BookCancelled(id); }
      }
      assert View() == after;
    }

    method DropHandle(id: nat) returns (status: Status)
      requires Known(View(), id)
      modifies this, slots
      ensures View() == Drop(old(View()), id)
      ensures status == OK <==> !streams[id].live
    {
      var i := streams[id].slot;
      if slots[i].refs == 0 { return FAILED; }
      slots[i] := slots[i].(refs := slots[i].refs - 1);
      ReleaseStream(id, false);
      streams := streams[id := streams[id].(live := false)];
      return OK;
    }

    /** The second half of `redis_pool_stream_destroy`: the command is cancelled if it had not ended, and the handle goes. */
    method DestroyFinished(id: nat, stopped: bool) returns (status: Status)
      requires Known(View(), id)
      modifies this, slots
      ensures View() == Pool.DestroyFinished(old(View()), id, stopped)
      ensures status == OK <==> !streams[id].live
    {
      status := CancelCommand(id, stopped);
      if status == OK { status := DropHandle(id); }
    }

    /** `redis_pool_stream_destroy`: the handle goes with exactly one reference, or stays; no other slot or stream is
        touched. */
    method StreamDestroy(id: nat, stopped: bool) returns (status: Status)
      requires Valid() && Known(View(), id)
      modifies this, slots
      ensures Valid() && View() == Step(old(View()), Destroy(id, stopped))
      ensures DestroysThis(old(View()), View(), id)
      ensures (status == OK <==> !streams[id].live) && (stopped ==> status == OK)
    {
      ghost var after := DestroyTells(View(), id, stopped);
      status := OK;
      if !streams[id].terminal { status := StreamCancel(id, stopped); }
      if status == OK { status := DestroyFinished(id, stopped); }
      assert View() == after;
    }

    /** The check of `redis_pool_close`. */
    method BeginClose() returns (status: Status)
      requires Valid()
      modifies this
      ensures Valid() && View() == Step(old(View()), Close)
      ensures status == OK ==> forall id :: !Known(View(), id)
      ensures status == EBUSY <==> old(phase) != Closed && !Quiet(old(View()))
    {
      ReachedStep(View(), Close);
      ClosingIsIdle(Step(View(), Close));
      if phase == Closed { return OK; }
      var index := 0;
      while index < slots.Length
        invariant index <= slots.Length
        invariant forall j :: 0 <= j < index ==> slots[j].state != BORROWED && slots[j].refs == 0
      {
        if slots[index].state == BORROWED || slots[index].refs != 0 {
          assert slots[..][index] == slots[index];
          return EBUSY;
        }
        index := index + 1;
      }
      phase := Closing;
      return OK;
    }
  }
}
