/** The sections of code that run under the runtime's gate, each one a step of the interleaved model. */
module IoRuntimeGate {
  import opened IoRuntime
  import opened IoRuntimeRuns

  datatype Status = OK | ECANCELED | EBUSY | ENOBUFS | EINVAL

  class Runtime {
    const slots: array<Slot>
    const retiring: array<Retiring>
    var attached: nat
    var operations: nat
    var closing: bool
    var destroying: bool
    var bridgeLive: bool
    var bridgeScheduled: bool
    var bridgeRunning: bool
    ghost var tasks: seq<Tasks>
    ghost var bridgeTasks: Tasks

    ghost predicate Sized()
      reads this
    {
      slots.Length == retiring.Length == |tasks|
    }

    /** The invariant of every interleaving, so all that `IoRuntimeRuns` says about reachable states holds. */
    ghost predicate Valid()
      reads this, slots, retiring
    {
      Sized() && Invariant(View())
    }

    ghost function View(): (w: World)
      requires Sized()
      reads this, slots, retiring
      ensures WellSized(w) && |w.slots| == slots.Length
    {
      World(slots[..], tasks, retiring[..], attached, operations, closing, destroying,
            bridgeLive, bridgeScheduled, bridgeRunning, bridgeTasks)
    }

    constructor (capacity: nat)
      ensures Valid() && fresh(slots) && fresh(retiring) && View() == Initial(capacity)
    {
      slots := new Slot[capacity](_ => DETACHED);
      retiring := new Retiring[capacity](_ => Retiring(0, false));
      attached, operations, closing, destroying := 0, 0, false, false;
      bridgeLive, bridgeScheduled, bridgeRunning := true, false, false;
      tasks, bridgeTasks := seq(capacity, i => NO_TASKS), NO_TASKS;
      new;
      assert slots[..] == Initial(capacity).slots && retiring[..] == Initial(capacity).retiring;
      InitialOk(capacity);
    }

    /** `redis_io_runtime_attach_publisher`: the handle names the slot and its new generation; no work of an earlier
        attachment is left for the slot. */
    method AttachPublisher() returns (status: Status, index: nat, generation: nat)
      requires Valid()
      modifies this, slots
      ensures Valid() && View() == Step(old(View()), Attach)
      ensures status == OK ==> Matches(View(), index, generation) && !old(slots[index].attached) && Total(tasks[index]) == 0
      ensures status == ENOBUFS ==> forall i :: 0 <= i < slots.Length ==> slots[i].attached
      ensures status == ECANCELED <==> closing || destroying
    {
      AttachKeeps(View());
      if closing || destroying { return ECANCELED, 0, 0; }
      index := 0;
      while index < slots.Length && slots[index].attached
        invariant index <= slots.Length && forall i :: 0 <= i < index ==> slots[i].attached
      {
        index := index + 1;
      }
      ghost var i := FirstDetached(slots[..]);
      if index == slots.Length { return ENOBUFS, 0, 0; }
      assert index == i;
      assert SlotOk(View().slots[index], View().tasks[index]);
      generation := if slots[index].generation == UINT64_MAX then 1 else slots[index].generation + 1;
      slots[index] := slots[index].(generation := generation, attached := true);
      attached := attached + 1;
      return OK, index, generation;
    }

    /** The gated part of `redis_io_runtime_schedule_publisher`: `post` obliges the caller to post the driver, exactly if no
        work is in flight for the slot, so that exactly one piece is afterwards. */
    method SchedulePublisher(i: nat, generation: nat) returns (status: Status, post: bool)
      requires Valid() && i < slots.Length
      modifies this, slots
      ensures Valid() && View() == Step(old(View()), Schedule(i, generation))
      ensures status == OK <==> Matches(old(View()), i, generation) && !closing && !destroying
      ensures status == OK ==> slots[i].scheduled && (post <==> old(Total(tasks[i])) == 0) && Total(tasks[i]) == 1
      ensures tasks[i].posting == old(tasks[i].posting) + if post then 1 else 0
    {
      ScheduleKeeps(View(), i, generation);
      assert SlotOk(View().slots[i], View().tasks[i]);
      post := false;
      var slot := slots[i];
      if !(generation != 0 && generation == slot.generation && slot.attached) || closing || destroying {
        return ECANCELED, false;
      }
      if !slot.scheduled {
        post := !slot.running;
        slots[i] := slot.(scheduled := true);
      }
      tasks := tasks[i := Ask(tasks[i], slot.scheduled, slot.running, slot.generation)];
      assert slots[..] == old(slots[..])[i := slot.(scheduled := true)];
      return OK, post;
    }

    /** The first gated part of `redis_io_publisher_driver_task`: a task that begins always finds its slot attached, answers
        the wake-up, and is the only work in flight. */
    method DriverBegin(i: nat) returns (drive: bool)
      requires Valid() && i < slots.Length && tasks[i].entering > 0
      modifies this, slots
      ensures Valid() && View() == Step(old(View()), SlotMove(i, Begin))
      ensures drive == old(slots[i].attached)
      ensures drive && slots[i].running && !slots[i].scheduled && tasks[i].driving == 1 && Total(tasks[i]) == 1
      ensures tasks[i].generation == slots[i].generation
    {
      SlotMoveKeeps(View(), i, Begin);
      assert SlotOk(View().slots[i], View().tasks[i]);
      drive := slots[i].attached;
      if drive {
        slots[i] := slots[i].(scheduled := false, running := true);
      }
      tasks := tasks[i := Moved(tasks[i], Begin, false)];
      assert slots[..] == old(slots[..])[i := MoveSlot(old(slots[i]), Begin)];
    }

    /** The second one: `repost` obliges the driver to be posted again, exactly if it was asked for meanwhile; otherwise no
        work is left for the slot. */
    method DriverFinish(i: nat) returns (repost: bool)
      requires Valid() && i < slots.Length && tasks[i].driving > 0
      modifies this, slots
      ensures Valid() && View() == Step(old(View()), SlotMove(i, Finish))
      ensures tasks[i].posting == old(tasks[i].posting) + if repost then 1 else 0
      ensures (repost <==> old(slots[i].scheduled)) && !slots[i].running && Total(tasks[i]) == if repost then 1 else 0
    {
      SlotMoveKeeps(View(), i, Finish);
      AttachedIsOpen(View(), i);
      slots[i] := slots[i].(running := false);
      repost := slots[i].attached && slots[i].scheduled && !destroying;
      tasks := tasks[i := Moved(tasks[i], Finish, repost)];
      assert slots[..] == old(slots[..])[i := MoveSlot(old(slots[i]), Finish)];
    }

    /** `redis_io_runtime_detach_publisher`: succeeds exactly for a matching handle with no work in flight and no operation. */
    method DetachPublisher(i: nat, generation: nat) returns (status: Status)
      requires Valid() && i < slots.Length
      modifies this, slots
      ensures Valid() && View() == Step(old(View()), Detach(i, generation))
      ensures status == OK ==> !slots[i].attached && Total(tasks[i]) == 0
      ensures status == OK <==> Matches(old(View()), i, generation) && old(Total(tasks[i])) == 0 && !old(slots[i].owned)
      ensures status == EINVAL <==> !Matches(old(View()), i, generation)
    {
      DetachKeeps(View(), i, generation);
      assert SlotOk(View().slots[i], View().tasks[i]);
      var slot := slots[i];
      if !(generation != 0 && generation == slot.generation && slot.attached) { return EINVAL; }
      if slot.scheduled || slot.running || slot.owned { return EBUSY; }
      slots[i] := slot.(attached := false);
      if attached != 0 { attached := attached - 1; }
      return OK;
    }

    /** The gated part of `redis_io_bridge_submit`. */
    method TakeOperation(i: nat, socket: int) returns (status: Status)
      requires Valid() && i < slots.Length
      modifies this, slots
      ensures Valid() && View() == Step(old(View()), Submit(i, socket))
      ensures status == OK <==> Submits(old(View()), i, socket)
    {
      SubmitKeeps(View(), i, socket);
      if !slots[i].attached || closing || destroying || slots[i].owned {
        return if slots[i].owned then EBUSY else ECANCELED;
      }
      var index := 0;
      while index < retiring.Length
        invariant index <= retiring.Length
        invariant forall j :: 0 <= j < index ==> !(retiring[j].active && retiring[j].identity == socket)
      {
        if retiring[index].active && retiring[index].identity == socket {
          assert retiring[..][index] == retiring[index];
          return EBUSY;
        }
        index := index + 1;
      }
      assert !Retired(retiring[..], socket);
      slots[i] := slots[i].(owned := true, socket := socket);
      return OK;
    }

    /** `redis_io_runtime_retire_socket`: one pass over operations and retiring sockets. */
    method RetireSocket(socket: int) returns (status: Status)
      requires Valid()
      modifies retiring
      ensures Valid() && View() == Step(old(View()), Retire(socket))
      ensures status == EBUSY <==> InUse(slots[..], socket) || Retired(old(retiring[..]), socket)
      ensures status == OK ==> Retired(retiring[..], socket) && !InUse(slots[..], socket)
    {
      RetireKeeps(View(), socket);
      var available: nat := retiring.Length;
      var index := 0;
      while index < retiring.Length
        invariant index <= retiring.Length
        invariant forall j :: 0 <= j < index ==> !(slots[j].owned && slots[j].socket == socket)
        invariant forall j :: 0 <= j < index ==> !(retiring[j].active && retiring[j].identity == socket)
        invariant available < retiring.Length ==> available < index && !retiring[available].active
        invariant available <= retiring.Length && forall j :: 0 <= j < index && j < available ==> retiring[j].active
      {
        if slots[index].owned && slots[index].socket == socket {
          assert slots[..][index] == slots[index];
          return EBUSY;
        }
        if retiring[index].active {
          if retiring[index].identity == socket {
            assert retiring[..][index] == retiring[index];
            return EBUSY;
          }
        } else if available == retiring.Length {
          available := index;
        }
        index := index + 1;
      }
      assert !InUse(slots[..], socket) && !Retired(retiring[..], socket);
      ghost var free := FirstFree(retiring[..]);
      assert available < retiring.Length ==> !retiring[..][available].active;
      assert free == available;
      if available == retiring.Length { return ENOBUFS; }
      retiring[available] := Retiring(socket, true);
      assert retiring[..][available] == Retiring(socket, true);
      return OK;
    }

    /** The gated part of `redis_io_runtime_forget_socket`: clearing the first entry is enough. */
    method ForgetSocket(socket: int)
      requires Valid()
      modifies retiring
      ensures Valid() && View() == Step(old(View()), Forget(socket)) && !Retired(retiring[..], socket)
    {
      ForgetKeeps(View(), socket);
      ForgetRemoves(View(), socket);
      ghost var found := Find(retiring[..], socket);
      var index := 0;
      while index < retiring.Length
        invariant index <= retiring.Length && retiring[..] == old(retiring[..])
        invariant forall j :: 0 <= j < index ==> !(retiring[j].active && retiring[j].identity == socket)
      {
        if retiring[index].active && retiring[index].identity == socket {
          assert index == found;
          retiring[index] := retiring[index].(active := false);
          return;
        }
        index := index + 1;
      }
    }

    /** `redis_io_runtime_idle_locked`. */
    method IdleLocked() returns (idle: bool)
      requires Valid()
      ensures idle == Idle(View())
      ensures idle ==> (forall i :: 0 <= i < |tasks| ==> Total(tasks[i]) == 0) && Total(bridgeTasks) == 0
    {
      IdleIsQuiet(View());
      if operations != 0 || bridgeScheduled || bridgeRunning { return false; }
      var index := 0;
      while index < slots.Length
        invariant index <= slots.Length
        invariant forall j :: 0 <= j < index ==> !Busy(slots[j])
      {
        if slots[index].scheduled || slots[index].running || slots[index].owned || slots[index].acknowledge {
          assert slots[..][index] == slots[index];
          return false;
        }
        index := index + 1;
      }
      return true;
    }
  }
}
