/** The fixed-capacity connection pool: slots lent to command streams.  What a connection or the I/O below it answers
    is chosen by the environment. */
module Pool {
  datatype SlotState = CLOSED | CONNECTING | PREPARING | IDLE | BORROWED | INVALID

  /** The stream that a connection is working for. */
  datatype Active = Nobody | Preparing | Command(stream: nat)

  /** A slot with the state of its connection. */
  datatype Slot = Slot(state: SlotState, refs: nat, usable: bool, active: Active)

  datatype Phase = Connecting | Ready | Failed | Closing | Closed

  /** A stream handle: `ended` is the end of the command on its connection, `terminal` what the pool has seen of it;
      `live` until the handle is destroyed. */
  datatype Stream = Stream(slot: nat, terminal: bool, released: bool, ended: bool, live: bool)

  datatype Stats = Stats(admitted: nat, completed: nat, failed: nat, cancelled: nat, rejected: nat)

  datatype PoolState = PoolState(
    slots: seq<Slot>, streams: seq<Stream>, phase: Phase, connectIndex: nat, repairing: bool, stats: Stats)

  /** What the connection answers to `next`: an item or a wait, a wait that could not be set up, an error that does or
      does not leave the connection usable, the end. */
  datatype Answer = Continues | NoWaitable | Errs(reusable: bool) | Ends

  /** What a step of connecting a slot comes to. */
  datatype Connect = Waits | Refused | Succeeds

  datatype Action =
    | Open(accepted: bool)
    | Next(stream: nat, answer: Answer)
    | Cancel(stream: nat, stopped: bool)
    | Destroy(stream: nat, stopped: bool)
    | ConnectNext(connect: Connect)
    | Close
    | CloseSlot(slot: nat, closed: bool)
    | FinishClose

  predicate Known(p: PoolState, id: nat) {
    id < |p.streams| && p.streams[id].live && p.streams[id].slot < |p.slots|
  }

  function FirstIn(slots: seq<Slot>, state: SlotState): (i: nat)
    ensures i <= |slots| && (i < |slots| ==> slots[i].state == state) && forall j :: 0 <= j < i ==> slots[j].state != state
  {
    if slots == [] || slots[0].state == state then 0
    else
      var i := FirstIn(slots[1..], state);
      assert forall j :: 0 < j <= i ==> slots[j] == slots[1..][j - 1];
      i + 1
  }

  function SetSlot(p: PoolState, i: nat, s: Slot): PoolState
    requires i < |p.slots|
  {
    p.(slots := p.slots[i := s])
  }

  // ---- streams -------------------------------------------------------------------------------

  function OpenStep(p: PoolState, accepted: bool): PoolState {
    var i := FirstIn(p.slots, IDLE);
    if p.phase != Ready then p
    else if i == |p.slots| then p.(stats := p.stats.(rejected := p.stats.rejected + 1))
    else
      var s := p.slots[i];
      if !s.usable || s.active != Nobody || !accepted then SetSlot(p, i, s.(state := if s.usable then IDLE else INVALID))
      else
        SetSlot(p, i, s.(state := BORROWED, refs := s.refs + 1, active := Command(|p.streams|)))
          .(streams := p.streams + [Stream(i, false, false, false, true)], stats := p.stats.(admitted := p.stats.admitted + 1))
  }

  /** The slot goes back: to be lent again only while the pool is ready and the connection usable. */
  function Release(p: PoolState, id: nat, failed: bool): PoolState
    requires Known(p, id)
  {
    var t := p.streams[id];
    var s := p.slots[t.slot];
    if t.released then p
    else
      SetSlot(p, t.slot, s.(state := if p.phase == Ready && s.usable then IDLE else INVALID))
        .(streams := p.streams[id := t.(released := true)],
          stats := if failed then p.stats.(failed := p.stats.failed + 1) else p.stats.(completed := p.stats.completed + 1))
  }

  /** The command on the connection is over, for the connection. */
  function EndCommand(p: PoolState, id: nat, usable: bool): PoolState
    requires Known(p, id)
  {
    var t := p.streams[id];
    var s := p.slots[t.slot];
    SetSlot(p, t.slot, s.(usable := usable, active := if s.active == Command(id) then Nobody else s.active))
      .(streams := p.streams[id := t.(ended := true)])
  }

  /** The connection's own `next`; once ended it only repeats its end. */
  function InnerNext(p: PoolState, id: nat, answer: Answer): PoolState
    requires Known(p, id)
  {
    var t := p.streams[id];
    var s := p.slots[t.slot];
    if t.ended then p
    else if !s.usable then EndCommand(p, id, false)
    else match answer
      case Continues => p
      case NoWaitable => p
      case Errs(reusable) => EndCommand(p, id, reusable)
      case Ends => EndCommand(p, id, true)
  }

  /** Whether that answer is an end in the pool's eyes, and whether it is a failure. */
  function Terminates(p: PoolState, id: nat, answer: Answer): (bool, bool)
    requires Known(p, id)
  {
    if p.streams[id].ended then (true, !answer.Ends?)
    else if !p.slots[p.streams[id].slot].usable then (true, true)
    else (!answer.Continues?, !answer.Ends?)
  }

  function NextStep(p: PoolState, id: nat, answer: Answer): PoolState
    requires Known(p, id)
  {
    var q := InnerNext(p, id, answer);
    var (ends, failed) := Terminates(p, id, answer);
    if p.streams[id].terminal || !ends then q
    else Release(q.(streams := q.streams[id := q.streams[id].(terminal := true)]), id, failed)
  }

  /** The connection's `cancel`: it is no longer usable, even when the operation in flight could not be stopped. */
  function InnerCancel(p: PoolState, id: nat, stopped: bool): PoolState
    requires Known(p, id)
  {
    var t := p.streams[id];
    if t.ended then p
    else if stopped then EndCommand(p, id, false)
    else SetSlot(p, t.slot, p.slots[t.slot].(usable := false))
  }

  function CancelStep(p: PoolState, id: nat, stopped: bool): PoolState
    requires Known(p, id)
  {
    var q := InnerCancel(p, id, stopped);
    if p.streams[id].terminal then p
    else if !q.streams[id].ended then q
    else BookCancelled(q, id)
  }

  /** A stream whose command was cancelled ends and is released as failed. */
  function BookCancelled(p: PoolState, id: nat): PoolState
    requires Known(p, id)
  {
    var q := p.(streams := p.streams[id := p.streams[id].(terminal := true)], stats := p.stats.(cancelled := p.stats.cancelled + 1));
    Release(q, id, true)
  }

  /** The handle goes, with its reference to the slot. */
  function Drop(p: PoolState, id: nat): PoolState
    requires Known(p, id)
  {
    var i := p.streams[id].slot;
    if p.slots[i].refs == 0 then p
    else
      var q := Release(SetSlot(p, i, p.slots[i].(refs := p.slots[i].refs - 1)), id, false);
      q.(streams := q.streams[id := q.streams[id].(live := false)])
  }

  function DestroyFinished(p: PoolState, id: nat, stopped: bool): PoolState
    requires Known(p, id)
  {
    var q := InnerCancel(p, id, stopped);
    if q.streams[id].ended then Drop(q, id) else q
  }

  function DestroyStep(p: PoolState, id: nat, stopped: bool): PoolState
    requires Known(p, id)
  {
    var q := if p.streams[id].terminal then p else CancelStep(p, id, stopped);
    if q.streams[id].terminal then DestroyFinished(q, id, stopped) else q
  }

  // ---- connecting and closing ----------------------------------------------------------------

  function ConnectFails(p: PoolState, i: nat): PoolState
    requires i < |p.slots|
  {
    SetSlot(p, i, p.slots[i].(state := INVALID)).(phase := if p.repairing then Ready else Failed)
  }

  /** One turn of the connecting loop on the slot at `connectIndex`. */
  function ConnectSlot(p: PoolState, c: Connect): PoolState
    requires p.connectIndex < |p.slots|
  {
    var i := p.connectIndex;
    var s := p.slots[i];
    match s.state
    case IDLE => p.(connectIndex := i + 1)
    case BORROWED => p.(connectIndex := i + 1)
    case INVALID =>
      if s.refs != 0 then p
      else if c.Succeeds? && !s.active.Command? then SetSlot(p, i, Slot(CLOSED, s.refs, false, Nobody))
      else p.(phase := if p.repairing then Ready else Failed)
    case CLOSED =>
      if c.Succeeds? then SetSlot(p, i, s.(state := CONNECTING, usable := false, active := Nobody)) else ConnectFails(p, i)
    case CONNECTING =>
      if c.Succeeds? then SetSlot(p, i, s.(state := PREPARING, usable := true, active := Preparing))
      else if c.Waits? then p else ConnectFails(p, i)
    case PREPARING =>
      if c.Succeeds? then SetSlot(p, i, s.(state := IDLE, active := Nobody)).(connectIndex := i + 1)
      else if c.Waits? then p else ConnectFails(p, i)
  }

  function ConnectStep(p: PoolState, c: Connect): PoolState {
    var i := FirstIn(p.slots, INVALID);
    if p.phase == Ready then
      if i == |p.slots| || p.slots[i].refs != 0 then p
      else p.(phase := Connecting, connectIndex := i, repairing := true)
    else if p.phase != Connecting then p
    else if p.connectIndex < |p.slots| then ConnectSlot(p, c)
    else p.(repairing := false, phase := Ready)
  }

  predicate Quiet(p: PoolState) {
    forall i :: 0 <= i < |p.slots| ==> p.slots[i].state != BORROWED && p.slots[i].refs == 0
  }

  function CloseStep(p: PoolState): PoolState {
    if p.phase == Closed || !Quiet(p) then p else p.(phase := Closing)
  }

  function Step(p: PoolState, a: Action): PoolState {
    match a
    case Open(accepted) => OpenStep(p, accepted)
    case Next(id, answer) => if Known(p, id) then NextStep(p, id, answer) else p
    case Cancel(id, stopped) => if Known(p, id) then CancelStep(p, id, stopped) else p
    case Destroy(id, stopped) => if Known(p, id) then DestroyStep(p, id, stopped) else p
    case ConnectNext(c) => ConnectStep(p, c)
    case Close => CloseStep(p)
    case CloseSlot(i, closed) =>
      if p.phase == Closing && i < |p.slots| && closed then SetSlot(p, i, Slot(CLOSED, p.slots[i].refs, false, Nobody)) else p
    case FinishClose =>
      if p.phase == Closing && forall i :: 0 <= i < |p.slots| ==> p.slots[i].state == CLOSED then p.(phase := Closed) else p
  }

  function Run(p: PoolState, actions: seq<Action>): PoolState
    decreases |actions|
  {
    if actions == [] then p else Run(Step(p, actions[0]), actions[1..])
  }

  function Initial(capacity: nat): PoolState {
    PoolState(seq(capacity, i => Slot(CLOSED, 0, false, Nobody)), [], Connecting, 0, false, Stats(0, 0, 0, 0, 0))
  }
}
