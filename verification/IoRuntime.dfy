/** The mutex-gated runtime: publisher slots driven by tasks of one executor, sockets being retired, and the bridge.
    Every step below is one section of code run under the gate, or one move of the executor; steps of any number of
    threads interleave freely. */
module IoRuntime {
  /** Work in flight for one slot: threads that must still post its task, threads whose post was refused and who
      have not yet said so, tasks queued, tasks taken by the executor but not yet begun, tasks being driven; and the
      attachment they were started for. */
  datatype Tasks = Tasks(posting: nat, refused: nat, queued: nat, entering: nat, driving: nat, generation: nat)

  const NO_TASKS := Tasks(0, 0, 0, 0, 0, 0)

  function Total(t: Tasks): nat {
    t.posting + t.refused + t.queued + t.entering + t.driving
  }

  datatype Slot = Slot(generation: nat, attached: bool, scheduled: bool, running: bool, owned: bool, socket: int, acknowledge: bool)

  const DETACHED := Slot(0, false, false, false, false, 0, false)

  datatype Retiring = Retiring(identity: int, active: bool)

  datatype World = World(
    slots: seq<Slot>, tasks: seq<Tasks>, retiring: seq<Retiring>, attached: nat, operations: nat,
    closing: bool, destroying: bool,
    bridgeLive: bool, bridgeScheduled: bool, bridgeRunning: bool, bridgeTasks: Tasks)

  const UINT64_MAX: nat := 0xffff_ffff_ffff_ffff

  datatype Move = Post | Refuse | GiveUp | Take | Begin | Finish | Cancel

  /** The later life of an operation: the bridge would not take it, released it, completed it; the driver takes
      the acknowledgement up, or puts it back when the bridge is busy and asks for another turn. */
  datatype OperationEvent = SubmitRefused | Release | Completed | Acknowledge | AcknowledgeBusy

  datatype BridgeEvent = Wake | DriverMove(move: Move) | Again | Down

  datatype Phase = Started | Finished | Close | Destroy | DestroyFails

  datatype Action =
    | Attach
    | Schedule(slot: nat, generation: nat)
    | SlotMove(slot: nat, move: Move)
    | Detach(slot: nat, generation: nat)
    | Submit(slot: nat, socket: int)
    | Operation(slot: nat, operation: OperationEvent)
    | Retire(socket: int)
    | Forget(socket: int)
    | Lifecycle(phase: Phase)
    | Bridge(bridge: BridgeEvent)

  // ---- one slot's flags and tasks ------------------------------------------------------------

  /** Asking for a drive: only the first request posts a task, and not while one is being driven. */
  function Ask(t: Tasks, scheduled: bool, running: bool, generation: nat): Tasks {
    if !scheduled && !running then t.(posting := t.posting + 1, generation := generation) else t
  }

  predicate Enabled(t: Tasks, m: Move) {
    match m
    case Post => t.posting > 0
    case Refuse => t.posting > 0
    case GiveUp => t.refused > 0
    case Take => t.queued > 0
    case Begin => t.entering > 0
    case Finish => t.driving > 0
    case Cancel => t.queued > 0
  }

  /** A move of the executor or of a thread with work in flight; `again` says whether a drive asked for meanwhile is
      posted by the one that ends. */
  function Moved(t: Tasks, m: Move, again: bool): Tasks
    requires Enabled(t, m)
  {
    match m
    case Post => t.(posting := t.posting - 1, queued := t.queued + 1)
    case Refuse => t.(posting := t.posting - 1, refused := t.refused + 1)
    case GiveUp => t.(refused := t.refused - 1)
    case Take => t.(queued := t.queued - 1, entering := t.entering + 1)
    case Begin => t.(entering := t.entering - 1, driving := t.driving + 1)
    case Finish => if again then t.(driving := t.driving - 1, posting := t.posting + 1) else t.(driving := t.driving - 1)
    case Cancel => t.(queued := t.queued - 1)
  }

  function MoveSlot(s: Slot, m: Move): Slot {
    match m
    case GiveUp => s.(scheduled := false)
    case Begin => if s.attached then s.(scheduled := false, running := true) else s
    case Finish => s.(running := false)
    case Cancel => s.(scheduled := false, running := false)
    case _ => s
  }

  // ---- sockets -------------------------------------------------------------------------------

  predicate Retired(r: seq<Retiring>, socket: int) {
    exists i :: 0 <= i < |r| && r[i].active && r[i].identity == socket
  }

  predicate InUse(slots: seq<Slot>, socket: int) {
    exists i :: 0 <= i < |slots| && slots[i].owned && slots[i].socket == socket
  }

  /** The first entry, if any, that is free. */
  function FirstFree(r: seq<Retiring>): (i: nat)
    ensures i <= |r| && (i < |r| ==> !r[i].active) && forall j :: 0 <= j < i ==> r[j].active
  {
    if r == [] || !r[0].active then 0
    else
      var i := FirstFree(r[1..]);
      assert forall j :: 0 < j <= i ==> r[j] == r[1..][j - 1];
      i + 1
  }

  /** The first active entry, if any, with the socket. */
  function Find(r: seq<Retiring>, socket: int): (i: nat)
    ensures i <= |r| && (i < |r| ==> r[i].active && r[i].identity == socket)
    ensures forall j :: 0 <= j < i ==> !(r[j].active && r[j].identity == socket)
  {
    if r == [] || (r[0].active && r[0].identity == socket) then 0
    else
      var i := Find(r[1..], socket);
      assert forall j :: 0 < j <= i ==> r[j] == r[1..][j - 1];
      i + 1
  }

  function FirstDetached(slots: seq<Slot>): (i: nat)
    ensures i <= |slots| && (i < |slots| ==> !slots[i].attached) && forall j :: 0 <= j < i ==> slots[j].attached
  {
    if slots == [] || !slots[0].attached then 0
    else
      var i := FirstDetached(slots[1..]);
      assert forall j :: 0 < j <= i ==> slots[j] == slots[1..][j - 1];
      i + 1
  }

  // ---- steps ---------------------------------------------------------------------------------

  predicate Matches(w: World, i: nat, generation: nat) {
    i < |w.slots| && generation != 0 && generation == w.slots[i].generation && w.slots[i].attached
  }

  predicate WellSized(w: World) {
    |w.slots| == |w.tasks| == |w.retiring|
  }

  predicate SameSize(w: World, w': World) {
    |w.slots| == |w'.slots| && |w.tasks| == |w'.tasks| && |w.retiring| == |w'.retiring|
  }

  function AttachStep(w: World): (w': World)
    requires WellSized(w)
    ensures SameSize(w, w')
  {
    var i := FirstDetached(w.slots);
    if w.closing || w.destroying || i == |w.slots| then w
    else
      var s := w.slots[i];
      w.(slots := w.slots[i := s.(generation := if s.generation == UINT64_MAX then 1 else s.generation + 1, attached := true)],
         attached := w.attached + 1)
  }

  function ScheduleStep(w: World, i: nat, generation: nat): (w': World)
    requires WellSized(w)
    ensures SameSize(w, w')
  {
    if !Matches(w, i, generation) || w.closing || w.destroying then w
    else
      var s := w.slots[i];
      w.(slots := w.slots[i := s.(scheduled := true)],
         tasks := w.tasks[i := Ask(w.tasks[i], s.scheduled, s.running, s.generation)])
  }

  function SlotMoveStep(w: World, i: nat, m: Move): (w': World)
    requires WellSized(w)
    ensures SameSize(w, w')
  {
    if i >= |w.slots| || !Enabled(w.tasks[i], m) then w
    else
      var s := w.slots[i];
      w.(slots := w.slots[i := MoveSlot(s, m)],
         tasks := w.tasks[i := Moved(w.tasks[i], m, s.attached && s.scheduled && !w.destroying)])
  }

  function DetachStep(w: World, i: nat, generation: nat): (w': World)
    requires WellSized(w)
    ensures SameSize(w, w')
  {
    if !Matches(w, i, generation) || w.slots[i].scheduled || w.slots[i].running || w.slots[i].owned then w
    else w.(slots := w.slots[i := w.slots[i].(attached := false)], attached := if w.attached == 0 then 0 else w.attached - 1)
  }

  predicate Submits(w: World, i: nat, socket: int) {
    && i < |w.slots| && w.slots[i].attached && !w.closing && !w.destroying && !w.slots[i].owned
    && !Retired(w.retiring, socket)
  }

  function SubmitStep(w: World, i: nat, socket: int): (w': World)
    ensures SameSize(w, w')
  {
    if Submits(w, i, socket) then w.(slots := w.slots[i := w.slots[i].(owned := true, socket := socket)]) else w
  }

  function AfterEvent(s: Slot, e: OperationEvent, driving: bool): Slot {
    match e
    case SubmitRefused => s.(owned := false)
    case Release => s.(owned := false, acknowledge := false)
    case Completed => s.(acknowledge := s.acknowledge || s.owned)
    case Acknowledge => s.(acknowledge := false)
    case AcknowledgeBusy => s.(acknowledge := s.acknowledge || driving)
  }

  function OperationStep(w: World, i: nat, e: OperationEvent): (w': World)
    ensures SameSize(w, w')
  {
    var driving := w.bridgeTasks.driving > 0;
    if i >= |w.slots| then w
    else
      w.(slots := w.slots[i := AfterEvent(w.slots[i], e, driving)],
         bridgeScheduled := w.bridgeScheduled || (e.AcknowledgeBusy? && driving))
  }

  function RetireStep(w: World, socket: int): (w': World)
    ensures SameSize(w, w')
  {
    var i := FirstFree(w.retiring);
    if InUse(w.slots, socket) || Retired(w.retiring, socket) || i == |w.retiring| then w
    else w.(retiring := w.retiring[i := Retiring(socket, true)])
  }

  function ForgetStep(w: World, socket: int): (w': World)
    ensures SameSize(w, w')
  {
    var i := Find(w.retiring, socket);
    if i == |w.retiring| then w else w.(retiring := w.retiring[i := w.retiring[i].(active := false)])
  }

  function BridgeMoveStep(w: World, m: Move): (w': World)
    ensures SameSize(w, w')
  {
    if !Enabled(w.bridgeTasks, m) then w
    else
      w.(bridgeTasks := Moved(w.bridgeTasks, m, w.bridgeScheduled && w.bridgeLive),
         bridgeScheduled := w.bridgeScheduled && !(m.GiveUp? || m.Begin? || m.Cancel?),
         bridgeRunning := m.Begin? || (w.bridgeRunning && !(m.Finish? || m.Cancel?)))
  }

  function BridgeStep(w: World, e: BridgeEvent): (w': World)
    ensures SameSize(w, w')
  {
    match e
    case Wake =>
      if !w.bridgeLive then w
      else w.(bridgeScheduled := true, bridgeTasks := Ask(w.bridgeTasks, w.bridgeScheduled, w.bridgeRunning, 0))
    case DriverMove(m) => BridgeMoveStep(w, m)
    // the driver asks for another turn of itself
    case Again => if w.bridgeTasks.driving > 0 then w.(bridgeScheduled := true) else w
    case Down => if w.destroying then w.(bridgeLive := false) else w
  }

  function LifecycleStep(w: World, p: Phase): (w': World)
    ensures SameSize(w, w')
  {
    match p
    case Started => if w.closing || w.operations == |w.slots| then w else w.(operations := w.operations + 1)
    case Finished => if w.operations == 0 then w else w.(operations := w.operations - 1)
    case Close => if w.attached != 0 || w.operations != 0 then w else w.(closing := true)
    case Destroy =>
      if !w.closing || w.destroying || w.attached != 0 || w.operations != 0 then w else w.(destroying := true)
    // before or after the bridge went down
    case DestroyFails => if w.destroying then w.(destroying := false) else w
  }

  function Step(w: World, a: Action): (w': World)
    requires WellSized(w)
    ensures SameSize(w, w')
  {
    match a
    case Attach => AttachStep(w)
    case Schedule(i, g) => ScheduleStep(w, i, g)
    case SlotMove(i, m) => SlotMoveStep(w, i, m)
    case Detach(i, g) => DetachStep(w, i, g)
    case Submit(i, socket) => SubmitStep(w, i, socket)
    case Operation(i, e) => OperationStep(w, i, e)
    case Retire(socket) => RetireStep(w, socket)
    case Forget(socket) => ForgetStep(w, socket)
    case Lifecycle(p) => LifecycleStep(w, p)
    case Bridge(e) => BridgeStep(w, e)
  }

  function Run(w: World, actions: seq<Action>): (w': World)
    requires WellSized(w)
    ensures SameSize(w, w')
    decreases |actions|
  {
    if actions == [] then w else Run(Step(w, actions[0]), actions[1..])
  }

  function Initial(capacity: nat): World {
    World(seq(capacity, i => DETACHED), seq(capacity, i => NO_TASKS),
          seq(capacity, i => Retiring(0, false)), 0, 0, false, false, true, false, false, NO_TASKS)
  }
}
