/** What every interleaving of the runtime's steps keeps. */
module IoRuntimeRuns {
  import opened IoRuntime

  function Attached(slots: seq<Slot>): nat {
    if slots == [] then 0 else (if slots[0].attached then 1 else 0) + Attached(slots[1..])
  }

  lemma {:induction false} AttachedUpdate(slots: seq<Slot>, i: nat, s: Slot)
    requires i < |slots|
    ensures Attached(slots[i := s]) ==
              Attached(slots) - (if slots[i].attached then 1 else 0) + (if s.attached then 1 else 0)
  {
    if i == 0 {
      assert slots[i := s][1..] == slots[1..];
    } else {
      assert slots[i := s][1..] == slots[1..][i - 1 := s];
      AttachedUpdate(slots[1..], i - 1, s);
    }
  }

  lemma {:induction false} SomeAttached(slots: seq<Slot>, i: nat)
    requires i < |slots| && slots[i].attached
    ensures Attached(slots) > 0
  {
    if i > 0 { SomeAttached(slots[1..], i - 1); }
  }

  lemma {:induction false} NoneAttached(capacity: nat)
    ensures Attached(seq(capacity, i => DETACHED)) == 0
  {
    if capacity > 0 {
      var s := seq(capacity, i => DETACHED);
      assert s[1..] == seq(capacity - 1, i => DETACHED);
      NoneAttached(capacity - 1);
    }
  }

  /** At most one piece of work is in flight; there is one exactly when a flag is set; the slot is being driven
      exactly when `running`; and work in flight belongs to the present attachment. */
  predicate SlotOk(s: Slot, t: Tasks) {
    && Total(t) <= 1 && (Total(t) == 1 <==> s.scheduled || s.running) && (s.running <==> t.driving == 1)
    && (s.scheduled || s.running || s.owned ==> s.attached)
    && (Total(t) == 1 ==> t.generation == s.generation)
    && (s.attached ==> s.generation > 0)
  }

  predicate BridgeOk(w: World) {
    && Total(w.bridgeTasks) <= 1 && (w.bridgeRunning <==> w.bridgeTasks.driving == 1)
    && (w.bridgeLive ==> (Total(w.bridgeTasks) == 1 <==> w.bridgeScheduled || w.bridgeRunning))
    && (Total(w.bridgeTasks) == 1 && w.bridgeTasks.driving == 0 ==> w.bridgeScheduled)
  }

  predicate CountsOk(w: World) {
    && w.attached == Attached(w.slots) && w.operations <= |w.slots|
    && (w.destroying ==> w.closing) && (w.closing ==> w.attached == 0 && w.operations == 0)
    && (!w.bridgeLive ==> w.closing)
  }

  predicate SlotsOk(w: World)
    requires WellSized(w)
  {
    forall i :: 0 <= i < |w.slots| ==> SlotOk(w.slots[i], w.tasks[i])
  }

  /** No owned operation is on a retiring socket, and no socket is retiring twice. */
  predicate SocketsOk(slots: seq<Slot>, retiring: seq<Retiring>) {
    && (forall i, j :: 0 <= i < |slots| && 0 <= j < |retiring| && slots[i].owned && retiring[j].active ==>
                         slots[i].socket != retiring[j].identity)
    && (forall j, k :: 0 <= j < k < |retiring| && retiring[j].active && retiring[k].active ==>
                         retiring[j].identity != retiring[k].identity)
  }

  predicate Invariant(w: World) {
    WellSized(w) && CountsOk(w) && SlotsOk(w) && SocketsOk(w.slots, w.retiring) && BridgeOk(w)
  }

  lemma SlotMoveOk(s: Slot, t: Tasks, m: Move, destroying: bool)
    requires SlotOk(s, t) && Enabled(t, m) && (destroying ==> !s.attached)
    ensures SlotOk(MoveSlot(s, m), Moved(t, m, s.attached && s.scheduled && !destroying))
    ensures MoveSlot(s, m).attached == s.attached && MoveSlot(s, m).owned == s.owned && MoveSlot(s, m).socket == s.socket
  {
  }

  /** Changing one slot, not its attachment, to another that is ok. */
  lemma ReplaceSlot(w: World, i: nat, s: Slot, t: Tasks)
    requires Invariant(w) && i < |w.slots| && SlotOk(s, t) && s.attached == w.slots[i].attached
    requires s.owned ==> forall j :: 0 <= j < |w.retiring| && w.retiring[j].active ==> s.socket != w.retiring[j].identity
    ensures Invariant(w.(slots := w.slots[i := s], tasks := w.tasks[i := t]))
  {
    AttachedUpdate(w.slots, i, s);
  }

  lemma AttachKeeps(w: World)
    requires Invariant(w)
    ensures Invariant(AttachStep(w))
  {
    var i := FirstDetached(w.slots);
    var w' := AttachStep(w);
    if w' != w {
      AttachedUpdate(w.slots, i, w'.slots[i]);
      assert SlotOk(w.slots[i], w.tasks[i]);
    }
  }

  lemma DetachKeeps(w: World, i: nat, generation: nat)
    requires Invariant(w)
    ensures Invariant(DetachStep(w, i, generation))
  {
    var w' := DetachStep(w, i, generation);
    if w' != w {
      AttachedUpdate(w.slots, i, w'.slots[i]);
      SomeAttached(w.slots, i);
      assert SlotOk(w.slots[i], w.tasks[i]);
    }
  }

  lemma RetireKeeps(w: World, socket: int)
    requires Invariant(w)
    ensures Invariant(RetireStep(w, socket))
  {
    var w' := RetireStep(w, socket);
    if w' != w {
      assert !InUse(w.slots, socket) && !Retired(w.retiring, socket);
    }
  }

  lemma BridgeMoveOk(w: World, m: Move)
    requires BridgeOk(w)
    ensures BridgeOk(BridgeMoveStep(w, m))
  {
  }

  lemma BridgeEventOk(w: World, e: BridgeEvent)
    requires BridgeOk(w)
    ensures BridgeOk(BridgeStep(w, e))
  {
    if e.DriverMove? { BridgeMoveOk(w, e.move); }
  }

  /** The bridge touches nothing else. */
  lemma BridgeApart(w: World, e: BridgeEvent)
    ensures
      var w' := BridgeStep(w, e);
      && w'.slots == w.slots && w'.tasks == w.tasks && w'.retiring == w.retiring && w'.attached == w.attached
      && w'.operations == w.operations && w'.closing == w.closing && w'.destroying == w.destroying
      && (w'.bridgeLive == w.bridgeLive || w.destroying)
  {
  }

  lemma BridgeKeeps(w: World, e: BridgeEvent)
    requires Invariant(w)
    ensures Invariant(BridgeStep(w, e))
  {
    BridgeEventOk(w, e);
    BridgeApart(w, e);
  }

  lemma OperationKeeps(w: World, i: nat, e: OperationEvent)
    requires Invariant(w)
    ensures Invariant(OperationStep(w, i, e))
  {
    var w' := OperationStep(w, i, e);
    if i < |w.slots| {
      assert SlotOk(w.slots[i], w.tasks[i]);
      ReplaceSlot(w, i, w'.slots[i], w.tasks[i]);
      assert w.tasks[i := w.tasks[i]] == w.tasks && w'.slots == w.slots[i := w'.slots[i]];
    }
  }

  lemma ScheduleKeeps(w: World, i: nat, generation: nat)
    requires Invariant(w)
    ensures Invariant(ScheduleStep(w, i, generation))
  {
    if Matches(w, i, generation) && !w.closing && !w.destroying {
      var s, t := w.slots[i], w.tasks[i];
      assert SlotOk(s, t);
      ReplaceSlot(w, i, s.(scheduled := true), Ask(t, s.scheduled, s.running, s.generation));
    }
  }

  lemma SlotMoveKeeps(w: World, i: nat, m: Move)
    requires Invariant(w)
    ensures Invariant(SlotMoveStep(w, i, m))
  {
    if i < |w.slots| && Enabled(w.tasks[i], m) {
      var s, t := w.slots[i], w.tasks[i];
      if s.attached { SomeAttached(w.slots, i); }
      SlotMoveOk(s, t, m, w.destroying);
      ReplaceSlot(w, i, MoveSlot(s, m), Moved(t, m, s.attached && s.scheduled && !w.destroying));
    }
  }

  lemma SubmitKeeps(w: World, i: nat, socket: int)
    requires Invariant(w)
    ensures Invariant(SubmitStep(w, i, socket))
  {
    if Submits(w, i, socket) {
      assert SlotOk(w.slots[i], w.tasks[i]);
      ReplaceSlot(w, i, w.slots[i].(owned := true, socket := socket), w.tasks[i]);
      assert w.tasks[i := w.tasks[i]] == w.tasks;
    }
  }

  lemma ForgetKeeps(w: World, socket: int)
    requires Invariant(w)
    ensures Invariant(ForgetStep(w, socket))
  {
  }

  lemma LifecycleKeeps(w: World, p: Phase)
    requires Invariant(w)
    ensures Invariant(LifecycleStep(w, p))
  {
  }

  lemma StepKeeps(w: World, a: Action)
    requires Invariant(w)
    ensures Invariant(Step(w, a))
  {
    match a
    case Attach => AttachKeeps(w);
    case Schedule(i, g) => ScheduleKeeps(w, i, g);
    case SlotMove(i, m) => SlotMoveKeeps(w, i, m);
    case Detach(i, g) => DetachKeeps(w, i, g);
    case Submit(i, socket) => SubmitKeeps(w, i, socket);
    case Operation(i, e) => OperationKeeps(w, i, e);
    case Retire(socket) => RetireKeeps(w, socket);
    case Forget(socket) => ForgetKeeps(w, socket);
    case Lifecycle(p) => LifecycleKeeps(w, p);
    case Bridge(e) => BridgeKeeps(w, e);
  }

  lemma InitialOk(capacity: nat)
    ensures Invariant(Initial(capacity))
  {
    NoneAttached(capacity);
  }

  /** EVERY INTERLEAVING keeps the invariant. */
  lemma {:induction false} RunKeeps(w: World, actions: seq<Action>)
    requires Invariant(w)
    ensures Invariant(Run(w, actions))
    decreases |actions|
  {
    if actions != [] {
      StepKeeps(w, actions[0]);
      RunKeeps(Step(w, actions[0]), actions[1..]);
    }
  }

  /** AT MOST ONE TASK, NO LOST WAKE-UP.  In every reachable state a slot has at most one task queued or running, and
      a set `scheduled` flag has a task queued, running or being posted, or a thread about to report its refusal. */
  lemma OneDriver(capacity: nat, actions: seq<Action>, i: nat)
    requires i < capacity
    ensures
      var w := Run(Initial(capacity), actions);
      var s, t := w.slots[i], w.tasks[i];
      && t.queued + t.entering + t.driving <= 1
      && (s.scheduled ==> t.posting + t.refused + t.queued + t.entering + t.driving == 1)
      && (s.running <==> t.driving == 1)
  {
    InitialOk(capacity);
    RunKeeps(Initial(capacity), actions);
    var w := Run(Initial(capacity), actions);
    assert SlotOk(w.slots[i], w.tasks[i]);
  }

  /** A task that begins finds its slot attached, by the very attachment that scheduled it. */
  lemma TasksOutliveNothing(capacity: nat, actions: seq<Action>, i: nat)
    requires i < capacity
    ensures
      var w := Run(Initial(capacity), actions);
      Total(w.tasks[i]) > 0 ==> w.slots[i].attached && w.tasks[i].generation == w.slots[i].generation && !w.destroying
  {
    InitialOk(capacity);
    RunKeeps(Initial(capacity), actions);
    var w := Run(Initial(capacity), actions);
    assert SlotOk(w.slots[i], w.tasks[i]);
    if w.slots[i].attached { SomeAttached(w.slots, i); }
  }

  /** NO OPERATION ON A RETIRING SOCKET, in any reachable state. */
  lemma RetiringIsUnused(capacity: nat, actions: seq<Action>, i: nat)
    requires i < capacity
    ensures
      var w := Run(Initial(capacity), actions);
      w.slots[i].owned ==> !Retired(w.retiring, w.slots[i].socket)
  {
    InitialOk(capacity);
    RunKeeps(Initial(capacity), actions);
  }

  /** Forgetting a socket leaves it out of the retiring set: it was there once at most. */
  lemma ForgottenIsGone(capacity: nat, actions: seq<Action>, socket: int)
    ensures !Retired(Run(Initial(capacity), actions + [Forget(socket)]).retiring, socket)
  {
    var w := Run(Initial(capacity), actions);
    InitialOk(capacity);
    RunKeeps(Initial(capacity), actions);
    RunSplit(Initial(capacity), actions, [Forget(socket)]);
    RunOne(w, Forget(socket));
    ForgetRemoves(w, socket);
  }

  lemma {:induction false} RunSplit(w: World, a: seq<Action>, b: seq<Action>)
    requires WellSized(w)
    ensures Run(w, a + b) == Run(Run(w, a), b)
    decreases |a|
  {
    if a == [] {
      assert a + b == b;
    } else {
      assert (a + b)[1..] == a[1..] + b;
      RunSplit(Step(w, a[0]), a[1..], b);
    }
  }

  predicate Busy(s: Slot) {
    s.scheduled || s.running || s.owned || s.acknowledge
  }

  /** What the idle check looks at. */
  predicate Idle(w: World) {
    w.operations == 0 && !w.bridgeScheduled && !w.bridgeRunning
    && forall i :: 0 <= i < |w.slots| ==> !Busy(w.slots[i])
  }

  lemma IdleIsQuiet(w: World)
    requires Invariant(w)
    ensures Idle(w) ==> (forall i :: 0 <= i < |w.tasks| ==> Total(w.tasks[i]) == 0) && Total(w.bridgeTasks) == 0
  {
    if Idle(w) {
      forall i | 0 <= i < |w.tasks| ensures Total(w.tasks[i]) == 0 {
        assert SlotOk(w.slots[i], w.tasks[i]) && !Busy(w.slots[i]);
      }
    }
  }

  /** A slot with work in flight is attached, so the runtime is not closing. */
  lemma AttachedIsOpen(w: World, i: nat)
    requires Invariant(w) && i < |w.slots|
    ensures SlotOk(w.slots[i], w.tasks[i]) && (Total(w.tasks[i]) > 0 ==> w.slots[i].attached && !w.closing && !w.destroying)
  {
    if w.slots[i].attached { SomeAttached(w.slots, i); }
  }

  lemma ForgetRemoves(w: World, socket: int)
    requires Invariant(w)
    ensures !Retired(ForgetStep(w, socket).retiring, socket)
  {
  }

  /** IDLE MEANS QUIET.  When the check finds every flag clear, nothing is queued, running or about to be posted. */
  lemma IdleMeansQuiet(capacity: nat, actions: seq<Action>)
    ensures
      var w := Run(Initial(capacity), actions);
      Idle(w) ==> (forall i :: 0 <= i < capacity ==> Total(w.tasks[i]) == 0) && Total(w.bridgeTasks) == 0
  {
    InitialOk(capacity);
    RunKeeps(Initial(capacity), actions);
    IdleIsQuiet(Run(Initial(capacity), actions));
  }

  // ---- the fate of a wake-up -----------------------------------------------------------------

  /** The moves that clear the flag of slot `i` when they can be made. */
  predicate Clears(w: World, a: Action, i: nat)
    requires WellSized(w) && i < |w.slots|
  {
    a.SlotMove? && a.slot == i && Enabled(w.tasks[i], a.move) && (a.move.Begin? || a.move.GiveUp? || a.move.Cancel?)
  }

  lemma SlotMoveClears(w: World, k: nat, m: Move, i: nat)
    requires Invariant(w) && i < |w.slots| && w.slots[i].scheduled
    ensures !SlotMoveStep(w, k, m).slots[i].scheduled <==> Clears(w, SlotMove(k, m), i)
  {
    assert SlotOk(w.slots[i], w.tasks[i]);
  }

  lemma OthersClearNothing(w: World, a: Action, i: nat)
    requires Invariant(w) && i < |w.slots| && w.slots[i].scheduled && !a.SlotMove? && !a.Operation?
    ensures Step(w, a).slots[i].scheduled
  {
    match a
    case Bridge(e) => BridgeApart(w, e);
    case Attach => assert SlotOk(w.slots[i], w.tasks[i]);
    case _ =>
  }

  lemma OperationClearsNothing(w: World, k: nat, e: OperationEvent, i: nat)
    requires i < |w.slots|
    ensures OperationStep(w, k, e).slots[i].scheduled == w.slots[i].scheduled
  {
    if k < |w.slots| { assert AfterEvent(w.slots[k], e, w.bridgeTasks.driving > 0).scheduled == w.slots[k].scheduled; }
  }

  /** EXACTLY THREE MOVES clear a set flag: a drive that begins, a thread that gives up after its post was refused, and
      the cancellation of a queued task. */
  lemma WakeupAnswered(w: World, a: Action, i: nat)
    requires Invariant(w) && i < |w.slots| && w.slots[i].scheduled
    ensures !Step(w, a).slots[i].scheduled <==> Clears(w, a, i)
  {
    if a.SlotMove? {
      SlotMoveClears(w, a.slot, a.move, i);
    } else if a.Operation? {
      OperationClearsNothing(w, a.slot, a.operation, i);
    } else {
      OthersClearNothing(w, a, i);
    }
  }

  /** What becomes of a wake-up in a run: the flag stays set, or the first move to clear it, at position `at`, is a
      drive or drops it. */
  datatype Fate = Waiting | Driven(at: nat) | Dropped(at: nat)

  function FateOf(w: World, actions: seq<Action>, i: nat): Fate
    requires WellSized(w) && i < |w.slots|
    decreases |actions|
  {
    if actions == [] then Waiting
    else if Clears(w, actions[0], i) then if actions[0].move.Begin? then Driven(0) else Dropped(0)
    else
      match FateOf(Step(w, actions[0]), actions[1..], i)
      case Waiting => Waiting
      case Driven(k) => Driven(k + 1)
      case Dropped(k) => Dropped(k + 1)
  }

  /** Up to here the flag has been set all along. */
  predicate SetUntil(w: World, actions: seq<Action>, i: nat, k: nat)
    requires WellSized(w) && i < |w.slots| && k <= |actions|
  {
    forall j :: 0 <= j <= k ==> Run(w, actions[..j]).slots[i].scheduled
  }

  lemma SetLonger(w: World, actions: seq<Action>, i: nat, k: nat)
    requires Invariant(w) && i < |w.slots| && w.slots[i].scheduled && actions != [] && k < |actions|
    requires SetUntil(Step(w, actions[0]), actions[1..], i, k)
    ensures SetUntil(w, actions, i, k + 1)
  {
    forall j | 0 <= j <= k + 1 ensures Run(w, actions[..j]).slots[i].scheduled {
      if j > 0 { assert actions[..j][0] == actions[0] && actions[..j][1..] == actions[1..][..j - 1]; }
    }
  }

  /** What a clearing move leaves: a drive under way, or no work for the slot at all. */
  lemma Cleared(w: World, a: Action, i: nat)
    requires Invariant(w) && i < |w.slots| && w.slots[i].scheduled && Clears(w, a, i)
    ensures
      var w' := Step(w, a);
      && !w'.slots[i].scheduled
      && (if a.move.Begin? then w'.slots[i].running && w'.tasks[i].driving == 1
          else !w'.slots[i].running && Total(w'.tasks[i]) == 0)
  {
    assert SlotOk(w.slots[i], w.tasks[i]);
  }

  /** What the fate of a wake-up says about the run. */
  predicate FateShows(w: World, actions: seq<Action>, i: nat, fate: Fate)
    requires WellSized(w) && i < |w.slots|
  {
    match fate
    case Waiting => SetUntil(w, actions, i, |actions|)
    case Driven(k) =>
      && k < |actions| && SetUntil(w, actions, i, k) && actions[k] == SlotMove(i, Begin)
      && var w' := Step(Run(w, actions[..k]), actions[k]);
         !w'.slots[i].scheduled && w'.slots[i].running && w'.tasks[i].driving == 1
    case Dropped(k) =>
      && k < |actions| && SetUntil(w, actions, i, k) && (actions[k] == SlotMove(i, GiveUp) || actions[k] == SlotMove(i, Cancel))
      && var w' := Step(Run(w, actions[..k]), actions[k]);
         !w'.slots[i].scheduled && !w'.slots[i].running && Total(w'.tasks[i]) == 0
  }

  lemma FateLonger(w: World, actions: seq<Action>, i: nat, fate: Fate)
    requires Invariant(w) && i < |w.slots| && w.slots[i].scheduled && actions != []
    requires FateShows(Step(w, actions[0]), actions[1..], i, fate)
    ensures FateShows(w, actions, i,
              match fate case Waiting => Waiting case Driven(k) => Driven(k + 1) case Dropped(k) => Dropped(k + 1))
  {
    if fate.Waiting? {
      SetLonger(w, actions, i, |actions| - 1);
    } else {
      SetLonger(w, actions, i, fate.at);
      assert actions[..fate.at + 1][1..] == actions[1..][..fate.at];
    }
  }

  /** THE FATE OF A WAKE-UP, in every run from a set flag.  The flag stays set until a drive of the slot begins, or until
      a refused or cancelled post drops it, and a dropped one leaves no work behind: nothing drives the slot until it is
      asked again. */
  lemma {:induction false} WakeupFate(w: World, actions: seq<Action>, i: nat)
    requires Invariant(w) && i < |w.slots| && w.slots[i].scheduled
    ensures FateShows(w, actions, i, FateOf(w, actions, i))
    decreases |actions|
  {
    if actions == [] {
    } else if Clears(w, actions[0], i) {
      Cleared(w, actions[0], i);
      assert actions[..0] == [];
    } else {
      StepKeeps(w, actions[0]);
      WakeupAnswered(w, actions[0], i);
      WakeupFate(Step(w, actions[0]), actions[1..], i);
      FateLonger(w, actions, i, FateOf(Step(w, actions[0]), actions[1..], i));
    }
  }

  lemma StageStays(w: World, a: Action, i: nat)
    requires Invariant(w) && i < |w.slots| && w.slots[i].scheduled && !Clears(w, a, i)
    ensures w.tasks[i].refused > 0 ==> Step(w, a).tasks[i].refused > 0
    ensures w.tasks[i].entering > 0 ==> Step(w, a).tasks[i].entering > 0
  {
    assert SlotOk(w.slots[i], w.tasks[i]);
  }

  /** WHEN IT IS DECIDED.  A request that finds the flag set while the refused thread has not reported yet is never
      answered by a drive; one that finds its driver already taken by the executor is never dropped. */
  lemma {:induction false} WakeupDecided(w: World, actions: seq<Action>, i: nat)
    requires Invariant(w) && i < |w.slots| && w.slots[i].scheduled
    ensures w.tasks[i].refused > 0 ==> !FateOf(w, actions, i).Driven?
    ensures w.tasks[i].entering > 0 ==> !FateOf(w, actions, i).Dropped?
    decreases |actions|
  {
    assert SlotOk(w.slots[i], w.tasks[i]);
    if actions != [] && !Clears(w, actions[0], i) {
      StepKeeps(w, actions[0]);
      WakeupAnswered(w, actions[0], i);
      StageStays(w, actions[0], i);
      WakeupDecided(Step(w, actions[0]), actions[1..], i);
    }
  }

  /** A request that finds the flag set is told OK without posting; if the post it relies on was refused, it is
      given up with it. */
  lemma WakeupGivenUp()
    ensures
      var w := Run(Initial(1), [Attach, Schedule(0, 1), SlotMove(0, Refuse)]);
      var w' := Step(Step(w, Schedule(0, 1)), SlotMove(0, GiveUp));
      Matches(w, 0, 1) && w.slots[0].scheduled && !w'.slots[0].scheduled && Total(w'.tasks[0]) == 0
  {
    var w0 := Initial(1);
    var w1 := Step(w0, Attach);
    var w2 := Step(w1, Schedule(0, 1));
    var w := Step(w2, SlotMove(0, Refuse));
    assert w0.slots[0] == DETACHED && w0.tasks[0] == NO_TASKS;
    assert w1.slots[0] == Slot(1, true, false, false, false, 0, false);
    RunSplit(w0, [Attach], [Schedule(0, 1), SlotMove(0, Refuse)]);
    RunSplit(w1, [Schedule(0, 1)], [SlotMove(0, Refuse)]);
    assert [Attach] + [Schedule(0, 1), SlotMove(0, Refuse)] == [Attach, Schedule(0, 1), SlotMove(0, Refuse)];
    assert [Schedule(0, 1)] + [SlotMove(0, Refuse)] == [Schedule(0, 1), SlotMove(0, Refuse)];
    RunOne(w0, Attach);
    RunOne(w1, Schedule(0, 1));
    RunOne(w2, SlotMove(0, Refuse));
  }

  lemma RunOne(w: World, a: Action)
    requires WellSized(w)
    ensures Run(w, [a]) == Step(w, a)
  {
    assert [a][1..] == [];
  }

  /** The bridge, while it is up, is driven the same way. */
  lemma OneBridgeTask(capacity: nat, actions: seq<Action>)
    ensures
      var w := Run(Initial(capacity), actions);
      Total(w.bridgeTasks) <= 1 && (w.bridgeLive && w.bridgeScheduled ==> Total(w.bridgeTasks) == 1)
  {
    InitialOk(capacity);
    RunKeeps(Initial(capacity), actions);
  }
}
