/** Conservation of leases, in every run of the pool. */
module PoolRuns {
  import opened Pool

  // ---- counting streams ----------------------------------------------------------------------

  /** Live streams of a slot; live streams of a slot that have not given it back; all of the latter. */
  datatype Kind = LiveOn(slot: nat) | OpenOn(slot: nat) | OpenAnywhere

  function Has(t: Stream, k: Kind): nat {
    match k
    case LiveOn(i) => if t.live && t.slot == i then 1 else 0
    case OpenOn(i) => if t.live && !t.released && t.slot == i then 1 else 0
    case OpenAnywhere => if t.live && !t.released then 1 else 0
  }

  function Count(ts: seq<Stream>, k: Kind): nat {
    if ts == [] then 0 else Has(ts[0], k) + Count(ts[1..], k)
  }

  lemma {:induction false} CountUpdate(ts: seq<Stream>, id: nat, t: Stream, k: Kind)
    requires id < |ts|
    ensures Count(ts[id := t], k) == Count(ts, k) - Has(ts[id], k) + Has(t, k)
  {
    if id == 0 {
      assert ts[id := t][1..] == ts[1..];
    } else {
      assert ts[id := t][1..] == ts[1..][id - 1 := t];
      CountUpdate(ts[1..], id - 1, t, k);
    }
  }

  lemma {:induction false} CountAppend(ts: seq<Stream>, t: Stream, k: Kind)
    ensures Count(ts + [t], k) == Count(ts, k) + Has(t, k)
  {
    if ts == [] {
      assert ts + [t] == [t] && [t][1..] == [];
    } else {
      assert (ts + [t])[1..] == ts[1..] + [t];
      CountAppend(ts[1..], t, k);
    }
  }

  lemma {:induction false} Counted(ts: seq<Stream>, id: nat, k: Kind)
    requires id < |ts|
    ensures Has(ts[id], k) <= Count(ts, k)
  {
    if id > 0 { Counted(ts[1..], id - 1, k); }
  }

  lemma {:induction false} CountedTwice(ts: seq<Stream>, a: nat, b: nat, k: Kind)
    requires a < b < |ts|
    ensures Has(ts[a], k) + Has(ts[b], k) <= Count(ts, k)
  {
    if a == 0 { Counted(ts[1..], b - 1, k); } else { CountedTwice(ts[1..], a - 1, b - 1, k); }
  }

  // ---- the invariant -------------------------------------------------------------------------

  function Borrowed(s: Slot): nat { if s.state == BORROWED then 1 else 0 }

  predicate NotYetUp(s: Slot) {
    s.state == CLOSED || s.state == CONNECTING || s.state == PREPARING
  }

  /** References count live streams; lent slots have exactly one stream that has not given them back; a slot that is
      being connected has none at all; a connection works for a live, unended stream of its slot. */
  predicate SlotOk(p: PoolState, i: nat)
    requires i < |p.slots|
  {
    var s := p.slots[i];
    && s.refs == Count(p.streams, LiveOn(i))
    && Borrowed(s) == Count(p.streams, OpenOn(i))
    && (NotYetUp(s) ==> s.refs == 0)
    && (s.active.Command? ==>
          var id := s.active.stream;
          id < |p.streams| && p.streams[id].live && !p.streams[id].ended && p.streams[id].slot == i)
  }

  predicate StreamOk(p: PoolState, id: nat)
    requires id < |p.streams|
  {
    var t := p.streams[id];
    t.live ==>
      && t.slot < |p.slots| && (t.terminal <==> t.released) && (t.ended ==> t.terminal)
      && (!t.ended ==> p.slots[t.slot].active == Command(id))
  }

  predicate StatsOk(p: PoolState) {
    p.stats.admitted == p.stats.completed + p.stats.failed + Count(p.streams, OpenAnywhere) && p.stats.cancelled <= p.stats.failed
  }

  predicate Invariant(p: PoolState) {
    && (forall i :: 0 <= i < |p.slots| ==> SlotOk(p, i))
    && (forall id :: 0 <= id < |p.streams| ==> StreamOk(p, id))
    && StatsOk(p)
    && (p.phase == Closing || p.phase == Closed ==> Quiet(p))
  }

  // ---- streams -------------------------------------------------------------------------------

  /** What a step may do to one stream and the slot it is on. */
  predicate Fair(id: nat, t: Stream, t': Stream, s: Slot, s': Slot) {
    && t.live && t'.slot == t.slot
    && s'.refs == s.refs - (if t'.live then 0 else 1)
    && (t'.live ==> (t'.terminal <==> t'.released) && (t'.ended ==> t'.terminal))
    && (!t'.live ==> t'.ended && t'.released)
    && (t.released ==> t'.released && s'.state == s.state)
    && (!t.released ==> (if t'.released then s'.state == IDLE || s'.state == INVALID else s'.state == s.state))
    && (s.active == Command(id) ==> s'.active == if t'.ended then Nobody else Command(id))
    && (s.active != Command(id) ==> s'.active == s.active && t.ended && t'.ended)
  }

  predicate Booked(st: Stats, st': Stats, released: bool) {
    && st'.admitted == st.admitted && st'.completed + st'.failed == st.completed + st.failed + (if released then 1 else 0)
    && st'.cancelled <= st'.failed
  }

  function Replaced(p: PoolState, id: nat, t': Stream, s': Slot, st': Stats): PoolState
    requires Known(p, id)
  {
    p.(slots := p.slots[p.streams[id].slot := s'], streams := p.streams[id := t'], stats := st')
  }

  lemma OtherSlot(p: PoolState, id: nat, t': Stream, s': Slot, st': Stats, j: nat)
    requires Invariant(p) && Known(p, id) && j < |p.slots|
    requires Fair(id, p.streams[id], t', p.slots[p.streams[id].slot], s')
    ensures SlotOk(Replaced(p, id, t', s', st'), j)
  {
    CountUpdate(p.streams, id, t', LiveOn(j));
    CountUpdate(p.streams, id, t', OpenOn(j));
    Counted(p.streams, id, LiveOn(j));
    Counted(p.streams, id, OpenOn(j));
    assert SlotOk(p, j) && StreamOk(p, id);
  }

  lemma OtherStream(p: PoolState, id: nat, t': Stream, s': Slot, st': Stats, other: nat)
    requires Invariant(p) && Known(p, id) && other < |p.streams|
    requires Fair(id, p.streams[id], t', p.slots[p.streams[id].slot], s')
    ensures StreamOk(Replaced(p, id, t', s', st'), other)
  {
    assert StreamOk(p, other) && StreamOk(p, id);
  }

  lemma ReplacedKeeps(p: PoolState, id: nat, t': Stream, s': Slot, st': Stats)
    requires Invariant(p) && Known(p, id)
    requires Fair(id, p.streams[id], t', p.slots[p.streams[id].slot], s')
    requires Booked(p.stats, st', t'.released && !p.streams[id].released)
    ensures Invariant(Replaced(p, id, t', s', st'))
  {
    var p' := Replaced(p, id, t', s', st');
    forall j | 0 <= j < |p'.slots| ensures SlotOk(p', j) { OtherSlot(p, id, t', s', st', j); }
    forall k | 0 <= k < |p'.streams| ensures StreamOk(p', k) { OtherStream(p, id, t', s', st', k); }
    CountUpdate(p.streams, id, t', OpenAnywhere);
    LiveIsNotClosing(p, id);
  }

  /** A live stream keeps the pool from closing. */
  lemma LiveIsNotClosing(p: PoolState, id: nat)
    requires Invariant(p) && Known(p, id)
    ensures p.phase != Closing && p.phase != Closed && p.slots[p.streams[id].slot].refs > 0
  {
    var i := p.streams[id].slot;
    assert SlotOk(p, i);
    Counted(p.streams, id, LiveOn(i));
  }

  /** The step changes this stream and its slot only, as `Fair` and `Booked` allow. */
  predicate Local(p: PoolState, p': PoolState, id: nat)
    requires Known(p, id)
  {
    var i := p.streams[id].slot;
    && |p'.slots| == |p.slots| && |p'.streams| == |p.streams|
    && p' == Replaced(p, id, p'.streams[id], p'.slots[i], p'.stats)
    && Fair(id, p.streams[id], p'.streams[id], p.slots[i], p'.slots[i])
    && Booked(p.stats, p'.stats, p'.streams[id].released && !p.streams[id].released)
  }

  lemma LocalKeeps(p: PoolState, p': PoolState, id: nat)
    requires Invariant(p) && Known(p, id) && Local(p, p', id)
    ensures Invariant(p')
  {
    ReplacedKeeps(p, id, p'.streams[id], p'.slots[p.streams[id].slot], p'.stats);
  }

  lemma InnerNextEffect(p: PoolState, id: nat, answer: Answer)
    requires Invariant(p) && Known(p, id)
    ensures
      var q, t, s := InnerNext(p, id, answer), p.streams[id], p.slots[p.streams[id].slot];
      var ended := q.streams[id].ended;
      && (t.ended ==> q == p) && (ended ==> t.ended || Terminates(p, id, answer).0)
      && |q.streams| == |p.streams| && q.streams == p.streams[id := t.(ended := ended)]
      && |q.slots| == |p.slots| && q.slots[t.slot].active == (if ended && s.active == Command(id) then Nobody else s.active)
      && q == p.(streams := q.streams, slots := p.slots[t.slot := s.(usable := q.slots[t.slot].usable, active := q.slots[t.slot].active)])
  {
    var q, t, s := InnerNext(p, id, answer), p.streams[id], p.slots[p.streams[id].slot];
    assert StreamOk(p, id) && SlotOk(p, t.slot);
    assert p.streams == p.streams[id := t] && p.slots == p.slots[t.slot := s];
  }

  lemma NextIsLocal(p: PoolState, id: nat, answer: Answer)
    requires Invariant(p) && Known(p, id)
    ensures Local(p, NextStep(p, id, answer), id)
  {
    assert StreamOk(p, id) && SlotOk(p, p.streams[id].slot);
    InnerNextEffect(p, id, answer);
    var i, p' := p.streams[id].slot, NextStep(p, id, answer);
    assert p'.slots == p.slots[i := p'.slots[i]];
    assert p'.streams == p.streams[id := p'.streams[id]];
  }

  lemma CancelIsLocal(p: PoolState, id: nat, stopped: bool)
    requires Invariant(p) && Known(p, id)
    ensures Local(p, CancelStep(p, id, stopped), id)
    ensures CancelStep(p, id, stopped).streams[id].live
  {
    assert StreamOk(p, id) && SlotOk(p, p.streams[id].slot);
    var i, p' := p.streams[id].slot, CancelStep(p, id, stopped);
    assert p'.slots == p.slots[i := p'.slots[i]];
    assert p'.streams == p.streams[id := p'.streams[id]];
  }

  /** Destroying a handle the pool has seen the end of. */
  lemma DestroyIsLocal(p: PoolState, id: nat, stopped: bool)
    requires Invariant(p) && Known(p, id) && p.streams[id].terminal
    ensures Local(p, DestroyStep(p, id, stopped), id)
    ensures DestroyStep(p, id, stopped).streams[id].live ==> !p.streams[id].ended && !stopped
  {
    assert StreamOk(p, id) && SlotOk(p, p.streams[id].slot);
    LiveIsNotClosing(p, id);
    var i, p' := p.streams[id].slot, DestroyStep(p, id, stopped);
    assert p'.slots == p.slots[i := p'.slots[i]];
    assert p'.streams == p.streams[id := p'.streams[id]];
  }

  lemma DestroyKeeps(p: PoolState, id: nat, stopped: bool)
    requires Invariant(p) && Known(p, id)
    ensures Invariant(DestroyStep(p, id, stopped))
  {
    if p.streams[id].terminal {
      DestroyIsLocal(p, id, stopped);
      LocalKeeps(p, DestroyStep(p, id, stopped), id);
    } else {
      var q := CancelStep(p, id, stopped);
      CancelIsLocal(p, id, stopped);
      LocalKeeps(p, q, id);
      if q.streams[id].terminal {
        DestroyIsLocal(q, id, stopped);
        LocalKeeps(q, DestroyStep(q, id, stopped), id);
      }
    }
  }

  // ---- opening, connecting, closing ----------------------------------------------------------

  /** A slot may change freely as long as no stream can tell. */
  predicate Invisible(s: Slot, s': Slot) {
    && s'.refs == s.refs && Borrowed(s') == Borrowed(s) && (NotYetUp(s') ==> s.refs == 0)
    && (s'.active == s.active || (s.refs == 0 && !s'.active.Command?))
  }

  lemma SlotKeeps(p: PoolState, i: nat, s': Slot)
    requires Invariant(p) && i < |p.slots| && Invisible(p.slots[i], s')
    ensures Invariant(SetSlot(p, i, s'))
  {
    var p' := SetSlot(p, i, s');
    forall j | 0 <= j < |p'.slots| ensures SlotOk(p', j) { assert SlotOk(p, j); }
    forall id | 0 <= id < |p'.streams| ensures StreamOk(p', id) {
      assert StreamOk(p, id) && SlotOk(p, i);
      Counted(p.streams, id, LiveOn(i));
    }
  }

  lemma OpenedSlot(p: PoolState, i: nat, j: nat, p': PoolState)
    requires Invariant(p) && i < |p.slots| && j < |p.slots| && p.slots[i].state == IDLE && p.slots[i].active == Nobody
    requires p'.slots == p.slots[i := p.slots[i].(state := BORROWED, refs := p.slots[i].refs + 1, active := Command(|p.streams|))]
    requires p'.streams == p.streams + [Stream(i, false, false, false, true)]
    ensures SlotOk(p', j)
  {
    var t := Stream(i, false, false, false, true);
    CountAppend(p.streams, t, LiveOn(j));
    CountAppend(p.streams, t, OpenOn(j));
    assert SlotOk(p, j);
  }

  lemma OpenKeeps(p: PoolState, accepted: bool)
    requires Invariant(p)
    ensures Invariant(OpenStep(p, accepted))
  {
    var i, p' := FirstIn(p.slots, IDLE), OpenStep(p, accepted);
    if p.phase == Ready && i < |p.slots| {
      assert SlotOk(p, i);
      var s := p.slots[i];
      if !s.usable || s.active != Nobody || !accepted {
        SlotKeeps(p, i, p'.slots[i]);
      } else {
        forall j | 0 <= j < |p'.slots| ensures SlotOk(p', j) { OpenedSlot(p, i, j, p'); }
        forall id | 0 <= id < |p'.streams| ensures StreamOk(p', id) {
          if id < |p.streams| { assert StreamOk(p, id); }
        }
        CountAppend(p.streams, Stream(i, false, false, false, true), OpenAnywhere);
      }
    } else {
      PhaseKeeps(p, p');
    }
  }

  lemma PhaseKeeps(p: PoolState, p': PoolState)
    requires Invariant(p) && p'.slots == p.slots && p'.streams == p.streams && StatsOk(p')
    requires p'.phase == Closing || p'.phase == Closed ==> Quiet(p)
    ensures Invariant(p')
  {
    forall j | 0 <= j < |p'.slots| ensures SlotOk(p', j) { assert SlotOk(p, j); }
    forall id | 0 <= id < |p'.streams| ensures StreamOk(p', id) { assert StreamOk(p, id); }
  }

  lemma ConnectKeeps(p: PoolState, c: Connect)
    requires Invariant(p)
    ensures Invariant(ConnectStep(p, c))
  {
    var i, p' := p.connectIndex, ConnectStep(p, c);
    if p.phase == Connecting && i < |p.slots| {
      assert SlotOk(p, i);
      SlotKeeps(p, i, p'.slots[i]);
      assert p'.slots == p.slots[i := p'.slots[i]];
      PhaseKeeps(SetSlot(p, i, p'.slots[i]), p');
    } else {
      PhaseKeeps(p, p');
    }
  }

  lemma StepKeeps(p: PoolState, a: Action)
    requires Invariant(p)
    ensures Invariant(Step(p, a))
  {
    match a
    case Open(accepted) => OpenKeeps(p, accepted);
    case Next(id, answer) =>
      if Known(p, id) {
        NextIsLocal(p, id, answer);
        LocalKeeps(p, NextStep(p, id, answer), id);
      }
    case Cancel(id, stopped) =>
      if Known(p, id) {
        CancelIsLocal(p, id, stopped);
        LocalKeeps(p, CancelStep(p, id, stopped), id);
      }
    case Destroy(id, stopped) => if Known(p, id) { DestroyKeeps(p, id, stopped); }
    case ConnectNext(c) => ConnectKeeps(p, c);
    case Close => PhaseKeeps(p, CloseStep(p));
    case CloseSlot(i, closed) =>
      if p.phase == Closing && i < |p.slots| && closed { SlotKeeps(p, i, Step(p, a).slots[i]); }
    case FinishClose => PhaseKeeps(p, Step(p, a));
  }

  /** Giving a slot back keeps the books: the command moves from those held to those completed or failed, and the slot it
      was on still agrees with the streams that refer to it. */
  lemma ReleaseConserves(p: PoolState, id: nat, failed: bool)
    requires Known(p, id)
    ensures
      var q, i := Release(p, id, failed), p.streams[id].slot;
      && Known(q, id) && q.streams[id].released && |q.slots| == |p.slots|
      && q.stats.admitted == p.stats.admitted && q.stats.cancelled == p.stats.cancelled
      && q.stats.completed + q.stats.failed + Count(q.streams, OpenAnywhere) ==
           p.stats.completed + p.stats.failed + Count(p.streams, OpenAnywhere)
      && (SlotOk(p, i) ==> SlotOk(q, i))
      && (q.slots[i].state == IDLE && !p.streams[id].released ==> p.phase == Ready && q.slots[i].usable)
  {
    var t, i := p.streams[id].(released := true), p.streams[id].slot;
    CountUpdate(p.streams, id, t, OpenAnywhere);
    CountUpdate(p.streams, id, t, OpenOn(i));
    CountUpdate(p.streams, id, t, LiveOn(i));
    Counted(p.streams, id, OpenOn(i));
  }

  /** A connection that gives a command up works for nobody, or still for the other command it worked for. */
  lemma EndConserves(p: PoolState, id: nat, usable: bool)
    requires Known(p, id)
    ensures
      var q, i := EndCommand(p, id, usable), p.streams[id].slot;
      && Known(q, id) && q.streams[id].ended && |q.slots| == |p.slots| && q.stats == p.stats && q.slots[i].active != Command(id)
      && (p.slots[i].active != Command(id) ==> q.slots[i].active == p.slots[i].active)
      && (SlotOk(p, i) ==> SlotOk(q, i))
  {
    var t, i := p.streams[id].(ended := true), p.streams[id].slot;
    CountUpdate(p.streams, id, t, OpenOn(i));
    CountUpdate(p.streams, id, t, LiveOn(i));
  }

  // ---- every run -----------------------------------------------------------------------------

  lemma {:induction false} NoStreams(capacity: nat)
    ensures Invariant(Initial(capacity))
  {
  }

  lemma {:induction false} RunKeeps(p: PoolState, actions: seq<Action>)
    requires Invariant(p)
    ensures Invariant(Run(p, actions))
    decreases |actions|
  {
    if actions != [] {
      StepKeeps(p, actions[0]);
      RunKeeps(Step(p, actions[0]), actions[1..]);
    }
  }

  /** Some run of a new pool leads here. */
  ghost predicate Reached(p: PoolState) {
    exists capacity: nat, actions :: Run(Initial(capacity), actions) == p
  }

  lemma InitialIsReached(capacity: nat)
    ensures Reached(Initial(capacity))
  {
    assert Run(Initial(capacity), []) == Initial(capacity);
  }

  lemma {:induction false} RunSnoc(p: PoolState, actions: seq<Action>, a: Action)
    ensures Run(p, actions + [a]) == Step(Run(p, actions), a)
    decreases |actions|
  {
    if actions == [] {
      assert [] + [a] == [a] && [a][1..] == [];
    } else {
      assert (actions + [a])[1..] == actions[1..] + [a];
      RunSnoc(Step(p, actions[0]), actions[1..], a);
    }
  }

  lemma ReachedStep(p: PoolState, a: Action)
    requires Reached(p)
    ensures Reached(Step(p, a))
  {
    var capacity: nat, actions :| Run(Initial(capacity), actions) == p;
    RunSnoc(Initial(capacity), actions, a);
  }

  lemma ReachedKeeps(p: PoolState)
    requires Reached(p)
    ensures Invariant(p)
  {
    var capacity: nat, actions :| Run(Initial(capacity), actions) == p;
    NoStreams(capacity);
    RunKeeps(Initial(capacity), actions);
  }

  lemma ClosingIsIdle(p: PoolState)
    requires Reached(p)
    ensures p.phase == Closing || p.phase == Closed ==> forall id :: !Known(p, id)
  {
    ReachedKeeps(p);
    forall id | Known(p, id) ensures p.phase != Closing && p.phase != Closed { LiveIsNotClosing(p, id); }
  }

  /** Nothing but this stream and the slot it is on has changed, and the stream gives its slot back as it ends. */
  predicate OnlyThis(p: PoolState, p': PoolState, id: nat)
    requires Known(p, id)
  {
    && |p'.slots| == |p.slots| && |p'.streams| == |p.streams| && p'.phase == p.phase
    && (forall j :: 0 <= j < |p.slots| && j != p.streams[id].slot ==> p'.slots[j] == p.slots[j])
    && (forall k :: 0 <= k < |p.streams| && k != id ==> p'.streams[k] == p.streams[k])
    && (p'.streams[id].terminal <==> p'.streams[id].released) && p'.stats.admitted == p.stats.admitted
    && p'.stats.completed + p'.stats.failed ==
         p.stats.completed + p.stats.failed + (if p'.streams[id].released && !p.streams[id].released then 1 else 0)
  }

  lemma LocalIsOnlyThis(p: PoolState, p': PoolState, id: nat)
    requires Invariant(p) && Known(p, id) && Local(p, p', id) && p'.streams[id].live
    ensures OnlyThis(p, p', id)
  {
  }

  lemma NextTells(p: PoolState, id: nat, answer: Answer) returns (q: PoolState)
    requires Reached(p) && Known(p, id)
    ensures q == NextStep(p, id, answer)
    ensures
      && Reached(q) && Known(q, id) && OnlyThis(p, q, id)
      && (q.streams[id].released <==> p.streams[id].released || Terminates(p, id, answer).0)
  {
    ReachedKeeps(p);
    ReachedStep(p, Next(id, answer));
    NextIsLocal(p, id, answer);
    assert StreamOk(p, id);
    q := NextStep(p, id, answer);
    LocalIsOnlyThis(p, q, id);
  }

  lemma CancelTells(p: PoolState, id: nat, stopped: bool) returns (q: PoolState)
    requires Reached(p) && Known(p, id)
    ensures q == CancelStep(p, id, stopped)
    ensures
      && Reached(q) && Known(q, id) && OnlyThis(p, q, id) && q.slots[p.streams[id].slot].refs == p.slots[p.streams[id].slot].refs
      && (stopped ==> q.streams[id].terminal)
  {
    ReachedKeeps(p);
    ReachedStep(p, Cancel(id, stopped));
    CancelIsLocal(p, id, stopped);
    assert StreamOk(p, id);
    q := CancelStep(p, id, stopped);
    LocalIsOnlyThis(p, q, id);
  }

  /** Destroying a stream touches nothing else either, and takes exactly one reference if it succeeds. */
  predicate DestroysThis(p: PoolState, p': PoolState, id: nat)
    requires Known(p, id)
  {
    var i := p.streams[id].slot;
    && |p'.slots| == |p.slots| && |p'.streams| == |p.streams| && p'.phase == p.phase
    && (forall j :: 0 <= j < |p.slots| && j != i ==> p'.slots[j] == p.slots[j])
    && (forall k :: 0 <= k < |p.streams| && k != id ==> p'.streams[k] == p.streams[k])
    && p'.slots[i].refs + (if p'.streams[id].live then 0 else 1) == p.slots[i].refs
    && (!p'.streams[id].live ==> p'.streams[id].released)
  }

  lemma LocalDestroys(p: PoolState, q: PoolState, p': PoolState, id: nat)
    requires Known(p, id) && Known(q, id) && Local(p, q, id) && Local(q, p', id) && q.streams[id].live
    ensures DestroysThis(p, p', id)
  {
  }

  lemma DestroyTells(p: PoolState, id: nat, stopped: bool) returns (q: PoolState)
    requires Reached(p) && Known(p, id)
    ensures q == DestroyStep(p, id, stopped)
    ensures
      Reached(q) && DestroysThis(p, q, id) && (stopped ==> !q.streams[id].live)
  {
    ReachedKeeps(p);
    ReachedStep(p, Destroy(id, stopped));
    q := DestroyStep(p, id, stopped);
    if p.streams[id].terminal {
      DestroyIsLocal(p, id, stopped);
    } else {
      var c := CancelTells(p, id, stopped);
      CancelIsLocal(p, id, stopped);
      LocalKeeps(p, c, id);
      if c.streams[id].terminal {
        DestroyIsLocal(c, id, stopped);
        LocalDestroys(p, c, q, id);
      }
    }
  }

  /** LEASES ARE CONSERVED.  In every reachable state a slot is lent iff exactly one live stream has not given it back,
      references count live streams, and every admitted command is completed, failed or still held. */
  lemma LeasesConserved(capacity: nat, actions: seq<Action>)
    ensures
      var p := Run(Initial(capacity), actions);
      && (forall i :: 0 <= i < |p.slots| ==>
            && (p.slots[i].state == BORROWED <==> Count(p.streams, OpenOn(i)) == 1) && Count(p.streams, OpenOn(i)) <= 1
            && p.slots[i].refs == Count(p.streams, LiveOn(i)))
      && p.stats.admitted == p.stats.completed + p.stats.failed + Count(p.streams, OpenAnywhere)
      && p.stats.cancelled <= p.stats.failed
  {
    NoStreams(capacity);
    RunKeeps(Initial(capacity), actions);
    var p := Run(Initial(capacity), actions);
    forall i | 0 <= i < |p.slots|
      ensures p.slots[i].state == BORROWED <==> Count(p.streams, OpenOn(i)) == 1
      ensures Count(p.streams, OpenOn(i)) <= 1 && p.slots[i].refs == Count(p.streams, LiveOn(i))
    {
      assert SlotOk(p, i);
    }
  }

  predicate Holds(p: PoolState, id: nat) {
    Known(p, id) && !p.streams[id].released
  }

  /** No two live streams hold the same slot. */
  lemma OneHolder(capacity: nat, actions: seq<Action>, a: nat, b: nat)
    ensures
      var p := Run(Initial(capacity), actions);
      Holds(p, a) && Holds(p, b) && p.streams[a].slot == p.streams[b].slot ==> a == b
  {
    NoStreams(capacity);
    RunKeeps(Initial(capacity), actions);
    var p := Run(Initial(capacity), actions);
    if a < b < |p.streams| && p.streams[a].slot < |p.slots| {
      CountedTwice(p.streams, a, b, OpenOn(p.streams[a].slot));
      assert SlotOk(p, p.streams[a].slot);
    } else if b < a < |p.streams| && p.streams[b].slot < |p.slots| {
      CountedTwice(p.streams, b, a, OpenOn(p.streams[b].slot));
      assert SlotOk(p, p.streams[b].slot);
    }
  }

  /** A FINISHED STREAM IS HARMLESS.  Destroying it, or asking it again, leaves alone a connection that meanwhile works
      for another command, and that command's lease. */
  lemma FinishedIsHarmless(capacity: nat, actions: seq<Action>, id: nat, other: nat, stopped: bool)
    ensures
      var p := Run(Initial(capacity), actions);
      Known(p, id) && p.streams[id].terminal && id != other && p.slots[p.streams[id].slot].active == Command(other) ==>
        var p' := DestroyStep(p, id, stopped);
        var i := p.streams[id].slot;
        && p'.slots[i].refs + 1 == p.slots[i].refs && p'.slots[i] == p.slots[i].(refs := p'.slots[i].refs)
        && !p'.streams[id].live
        && other < |p'.streams| && p'.streams[other] == p.streams[other]
  {
    NoStreams(capacity);
    RunKeeps(Initial(capacity), actions);
    var p := Run(Initial(capacity), actions);
    if Known(p, id) && p.streams[id].terminal && id != other && p.slots[p.streams[id].slot].active == Command(other) {
      assert StreamOk(p, id) && SlotOk(p, p.streams[id].slot);
      LiveIsNotClosing(p, id);
    }
  }

  /** CLOSING WAITS.  The pool starts to close only when no stream is live. */
  lemma ClosesOnlyIdle(capacity: nat, actions: seq<Action>, id: nat)
    ensures
      var p := Run(Initial(capacity), actions);
      (p.phase != Closing && CloseStep(p).phase == Closing) || p.phase == Closing || p.phase == Closed ==> !Known(p, id)
  {
    NoStreams(capacity);
    RunKeeps(Initial(capacity), actions);
    var p := Run(Initial(capacity), actions);
    if Known(p, id) { LiveIsNotClosing(p, id); }
  }

  /** A connection is only ever torn down for repair when no stream refers to it. */
  lemma RepairIsUnobserved(capacity: nat, actions: seq<Action>, c: Connect, id: nat)
    ensures
      var p := Run(Initial(capacity), actions);
      Known(p, id) ==>
        var i := p.streams[id].slot;
        i < |ConnectStep(p, c).slots| && ConnectStep(p, c).slots[i] == p.slots[i]
  {
    NoStreams(capacity);
    RunKeeps(Initial(capacity), actions);
    var p := Run(Initial(capacity), actions);
    if Known(p, id) {
      LiveIsNotClosing(p, id);
      assert SlotOk(p, p.streams[id].slot);
    }
  }
}
