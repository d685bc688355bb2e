/** Reading a CLUSTER SLOTS reply into the slot table. */
module ClusterSlots {
  import opened KeySlots
  import opened Resp

  const UINT16_MAX: nat := 0xffff

  datatype Status = OK | EPROTO | ENOBUFS

  /** A node with the span of slots it was named for. */
  datatype Node = Node(host: string, port: nat, slotStart: nat, slotEnd: nat)

  /** One range of the reply: its slots and the endpoint that serves them. */
  datatype Range = Range(start: nat, end: nat, host: string, port: nat)

  /** A C string ends at its first zero byte. */
  function CString(s: string): string {
    if s == "" || s[0] == '\0' then "" else [s[0]] + CString(s[1..])
  }

  predicate IsText(r: Reply) {
    (r.Simple? || r.Bulk?) && r.text != ""
  }

  /** The slots of a range element, checked. */
  predicate HasSlots(r: Reply) {
    && r.Array? && |r.items| >= 3 && r.items[0].Integer? && r.items[1].Integer?
    && 0 <= r.items[0].value <= r.items[1].value < SLOT_COUNT
  }

  /** An endpoint: host, port, and a node id that is text or null if it is there at all. */
  predicate IsEndpoint(e: Reply) {
    && e.Array? && |e.items| >= 2 && IsText(e.items[0]) && e.items[1].Integer? && 0 < e.items[1].value <= UINT16_MAX
    && (|e.items| > 2 && !e.items[2].Null? ==> IsText(e.items[2]))
  }

  predicate IsRange(r: Reply) {
    HasSlots(r) && IsEndpoint(r.items[2])
  }

  function RangeOf(r: Reply): Range
    requires IsRange(r)
  {
    Range(r.items[0].value, r.items[1].value, CString(r.items[2].items[0].text), r.items[2].items[1].value)
  }

  predicate AllRanges(items: seq<Reply>) {
    forall i :: 0 <= i < |items| ==> IsRange(items[i])
  }

  predicate WellFormed(reply: Reply) {
    reply.Array? && reply.items != [] && AllRanges(reply.items)
  }

  function Ranges(items: seq<Reply>): seq<Range>
    requires AllRanges(items)
  {
    seq(|items|, i requires 0 <= i < |items| => RangeOf(items[i]))
  }

  predicate Covers(r: Range, slot: nat) {
    r.start <= slot <= r.end
  }

  predicate At(n: Node, r: Range) {
    n.host == r.host && n.port == r.port
  }

  predicate Serves(n: Node, slot: nat) {
    n.slotStart <= slot <= n.slotEnd
  }

  ghost predicate Claimed(rs: seq<Range>, slot: nat) {
    exists r :: r in rs && Covers(r, slot)
  }

  /** The two ranges claim a slot for two endpoints. */
  ghost predicate Clash(a: Range, b: Range) {
    (a.host != b.host || a.port != b.port) && exists slot: nat :: Covers(a, slot) && Covers(b, slot)
  }

  ghost predicate NoClash(rs: seq<Range>) {
    forall a, b :: a in rs && b in rs ==> !Clash(a, b)
  }

  /** No slot is claimed for two endpoints, and every slot is claimed. */
  ghost predicate Partition(rs: seq<Range>) {
    && NoClash(rs)
    && (forall slot :: 0 <= slot < SLOT_COUNT ==> Claimed(rs, slot))
  }

  // ---- endpoints -----------------------------------------------------------------------------

  function NodeEndpoints(nodes: seq<Node>): set<(string, nat)> {
    set n | n in nodes :: (n.host, n.port)
  }

  function RangeEndpoints(rs: seq<Range>): set<(string, nat)> {
    set r | r in rs :: (r.host, r.port)
  }

  ghost predicate Distinct(nodes: seq<Node>) {
    forall i, j :: 0 <= i < j < |nodes| ==> nodes[i].host != nodes[j].host || nodes[i].port != nodes[j].port
  }

  lemma NewEndpoint(nodes: seq<Node>, last: Node)
    requires Distinct(nodes + [last])
    ensures Distinct(nodes) && (last.host, last.port) !in NodeEndpoints(nodes)
  {
    var all := nodes + [last];
    assert forall i :: 0 <= i < |nodes| ==> all[i] == nodes[i];
    forall n | n in nodes ensures (n.host, n.port) != (last.host, last.port) {
      var i :| 0 <= i < |nodes| && nodes[i] == n;
      assert all[i] == n && all[|nodes|] == last;
    }
  }

  lemma {:induction false} OneEach(nodes: seq<Node>)
    requires Distinct(nodes)
    ensures |NodeEndpoints(nodes)| == |nodes|
  {
    if nodes == [] {
      assert NodeEndpoints(nodes) == {};
    } else {
      var last, rest := nodes[|nodes| - 1], nodes[..|nodes| - 1];
      assert rest + [last] == nodes;
      NewEndpoint(rest, last);
      OneEach(rest);
      EndpointsSnoc(rest, last);
    }
  }

  lemma EndpointsSnoc(nodes: seq<Node>, n: Node)
    ensures NodeEndpoints(nodes + [n]) == NodeEndpoints(nodes) + {(n.host, n.port)}
  {
    var all := nodes + [n];
    assert n in all && forall m :: m in all <==> m in nodes || m == n;
  }

  lemma KnownEndpoint(nodes: seq<Node>, index: nat)
    requires Distinct(nodes) && index < |nodes|
    ensures
      var e := (nodes[index].host, nodes[index].port);
      NodeEndpoints(nodes) + {e} == NodeEndpoints(nodes) && |NodeEndpoints(nodes) + {e}| == |nodes|
  {
    OneEach(nodes);
    assert nodes[index] in nodes;
    assert (nodes[index].host, nodes[index].port) in NodeEndpoints(nodes);
    assert NodeEndpoints(nodes) + {(nodes[index].host, nodes[index].port)} == NodeEndpoints(nodes);
  }

  lemma RangeEndpointsSnoc(rs: seq<Range>, r: Range)
    ensures RangeEndpoints(rs + [r]) == RangeEndpoints(rs) + {(r.host, r.port)}
  {
    var all := rs + [r];
    assert r in all && forall a :: a in all <==> a in rs || a == r;
  }

  /** Widening a span leaves the endpoints. */
  lemma EndpointsKept(nodes: seq<Node>, index: nat, node: Node)
    requires index < |nodes| && node.host == nodes[index].host && node.port == nodes[index].port
    ensures NodeEndpoints(nodes[index := node]) == NodeEndpoints(nodes)
  {
    var all := nodes[index := node];
    forall e ensures e in NodeEndpoints(all) <==> e in NodeEndpoints(nodes) {
      if e in NodeEndpoints(nodes) {
        var i :| 0 <= i < |nodes| && (nodes[i].host, nodes[i].port) == e;
        assert (all[i].host, all[i].port) == e && all[i] in all;
      }
      if e in NodeEndpoints(all) {
        var i :| 0 <= i < |all| && (all[i].host, all[i].port) == e;
        assert (nodes[i].host, nodes[i].port) == e && nodes[i] in nodes;
      }
    }
  }

  /** The ranges are sound and, with the nodes known before, have more endpoints than there is room for. */
  ghost predicate TooMany(nodes: seq<Node>, items: seq<Reply>, maxNodes: nat) {
    AllRanges(items) && |NodeEndpoints(nodes) + RangeEndpoints(Ranges(items))| > maxNodes
  }

  /** The ranges are sound, do not clash, and their endpoints fit. */
  ghost predicate Takes(nodes: seq<Node>, items: seq<Reply>, maxNodes: nat) {
    AllRanges(items) && NoClash(Ranges(items)) && !TooMany(nodes, items, maxNodes)
  }

  class Topology {
    /** For each slot the index of its node, or -1. */
    const slots: array<int>
    var nodes: seq<Node>
    const maxNodes: nat

    ghost predicate Valid()
      reads this
    {
      && slots.Length == SLOT_COUNT && |nodes| <= maxNodes && Distinct(nodes)
    }

    constructor (max: nat)
      ensures Valid() && fresh(slots) && nodes == [] && maxNodes == max
    {
      slots := new int[SLOT_COUNT](_ => -1);
      nodes, maxNodes := [], max;
    }

    method FindNode(host: string, port: nat) returns (index: nat)
      ensures index <= |nodes| && forall j :: 0 <= j < index ==> nodes[j].host != host || nodes[j].port != port
      ensures index < |nodes| ==> nodes[index].host == host && nodes[index].port == port
    {
      index := 0;
      while index < |nodes|
        invariant index <= |nodes| && forall j :: 0 <= j < index ==> nodes[j].host != host || nodes[j].port != port
      {
        if nodes[index].port == port && nodes[index].host == host { return; }
        index := index + 1;
      }
    }

    /** `redis_cluster_find_or_add_node`: one node for each endpoint; full exactly when there are more endpoints than room. */
    method FindOrAddNode(host: string, port: nat) returns (status: Status, index: nat)
      requires Valid()
      modifies `nodes
      ensures Valid()
      ensures status == OK ==> index < |nodes| && nodes[index].host == host && nodes[index].port == port
      ensures |old(nodes)| <= |nodes| && nodes[..|old(nodes)|] == old(nodes)
      ensures status != OK ==> status == ENOBUFS && nodes == old(nodes) && |nodes| == maxNodes
      ensures status != OK ==> forall n :: n in nodes ==> n.host != host || n.port != port
      ensures status == OK <==> |NodeEndpoints(old(nodes)) + {(host, port)}| <= maxNodes
      ensures status == OK ==> NodeEndpoints(nodes) == NodeEndpoints(old(nodes)) + {(host, port)}
    {
      index := FindNode(host, port);
      if index < |nodes| {
        KnownEndpoint(nodes, index);
        return OK, index;
      }
      ghost var node := Node(host, port, UINT16_MAX, 0);
      assert Distinct(nodes + [node]);
      OneEach(nodes + [node]);
      EndpointsSnoc(nodes, node);
      if |nodes| == maxNodes { return ENOBUFS, 0; }
      nodes := nodes + [Node(host, port, UINT16_MAX, 0)];
      return OK, index;
    }

    /** The table after some ranges: exactly the claimed slots have a node; it is the node of every range that covers
        the slot, and its span holds the slot. */
    ghost predicate Filled(rs: seq<Range>)
      requires Valid()
      reads this, slots
    {
      forall slot :: 0 <= slot < SLOT_COUNT ==> SlotFilled(rs, slot, slots[slot], nodes)
    }

    /** Marks the slots of one range, unless one of them has another node. */
    method Mark(r: Range, index: nat, ghost rs: seq<Range>) returns (status: Status)
      requires Valid() && Filled(rs) && index < |nodes| && At(nodes[index], r)
      requires r.start <= r.end < SLOT_COUNT && nodes[index].slotStart <= r.start && r.end <= nodes[index].slotEnd
      modifies slots
      ensures status == OK ==> Filled(rs + [r])
      ensures status != OK ==> status == EPROTO && exists a :: a in rs && Clash(a, r)
    {
      var slot := r.start;
      while slot <= r.end
        invariant r.start <= slot <= r.end + 1
        invariant forall k :: r.start <= k < slot ==> slots[k] == index && (old(slots[k]) == -1 || old(slots[k]) == index)
        invariant forall k :: 0 <= k < SLOT_COUNT && !(r.start <= k < slot) ==> slots[k] == old(slots[k])
      {
        if slots[slot] >= 0 && slots[slot] != index {
          ClashFound(rs, r, slot, slots[slot], index, nodes);
          return EPROTO;
        }
        assert SlotFilled(rs, slot, old(slots[slot]), nodes);
        slots[slot] := index;
        slot := slot + 1;
      }
      forall k | 0 <= k < SLOT_COUNT ensures SlotFilled(rs + [r], k, slots[k], nodes) {
        SlotExtends(rs, r, k, old(slots[k]), slots[k], nodes);
      }
      return OK;
    }

    /** One range: its node is found or added, its span widened, its slots marked. */
    method AddRange(r: Range, ghost rs: seq<Range>) returns (status: Status)
      requires Valid() && Filled(rs) && r.start <= r.end < SLOT_COUNT
      modifies `nodes, slots
      ensures Valid()
      ensures status == OK ==> Filled(rs + [r])
      ensures status == EPROTO ==> exists a :: a in rs && Clash(a, r)
      ensures status == ENOBUFS <==> |NodeEndpoints(old(nodes)) + {(r.host, r.port)}| > maxNodes
      ensures status == ENOBUFS ==> |nodes| == maxNodes
      ensures status == OK ==> NodeEndpoints(nodes) == NodeEndpoints(old(nodes)) + {(r.host, r.port)}
    {
      ghost var was := nodes;
      var index;
      status, index := FindOrAddNode(r.host, r.port);
      if status != OK { return; }
      var node := nodes[index];
      if r.start < node.slotStart { node := node.(slotStart := r.start); }
      if r.end > node.slotEnd { node := node.(slotEnd := r.end); }
      EndpointsKept(nodes, index, node);
      nodes := nodes[index := node];
      forall k | 0 <= k < SLOT_COUNT ensures SlotFilled(rs, k, slots[k], nodes) {
        FilledWidens(rs, k, slots[k], was, nodes);
      }
      status := Mark(r, index, rs);
    }

    /** One turn over the ranges of a reply, after the ranges `rs`; `was` are the nodes known before the reply. */
    method ReadRange(reply: Reply, n: nat, ghost was: seq<Node>, ghost rs: seq<Range>) returns (status: Status)
      requires Valid() && reply.Array? && n < |reply.items| && AllRanges(reply.items[..n]) && IsRange(reply.items[n])
      requires rs == Ranges(reply.items[..n]) && Filled(rs) && NodeEndpoints(nodes) == NodeEndpoints(was) + RangeEndpoints(rs)
      modifies `nodes, slots
      ensures Valid() && AllRanges(reply.items[..n + 1]) && Ranges(reply.items[..n + 1]) == rs + [RangeOf(reply.items[n])]
      ensures status == OK ==> Filled(rs + [RangeOf(reply.items[n])])
      ensures status == OK ==> NodeEndpoints(nodes) == NodeEndpoints(was) + RangeEndpoints(rs + [RangeOf(reply.items[n])])
      ensures status == EPROTO ==> !(WellFormed(reply) && Partition(Ranges(reply.items)))
      ensures status == ENOBUFS <==> TooMany(was, reply.items[..n + 1], maxNodes)
      ensures status == ENOBUFS ==> |nodes| == maxNodes
      ensures status == OK <==> Takes(was, reply.items[..n + 1], maxNodes)
    {
      var range := RangeOf(reply.items[n]);
      RangesGrow(reply.items, n);
      RangeEndpointsSnoc(rs, range);
      assert NodeEndpoints(nodes) + {(range.host, range.port)} == NodeEndpoints(was) + RangeEndpoints(rs + [range]);
      status := AddRange(range, rs);
      if status == EPROTO {
        ClashStays(reply, n, rs, range);
        ClashIsSeen(rs, range);
      }
      if status == OK { FilledIsClear(rs + [range], slots[..], nodes); }
    }

    /** The loop over the ranges of a reply, on a cleared table. */
    method ReadRanges(reply: Reply) returns (status: Status, ghost read: nat)
      requires Valid() && reply.Array? && reply.items != [] && Filled([])
      modifies `nodes, slots
      ensures Valid() && read <= |reply.items| && Takes(old(nodes), reply.items[..read], maxNodes)
      ensures read < |reply.items| ==> !Takes(old(nodes), reply.items[..read + 1], maxNodes)
      ensures status == OK <==> read == |reply.items|
      ensures status == OK ==> AllRanges(reply.items) && Filled(Ranges(reply.items))
      ensures status == EPROTO ==> !(WellFormed(reply) && Partition(Ranges(reply.items)))
      ensures status == ENOBUFS <==> read < |reply.items| && TooMany(old(nodes), reply.items[..read + 1], maxNodes)
      ensures status == ENOBUFS ==> |nodes| == maxNodes
    {
      NothingRead(nodes, reply.items, maxNodes);
      read := 0;
      var rangeIndex := 0;
      while rangeIndex < |reply.items|
        invariant read == rangeIndex <= |reply.items| && Valid() && Takes(old(nodes), reply.items[..rangeIndex], maxNodes)
        invariant Filled(Ranges(reply.items[..rangeIndex]))
        invariant NodeEndpoints(nodes) == NodeEndpoints(old(nodes)) + RangeEndpoints(Ranges(reply.items[..rangeIndex]))
      {
        if !IsRange(reply.items[rangeIndex]) {
          assert reply.items[..rangeIndex + 1][rangeIndex] == reply.items[rangeIndex];
          return EPROTO, read;
        }
        status := ReadRange(reply, rangeIndex, old(nodes), Ranges(reply.items[..rangeIndex]));
        if status != OK { return; }
        rangeIndex := rangeIndex + 1;
        read := rangeIndex;
      }
      assert reply.items[..rangeIndex] == reply.items;
      return OK, read;
    }

    /** `redis_cluster_parse_slots`: succeeds only on a well-formed reply whose ranges partition the slots, and then
        every slot has the node of a range that covers it; a protocol error is reported only on any other reply.  `read` is the
        longest run of ranges from the first that are sound, do not clash and fit; the table of nodes is reported full exactly
        if the next range is sound and one endpoint too many, before any clash it may have. */
    method ParseSlots(reply: Reply) returns (status: Status, ghost read: nat)
      requires Valid()
      modifies `nodes, slots
      ensures Valid()
      ensures status == OK ==> WellFormed(reply) && Partition(Ranges(reply.items)) && Filled(Ranges(reply.items))
      ensures status == EPROTO ==> !(WellFormed(reply) && Partition(Ranges(reply.items)))
      ensures status == ENOBUFS ==> |nodes| == maxNodes
      ensures status == ENOBUFS <==> reply.Array? && read < |reply.items| && TooMany(old(nodes), reply.items[..read + 1], maxNodes)
      ensures status == OK ==> reply.Array? && !TooMany(old(nodes), reply.items, maxNodes)
      ensures reply.Array? ==> read <= |reply.items| && Takes(old(nodes), reply.items[..read], maxNodes)
      ensures reply.Array? && read < |reply.items| ==> !Takes(old(nodes), reply.items[..read + 1], maxNodes)
      ensures status == OK <==> WellFormed(reply) && read == |reply.items| && Partition(Ranges(reply.items))
    {
      read := 0;
      if reply.Array? { NothingRead(nodes, reply.items, maxNodes); }
      if !reply.Array? || |reply.items| == 0 { return EPROTO, 0; }
      forall k | 0 <= k < SLOT_COUNT {
        slots[k] := -1;
      }
      status, read := ReadRanges(reply);
      if status != OK { return; }
      assert reply.items[..read] == reply.items;
      var complete := AllServed(Ranges(reply.items));
      return if complete then OK else EPROTO, read;
    }

    /** The last check: no slot is left without a node exactly if the ranges, none of which clash, partition the slots. */
    method AllServed(ghost rs: seq<Range>) returns (complete: bool)
      requires Valid() && Filled(rs) && forall r :: r in rs ==> r.end < SLOT_COUNT
      ensures complete <==> Partition(rs)
    {
      var slot := 0;
      while slot < SLOT_COUNT
        invariant slot <= SLOT_COUNT && forall k :: 0 <= k < slot ==> slots[k] >= 0
      {
        assert SlotFilled(rs, slot, slots[slot], nodes);
        if slots[slot] < 0 { return false; }
        slot := slot + 1;
      }
      FilledIsPartition(rs, slots[..], nodes);
      return true;
    }
  }

  /** Nodes may be added and spans widened without disturbing a filled slot. */
  predicate Widened(nodes: seq<Node>, nodes': seq<Node>) {
    |nodes| <= |nodes'| && forall i :: 0 <= i < |nodes| ==>
      && nodes'[i].host == nodes[i].host && nodes'[i].port == nodes[i].port
      && nodes'[i].slotStart <= nodes[i].slotStart && nodes[i].slotEnd <= nodes'[i].slotEnd
  }

  lemma FilledWidens(rs: seq<Range>, slot: nat, node: int, nodes: seq<Node>, nodes': seq<Node>)
    requires SlotFilled(rs, slot, node, nodes) && Widened(nodes, nodes')
    ensures SlotFilled(rs, slot, node, nodes')
  {
  }

  lemma RangesGrow(items: seq<Reply>, n: nat)
    requires n < |items| && AllRanges(items[..n]) && IsRange(items[n])
    ensures AllRanges(items[..n + 1]) && Ranges(items[..n + 1]) == Ranges(items[..n]) + [RangeOf(items[n])]
  {
    assert forall i :: 0 <= i < n ==> items[..n + 1][i] == items[..n][i];
  }

  lemma ClashStays(reply: Reply, n: nat, rs: seq<Range>, r: Range)
    requires reply.Array? && n < |reply.items| && AllRanges(reply.items[..n]) && rs == Ranges(reply.items[..n])
    requires IsRange(reply.items[n]) && r == RangeOf(reply.items[n]) && exists a :: a in rs && Clash(a, r)
    ensures !(WellFormed(reply) && Partition(Ranges(reply.items)))
  {
    if WellFormed(reply) {
      var a :| a in rs && Clash(a, r);
      var i :| 0 <= i < n && rs[i] == a;
      var all := Ranges(reply.items);
      assert all[i] == a && all[n] == r;
    }
  }

  /** Ranges that filled the table do not clash. */
  lemma FilledIsClear(rs: seq<Range>, slots: seq<int>, nodes: seq<Node>)
    requires |slots| == SLOT_COUNT && forall k :: 0 <= k < SLOT_COUNT ==> SlotFilled(rs, k, slots[k], nodes)
    requires forall r :: r in rs ==> r.end < SLOT_COUNT
    ensures NoClash(rs)
  {
    forall a, b | a in rs && b in rs ensures !Clash(a, b) {
      if exists slot: nat :: Covers(a, slot) && Covers(b, slot) {
        var slot: nat :| Covers(a, slot) && Covers(b, slot);
        assert SlotFilled(rs, slot, slots[slot], nodes);
        assert At(nodes[slots[slot]], a) && At(nodes[slots[slot]], b);
      }
    }
  }

  lemma FilledIsPartition(rs: seq<Range>, slots: seq<int>, nodes: seq<Node>)
    requires |slots| == SLOT_COUNT && forall k :: 0 <= k < SLOT_COUNT ==> slots[k] >= 0 && SlotFilled(rs, k, slots[k], nodes)
    requires forall r :: r in rs ==> r.end < SLOT_COUNT
    ensures Partition(rs)
  {
    FilledIsClear(rs, slots, nodes);
    forall slot | 0 <= slot < SLOT_COUNT ensures Claimed(rs, slot) {
      assert SlotFilled(rs, slot, slots[slot], nodes);
    }
  }

  lemma ClashIsSeen(rs: seq<Range>, r: Range)
    requires exists a :: a in rs && Clash(a, r)
    ensures !NoClash(rs + [r])
  {
    var a :| a in rs && Clash(a, r);
    assert a in rs + [r] && r in rs + [r];
  }

  lemma NothingRead(nodes: seq<Node>, items: seq<Reply>, maxNodes: nat)
    requires Distinct(nodes) && |nodes| <= maxNodes
    ensures Takes(nodes, items[..0], maxNodes)
  {
    OneEach(nodes);
    assert Ranges(items[..0]) == [] && RangeEndpoints([]) == {};
    assert NodeEndpoints(nodes) + RangeEndpoints([]) == NodeEndpoints(nodes);
  }

  ghost predicate SlotFilled(rs: seq<Range>, slot: nat, node: int, nodes: seq<Node>) {
    && -1 <= node < |nodes| && (node >= 0 <==> Claimed(rs, slot))
    && (node >= 0 ==> Serves(nodes[node], slot) && forall r :: r in rs && Covers(r, slot) ==> At(nodes[node], r))
  }

  lemma SlotExtends(rs: seq<Range>, r: Range, slot: nat, was: int, node: int, nodes: seq<Node>)
    requires SlotFilled(rs, slot, was, nodes)
    requires
      if Covers(r, slot) then
        0 <= node < |nodes| && (was == -1 || was == node) && At(nodes[node], r) && Serves(nodes[node], slot)
      else node == was
    ensures SlotFilled(rs + [r], slot, node, nodes)
  {
    var all := rs + [r];
    assert r in all && forall a :: a in all <==> a in rs || a == r;
    if Claimed(rs, slot) {
      var a :| a in rs && Covers(a, slot);
      assert a in all;
    }
  }

  /** Two nodes for one slot are two endpoints. */
  lemma ClashFound(rs: seq<Range>, r: Range, slot: nat, node: int, index: nat, nodes: seq<Node>)
    requires SlotFilled(rs, slot, node, nodes) && Covers(r, slot) && node >= 0 && node != index && index < |nodes| && At(nodes[index], r)
    requires forall i, j :: 0 <= i < j < |nodes| ==> nodes[i].host != nodes[j].host || nodes[i].port != nodes[j].port
    ensures exists a :: a in rs && Clash(a, r)
  {
    var a :| a in rs && Covers(a, slot);
    assert At(nodes[node], a);
    assert Clash(a, r);
  }
}
