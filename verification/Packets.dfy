/** MySQL packets: a four-byte header (24-bit little-endian length, sequence id) and a payload; a message is a run
    of packets of 0xffffff bytes ended by a shorter one. */
module Packets {
  type byte = x: int | 0 <= x < 256

  const MAX_PAYLOAD: nat := 0xff_ffff

  datatype Status = OK | NEED_MORE | LIMIT | SEQUENCE

  // ---- the reader, one byte at a time --------------------------------------------------------

  /** Where the reader is: in a header, or `left` bytes before the end of a payload of `length`; the message being
      put together and those finished.  A refused header stops it for good. */
  datatype Progress = Progress(
    header: seq<byte>, inPayload: bool, length: nat, left: nat, expected: byte, message: seq<byte>, done: seq<seq<byte>>)

  function Following(sequence: byte): byte {
    (sequence + 1) % 256
  }

  function Length(h: seq<byte>): nat
    requires |h| == 4
  {
    h[0] as int + 256 * (h[1] as int) + 65536 * (h[2] as int)
  }

  /** `mysql_wire_packet_header_decode`: the length limit is checked before the sequence id. */
  function HeaderStatus(h: seq<byte>, expected: byte, max: nat): Status
    requires |h| == 4
  {
    if Length(h) > max then LIMIT else if h[3] != expected then SEQUENCE else OK
  }

  predicate Failed(p: Progress) {
    !p.inPayload && |p.header| == 4
  }

  predicate Sound(p: Progress, max: nat) {
    && |p.header| <= 4
    && (p.inPayload ==>
          && |p.header| == 4 && 0 < p.left <= p.length == Length(p.header) <= max
          && HeaderStatus(p.header, p.expected, max) == OK)
    && (!p.inPayload && |p.header| == 4 ==> HeaderStatus(p.header, p.expected, max) != OK)
  }

  /** The packet is complete; a packet shorter than the maximum ends the message. */
  function EndPacket(p: Progress, length: nat): Progress {
    var q := p.(header := [], inPayload := false, length := 0, left := 0, expected := Following(p.expected));
    if length < MAX_PAYLOAD then q.(message := [], done := p.done + [p.message]) else q
  }

  function Header(p: Progress, max: nat): Progress
    requires |p.header| == 4 && !p.inPayload
  {
    if HeaderStatus(p.header, p.expected, max) != OK then p
    else if Length(p.header) == 0 then EndPacket(p, 0)
    else p.(inPayload := true, length := Length(p.header), left := Length(p.header))
  }

  function Byte(p: Progress, b: byte, max: nat): Progress
    requires Sound(p, max)
  {
    if Failed(p) then p
    else if !p.inPayload then
      var q := p.(header := p.header + [b]);
      if |q.header| < 4 then q else Header(q, max)
    else
      var q := p.(message := p.message + [b], left := p.left - 1);
      if q.left == 0 then EndPacket(q, q.length) else q
  }

  lemma ByteSound(p: Progress, b: byte, max: nat)
    requires Sound(p, max)
    ensures Sound(Byte(p, b, max), max)
  {
  }

  function Bytes(p: Progress, s: seq<byte>, max: nat): (q: Progress)
    requires Sound(p, max)
    ensures Sound(q, max)
    decreases |s|
  {
    if s == [] then p
    else
      ByteSound(p, s[0], max);
      Bytes(Byte(p, s[0], max), s[1..], max)
  }

  lemma {:induction false} BytesConcat(p: Progress, a: seq<byte>, b: seq<byte>, max: nat)
    requires Sound(p, max)
    ensures Bytes(p, a + b, max) == Bytes(Bytes(p, a, max), b, max)
    decreases |a|
  {
    if a == [] {
      assert a + b == b;
    } else {
      ByteSound(p, a[0], max);
      assert (a + b)[1..] == a[1..] + b;
      BytesConcat(Byte(p, a[0], max), a[1..], b, max);
    }
  }

  lemma {:induction false} FailedStays(p: Progress, s: seq<byte>, max: nat)
    requires Sound(p, max) && Failed(p)
    ensures Bytes(p, s, max) == p
    decreases |s|
  {
    if s != [] { FailedStays(p, s[1..], max); }
  }

  /** Header bytes accumulate; only the fourth does more. */
  lemma {:induction false} HeaderBytes(p: Progress, s: seq<byte>, max: nat)
    requires Sound(p, max) && !p.inPayload && |p.header| < 4 && |p.header| + |s| <= 4
    ensures
      var q := p.(header := p.header + s);
      Bytes(p, s, max) == if |q.header| < 4 then q else Header(q, max)
    decreases |s|
  {
    if s == [] {
      assert p.header + s == p.header;
    } else {
      var q := p.(header := p.header + [s[0]]);
      assert p.header + s == q.header + s[1..];
      ByteSound(p, s[0], max);
      if |q.header| < 4 {
        HeaderBytes(q, s[1..], max);
      } else {
        assert s[1..] == [] && q.header == p.header + s;
      }
    }
  }

  /** Payload bytes join the message; the last one ends the packet. */
  lemma {:induction false} PayloadBytes(p: Progress, s: seq<byte>, max: nat)
    requires Sound(p, max) && p.inPayload && |s| <= p.left
    ensures
      var q := p.(message := p.message + s, left := p.left - |s|);
      Bytes(p, s, max) == if q.left == 0 then EndPacket(q, q.length) else q
    decreases |s|
  {
    if s == [] {
      assert p.message + s == p.message;
    } else {
      var q := p.(message := p.message + [s[0]], left := p.left - 1);
      assert p.message + s == q.message + s[1..];
      ByteSound(p, s[0], max);
      if q.left > 0 {
        PayloadBytes(q, s[1..], max);
      } else {
        assert s[1..] == [] && q.message == p.message + s;
      }
    }
  }

  // ---- the writer ----------------------------------------------------------------------------

  function HeaderOf(length: nat, sequence: byte): (h: seq<byte>)
    requires length <= MAX_PAYLOAD
    ensures |h| == 4 && Length(h) == length && h[3] == sequence
  {
    var high := length / 256;
    assert length == 256 * high + length % 256 && high == 256 * (high / 256) + high % 256;
    [length % 256, high % 256, high / 256, sequence]
  }

  /** A message as packets: full ones, then a shorter, possibly empty, last one. */
  function Frame(m: seq<byte>, sequence: byte): seq<byte>
    decreases |m|
  {
    if |m| < MAX_PAYLOAD then HeaderOf(|m|, sequence) + m
    else HeaderOf(MAX_PAYLOAD, sequence) + m[..MAX_PAYLOAD] + Frame(m[MAX_PAYLOAD..], Following(sequence))
  }

  /** The sequence id after the message. */
  function SequenceAfter(m: seq<byte>, sequence: byte): byte
    decreases |m|
  {
    if |m| < MAX_PAYLOAD then Following(sequence) else SequenceAfter(m[MAX_PAYLOAD..], Following(sequence))
  }

  predicate Fresh(p: Progress) {
    p.header == [] && !p.inPayload && p.length == 0 && p.left == 0
  }

  lemma OneHeader(p: Progress, length: nat, max: nat)
    requires Fresh(p) && max <= MAX_PAYLOAD && length <= MAX_PAYLOAD
    ensures Sound(p, max)
    ensures
      var h := HeaderOf(length, p.expected);
      Bytes(p, h, max) ==
        if length > max then p.(header := h)
        else if length == 0 then EndPacket(p, 0)
        else p.(header := h, inPayload := true, length := length, left := length)
  {
    var h := HeaderOf(length, p.expected);
    HeaderBytes(p, h, max);
    assert p.header + h == h;
  }

  lemma FullPacket(p: Progress, h: seq<byte>, data: seq<byte>, max: nat)
    requires Fresh(p) && 0 < |data| <= max <= MAX_PAYLOAD && h == HeaderOf(|data|, p.expected)
    ensures
      var q := p.(header := h, inPayload := true, length := |data|, left := |data|);
      Sound(q, max) && Bytes(q, data, max) == EndPacket(p.(message := p.message + data), |data|)
  {
    PayloadBytes(p.(header := h, inPayload := true, length := |data|, left := |data|), data, max);
  }

  lemma OnePacket(p: Progress, data: seq<byte>, max: nat)
    requires Fresh(p) && |data| <= max <= MAX_PAYLOAD
    ensures Sound(p, max)
    ensures Bytes(p, HeaderOf(|data|, p.expected) + data, max) == EndPacket(p.(message := p.message + data), |data|)
  {
    var h := HeaderOf(|data|, p.expected);
    OneHeader(p, |data|, max);
    BytesConcat(p, h, data, max);
    if data == [] {
      assert p.message + data == p.message;
    } else {
      FullPacket(p, h, data, max);
    }
  }

  lemma OversizedPacket(p: Progress, length: nat, rest: seq<byte>, max: nat)
    requires Fresh(p) && max < length <= MAX_PAYLOAD
    ensures Sound(p, max)
    ensures Bytes(p, HeaderOf(length, p.expected) + rest, max) == p.(header := HeaderOf(length, p.expected))
  {
    var h := HeaderOf(length, p.expected);
    BytesConcat(p, h, rest, max);
    OneHeader(p, length, max);
    FailedStays(p.(header := h), rest, max);
  }

  /** FRAMING IS UNDONE.  Reading a framed message gives it back as one message, and leaves the reader ready for
      the next sequence id, exactly when the message fits the limit or the limit is the protocol's own;
      otherwise the first header is refused and no part of the message is delivered. */
  lemma {:induction false} FrameIsRead(p: Progress, m: seq<byte>, max: nat)
    requires Fresh(p) && max <= MAX_PAYLOAD
    ensures Sound(p, max)
    ensures
      Bytes(p, Frame(m, p.expected), max) ==
        if |m| <= max || max == MAX_PAYLOAD then
          p.(message := [], done := p.done + [p.message + m], expected := SequenceAfter(m, p.expected))
        else p.(header := HeaderOf(if |m| < MAX_PAYLOAD then |m| else MAX_PAYLOAD, p.expected))
    decreases |m|
  {
    if |m| < MAX_PAYLOAD {
      if |m| <= max { OnePacket(p, m, max); } else { OversizedPacket(p, |m|, m, max); }
    } else {
      var h, data, rest := HeaderOf(MAX_PAYLOAD, p.expected), m[..MAX_PAYLOAD], Frame(m[MAX_PAYLOAD..], Following(p.expected));
      if max < MAX_PAYLOAD {
        assert h + data + rest == h + (data + rest);
        OversizedPacket(p, MAX_PAYLOAD, data + rest, max);
      } else {
        OnePacket(p, data, max);
        var q := EndPacket(p.(message := p.message + data), MAX_PAYLOAD);
        BytesConcat(p, h + data, rest, max);
        FrameIsRead(q, m[MAX_PAYLOAD..], max);
        assert q.message + m[MAX_PAYLOAD..] == p.message + m;
      }
    }
  }

  // ---- the reader as it runs -----------------------------------------------------------------

  datatype Event = Event(
    data: seq<byte>, offset: nat, packetLength: nat, sequence: byte, packetEnd: bool, messageEnd: bool)

  const NO_EVENT := Event([], 0, 0, 0, false, false)

  /** The flags of an event say where in its packet the data lies. */
  predicate WellFormed(e: Event) {
    && e.offset + |e.data| <= e.packetLength
    && (e.packetEnd <==> e.offset + |e.data| == e.packetLength)
    && (e.messageEnd <==> e.packetEnd && e.packetLength < MAX_PAYLOAD)
  }

  /** What a caller has put together after an event. */
  function MessageAfter(message: seq<byte>, e: Event): seq<byte> {
    if e.messageEnd then [] else message + e.data
  }

  function DoneAfter(done: seq<seq<byte>>, message: seq<byte>, e: Event): seq<seq<byte>> {
    if e.messageEnd then done + [message + e.data] else done
  }

  class PacketStream {
    const header: array<byte>
    var headerUsed: nat
    var payloadLength: nat
    var payloadSeen: nat
    const maxPayload: nat
    var sequenceId: byte
    var expectedSequence: byte
    var inPayload: bool

    ghost predicate Valid()
      reads this, header
    {
      && header.Length == 4 && headerUsed <= 4 && maxPayload <= MAX_PAYLOAD
      && (!inPayload ==> payloadSeen == 0)
      && (inPayload ==> payloadSeen < payloadLength && sequenceId == expectedSequence)
      && Sound(View([], []), maxPayload)
    }

    /** The reader, for a caller that holds `message` so far and has finished `done`. */
    ghost function View(message: seq<byte>, done: seq<seq<byte>>): Progress
      requires header.Length == 4 && headerUsed <= 4
      requires payloadSeen <= payloadLength || !inPayload
      reads this, header
    {
      if inPayload then
        Progress(header[..headerUsed], true, payloadLength, payloadLength - payloadSeen, expectedSequence, message, done)
      else Progress(header[..headerUsed], false, 0, 0, expectedSequence, message, done)
    }

    constructor (expected: byte, max: nat)
      requires max <= MAX_PAYLOAD
      ensures Valid() && fresh(header) && maxPayload == max && View([], []) == Progress([], false, 0, 0, expected, [], [])
    {
      header := new byte[4](_ => 0);
      maxPayload := max;
      headerUsed, payloadLength, payloadSeen, sequenceId, expectedSequence, inPayload := 0, 0, 0, 0, expected, false;
    }

    /** Fills the header from the input. */
    method TakeHeader(input: seq<byte>) returns (cursor: nat)
      requires Valid() && !inPayload
      modifies `headerUsed, header
      ensures cursor <= |input| && headerUsed == old(headerUsed) + cursor <= 4 && (headerUsed < 4 ==> cursor == |input|)
      ensures header[..headerUsed] == old(header[..headerUsed]) + input[..cursor]
      ensures input != [] && old(headerUsed) < 4 ==> cursor > 0
    {
      cursor := 0;
      while headerUsed < 4 && cursor < |input|
        invariant cursor <= |input| && headerUsed == old(headerUsed) + cursor <= 4
        invariant header[..headerUsed] == old(header[..headerUsed]) + input[..cursor]
      {
        header[headerUsed] := input[cursor];
        headerUsed, cursor := headerUsed + 1, cursor + 1;
        assert header[..headerUsed] == header[..headerUsed - 1] + [input[cursor - 1]];
      }
    }

    /** The part of a call before the payload; no status means that the payload comes next. */
    method ReadHeader(input: seq<byte>, ghost message: seq<byte>, ghost done: seq<seq<byte>>)
      returns (status: Status, cursor: nat, event: Event)
      requires Valid() && !inPayload
      modifies this, header
      ensures Valid() && cursor <= |input|
      ensures View(MessageAfter(message, event), DoneAfter(done, message, event)) ==
                Bytes(old(View(message, done)), input[..cursor], maxPayload)
      ensures status != OK || inPayload ==> event == NO_EVENT
      ensures status == OK && !inPayload ==> event == Event([], 0, 0, old(expectedSequence), true, true)
      ensures status == OK && inPayload ==> payloadSeen == 0 && sequenceId == old(expectedSequence)
      ensures status == NEED_MORE ==> cursor == |input| && !inPayload && !Failed(View(message, done))
      ensures status == LIMIT || status == SEQUENCE <==> Failed(View(message, done))
      ensures Failed(View(message, done)) ==> status == HeaderStatus(header[..4], expectedSequence, maxPayload)
      ensures input != [] && !Failed(old(View(message, done))) ==> cursor > 0
    {
      ghost var was := View(message, done);
      event := NO_EVENT;
      assert message + event.data == message;
      cursor := TakeHeader(input);
      if Failed(was) {
        assert input[..cursor] == [];
      } else {
        HeaderBytes(was, input[..cursor], maxPayload);
      }
      if headerUsed < 4 { return NEED_MORE, cursor, event; }
      assert header[..] == header[..headerUsed] == header[..4];
      status := HeaderStatus(header[..], expectedSequence, maxPayload);
      if status != OK { return status, cursor, event; }
      payloadLength, sequenceId := Length(header[..]), header[3];
      payloadSeen, inPayload := 0, true;
      if payloadLength == 0 {
        event := Event([], 0, 0, sequenceId, true, true);
        expectedSequence := Following(expectedSequence);
        headerUsed, inPayload := 0, false;
      }
    }

    /** The payload part of a call. */
    method ReadPayload(input: seq<byte>, start: nat, ghost message: seq<byte>, ghost done: seq<seq<byte>>)
      returns (cursor: nat, event: Event)
      requires Valid() && inPayload && start < |input|
      modifies this, header
      ensures Valid() && start < cursor <= |input| && event.data == input[start..cursor]
      ensures View(MessageAfter(message, event), DoneAfter(done, message, event)) ==
                Bytes(old(View(message, done)), input[start..cursor], maxPayload)
      ensures !Failed(View(message, done))
      ensures event.offset == old(payloadSeen) && event.packetLength == old(payloadLength) && event.sequence == old(sequenceId)
      ensures event.packetEnd <==> !inPayload
      ensures WellFormed(event)
    {
      var remaining, available := payloadLength - payloadSeen, |input| - start;
      var chunk := if available > remaining then remaining else available;
      PayloadBytes(View(message, done), input[start..start + chunk], maxPayload);
      event := Event(input[start..start + chunk], payloadSeen, payloadLength, sequenceId, false, false);
      payloadSeen, cursor := payloadSeen + chunk, start + chunk;
      if payloadSeen == payloadLength {
        event := event.(packetEnd := true, messageEnd := payloadLength < MAX_PAYLOAD);
        expectedSequence := Following(expectedSequence);
        headerUsed, payloadLength, payloadSeen, inPayload := 0, 0, 0, false;
      }
    }

    /** The rest of a call that is inside a payload after `start` bytes. */
    method FeedPayload(input: seq<byte>, start: nat, ghost was: Progress, ghost message: seq<byte>, ghost done: seq<seq<byte>>)
      returns (status: Status, consumed: nat, event: Event)
      requires Valid() && inPayload && start <= |input|
      requires Sound(was, maxPayload) && View(message, done) == Bytes(was, input[..start], maxPayload)
      modifies this, header
      ensures Valid() && start <= consumed <= |input|
      ensures View(MessageAfter(message, event), DoneAfter(done, message, event)) == Bytes(was, input[..consumed], maxPayload)
      ensures if start == |input| then status == NEED_MORE && event == NO_EVENT else status == OK && WellFormed(event)
      ensures !Failed(View(message, done)) && event.data == input[start..consumed] && (start < |input| ==> start < consumed)
      ensures status == OK ==> event.sequence == old(sequenceId) && event.offset == old(payloadSeen)
    {
      event := NO_EVENT;
      assert message + event.data == message;
      if start == |input| { return NEED_MORE, start, event; }
      consumed, event := ReadPayload(input, start, message, done);
      BytesConcat(was, input[..start], input[start..consumed], maxPayload);
      assert input[..start] + input[start..consumed] == input[..consumed];
      status := OK;
    }

    /** `mysql_wire_packet_stream_feed`: one call reads the bytes it consumes, and its event is what they delivered. */
    method Feed(input: seq<byte>, ghost message: seq<byte>, ghost done: seq<seq<byte>>)
      returns (status: Status, consumed: nat, event: Event)
      requires Valid()
      modifies this, header
      ensures Valid() && consumed <= |input|
      ensures View(MessageAfter(message, event), DoneAfter(done, message, event)) ==
                Bytes(old(View(message, done)), input[..consumed], maxPayload)
      ensures status == OK <==> event != NO_EVENT
      ensures status == NEED_MORE ==> consumed == |input| && !Failed(View(message, done))
      ensures status == LIMIT || status == SEQUENCE <==> Failed(View(message, done))
      ensures Failed(View(message, done)) ==> status == HeaderStatus(header[..4], expectedSequence, maxPayload)
      ensures input != [] && !Failed(old(View(message, done))) ==> consumed > 0
      ensures |event.data| <= consumed && event.data == input[consumed - |event.data|..consumed]
      ensures status == OK ==> WellFormed(event) && event.sequence == old(expectedSequence)
      ensures status == OK ==> event.offset == (if old(inPayload) then old(payloadSeen) else 0)
    {
      ghost var was := View(message, done);
      consumed, event := 0, NO_EVENT;
      if !inPayload {
        status, consumed, event := ReadHeader(input, message, done);
        if status != OK || !inPayload { return; }
      }
      assert message + event.data == message;
      status, consumed, event := FeedPayload(input, consumed, was, message, done);
    }
  }

  function Concat(chunks: seq<seq<byte>>): seq<byte> {
    if chunks == [] then [] else chunks[0] + Concat(chunks[1..])
  }

  /** One call of the feeding loop. */
  method FeedAt(stream: PacketStream, chunk: seq<byte>, offset: nat, message: seq<byte>, done: seq<seq<byte>>,
      ghost was: Progress)
    returns (status: Status, next: nat, message': seq<byte>, done': seq<seq<byte>>)
    requires stream.Valid() && offset < |chunk| && !Failed(stream.View(message, done))
    requires Sound(was, stream.maxPayload) && stream.View(message, done) == Bytes(was, chunk[..offset], stream.maxPayload)
    modifies stream, stream.header
    ensures stream.Valid() && offset < next <= |chunk|
    ensures stream.View(message', done') == Bytes(was, chunk[..next], stream.maxPayload)
    ensures status == LIMIT || status == SEQUENCE <==> Failed(stream.View(message', done'))
  {
    var consumed, event;
    status, consumed, event := stream.Feed(chunk[offset..], message, done);
    message', done', next := MessageAfter(message, event), DoneAfter(done, message, event), offset + consumed;
    BytesConcat(was, chunk[..offset], chunk[offset..][..consumed], stream.maxPayload);
    assert chunk[..offset] + chunk[offset..][..consumed] == chunk[..next];
  }

  /** Feeds one chunk until it is used up or refused. */
  method Drain(stream: PacketStream, chunk: seq<byte>, message: seq<byte>, done: seq<seq<byte>>, failed: bool)
    returns (message': seq<byte>, done': seq<seq<byte>>, failed': bool)
    requires stream.Valid() && failed == Failed(stream.View(message, done))
    modifies stream, stream.header
    ensures stream.Valid()
    ensures stream.View(message', done') == Bytes(old(stream.View(message, done)), chunk, stream.maxPayload)
    ensures failed' == Failed(stream.View(message', done'))
  {
    ghost var was := stream.View(message, done);
    var offset := 0;
    message', done', failed' := message, done, failed;
    assert chunk[..0] == [];
    while offset < |chunk| && !failed'
      invariant offset <= |chunk| && stream.Valid()
      invariant stream.View(message', done') == Bytes(was, chunk[..offset], stream.maxPayload)
      invariant failed' == Failed(stream.View(message', done'))
    {
      var status;
      status, offset, message', done' := FeedAt(stream, chunk, offset, message', done', was);
      failed' := status == LIMIT || status == SEQUENCE;
    }
    BytesConcat(was, chunk[..offset], chunk[offset..], stream.maxPayload);
    assert chunk[..offset] + chunk[offset..] == chunk;
    if failed' { FailedStays(stream.View(message', done'), chunk[offset..], stream.maxPayload); }
  }

  lemma ConcatStep(chunks: seq<seq<byte>>, i: nat)
    requires i < |chunks|
    ensures Concat(chunks[i..]) == chunks[i] + Concat(chunks[i + 1..])
  {
    assert chunks[i..][1..] == chunks[i + 1..];
  }

  /** REASSEMBLY.  However a byte stream is split into reads, the messages delivered are those of the whole. */
  method Reassemble(chunks: seq<seq<byte>>, expected: byte, max: nat)
    returns (message: seq<byte>, done: seq<seq<byte>>, failed: bool)
    requires max <= MAX_PAYLOAD
    ensures
      var all := Bytes(Progress([], false, 0, 0, expected, [], []), Concat(chunks), max);
      message == all.message && done == all.done && failed == Failed(all)
  {
    var stream := new PacketStream(expected, max);
    message, done, failed := [], [], false;
    ghost var start := stream.View([], []);
    var i := 0;
    assert chunks[0..] == chunks;
    while i < |chunks|
      invariant i <= |chunks| && stream.Valid() && fresh(stream) && fresh(stream.header) && stream.maxPayload == max
      invariant Bytes(stream.View(message, done), Concat(chunks[i..]), max) == Bytes(start, Concat(chunks), max)
      invariant failed == Failed(stream.View(message, done))
    {
      ghost var at := stream.View(message, done);
      message, done, failed := Drain(stream, chunks[i], message, done, failed);
      ConcatStep(chunks, i);
      BytesConcat(at, chunks[i], Concat(chunks[i + 1..]), max);
      i := i + 1;
    }
  }

  /** So a framed message is delivered once and whole, for every split of its bytes. */
  lemma FramedInChunks(m: seq<byte>, chunks: seq<seq<byte>>, expected: byte, max: nat)
    requires max <= MAX_PAYLOAD && Concat(chunks) == Frame(m, expected)
    ensures
      var all := Bytes(Progress([], false, 0, 0, expected, [], []), Concat(chunks), max);
      if |m| <= max || max == MAX_PAYLOAD then !Failed(all) && all.message == [] && all.done == [m]
      else Failed(all) && all.message == [] && all.done == []
  {
    FrameIsRead(Progress([], false, 0, 0, expected, [], []), m, max);
    assert [] + m == m;
  }
}
