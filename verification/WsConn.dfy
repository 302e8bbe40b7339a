/**
The node's WebSocket connection: a reader consuming bytes and a writer appending them, with the
message loop that answers pings on the way to the next text message (RFC 6455 section 5.5).
*/
module WsConn {
  import opened Bytes
  import opened FrameCodec

  // A frame the node sends, before masking.
  datatype Sent = Sent(opcode: byte, payload: Payload)

  datatype Received = Text(payload: Payload) | Closed | Broken(error: ReadError) | Unsupported(opcode: byte)

  // What reading one message does to a stream: its outcome, the frames sent back, the bytes left.
  datatype Reading = Reading(outcome: Received, replies: seq<Sent>, rest: seq<byte>)

  // After an error the connection is dropped, so the unread rest is not tracked.
  function Receive(s: seq<byte>): (r: Reading)
    ensures r.outcome.Text? ==> |r.rest| < |s|
    decreases |s|
  {
    match Decode(s)
    case Failed(e) => Reading(Broken(e), [], [])
    case Frame(opcode, payload, rest) =>
      if opcode == 1 then Reading(Text(payload), [], rest)
      else if opcode == 8 then Reading(Closed, [Sent(8, [])], rest)
      else if opcode == 9 then
        var r := Receive(rest);
        r.(replies := [Sent(10, payload)] + r.replies)
      else if opcode == 10 then Receive(rest)
      else Reading(Unsupported(opcode), [], rest)
  }

  predicate Sendable(sent: seq<Sent>) {
    forall i :: 0 <= i < |sent| ==> |sent[i].payload| <= MAX_SLICE
  }

  // The bytes of frames sent one after the other, each under its own mask.
  function WrittenBytes(sent: seq<Sent>, masks: seq<Mask>): seq<byte>
    requires |sent| == |masks| && Sendable(sent)
  {
    if sent == [] then []
    else
      var n := |sent| - 1;
      WrittenBytes(sent[..n], masks[..n]) + Encode(sent[n].opcode, sent[n].payload, masks[n])
  }

  class Connection {
    var inbox: seq<byte>
    var outbox: seq<byte>
    ghost var sent: seq<Sent>
    ghost var masks: seq<Mask>

    ghost predicate Valid()
      reads this
    {
      && |sent| == |masks|
      && Sendable(sent)
      && outbox == WrittenBytes(sent, masks)
    }

    constructor (stream: seq<byte>)
      ensures Valid() && inbox == stream && sent == []
    {
      inbox, outbox, sent, masks := stream, [], [], [];
    }

    // Takes `n` bytes, or whatever is left when there are fewer.
    method ReadFull(n: nat) returns (ok: bool, bytes: seq<byte>)
      modifies this`inbox
      ensures ok == (n <= |old(inbox)|)
      ensures ok ==> bytes == old(inbox)[..n] && inbox == old(inbox)[n..]
      ensures !ok ==> inbox == []
    {
      ok := n <= |inbox|;
      bytes := if ok then inbox[..n] else inbox;
      inbox := if ok then inbox[n..] else [];
    }

    method ReadFrame() returns (opcode: byte, payload: Payload, error: ReadError, ok: bool)
      modifies this`inbox
      ensures ok == Decode(old(inbox)).Frame?
      ensures ok ==> Decode(old(inbox)) == Frame(opcode, payload, inbox)
      ensures !ok ==> Decode(old(inbox)) == Failed(error)
      ensures ok ==> |inbox| < |old(inbox)| && |payload| <= MAX_FRAME_PAYLOAD
    {
      hide BigEndian, Xor, Masked, FromBigEndian;
      opcode, payload, error := 0, [], Eof;
      ghost var stream := inbox;
      var header;
      ok, header := ReadFull(2);
      if !ok {
        return;
      }
      var fin := header[0] >= 128;
      var masked := header[1] >= 128;
      var length: nat := (header[1] % 128) as nat;
      var extended;
      if length == 126 {
        ok, extended := ReadFull(2);
        if !ok {
          return;
        }
        length := FromBigEndian(extended);
      } else if length == 127 {
        ok, extended := ReadFull(8);
        if !ok {
          return;
        }
        length := FromBigEndian(extended);
      }
      ghost var head := 2 + ExtendedBytes(header[1] % 128);
      assert inbox == stream[head..];
      assert head != 2 ==> extended == stream[2..head];
      if !fin {
        error, ok := Fragmented, false;
        return;
      }
      if length > MAX_FRAME_PAYLOAD {
        error, ok := TooLarge, false;
        return;
      }
      ok, payload := ReadBody(masked, length, header[0] % 16);
      opcode := header[0] % 16;
    }

    method ReadBody(masked: bool, length: nat, ghost opcode: byte) returns (ok: bool, payload: Payload)
      modifies this`inbox
      ensures ok == DecodeBody(opcode, masked, length, old(inbox)).Frame?
      ensures ok ==> DecodeBody(opcode, masked, length, old(inbox)) == Frame(opcode, payload, inbox)
    {
      payload := [];
      var mask: Mask := [0, 0, 0, 0];
      if masked {
        var key;
        ok, key := ReadFull(4);
        if !ok {
          return;
        }
        mask := key;
      }
      var raw;
      ok, raw := ReadFull(length);
      if !ok {
        return;
      }
      if masked {
        payload := Unmask(raw, mask);
        assert old(inbox)[4..][..length] == old(inbox)[4..4 + length];
        assert old(inbox)[4..][length..] == old(inbox)[4 + length..];
      } else {
        payload := raw;
      }
    }

    // Unmasks a buffer in place.
    static method Unmask(raw: Payload, mask: Mask) returns (payload: Payload)
      ensures payload == Masked(raw, mask) && XoredWith(payload, raw, mask)
    {
      MaskedIsXored(raw, mask);
      hide Xor, XoredWith;
      var buffer := new byte[|raw|](i requires 0 <= i < |raw| => raw[i]);
      for i := 0 to buffer.Length
        invariant forall j :: 0 <= j < i ==> buffer[j] == Masked(raw, mask)[j]
        invariant forall j :: i <= j < buffer.Length ==> buffer[j] == raw[j]
      {
        buffer[i] := Xor(buffer[i], mask[i % 4]);
      }
      payload := buffer[..];
    }

    // Appends one frame under a fresh random mask.
    method WriteFrame(opcode: byte, payload: Payload)
      requires Valid() && |payload| <= MAX_SLICE
      modifies this`outbox, this`sent, this`masks
      ensures Valid() && sent == old(sent) + [Sent(opcode, payload)]
      ensures |masks| == |old(masks)| + 1 && masks[..|old(masks)|] == old(masks)
      ensures outbox == old(outbox) + Encode(opcode, payload, masks[|old(masks)|])
    {
      hide Encode;
      var m0: byte, m1: byte, m2: byte, m3: byte := *, *, *, *;
      var mask: Mask := [m0, m1, m2, m3];
      var buffer := FrameBytes(opcode, payload, mask);
      outbox := outbox + buffer;
      sent, masks := sent + [Sent(opcode, payload)], masks + [mask];
      assert sent[..|sent| - 1] == old(sent) && masks[..|sent| - 1] == old(masks);
    }

    // Lays out what comes before the mask.
    static method FrontBytes(opcode: byte, payload: Payload, ghost mask: Mask) returns (buffer: seq<byte>)
      requires |payload| <= MAX_SLICE
      ensures var w := WriterWire(opcode, payload, mask); buffer == Head(w) + LengthBytes(w.form, |payload|)
    {
      hide BigEndian, Head, LengthBytes, WriterWire;
      buffer := [if opcode >= 128 then opcode else opcode + 128];
      var length := |payload|;
      if length < 126 {
        buffer := buffer + [128 + length as byte];
      } else if length <= 65535 {
        buffer := buffer + [254] + BigEndian(length, 2);
      } else {
        buffer := buffer + [255] + BigEndian(length, 8);
      }
      FrontIsHead(opcode, payload, mask, buffer);
    }

    // Appends the payload byte by byte, each under its mask byte.
    static method AppendMasked(front: seq<byte>, payload: Payload, mask: Mask) returns (buffer: seq<byte>)
      ensures buffer == front + Masked(payload, mask)
    {
      hide Xor;
      buffer := front;
      for i := 0 to |payload|
        invariant buffer == front + Masked(payload, mask)[..i]
      {
        buffer := buffer + [Xor(payload[i], mask[i % 4])];
      }
    }

    // Lays a frame out in a buffer.
    static method FrameBytes(opcode: byte, payload: Payload, mask: Mask) returns (buffer: seq<byte>)
      requires |payload| <= MAX_SLICE
      ensures buffer == Encode(opcode, payload, mask) && LaidOut(buffer, WriterWire(opcode, payload, mask))
    {
      hide *;
      WireIsLaidOut(WriterWire(opcode, payload, mask));
      EncodeParts(opcode, payload, mask);
      buffer := FrontBytes(opcode, payload, mask);
      buffer := AppendMasked(buffer + mask, payload, mask);
    }

    // Reads up to the next text message, answering pings as they come.
    method ReadJSON() returns (outcome: Received)
      requires Valid()
      modifies this
      ensures Valid()
      ensures outcome == Receive(old(inbox)).outcome
      ensures sent == old(sent) + Receive(old(inbox)).replies
      ensures |old(masks)| <= |masks| && masks[..|old(masks)|] == old(masks)
      ensures |masks[|old(masks)|..]| == |Receive(old(inbox)).replies| && Sendable(Receive(old(inbox)).replies)
      ensures outbox == old(outbox) + WrittenBytes(Receive(old(inbox)).replies, masks[|old(masks)|..])
      ensures !outcome.Broken? ==> inbox == Receive(old(inbox)).rest
    {
      hide Decode, WrittenBytes, Encode, Appended, Receive, Reads;
      ghost var replies: seq<Sent>, keys: seq<Mask> := [], [];
      NothingAppended(sent, masks, outbox);
      NothingRead(inbox);
      while true
        invariant Valid() && |inbox| <= |old(inbox)|
        invariant Reads(old(inbox), replies, inbox)
        invariant Appended(old(sent), old(masks), old(outbox), sent, masks, outbox, replies, keys)
        decreases |inbox|
      {
        ReadsOne(old(inbox), replies, inbox);
        var opcode, payload, error, ok := ReadFrame();
        if !ok {
          AppendedMeans(old(sent), old(masks), old(outbox), sent, masks, outbox, replies, keys);
          return Broken(error);
        }
        if opcode == 1 {
          AppendedMeans(old(sent), old(masks), old(outbox), sent, masks, outbox, replies, keys);
          return Text(payload);
        } else if opcode == 8 {
          replies, keys := SendOne(old(sent), old(masks), old(outbox), replies, keys, 8, []);
          AppendedMeans(old(sent), old(masks), old(outbox), sent, masks, outbox, replies, keys);
          return Closed;
        } else if opcode == 9 {
          replies, keys := SendOne(old(sent), old(masks), old(outbox), replies, keys, 10, payload);
        } else if opcode == 10 {
        } else {
          AppendedMeans(old(sent), old(masks), old(outbox), sent, masks, outbox, replies, keys);
          return Unsupported(opcode);
        }
      }
    }

    // Writes a frame and notes it behind those sent since some earlier moment.
    method SendOne(ghost sent0: seq<Sent>, ghost masks0: seq<Mask>, ghost outbox0: seq<byte>, ghost replies: seq<Sent>, ghost keys: seq<Mask>,
                   opcode: byte, payload: Payload)
      returns (ghost replies': seq<Sent>, ghost keys': seq<Mask>)
      requires Valid() && |payload| <= MAX_SLICE
      requires Appended(sent0, masks0, outbox0, sent, masks, outbox, replies, keys)
      modifies this`outbox, this`sent, this`masks
      ensures Valid() && replies' == replies + [Sent(opcode, payload)]
      ensures Appended(sent0, masks0, outbox0, sent, masks, outbox, replies', keys')
    {
      hide Encode, WrittenBytes;
      WriteFrame(opcode, payload);
      WrittenSnoc(replies, keys, Sent(opcode, payload), masks[|masks| - 1]);
      replies', keys' := replies + [Sent(opcode, payload)], keys + [masks[|masks| - 1]];
    }
  }

  // What reading from `start` comes to, once it has sent `replies` and has `s` still to read.
  ghost predicate Reads(start: seq<byte>, replies: seq<Sent>, s: seq<byte>) {
    var r := Receive(s);
    Receive(start) == r.(replies := replies + r.replies)
  }

  lemma NothingRead(s: seq<byte>)
    ensures Reads(s, [], s)
  {
    assert [] + Receive(s).replies == Receive(s).replies;
  }

  ghost predicate AfterFrame(start: seq<byte>, replies: seq<Sent>, opcode: byte, payload: Payload, rest: seq<byte>) {
    if opcode == 1 then Receive(start) == Reading(Text(payload), replies, rest)
    else if opcode == 8 then Receive(start) == Reading(Closed, replies + [Sent(8, [])], rest)
    else if opcode == 9 then Reads(start, replies + [Sent(10, payload)], rest)
    else if opcode == 10 then Reads(start, replies, rest)
    else Receive(start) == Reading(Unsupported(opcode), replies, rest)
  }

  lemma ReadsOne(start: seq<byte>, replies: seq<Sent>, s: seq<byte>)
    requires Reads(start, replies, s)
    ensures Decode(s).Failed? ==> Receive(start) == Reading(Broken(Decode(s).error), replies, [])
    ensures Decode(s).Frame? ==> AfterFrame(start, replies, Decode(s).opcode, Decode(s).payload, Decode(s).rest)
  {
    hide Decode;
    assert replies + [] == replies;
    if Decode(s).Frame? && Decode(s).opcode == 9 {
      var f := Decode(s);
      assert replies + ([Sent(10, f.payload)] + Receive(f.rest).replies) == replies + [Sent(10, f.payload)] + Receive(f.rest).replies;
    }
  }

  // Since some earlier moment exactly these frames were sent, behind what had been sent before.
  ghost predicate Appended(sent0: seq<Sent>, masks0: seq<Mask>, outbox0: seq<byte>, sent: seq<Sent>, masks: seq<Mask>, outbox: seq<byte>,
                           replies: seq<Sent>, keys: seq<Mask>) {
    && |replies| == |keys| && Sendable(replies)
    && sent == sent0 + replies && masks == masks0 + keys && outbox == outbox0 + WrittenBytes(replies, keys)
  }

  lemma NothingAppended(sent: seq<Sent>, masks: seq<Mask>, outbox: seq<byte>)
    ensures Appended(sent, masks, outbox, sent, masks, outbox, [], [])
  {
    NothingWritten();
  }

  lemma AppendedMeans(sent0: seq<Sent>, masks0: seq<Mask>, outbox0: seq<byte>, sent: seq<Sent>, masks: seq<Mask>, outbox: seq<byte>,
                      replies: seq<Sent>, keys: seq<Mask>)
    requires Appended(sent0, masks0, outbox0, sent, masks, outbox, replies, keys)
    ensures sent == sent0 + replies && replies + [] == replies
    ensures |masks0| <= |masks| && masks[..|masks0|] == masks0 && |masks[|masks0|..]| == |replies| && Sendable(replies)
    ensures outbox == outbox0 + WrittenBytes(replies, masks[|masks0|..])
  {
    assert masks[|masks0|..] == keys;
  }

  lemma NothingWritten()
    ensures WrittenBytes([], []) == []
  {
  }

  // Sending one more frame adds its bytes behind those already written.
  lemma WrittenSnoc(sent: seq<Sent>, masks: seq<Mask>, frame: Sent, mask: Mask)
    requires |sent| == |masks| && Sendable(sent) && |frame.payload| <= MAX_SLICE
    ensures Sendable(sent + [frame])
    ensures WrittenBytes(sent + [frame], masks + [mask]) == WrittenBytes(sent, masks) + Encode(frame.opcode, frame.payload, mask)
  {
    assert (sent + [frame])[..|sent|] == sent && (masks + [mask])[..|masks|] == masks;
  }

  lemma EncodeParts(opcode: byte, payload: Payload, mask: Mask)
    requires |payload| <= MAX_SLICE
    ensures var w := WriterWire(opcode, payload, mask);
      && Encode(opcode, payload, mask) == WireBytes(w)
      && WireBytes(w) == Head(w) + LengthBytes(w.form, |payload|) + mask + Masked(payload, mask)
  {
    var w := WriterWire(opcode, payload, mask);
    var front, masked := Head(w) + LengthBytes(w.form, |payload|), Masked(payload, mask);
    assert w.payload == payload && w.mask == mask && w.masked;
    assert WireBytes(w) == front + (mask + masked);
    hide *;
    assert front + (mask + masked) == front + mask + masked;
  }

  lemma FrontIsHead(opcode: byte, payload: Payload, mask: Mask, front: seq<byte>)
    requires |payload| <= MAX_SLICE
    requires front == [if opcode >= 128 then opcode else opcode + 128]
      + (if |payload| < 126 then [128 + |payload| as byte]
         else if |payload| <= 65535 then [254] + BigEndian(|payload|, 2)
         else [255] + BigEndian(|payload|, 8))
    ensures var w := WriterWire(opcode, payload, mask); front == Head(w) + LengthBytes(w.form, |payload|)
  {
    hide BigEndian;
    var w := WriterWire(opcode, payload, mask);
    HeadBytes(opcode, payload, mask);
    hide WriterWire, Head;
    var first := if opcode >= 128 then opcode else opcode + 128;
    assert Head(w) == [first, Head(w)[1]];
    Regroup(first, Head(w)[1], LengthBytes(w.form, |payload|));
  }

  lemma Regroup(a: byte, b: byte, tail: seq<byte>)
    ensures [a] + ([b] + tail) == [a, b] + tail
    ensures tail == [] ==> [a] + [b] == [a, b] + tail
  {
  }

  lemma HeadBytes(opcode: byte, payload: Payload, mask: Mask)
    requires |payload| <= MAX_SLICE
    ensures var w := WriterWire(opcode, payload, mask);
      && w.form == WriterForm(|payload|)
      && Head(w)[0] == (if opcode >= 128 then opcode else opcode + 128)
      && Head(w)[1] == if |payload| < 126 then 128 + |payload| as byte else if |payload| <= 65535 then 254 else 255
  {
    FirstByte(opcode as nat);
  }

  lemma FirstByte(opcode: nat)
    requires opcode < 256
    ensures 128 + 16 * (opcode / 16 % 8) + opcode % 16 == if opcode >= 128 then opcode else opcode + 128
  {
  }

  // The payloads of the pings among `ws`, in order.
  function Pings(ws: seq<Wire>): seq<Sent> {
    if ws == [] then []
    else (if ws[0].opcode == 9 then [Sent(10, ws[0].payload)] else []) + Pings(ws[1..])
  }

  predicate Controls(ws: seq<Wire>) {
    AllAcceptable(ws) && forall i :: 0 <= i < |ws| ==> ws[i].opcode == 9 || ws[i].opcode == 10
  }

  // Pings and pongs in front only add pongs to what is sent: one per ping, with its payload, in order.
  lemma {:induction false} ControlsFirst(ws: seq<Wire>, s: seq<byte>)
    requires Controls(ws)
    ensures Receive(StreamBytes(ws) + s) == Receive(s).(replies := Pings(ws) + Receive(s).replies)
  {
    hide WireBytes, Decode;
    if ws == [] {
      assert StreamBytes(ws) + s == s;
      assert Pings(ws) + Receive(s).replies == Receive(s).replies;
    } else {
      var after := StreamBytes(ws[1..]) + s;
      DecodeWire(ws[0], after);
      ControlsFirst(ws[1..], s);
      assert StreamBytes(ws) + s == WireBytes(ws[0]) + after;
      hide StreamBytes;
      OneControl(ws, s, after);
    }
  }

  lemma OneControl(ws: seq<Wire>, s: seq<byte>, after: seq<byte>)
    requires ws != [] && Controls(ws)
    requires Decode(WireBytes(ws[0]) + after) == Frame(ws[0].opcode as byte, ws[0].payload, after)
    requires Receive(after) == Receive(s).(replies := Pings(ws[1..]) + Receive(s).replies)
    ensures Receive(WireBytes(ws[0]) + after) == Receive(s).(replies := Pings(ws) + Receive(s).replies)
  {
    hide WireBytes, Decode, Pings;
    var r, later := Receive(s).replies, Pings(ws[1..]);
    PingsStep(ws);
    if ws[0].opcode == 9 {
      ReceivePing(WireBytes(ws[0]) + after);
      hide Receive;
      assert [Sent(10, ws[0].payload)] + (later + r) == [Sent(10, ws[0].payload)] + later + r;
    } else {
      ReceivePong(WireBytes(ws[0]) + after);
      hide Receive;
    }
  }

  lemma PingsStep(ws: seq<Wire>)
    requires ws != []
    ensures Pings(ws) == if ws[0].opcode == 9 then [Sent(10, ws[0].payload)] + Pings(ws[1..]) else Pings(ws[1..])
  {
  }

  lemma ReceivePing(s: seq<byte>)
    requires Decode(s).Frame? && Decode(s).opcode == 9
    ensures var r := Receive(Decode(s).rest); Receive(s) == r.(replies := [Sent(10, Decode(s).payload)] + r.replies)
  {
    hide Decode;
  }

  lemma ReceivePong(s: seq<byte>)
    requires Decode(s).Frame? && Decode(s).opcode == 10
    ensures Receive(s) == Receive(Decode(s).rest)
  {
    hide Decode;
  }

  // What one frame that is no ping or pong does.
  lemma OtherFrame(w: Wire, rest: seq<byte>)
    requires Acceptable(w) && w.opcode != 9 && w.opcode != 10
    ensures Receive(WireBytes(w) + rest) ==
      if w.opcode == 1 then Reading(Text(w.payload), [], rest)
      else if w.opcode == 8 then Reading(Closed, [Sent(8, [])], rest)
      else Reading(Unsupported(w.opcode as byte), [], rest)
  {
    DecodeWire(w, rest);
    hide WireBytes, Decode;
  }

  lemma Regrouped(ws: seq<Wire>, w: Wire, rest: seq<byte>)
    requires AllAcceptable(ws) && Acceptable(w)
    ensures StreamBytes(ws) + WireBytes(w) + rest == StreamBytes(ws) + (WireBytes(w) + rest)
  {
    hide StreamBytes, WireBytes;
  }

  // Behind any run of pings and pongs the first text frame is found, and each ping has been
  // answered by exactly one pong with its payload, in order.
  lemma PongsThenText(ws: seq<Wire>, text: Wire, rest: seq<byte>)
    requires Controls(ws) && Acceptable(text) && text.opcode == 1
    ensures Receive(StreamBytes(ws) + WireBytes(text) + rest) == Reading(Text(text.payload), Pings(ws), rest)
  {
    hide WireBytes, StreamBytes, Receive, Pings;
    Regrouped(ws, text, rest);
    ControlsFirst(ws, WireBytes(text) + rest);
    OtherFrame(text, rest);
  }

  // A close frame there ends the stream, and is answered by an empty one.
  lemma PongsThenClose(ws: seq<Wire>, close: Wire, rest: seq<byte>)
    requires Controls(ws) && Acceptable(close) && close.opcode == 8
    ensures Receive(StreamBytes(ws) + WireBytes(close) + rest) == Reading(Closed, Pings(ws) + [Sent(8, [])], rest)
  {
    hide WireBytes, StreamBytes, Receive, Pings;
    Regrouped(ws, close, rest);
    ControlsFirst(ws, WireBytes(close) + rest);
    OtherFrame(close, rest);
  }

  // Any other frame there is refused, and nothing more is sent.
  lemma PongsThenOther(ws: seq<Wire>, other: Wire, rest: seq<byte>)
    requires Controls(ws) && Acceptable(other) && other.opcode !in {1, 8, 9, 10}
    ensures Receive(StreamBytes(ws) + WireBytes(other) + rest) == Reading(Unsupported(other.opcode as byte), Pings(ws), rest)
  {
    hide WireBytes, StreamBytes, Receive, Pings;
    Regrouped(ws, other, rest);
    ControlsFirst(ws, WireBytes(other) + rest);
    OtherFrame(other, rest);
  }

  // A stream that ends before any text frame ends in an error, whatever control frames it holds.
  lemma ControlFramesOnly(ws: seq<Wire>, tail: seq<byte>)
    requires Controls(ws) && Decode(tail).Failed?
    ensures Receive(StreamBytes(ws) + tail) == Reading(Broken(Decode(tail).error), Pings(ws), [])
  {
    hide StreamBytes, Decode, Pings;
    ControlsFirst(ws, tail);
  }
}
