/**
The node's own WebSocket framing (RFC 6455 section 5.2): the shape a frame may have on the wire, and
the reader as a function of the bytes still to come.
*/
module FrameCodec {
  import opened Bytes

  const MAX_FRAME_PAYLOAD := 0x10_0000

  // The longest byte slice a 64-bit program can hold.
  const MAX_SLICE := 0x7fff_ffff_ffff_ffff

  type Payload = seq<byte>
  type Mask = m: seq<byte> | |m| == 4 witness [0, 0, 0, 0]

  // ----- frames as RFC 6455 section 5.2 lays them out -----

  datatype LengthForm = Inline | Medium | Long

  // Any single frame a peer may send, with every choice the format leaves open.
  datatype Wire = Wire(fin: bool, rsv: nat, opcode: nat, form: LengthForm, masked: bool, mask: Mask, payload: Payload)

  predicate ValidWire(w: Wire) {
    && w.rsv < 8 && w.opcode < 16
    && match w.form
       case Inline => |w.payload| < 126
       case Medium => |w.payload| < 0x1_0000
       case Long => |w.payload| <= MAX_SLICE
  }

  function Masked(payload: Payload, mask: Mask): (r: Payload)
    ensures |r| == |payload|
  {
    seq(|payload|, i requires 0 <= i < |payload| => Xor(payload[i], mask[i % 4]))
  }

  function LengthBytes(form: LengthForm, length: nat): seq<byte> {
    match form
    case Inline => []
    case Medium => BigEndian(length, 2)
    case Long => BigEndian(length, 8)
  }

  function Head(w: Wire): (r: seq<byte>)
    requires ValidWire(w)
    ensures |r| == 2
  {
    var length7 := match w.form case Inline => |w.payload| case Medium => 126 case Long => 127;
    [((if w.fin then 128 else 0) + 16 * w.rsv + w.opcode) as byte,
     ((if w.masked then 128 else 0) + length7) as byte]
  }

  function Body(w: Wire): seq<byte> {
    if w.masked then w.mask + Masked(w.payload, w.mask) else w.payload
  }

  function WireBytes(w: Wire): seq<byte>
    requires ValidWire(w)
  {
    Head(w) + LengthBytes(w.form, |w.payload|) + Body(w)
  }

  // A frame the reader takes: not fragmented and not over the payload limit.
  predicate Acceptable(w: Wire) {
    ValidWire(w) && w.fin && |w.payload| <= MAX_FRAME_PAYLOAD
  }

  // ----- the same layout, byte by byte -----

  // The masked payload: every byte differs from the original in the bits its mask byte has set.
  ghost predicate XoredWith(masked: seq<byte>, payload: Payload, mask: Mask) {
    |masked| == |payload| && forall i :: 0 <= i < |payload| ==> Differing(masked[i], payload[i], mask[i % 4])
  }

  // Seven bits hold a short length, or say that 16 or 64 bits follow, most significant byte first.
  ghost predicate LengthLaidOut(form: LengthForm, length7: byte, s: seq<byte>, n: nat) {
    match form
    case Inline => s == [] && length7 as int == n
    case Medium => |s| == 2 && length7 == 126 && 256 * s[0] as int + s[1] as int == n
    case Long =>
      && |s| == 8 && length7 == 127
      && 0x1_0000_0000_0000 * (256 * s[0] as int + s[1] as int) + 0x1_0000_0000 * (256 * s[2] as int + s[3] as int)
         + 0x1_0000 * (256 * s[4] as int + s[5] as int) + (256 * s[6] as int + s[7] as int) == n
  }

  ghost predicate BodyLaidOut(s: seq<byte>, w: Wire) {
    if w.masked then |s| >= 4 && s[..4] == w.mask && XoredWith(s[4..], w.payload, w.mask) else s == w.payload
  }

  function LengthSize(form: LengthForm): nat {
    match form case Inline => 0 case Medium => 2 case Long => 8
  }

  // Section 5.2 of RFC 6455 read off the bytes: final bit, reserved bits and opcode in the first;
  // mask bit and seven length bits in the second; then a longer length, the mask and the payload.
  ghost predicate LaidOut(b: seq<byte>, w: Wire) {
    var h := 2 + LengthSize(w.form);
    && |b| >= h
    && b[0] as int == (if w.fin then 128 else 0) + 16 * w.rsv + w.opcode
    && (b[1] >= 128 <==> w.masked)
    && LengthLaidOut(w.form, b[1] % 128, b[2..h], |w.payload|)
    && BodyLaidOut(b[h..], w)
  }

  // Masking as section 5.3 of RFC 6455 defines it.
  lemma MaskedIsXored(payload: Payload, mask: Mask)
    ensures XoredWith(Masked(payload, mask), payload, mask)
  {
    forall i | 0 <= i < |payload|
      ensures Differing(Masked(payload, mask)[i], payload[i], mask[i % 4])
    {
      XorDiffers(payload[i], mask[i % 4]);
    }
  }

  lemma LengthIsLaidOut(w: Wire)
    requires ValidWire(w)
    ensures LengthLaidOut(w.form, Head(w)[1] % 128, LengthBytes(w.form, |w.payload|), |w.payload|)
  {
    HeadFields(w);
    hide BigEndian, FromBigEndian;
    Widths();
    if w.form.Medium? {
      BigEndianRead(|w.payload|, 2);
      TwoBytes(BigEndian(|w.payload|, 2));
    } else if w.form.Long? {
      BigEndianRead(|w.payload|, 8);
      EightBytes(BigEndian(|w.payload|, 8));
    }
  }

  lemma BodyIsLaidOut(w: Wire)
    ensures BodyLaidOut(Body(w), w)
  {
    hide Masked, Differing, XoredWith;
    MaskedIsXored(w.payload, w.mask);
    if w.masked {
      assert Body(w)[4..] == Masked(w.payload, w.mask);
    }
  }

  // The frames of this model are the format's.
  lemma WireIsLaidOut(w: Wire)
    requires ValidWire(w)
    ensures LaidOut(WireBytes(w), w)
  {
    LengthIsLaidOut(w);
    BodyIsLaidOut(w);
    HeadFields(w);
    var extended := LengthBytes(w.form, |w.payload|);
    assert |extended| == LengthSize(w.form);
    FourParts(Head(w), extended, Body(w), []);
    hide LengthBytes, Body, LengthLaidOut, BodyLaidOut, ExtendedBytes;
    var b := WireBytes(w);
    assert b + [] == b && Body(w) + [] == Body(w);
    assert b[0] == b[..2][0] && b[1] == b[..2][1];
  }

  // ----- what the node writes -----

  function WriterForm(length: nat): LengthForm {
    if length < 126 then Inline else if length <= 65535 then Medium else Long
  }

  // The frame written for an opcode byte; bits above the low four spill into the reserved ones.
  function WriterWire(opcode: byte, payload: Payload, mask: Mask): (w: Wire)
    requires |payload| <= MAX_SLICE
    ensures ValidWire(w) && w.fin && w.masked
  {
    Wire(true, opcode as nat / 16 % 8, opcode as nat % 16, WriterForm(|payload|), true, mask, payload)
  }

  function Encode(opcode: byte, payload: Payload, mask: Mask): seq<byte>
    requires |payload| <= MAX_SLICE
  {
    WireBytes(WriterWire(opcode, payload, mask))
  }

  // ----- what the node reads -----

  datatype ReadError = Eof | Fragmented | TooLarge

  datatype Decoded = Frame(opcode: byte, payload: Payload, rest: seq<byte>) | Failed(error: ReadError)

  function ExtendedBytes(length7: byte): nat {
    if length7 == 126 then 2 else if length7 == 127 then 8 else 0
  }

  function Decode(s: seq<byte>): Decoded {
    if |s| < 2 then Failed(Eof)
    else
      var length7 := s[1] % 128;
      var head := 2 + ExtendedBytes(length7);
      if |s| < head then Failed(Eof)
      else
        var length := if head == 2 then length7 as nat else FromBigEndian(s[2..head]);
        if s[0] < 128 then Failed(Fragmented)
        else if length > MAX_FRAME_PAYLOAD then Failed(TooLarge)
        else DecodeBody(s[0] % 16, s[1] >= 128, length, s[head..])
  }

  function DecodeBody(opcode: byte, masked: bool, length: nat, s: seq<byte>): (r: Decoded)
    ensures r.Frame? ==> r.opcode == opcode && |r.payload| == length && |r.rest| <= |s|
    ensures r.Failed? ==> r.error == Eof
  {
    if masked then
      if |s| < 4 + length then Failed(Eof)
      else Frame(opcode, Masked(s[4..4 + length], s[..4]), s[4 + length..])
    else
      if |s| < length then Failed(Eof)
      else Frame(opcode, s[..length], s[length..])
  }

  // ----- reading back what was written -----

  lemma MaskedTwice(payload: Payload, mask: Mask)
    ensures Masked(Masked(payload, mask), mask) == payload
  {
    forall i | 0 <= i < |payload|
      ensures Masked(Masked(payload, mask), mask)[i] == payload[i]
    {
      XorTwice(payload[i], mask[i % 4]);
    }
  }

  lemma FirstFields(fin: bool, rsv: nat, opcode: nat)
    requires rsv < 8 && opcode < 16
    ensures var v := (if fin then 128 else 0) + 16 * rsv + opcode;
      v < 256 && (v >= 128 <==> fin) && v % 16 == opcode
  {
  }

  lemma SecondFields(masked: bool, length7: nat)
    requires length7 < 128
    ensures var v := (if masked then 128 else 0) + length7;
      v < 256 && (v >= 128 <==> masked) && v % 128 == length7
  {
  }

  lemma HeadFields(w: Wire)
    requires ValidWire(w)
    ensures var h := Head(w);
      && (h[0] >= 128 <==> w.fin) && h[0] % 16 == w.opcode as byte
      && (h[1] >= 128 <==> w.masked)
      && ExtendedBytes(h[1] % 128) == |LengthBytes(w.form, |w.payload|)|
      && (w.form.Inline? ==> (h[1] % 128) as nat == |w.payload|)
  {
    FirstFields(w.fin, w.rsv, w.opcode);
    var length7 := match w.form case Inline => |w.payload| case Medium => 126 case Long => 127;
    SecondFields(w.masked, length7);
    hide BigEndian;
  }

  lemma LengthReadBack(w: Wire)
    requires ValidWire(w) && !w.form.Inline?
    ensures FromBigEndian(LengthBytes(w.form, |w.payload|)) == |w.payload|
  {
    Widths();
    BigEndianRead(|w.payload|, if w.form.Medium? then 2 else 8);
  }

  lemma BodyReadBack(w: Wire, rest: seq<byte>)
    ensures DecodeBody(w.opcode as byte, w.masked, |w.payload|, Body(w) + rest) == Frame(w.opcode as byte, w.payload, rest)
    requires w.opcode < 256
  {
    var s := Body(w) + rest;
    if w.masked {
      assert s[..4] == w.mask && s[4..4 + |w.payload|] == Masked(w.payload, w.mask) && s[4 + |w.payload|..] == rest;
      MaskedTwice(w.payload, w.mask);
    } else {
      assert s[..|w.payload|] == w.payload && s[|w.payload|..] == rest;
    }
  }

  lemma FourParts(a: seq<byte>, b: seq<byte>, c: seq<byte>, d: seq<byte>)
    ensures var s := a + b + c + d;
      |s| >= |a| + |b| && s[..|a|] == a && s[|a|..|a| + |b|] == b && s[|a| + |b|..] == c + d
  {
  }

  // Every well-formed frame is read back as it is, or refused for the reason it deserves.
  lemma DecodeWire(w: Wire, rest: seq<byte>)
    requires ValidWire(w)
    ensures Decode(WireBytes(w) + rest)
         == if !w.fin then Failed(Fragmented)
            else if |w.payload| > MAX_FRAME_PAYLOAD then Failed(TooLarge)
            else Frame(w.opcode as byte, w.payload, rest)
  {
    var extended := LengthBytes(w.form, |w.payload|);
    var s := WireBytes(w) + rest;
    FourParts(Head(w), extended, Body(w), rest);
    HeadFields(w);
    if !w.form.Inline? {
      LengthReadBack(w);
    }
    BodyReadBack(w, rest);
    hide Head, Body, LengthBytes, DecodeBody, FromBigEndian;
    assert s[0] == s[..2][0] && s[1] == s[..2][1];
  }

  lemma XoredIsMasked(s: seq<byte>, payload: Payload, mask: Mask)
    requires XoredWith(s, payload, mask)
    ensures s == Masked(payload, mask)
  {
    hide Xor, Differing;
    forall i | 0 <= i < |s|
      ensures s[i] == Masked(payload, mask)[i]
    {
      DifferingIsXor(s[i], payload[i], mask[i % 4]);
    }
  }

  lemma LaidOutLength(form: LengthForm, length7: byte, s: seq<byte>, n: nat)
    requires LengthLaidOut(form, length7, s, n)
    ensures s == LengthBytes(form, n)
  {
    hide BigEndian, FromBigEndian;
    BigEndianWritten(s);
    if form.Medium? {
      TwoBytes(s);
    } else if form.Long? {
      EightBytes(s);
    }
  }

  lemma LaidOutBody(s: seq<byte>, w: Wire)
    requires BodyLaidOut(s, w)
    ensures s == Body(w)
  {
    hide XoredWith, Masked;
    if w.masked {
      XoredIsMasked(s[4..], w.payload, w.mask);
      assert s == s[..4] + s[4..];
    }
  }

  lemma LaidOutHead(b: seq<byte>, w: Wire)
    requires ValidWire(w) && LaidOut(b, w)
    ensures |b| >= 2 && b[..2] == Head(w)
  {
    HeadFields(w);
    hide BodyLaidOut, ExtendedBytes, LengthBytes, Head;
    assert b[1] % 128 == Head(w)[1] % 128;
    SameHead(b[0], b[1], Head(w)[0], Head(w)[1]);
    assert Head(w) == [b[0], b[1]] && b[..2] == [b[0], b[1]];
  }

  lemma SameHead(a: byte, b: byte, c: byte, d: byte)
    requires a as int == c as int && b % 128 == d % 128 && (b >= 128 <==> d >= 128)
    ensures a == c && b == d
  {
  }

  // Bytes with the layout of a frame are that frame.
  lemma LaidOutIsWire(b: seq<byte>, w: Wire)
    requires ValidWire(w) && LaidOut(b, w)
    ensures b == WireBytes(w)
  {
    var h := 2 + LengthSize(w.form);
    LaidOutHead(b, w);
    LaidOutLength(w.form, b[1] % 128, b[2..h], |w.payload|);
    LaidOutBody(b[h..], w);
    hide Head, LengthBytes, Body, LengthLaidOut, BodyLaidOut;
    assert b == b[..2] + b[2..h] + b[h..];
  }

  // So whatever a conforming peer sends is read as it is, or refused for the reason it deserves.
  lemma DecodeConforming(b: seq<byte>, w: Wire, rest: seq<byte>)
    requires ValidWire(w) && LaidOut(b, w)
    ensures Decode(b + rest)
         == if !w.fin then Failed(Fragmented)
            else if |w.payload| > MAX_FRAME_PAYLOAD then Failed(TooLarge)
            else Frame(w.opcode as byte, w.payload, rest)
  {
    hide LaidOut, WireBytes, Decode;
    LaidOutIsWire(b, w);
    DecodeWire(w, rest);
  }

  // The node's own frames in particular: any opcode, mask and payload.
  lemma DecodeEncode(opcode: byte, payload: Payload, mask: Mask, rest: seq<byte>)
    requires |payload| <= MAX_SLICE
    ensures Decode(Encode(opcode, payload, mask) + rest)
         == if |payload| > MAX_FRAME_PAYLOAD then Failed(TooLarge) else Frame(opcode % 16, payload, rest)
  {
    DecodeWire(WriterWire(opcode, payload, mask), rest);
  }

  lemma BodyInverse(opcode: byte, masked: bool, length: nat, t: seq<byte>, w: Wire)
    requires DecodeBody(opcode, masked, length, t).Frame?
    requires w.masked == masked && w.payload == DecodeBody(opcode, masked, length, t).payload
    requires masked ==> |t| >= 4 && w.mask == t[..4]
    ensures |w.payload| == length && t == Body(w) + DecodeBody(opcode, masked, length, t).rest
  {
    if masked {
      MaskedTwice(t[4..4 + length], t[..4]);
      assert t == t[..4] + t[4..4 + length] + t[4 + length..];
    } else {
      assert t == t[..length] + t[length..];
    }
  }

  // The header fields a reader sees determine the header.
  lemma HeadInverse(s: seq<byte>, w: Wire)
    requires ValidWire(w) && w.fin && |s| >= 2 && s[0] >= 128
    requires w.rsv == (s[0] as nat - 128) / 16 && w.opcode == s[0] as nat % 16
    requires w.masked <==> s[1] >= 128
    requires match w.form
      case Inline => |w.payload| == (s[1] % 128) as nat
      case Medium => s[1] % 128 == 126
      case Long => s[1] % 128 == 127
    ensures s[..2] == Head(w)
  {
  }

  function FormOf(length7: byte): LengthForm {
    if length7 == 126 then Medium else if length7 == 127 then Long else Inline
  }

  // The length a reader finds, and the bytes it found it in.
  function LengthOf(s: seq<byte>): nat
    requires |s| >= 2 && |s| >= 2 + ExtendedBytes(s[1] % 128)
  {
    var head := 2 + ExtendedBytes(s[1] % 128);
    if head == 2 then (s[1] % 128) as nat else FromBigEndian(s[2..head])
  }

  lemma LengthInverse(s: seq<byte>)
    requires |s| >= 2 && |s| >= 2 + ExtendedBytes(s[1] % 128)
    ensures var head, form := 2 + ExtendedBytes(s[1] % 128), FormOf(s[1] % 128);
      && s[2..head] == LengthBytes(form, LengthOf(s))
      && (form.Inline? ==> LengthOf(s) < 126) && (form.Medium? ==> LengthOf(s) < 0x1_0000)
  {
    hide BigEndian, FromBigEndian;
    var head := 2 + ExtendedBytes(s[1] % 128);
    if head != 2 {
      BigEndianWritten(s[2..head]);
      Widths();
    }
  }

  lemma DecodeParts(s: seq<byte>)
    requires Decode(s).Frame?
    ensures |s| >= 2 && |s| >= 2 + ExtendedBytes(s[1] % 128) && s[0] >= 128 && LengthOf(s) <= MAX_FRAME_PAYLOAD
    ensures Decode(s) == DecodeBody(s[0] % 16, s[1] >= 128, LengthOf(s), s[2 + ExtendedBytes(s[1] % 128)..])
  {
    hide DecodeBody, FromBigEndian;
  }

  // The frame whose bytes a reader has before it.
  function WireOf(s: seq<byte>): (w: Wire)
    requires |s| >= 2 && |s| >= 2 + ExtendedBytes(s[1] % 128) && s[0] >= 128 && Decode(s).Frame?
  {
    var t := s[2 + ExtendedBytes(s[1] % 128)..];
    Wire(true, (s[0] as nat - 128) / 16, s[0] as nat % 16, FormOf(s[1] % 128), s[1] >= 128,
         if |t| >= 4 then t[..4] else [0, 0, 0, 0], Decode(s).payload)
  }

  lemma WireOfBody(s: seq<byte>)
    requires |s| >= 2 && |s| >= 2 + ExtendedBytes(s[1] % 128) && s[0] >= 128 && Decode(s).Frame?
    ensures Decode(s).opcode == s[0] % 16 && |Decode(s).payload| == LengthOf(s) <= MAX_FRAME_PAYLOAD
    ensures s[2 + ExtendedBytes(s[1] % 128)..] == Body(WireOf(s)) + Decode(s).rest
  {
    var masked, t := s[1] >= 128, s[2 + ExtendedBytes(s[1] % 128)..];
    DecodeParts(s);
    if masked {
      BodyLongEnough(s[0] % 16, masked, LengthOf(s), t);
    }
    hide Decode, DecodeBody, LengthOf, Body, ExtendedBytes;
    BodyInverse(s[0] % 16, masked, LengthOf(s), t, WireOf(s));
  }

  lemma WireOfHead(s: seq<byte>)
    requires |s| >= 2 && |s| >= 2 + ExtendedBytes(s[1] % 128) && s[0] >= 128 && Decode(s).Frame?
    requires |Decode(s).payload| == LengthOf(s) <= MAX_FRAME_PAYLOAD
    ensures Acceptable(WireOf(s)) && WireOf(s).opcode as byte == s[0] % 16
    ensures s[..2] == Head(WireOf(s)) && s[2..2 + ExtendedBytes(s[1] % 128)] == LengthBytes(WireOf(s).form, |WireOf(s).payload|)
  {
    LengthInverse(s);
    LengthIsInline(s);
    hide Decode, LengthOf, LengthBytes, Head, ExtendedBytes;
    HeadInverse(s, WireOf(s));
  }

  lemma Parts(s: seq<byte>, k: nat, body: seq<byte>, rest: seq<byte>)
    requires 2 <= k <= |s| && s[k..] == body + rest
    ensures s == s[..2] + s[2..k] + body + rest
  {
    assert s == s[..2] + s[2..k] + s[k..];
  }

  // Conversely, whatever the reader takes for a frame is a frame of the format, followed by the rest.
  lemma DecodeOnlyFrames(s: seq<byte>) returns (w: Wire)
    requires Decode(s).Frame?
    ensures Acceptable(w) && w.opcode as byte == Decode(s).opcode && w.payload == Decode(s).payload
    ensures s == WireBytes(w) + Decode(s).rest
  {
    DecodeParts(s);
    w := WireOf(s);
    assert w.payload == Decode(s).payload;
    hide WireOf, Decode, DecodeBody, LengthOf, LengthBytes, Head, Body, ExtendedBytes;
    WireOfBody(s);
    WireOfHead(s);
    Parts(s, 2 + ExtendedBytes(s[1] % 128), Body(w), Decode(s).rest);
  }

  lemma LengthIsInline(s: seq<byte>)
    requires |s| >= 2 && |s| >= 2 + ExtendedBytes(s[1] % 128)
    ensures FormOf(s[1] % 128).Inline? ==> LengthOf(s) == (s[1] % 128) as nat
  {
  }

  lemma BodyLongEnough(opcode: byte, masked: bool, length: nat, t: seq<byte>)
    requires DecodeBody(opcode, masked, length, t).Frame? && masked
    ensures |t| >= 4
  {
  }

  lemma BodyStable(opcode: byte, masked: bool, length: nat, t: seq<byte>, more: seq<byte>)
    requires DecodeBody(opcode, masked, length, t).Frame?
    ensures var f := DecodeBody(opcode, masked, length, t);
      DecodeBody(opcode, masked, length, t + more) == Frame(f.opcode, f.payload, f.rest + more)
  {
    hide Masked;
    if masked {
      assert (t + more)[..4] == t[..4] && (t + more)[4..4 + length] == t[4..4 + length];
      assert (t + more)[4 + length..] == t[4 + length..] + more;
    } else {
      assert (t + more)[..length] == t[..length] && (t + more)[length..] == t[length..] + more;
    }
  }

  // More input never changes a verdict other than "not enough input".
  lemma DecodeStable(s: seq<byte>, more: seq<byte>)
    requires Decode(s) != Failed(Eof)
    ensures Decode(s + more) == match Decode(s)
                                case Frame(opcode, payload, rest) => Frame(opcode, payload, rest + more)
                                case Failed(e) => Failed(e)
  {
    hide FromBigEndian, DecodeBody;
    var length7 := s[1] % 128;
    var head := 2 + ExtendedBytes(length7);
    var whole := s + more;
    assert whole[0] == s[0] && whole[1] == s[1] && whole[2..head] == s[2..head];
    assert whole[head..] == s[head..] + more;
    if Decode(s).Frame? {
      BodyStable(s[0] % 16, s[1] >= 128, if head == 2 then length7 as nat else FromBigEndian(s[2..head]), s[head..], more);
    }
  }

  // A frame cut short anywhere is never taken for a frame, nor for a different error.
  lemma StrictPrefixFails(w: Wire, k: nat)
    requires Acceptable(w) && k < |WireBytes(w)|
    ensures Decode(WireBytes(w)[..k]) == Failed(Eof)
  {
    var s := WireBytes(w);
    DecodeWire(w, []);
    assert s + [] == s && s == s[..k] + s[k..];
    if Decode(s[..k]) != Failed(Eof) {
      DecodeStable(s[..k], s[k..]);
    }
  }

  // The writer never spends a byte more on the length than the format requires.
  lemma WriterIsShortest(opcode: byte, payload: Payload, mask: Mask, other: Wire)
    requires |payload| <= MAX_SLICE && ValidWire(other) && other.payload == payload && other.masked
    ensures |Encode(opcode, payload, mask)| <= |WireBytes(other)|
  {
  }

  // ----- streams of frames -----

  predicate AllAcceptable(ws: seq<Wire>) {
    forall i :: 0 <= i < |ws| ==> Acceptable(ws[i])
  }

  function StreamBytes(ws: seq<Wire>): seq<byte>
    requires AllAcceptable(ws)
  {
    if ws == [] then [] else WireBytes(ws[0]) + StreamBytes(ws[1..])
  }

  function DecodeAll(s: seq<byte>): seq<(byte, Payload)>
    decreases |s|
  {
    match Decode(s)
    case Failed(_) => []
    case Frame(opcode, payload, rest) => [(opcode, payload)] + DecodeAll(rest)
  }

  function Contents(ws: seq<Wire>): (r: seq<(byte, Payload)>)
    requires AllAcceptable(ws)
    ensures |r| == |ws|
  {
    seq(|ws|, i requires 0 <= i < |ws| => (ws[i].opcode as byte, ws[i].payload))
  }

  // A concatenation of frames is read back frame by frame, and a trailing piece of one adds nothing.
  lemma {:induction false} DecodeStream(ws: seq<Wire>, tail: seq<byte>)
    requires AllAcceptable(ws)
    requires Decode(tail).Failed?
    ensures DecodeAll(StreamBytes(ws) + tail) == Contents(ws)
  {
    hide WireBytes, Decode;
    if ws == [] {
      assert StreamBytes(ws) + tail == tail;
    } else {
      var rest := StreamBytes(ws[1..]) + tail;
      DecodeWire(ws[0], rest);
      DecodeStream(ws[1..], tail);
      assert StreamBytes(ws) + tail == WireBytes(ws[0]) + rest;
      assert Contents(ws) == [(ws[0].opcode as byte, ws[0].payload)] + Contents(ws[1..]);
    }
  }
}
