/**
 The WebSocket client of `deploy/oci/smoke.py`, against the framing of section 5 of RFC 6455.
 */
module WebSocket {
  import opened Common

  const MAX_BODY_BYTES := 2 * 1024 * 1024

  // ---------------------------------------------------------------- numbers in network byte order

  function Pow256(w: nat): nat { if w == 0 then 1 else 256 * Pow256(w - 1) }

  function Pack(n: nat, w: nat): (s: Bytes)
    ensures |s| == w
  {
    if w == 0 then [] else Pack(n / 256, w - 1) + [(n % 256) as byte]
  }

  function Unpack(s: Bytes): (n: nat)
    ensures n < Pow256(|s|)
  {
    if s == [] then 0 else Unpack(s[..|s| - 1]) * 256 + s[|s| - 1] as nat
  }

  lemma {:induction false} UnpackOfPack(n: nat, w: nat)
    requires n < Pow256(w)
    ensures Unpack(Pack(n, w)) == n
  {
    if w > 0 {
      UnpackOfPack(n / 256, w - 1);
      assert Pack(n, w)[..w - 1] == Pack(n / 256, w - 1);
    }
  }

  lemma LastDigit(n: nat, d: nat)
    requires d < 256
    ensures (n * 256 + d) / 256 == n && (n * 256 + d) % 256 == d
  {
  }

  lemma {:induction false} PackOfUnpack(s: Bytes)
    ensures Pack(Unpack(s), |s|) == s
  {
    if s != [] {
      PackOfUnpack(s[..|s| - 1]);
      LastDigit(Unpack(s[..|s| - 1]), s[|s| - 1] as nat);
      assert s == s[..|s| - 1] + [s[|s| - 1]];
    }
  }

  // ---------------------------------------------------------------- masking, section 5.3

  /** Exclusive or of the low `bits` bits. */
  function Xor(a: nat, b: nat, bits: nat): (r: nat) {
    if bits == 0 then 0 else 2 * Xor(a / 2, b / 2, bits - 1) + (if a % 2 == b % 2 then 0 else 1)
  }

  function Pow2(bits: nat): nat { if bits == 0 then 1 else 2 * Pow2(bits - 1) }

  lemma {:induction false} XorBound(a: nat, b: nat, bits: nat)
    ensures Xor(a, b, bits) < Pow2(bits)
  {
    if bits > 0 {
      XorBound(a / 2, b / 2, bits - 1);
    }
  }

  lemma {:induction false} XorTwice(a: nat, b: nat, bits: nat)
    requires a < Pow2(bits)
    ensures Xor(Xor(a, b, bits), b, bits) == a
  {
    if bits > 0 {
      XorTwice(a / 2, b / 2, bits - 1);
      assert Xor(a, b, bits) / 2 == Xor(a / 2, b / 2, bits - 1);
    }
  }

  lemma EightBits()
    ensures Pow2(8) == 256
  {
    assert Pow2(4) == 16;
  }

  function XorByte(a: byte, b: byte): byte {
    XorBound(a as nat, b as nat, 8); EightBits();
    Xor(a as nat, b as nat, 8) as byte
  }

  /** Each byte is combined with the mask byte at its position modulo four. */
  function Masked(payload: Bytes, mask: Bytes): (r: Bytes)
    requires |mask| == 4
    ensures |r| == |payload|
  {
    seq(|payload|, i requires 0 <= i < |payload| => XorByte(payload[i], mask[i % 4]))
  }

  lemma MaskedTwice(payload: Bytes, mask: Bytes)
    requires |mask| == 4
    ensures Masked(Masked(payload, mask), mask) == payload
  {
    forall i | 0 <= i < |payload| ensures XorByte(XorByte(payload[i], mask[i % 4]), mask[i % 4]) == payload[i] {
      EightBits();
      XorTwice(payload[i] as nat, mask[i % 4] as nat, 8);
    }
  }

  // ---------------------------------------------------------------- frames, section 5.2

  type Nibble = n: nat | n < 16

  datatype Frame = Frame(final: bool, reserved: nat, opcode: Nibble, mask: Option<Bytes>, payload: Bytes)

  /** The three ways to write a length. */
  datatype Form = Short | Medium | Long

  predicate Fits(form: Form, length: nat) {
    match form
    case Short => length <= 125
    case Medium => length < Pow256(2)
    case Long => length < Pow256(8)
  }

  predicate WellFormed(f: Frame) {
    f.reserved < 8 && (f.mask.Some? ==> |f.mask.value| == 4)
  }

  function LengthField(masked: bool, length: nat, form: Form): (s: Bytes)
    requires Fits(form, length)
  {
    var bit := if masked then 128 else 0;
    match form
    case Short => [(bit + length) as byte]
    case Medium => [(bit + 126) as byte] + Pack(length, 2)
    case Long => [(bit + 127) as byte] + Pack(length, 8)
  }

  function FirstByte(f: Frame): byte
    requires WellFormed(f)
  {
    ((if f.final then 128 else 0) + 16 * f.reserved + f.opcode) as byte
  }

  function Body(f: Frame): Bytes
    requires WellFormed(f)
  {
    if f.mask.Some? then f.mask.value + Masked(f.payload, f.mask.value) else f.payload
  }

  function Encode(f: Frame, form: Form): Bytes
    requires WellFormed(f) && Fits(form, |f.payload|)
  {
    [FirstByte(f)] + LengthField(f.mask.Some?, |f.payload|, form) + Body(f)
  }

  /** The length of a frame and where it ends in the stream. */
  function Length(s: Bytes): (r: Option<(nat, nat)>)
    requires |s| >= 2
    ensures r.Some? ==> 2 <= r.value.1 <= |s|
  {
    var short := s[1] as nat % 128;
    if short < 126 then Some((short, 2))
    else if short == 126 then (if |s| < 4 then None else Some((Unpack(s[2..4]), 4)))
    else (if |s| < 10 then None else Some((Unpack(s[2..10]), 10)))
  }

  /** The masking key, if there is one, the payload and what follows it. */
  function SplitBody(tail: Bytes, masked: bool, length: nat): (r: Option<(Option<Bytes>, Bytes, Bytes)>)
    ensures r.Some? ==> |r.value.2| <= |tail| && |r.value.1| == length && (r.value.0.Some? <==> masked) && (masked ==> |r.value.0.value| == 4)
  {
    if |tail| < length + (if masked then 4 else 0) then None
    else if masked then Some((Some(tail[..4]), Masked(tail[4..4 + length], tail[..4]), tail[4 + length..]))
    else Some((None, tail[..length], tail[length..]))
  }

  /** A decoder by the book: the first frame of a stream and what follows it. */
  function Decode(s: Bytes): (r: Option<(Frame, Bytes)>)
    ensures r.Some? ==> WellFormed(r.value.0) && |r.value.1| < |s|
  {
    if |s| < 2 || Length(s).None? then None
    else
      var (length, at) := Length(s).value;
      var body := SplitBody(s[at..], s[1] >= 128, length);
      if body.None? then None
      else
        var (mask, payload, rest) := body.value;
        Some((Assemble(s[0], mask, payload), rest))
  }

  function Assemble(first: byte, mask: Option<Bytes>, payload: Bytes): (f: Frame)
    requires mask.Some? ==> |mask.value| == 4
    ensures WellFormed(f) && FirstByte(f) == first && f.mask == mask && f.payload == payload
  {
    Frame(first >= 128, first as nat / 16 % 8, first as nat % 16, mask, payload)
  }

  lemma AssembleFrame(f: Frame)
    requires WellFormed(f)
    ensures Assemble(FirstByte(f), f.mask, f.payload) == f
  {
    var b := FirstByte(f) as nat;
    assert b / 16 == (if f.final then 8 else 0) + f.reserved && b % 16 == f.opcode;
  }

  function HeaderSize(form: Form): nat {
    match form case Short => 2 case Medium => 4 case Long => 10
  }

  lemma {:induction false} WideField(b: byte, first: byte, packed: Bytes, tail: Bytes)
    ensures var s := [first] + ([b] + packed) + tail;
      |s| >= 2 && s[0] == first && s[1] == b && s[2..2 + |packed|] == packed && s[2 + |packed|..] == tail
  {
  }

  lemma {:induction false} LengthOfField(first: byte, masked: bool, length: nat, form: Form, tail: Bytes)
    requires Fits(form, length)
    ensures
      var s := [first] + LengthField(masked, length, form) + tail;
      |s| >= 2 && s[0] == first && (s[1] >= 128 <==> masked) && Length(s) == Some((length, HeaderSize(form))) && s[HeaderSize(form)..] == tail
  {
    var bit := if masked then 128 else 0;
    if form.Short? {
      WideField((bit + length) as byte, first, [], tail);
      assert [(bit + length) as byte] + [] == [(bit + length) as byte];
    } else if form.Medium? {
      WideField((bit + 126) as byte, first, Pack(length, 2), tail);
      UnpackOfPack(length, 2);
    } else {
      WideField((bit + 127) as byte, first, Pack(length, 8), tail);
      UnpackOfPack(length, 8);
    }
  }

  lemma SplitOfBody(f: Frame, rest: Bytes)
    requires WellFormed(f)
    ensures SplitBody(Body(f) + rest, f.mask.Some?, |f.payload|) == Some((f.mask, f.payload, rest))
  {
    var tail, length := Body(f) + rest, |f.payload|;
    if f.mask.Some? {
      assert tail[..4] == f.mask.value;
      assert tail[4..4 + length] == Masked(f.payload, f.mask.value);
      MaskedTwice(f.payload, f.mask.value);
    }
  }

  lemma BodyOfSplit(tail: Bytes, masked: bool, length: nat, f: Frame)
    requires SplitBody(tail, masked, length).Some? && WellFormed(f)
    requires f.mask == SplitBody(tail, masked, length).value.0 && f.payload == SplitBody(tail, masked, length).value.1
    ensures tail == Body(f) + SplitBody(tail, masked, length).value.2
  {
    if masked {
      var data := tail[4..4 + length];
      MaskedTwice(data, tail[..4]);
      assert tail == tail[..4] + data + tail[4 + length..];
    }
  }

  lemma DecodeAt(s: Bytes, f: Frame, at: nat, rest: Bytes)
    requires WellFormed(f) && |s| >= 2 && Length(s) == Some((|f.payload|, at)) && s[at..] == Body(f) + rest
    requires s[0] == FirstByte(f) && (s[1] >= 128 <==> f.mask.Some?)
    ensures Decode(s) == Some((f, rest))
  {
    SplitOfBody(f, rest);
    AssembleFrame(f);
  }

  /** Decoding what was encoded, in any of the three forms, gives back the frame and the rest. */
  lemma DecodeOfEncode(f: Frame, form: Form, rest: Bytes)
    requires WellFormed(f) && Fits(form, |f.payload|)
    ensures Decode(Encode(f, form) + rest) == Some((f, rest))
  {
    var field, tail := LengthField(f.mask.Some?, |f.payload|, form), Body(f) + rest;
    LengthOfField(FirstByte(f), f.mask.Some?, |f.payload|, form, tail);
    assert Encode(f, form) + rest == [FirstByte(f)] + field + tail;
    DecodeAt([FirstByte(f)] + field + tail, f, HeaderSize(form), rest);
  }

  /** Whatever decodes was encoded that way. */
  lemma EncodeOfDecode(s: Bytes)
    requires Decode(s).Some?
    ensures var (f, rest) := Decode(s).value; exists form :: Fits(form, |f.payload|) && s == Encode(f, form) + rest
  {
    var (f, rest) := Decode(s).value;
    var at := Length(s).value.1;
    var form := if at == 2 then Short else if at == 4 then Medium else Long;
    FieldOfLength(s, form);
    BodyOfSplit(s[at..], s[1] >= 128, Length(s).value.0, f);
    Glue(s, at, LengthField(f.mask.Some?, |f.payload|, form), Body(f), rest);
  }

  lemma Glue(s: Bytes, at: nat, field: Bytes, body: Bytes, rest: Bytes)
    requires 1 <= at <= |s| && s[1..at] == field && s[at..] == body + rest
    ensures s == [s[0]] + field + body + rest
  {
    assert s == [s[0]] + s[1..at] + s[at..];
  }

  lemma {:induction false} SliceFrom(s: Bytes, n: nat)
    requires 2 <= n <= |s|
    ensures s[1..n] == [s[1]] + s[2..n]
  {
  }

  lemma {:induction false} FieldOfLength(s: Bytes, form: Form)
    requires |s| >= 2 && Length(s).Some? && HeaderSize(form) == Length(s).value.1
    ensures Fits(form, Length(s).value.0) && s[1..HeaderSize(form)] == LengthField(s[1] >= 128, Length(s).value.0, form)
  {
    SliceFrom(s, HeaderSize(form));
    if form.Medium? {
      PackOfUnpack(s[2..4]);
    } else if form.Long? {
      PackOfUnpack(s[2..10]);
    }
  }

  /** More bytes after the frame only lengthen the rest. */
  lemma DecodeExtends(s: Bytes, f: Frame, rest: Bytes, more: Bytes)
    requires Decode(s) == Some((f, rest))
    ensures Decode(s + more) == Some((f, rest + more))
  {
    EncodeOfDecode(s);
    var form :| Fits(form, |f.payload|) && s == Encode(f, form) + rest;
    ExtendRest(s, f, form, rest, more);
  }

  lemma Associative(a: Bytes, b: Bytes, c: Bytes)
    ensures a + b + c == a + (b + c)
  {
  }

  lemma ExtendRest(s: Bytes, f: Frame, form: Form, rest: Bytes, more: Bytes)
    requires WellFormed(f) && Fits(form, |f.payload|) && s == Encode(f, form) + rest
    ensures Decode(s + more) == Some((f, rest + more))
  {
    Associative(Encode(f, form), rest, more);
    DecodeOfEncode(f, form, rest + more);
  }

  // ---------------------------------------------------------------- what the client sends and accepts

  predicate Acceptable(f: Frame) {
    && f.reserved == 0 && f.mask.None? && |f.payload| <= MAX_BODY_BYTES
    && (f.opcode >= 8 ==> f.final && |f.payload| <= 125)
  }

  datatype Reply = Reply(opcode: Nibble, payload: Bytes)

  /** The shortest form, which section 5.2 demands. */
  function Minimal(length: nat): (form: Form)
    requires length < Pow256(8)
    ensures Fits(form, length)
  {
    assert Pow256(1) == 256;
    if length < 126 then Short else if length <= 0xFFFF then Medium else Long
  }

  function Sent(reply: Reply, mask: Bytes): Bytes
    requires |mask| == 4 && |reply.payload| < Pow256(8)
  {
    Encode(Frame(true, 0, reply.opcode, Some(mask), reply.payload), Minimal(|reply.payload|))
  }

  /** The first frame that a decoder by the book finds is this one, masked and final. */
  ghost predicate Begins(bytes: Bytes, reply: Reply, mask: Bytes, rest: Bytes) {
    Decode(bytes) == Some((Frame(true, 0, reply.opcode, Some(mask), reply.payload), rest))
  }

  /** A decoder by the book finds exactly these masked final frames in this order. */
  ghost predicate Carries(bytes: Bytes, replies: seq<Reply>)
    decreases |replies|
  {
    if replies == [] then bytes == []
    else exists mask, rest :: Begins(bytes, replies[0], mask, rest) && Carries(rest, replies[1..])
  }

  lemma {:induction false} CarriesSnoc(bytes: Bytes, replies: seq<Reply>, reply: Reply, mask: Bytes)
    requires Carries(bytes, replies) && |mask| == 4 && |reply.payload| < Pow256(8)
    ensures Carries(bytes + Sent(reply, mask), replies + [reply])
    decreases |replies|
  {
    var sent := Sent(reply, mask);
    if replies == [] {
      SentBegins(reply, mask);
      CarriesCons(sent, [reply], mask, []);
      assert bytes + sent == sent && replies + [reply] == [reply];
    } else {
      var m, rest :| Begins(bytes, replies[0], m, rest) && Carries(rest, replies[1..]);
      BeginsExtends(bytes, replies[0], m, rest, sent);
      CarriesSnoc(rest, replies[1..], reply, mask);
      TailSnoc(replies, reply);
      CarriesCons(bytes + sent, replies + [reply], m, rest + sent);
    }
  }

  lemma TailSnoc(replies: seq<Reply>, reply: Reply)
    requires replies != []
    ensures (replies + [reply])[1..] == replies[1..] + [reply] && (replies + [reply])[0] == replies[0]
  {
  }

  lemma CarriesCons(bytes: Bytes, replies: seq<Reply>, mask: Bytes, rest: Bytes)
    requires replies != [] && Begins(bytes, replies[0], mask, rest) && Carries(rest, replies[1..])
    ensures Carries(bytes, replies)
  {
  }

  lemma SentBegins(reply: Reply, mask: Bytes)
    requires |mask| == 4 && |reply.payload| < Pow256(8)
    ensures Begins(Sent(reply, mask), reply, mask, [])
  {
    DecodeOfEncode(Frame(true, 0, reply.opcode, Some(mask), reply.payload), Minimal(|reply.payload|), []);
    assert Sent(reply, mask) + [] == Sent(reply, mask);
  }

  lemma BeginsExtends(bytes: Bytes, reply: Reply, mask: Bytes, rest: Bytes, more: Bytes)
    requires Begins(bytes, reply, mask, rest)
    ensures Begins(bytes + more, reply, mask, rest + more)
  {
    DecodeExtends(bytes, Frame(true, 0, reply.opcode, Some(mask), reply.payload), rest, more);
  }

  // ---------------------------------------------------------------- streams of frames

  /** A frame read and the stream it leaves. */
  datatype Read = Read(frame: Frame, rest: Bytes)

  /** The acceptable frames at the head of a stream. */
  function Reads(s: Bytes): seq<Read>
    decreases |s|
  {
    if Decode(s).None? || !Acceptable(Decode(s).value.0) then []
    else [Read(Decode(s).value.0, Decode(s).value.1)] + Reads(Decode(s).value.1)
  }

  function EncodeAll(frames: seq<Frame>, forms: seq<Form>): Bytes
    requires |forms| == |frames|
    requires forall i :: 0 <= i < |frames| ==> WellFormed(frames[i]) && Fits(forms[i], |frames[i].payload|)
  {
    if frames == [] then [] else Encode(frames[0], forms[0]) + EncodeAll(frames[1..], forms[1..])
  }

  /** Says of a list that it is what remains to be read. */
  ghost function StreamOf(s: Bytes): iset<seq<Read>> { iset{Reads(s)} }

  /** The items begin with these frames and then leave the rest. */
  predicate Delivers(items: seq<Read>, frames: seq<Frame>, rest: Bytes) {
    && |frames| <= |items| && (forall i :: 0 <= i < |frames| ==> items[i].frame == frames[i])
    && (frames != [] ==> items[|frames| - 1].rest == rest)
  }

  lemma FirstOfReads(s: Bytes, f: Frame, rest: Bytes)
    requires Decode(s) == Some((f, rest)) && Acceptable(f)
    ensures Reads(s) == [Read(f, rest)] + Reads(rest)
  {
  }

  lemma FirstRead(f: Frame, form: Form, mid: Bytes, rest: Bytes)
    requires WellFormed(f) && Fits(form, |f.payload|) && Acceptable(f)
    ensures Reads(Encode(f, form) + mid + rest) == [Read(f, mid + rest)] + Reads(mid + rest)
  {
    Associative(Encode(f, form), mid, rest);
    DecodeOfEncode(f, form, mid + rest);
    FirstOfReads(Encode(f, form) + (mid + rest), f, mid + rest);
  }

  /** Acceptable frames, each written in any form that fits, are read back, and then comes the rest. */
  lemma {:induction false} StreamOfFrames(frames: seq<Frame>, forms: seq<Form>, rest: Bytes)
    requires |forms| == |frames|
    requires forall i :: 0 <= i < |frames| ==> WellFormed(frames[i]) && Fits(forms[i], |frames[i].payload|) && Acceptable(frames[i])
    ensures Delivers(Reads(EncodeAll(frames, forms) + rest), frames, rest)
  {
    if frames != [] {
      var mid := EncodeAll(frames[1..], forms[1..]);
      StreamOfFrames(frames[1..], forms[1..], rest);
      FirstRead(frames[0], forms[0], mid, rest);
      DeliversCons(Reads(mid + rest), frames, mid + rest, rest);
      assert |frames| == 1 ==> [] + rest == rest;
    }
  }

  lemma DeliversCons(items: seq<Read>, frames: seq<Frame>, next: Bytes, rest: Bytes)
    requires frames != [] && Delivers(items, frames[1..], rest) && (|frames| == 1 ==> next == rest)
    ensures Delivers([Read(frames[0], next)] + items, frames, rest)
  {
  }

  // ---------------------------------------------------------------- reassembly, sections 5.4 and 5.5

  datatype Outcome = Message(data: Bytes, rest: Bytes, replies: seq<Reply>) | Failed(replies: seq<Reply>)

  function After(replies: seq<Reply>, o: Outcome): Outcome {
    if o.Message? then o.(replies := replies + o.replies) else Failed(replies + o.replies)
  }

  /** What `receive_json` makes of the frames it reads, given what it has gathered so far. */
  function Reassemble(items: seq<Read>, data: Bytes, open: bool, closed: bool): Outcome
    decreases |items|
  {
    if items == [] then Failed([])
    else
      var f, tail := items[0].frame, items[1..];
      if f.opcode == 8 then Failed(if closed then [] else [Reply(8, f.payload)])
      else if f.opcode == 9 then After([Reply(10, f.payload)], Reassemble(tail, data, open, closed))
      else if f.opcode == 10 then Reassemble(tail, data, open, closed)
      else if f.opcode != (if open then 0 else 1) then Failed([])
      else if f.final then Message(data + f.payload, items[0].rest, [])
      else Reassemble(tail, data + f.payload, true, closed)
  }

  /** What the next frame contributes, after some replies. */
  lemma OneFrame(replies: seq<Reply>, items: seq<Read>, data: Bytes, open: bool, closed: bool)
    requires items != []
    ensures
      var f, tail, o := items[0].frame, items[1..], After(replies, Reassemble(items, data, open, closed));
      if f.opcode == 8 then o == Failed(if closed then replies else replies + [Reply(8, f.payload)])
      else if f.opcode == 9 then o == After(replies + [Reply(10, f.payload)], Reassemble(tail, data, open, closed))
      else if f.opcode == 10 then o == After(replies, Reassemble(tail, data, open, closed))
      else if f.opcode != (if open then 0 else 1) then o == Failed(replies)
      else if f.final then o == Message(data + f.payload, items[0].rest, replies)
      else o == After(replies, Reassemble(tail, data + f.payload, true, closed))
  {
    var f, o := items[0].frame, Reassemble(items[1..], data, open, closed);
    assert replies + [] == replies;
    assert replies + ([Reply(10, f.payload)] + o.replies) == replies + [Reply(10, f.payload)] + o.replies;
  }

  /** What has been sent since `before`, as a decoder by the book reads it. */
  ghost function Log(before: Bytes, sent: Bytes): iset<seq<Reply>> {
    iset replies: seq<Reply> | |before| <= |sent| && sent[..|before|] == before && Carries(sent[|before|..], replies)
  }

  /** A close frame is among them. */
  predicate Bids(replies: seq<Reply>) {
    exists i :: 0 <= i < |replies| && replies[i].opcode == 8
  }

  lemma BidsSnoc(replies: seq<Reply>, reply: Reply)
    ensures Bids(replies + [reply]) <==> Bids(replies) || reply.opcode == 8
  {
    var more := replies + [reply];
    assert more[|replies|] == reply && forall i :: 0 <= i < |replies| ==> more[i] == replies[i];
  }

  lemma StartOfLog(sent: Bytes)
    ensures [] in Log(sent, sent)
  {
    assert sent[..|sent|] == sent && Carries(sent[|sent|..], []);
  }

  lemma LogSnoc(before: Bytes, sent: Bytes, replies: seq<Reply>, reply: Reply, mask: Bytes)
    requires replies in Log(before, sent) && |mask| == 4 && |reply.payload| < Pow256(8)
    ensures replies + [reply] in Log(before, sent + Sent(reply, mask))
  {
    CarriesSnoc(sent[|before|..], replies, reply, mask);
    LogGrows(before, sent, Sent(reply, mask), replies + [reply]);
  }

  lemma LogGrows(before: Bytes, sent: Bytes, more: Bytes, replies: seq<Reply>)
    requires |before| <= |sent| && sent[..|before|] == before && Carries(sent[|before|..] + more, replies)
    ensures replies in Log(before, sent + more)
  {
    assert (sent + more)[|before|..] == sent[|before|..] + more;
    assert (sent + more)[..|before|] == before;
  }

  /** The results, streams and sent bytes with which `receive_json` may end. */
  ghost function Ends(o: Outcome, before: Bytes): iset<(Result<Bytes>, Bytes, Bytes)> {
    iset p: (Result<Bytes>, Bytes, Bytes) |
      && (p.0.Ok? <==> o.Message?)
      && (o.Message? ==> p.0 == Ok(o.data) && p.1 == o.rest)
      && o.replies in Log(before, p.2)
  }

  lemma EndsWell(stream: Bytes, data: Bytes, before: Bytes, sent: Bytes, replies: seq<Reply>)
    requires replies in Log(before, sent)
    ensures (Ok(data), stream, sent) in Ends(Message(data, stream, replies), before)
    ensures (Err, stream, sent) in Ends(Failed(replies), before)
  {
  }

  // ---------------------------------------------------------------- well-formed messages

  function DataFrames(frames: seq<Frame>): seq<Frame> {
    if frames == [] then []
    else (if frames[0].opcode < 8 then [frames[0]] else []) + DataFrames(frames[1..])
  }

  /** The fragments of one text message, of which the first may already have gone by: only the first is a
      text frame, the others continue it, and only the last is final. */
  predicate Fragments(data: seq<Frame>, open: bool) {
    && data != [] && data[0].opcode == (if open then 0 else 1)
    && (forall i :: 1 <= i < |data| ==> data[i].opcode == 0)
    && (forall i :: 0 <= i < |data| ==> (data[i].final <==> i == |data| - 1))
  }

  /** Data frames, pings and pongs. */
  predicate Ordinary(frames: seq<Frame>) {
    forall i :: 0 <= i < |frames| ==> Acceptable(frames[i]) && (frames[i].opcode < 8 || frames[i].opcode in {9, 10})
  }

  /** A text message fragmented in any way, with pings and pongs anywhere before its last fragment. */
  predicate TextMessage(frames: seq<Frame>, open: bool) {
    && frames != [] && frames[|frames| - 1].opcode < 8
    && Ordinary(frames) && Fragments(DataFrames(frames), open)
  }

  /** The payloads of the data frames, one after the other. */
  function Payloads(frames: seq<Frame>): Bytes {
    if frames == [] then [] else (if frames[0].opcode < 8 then frames[0].payload else []) + Payloads(frames[1..])
  }

  function Pongs(frames: seq<Frame>): seq<Reply> {
    if frames == [] then []
    else (if frames[0].opcode == 9 then [Reply(10, frames[0].payload)] else []) + Pongs(frames[1..])
  }

  lemma {:induction false} LastDataCounts(frames: seq<Frame>)
    requires frames != [] && frames[|frames| - 1].opcode < 8
    ensures DataFrames(frames) != []
  {
    if |frames| > 1 {
      LastDataCounts(frames[1..]);
    }
  }

  lemma {:induction false} FragmentsTail(data: seq<Frame>, open: bool)
    requires Fragments(data, open)
    ensures if data[0].final then data[1..] == [] else Fragments(data[1..], true)
  {
  }

  ghost function Messages(open: bool): iset<seq<Frame>> { iset frames: seq<Frame> | TextMessage(frames, open) }

  lemma {:induction false} OrdinaryTail(frames: seq<Frame>)
    requires frames != [] && Ordinary(frames)
    ensures Ordinary(frames[1..])
    ensures |frames| > 1 ==> frames[1..][|frames| - 2] == frames[|frames| - 1]
  {
  }

  lemma {:induction false} ControlHead(frames: seq<Frame>, open: bool)
    requires frames in Messages(open) && frames[0].opcode >= 8
    ensures frames[1..] in Messages(open) && frames[0].opcode in {9, 10}
  {
    OrdinaryTail(frames);
    assert DataFrames(frames) == [] + DataFrames(frames[1..]) == DataFrames(frames[1..]);
  }

  lemma {:induction false} DataHead(frames: seq<Frame>, open: bool)
    requires frames in Messages(open) && frames[0].opcode < 8
    ensures frames[0].opcode == (if open then 0 else 1)
    ensures if frames[0].final then frames[1..] == [] else frames[1..] in Messages(true)
  {
    OrdinaryTail(frames);
    FragmentsTail(DataFrames(frames), open);
    assert DataFrames(frames)[1..] == DataFrames(frames[1..]);
    if |frames| > 1 {
      LastDataCounts(frames[1..]);
    }
  }

  /** What a control frame and a fragment that is not the last add to the outcome of the rest. */
  lemma {:induction false} ControlCase(frames: seq<Frame>, items: seq<Read>, rest: Bytes, data: Bytes, open: bool, closed: bool)
    requires frames != [] && items != [] && items[0].frame == frames[0] && frames[0].opcode in {9, 10}
    requires Reassemble(items[1..], data, open, closed) == Message(data + Payloads(frames[1..]), rest, Pongs(frames[1..]))
    ensures Reassemble(items, data, open, closed) == Message(data + Payloads(frames), rest, Pongs(frames))
  {
    assert Payloads(frames) == Payloads(frames[1..]);
  }

  lemma {:induction false} FragmentCase(frames: seq<Frame>, items: seq<Read>, rest: Bytes, data: Bytes, open: bool, closed: bool)
    requires frames != [] && items != [] && items[0].frame == frames[0]
    requires frames[0].opcode == (if open then 0 else 1) && !frames[0].final
    requires Reassemble(items[1..], data + frames[0].payload, true, closed)
          == Message(data + frames[0].payload + Payloads(frames[1..]), rest, Pongs(frames[1..]))
    ensures Reassemble(items, data, open, closed) == Message(data + Payloads(frames), rest, Pongs(frames))
  {
    assert data + Payloads(frames) == data + frames[0].payload + Payloads(frames[1..]);
  }

  lemma {:induction false} LastCase(frames: seq<Frame>, items: seq<Read>, data: Bytes, open: bool, closed: bool)
    requires |frames| == 1 && items != [] && items[0].frame == frames[0]
    requires frames[0].opcode == (if open then 0 else 1) && frames[0].final
    ensures Reassemble(items, data, open, closed) == Message(data + Payloads(frames), items[0].rest, Pongs(frames))
  {
    assert Payloads(frames) == frames[0].payload + [];
  }

  lemma {:induction false} DeliversTail(items: seq<Read>, frames: seq<Frame>, rest: Bytes)
    requires Delivers(items, frames, rest) && frames != []
    ensures items[0].frame == frames[0] && (|frames| == 1 ==> items[0].rest == rest)
    ensures |frames| > 1 ==> Delivers(items[1..], frames[1..], rest)
  {
  }

  /** A text message is delivered whole, from exactly its own frames, and each ping is answered in order
      with its own payload. */
  lemma {:induction false} MessageReassembles(frames: seq<Frame>, items: seq<Read>, rest: Bytes, data: Bytes, open: bool, closed: bool)
    requires frames in Messages(open) && Delivers(items, frames, rest)
    ensures Reassemble(items, data, open, closed) == Message(data + Payloads(frames), rest, Pongs(frames))
    decreases |frames|
  {
    var f, tail := frames[0], frames[1..];
    DeliversTail(items, frames, rest);
    if f.opcode >= 8 {
      ControlHead(frames, open);
      MessageReassembles(tail, items[1..], rest, data, open, closed);
      ControlCase(frames, items, rest, data, open, closed);
    } else {
      DataHead(frames, open);
      if f.final {
        LastCase(frames, items, data, open, closed);
      } else {
        MessageReassembles(tail, items[1..], rest, data + f.payload, true, closed);
        FragmentCase(frames, items, rest, data, open, closed);
      }
    }
  }

  function FramesOf(items: seq<Read>): (frames: seq<Frame>)
    ensures |frames| == |items| && forall i :: 0 <= i < |items| ==> frames[i] == items[i].frame
  {
    if items == [] then [] else [items[0].frame] + FramesOf(items[1..])
  }

  lemma {:induction false} OrdinaryCons(f: Frame, tail: seq<Frame>)
    requires Ordinary(tail) && Acceptable(f) && (f.opcode < 8 || f.opcode in {9, 10})
    ensures Ordinary([f] + tail) && ([f] + tail)[1..] == tail
    ensures tail != [] ==> ([f] + tail)[|tail|] == tail[|tail| - 1]
  {
  }

  lemma {:induction false} ControlCons(f: Frame, tail: seq<Frame>, open: bool)
    requires tail in Messages(open) && Acceptable(f) && f.opcode in {9, 10}
    ensures [f] + tail in Messages(open)
  {
    OrdinaryCons(f, tail);
    assert DataFrames([f] + tail) == [] + DataFrames(tail) == DataFrames(tail);
  }

  lemma {:induction false} DataCons(f: Frame, tail: seq<Frame>, open: bool)
    requires Acceptable(f) && f.opcode == (if open then 0 else 1)
    requires if f.final then tail == [] else tail in Messages(true)
    ensures [f] + tail in Messages(open)
  {
    OrdinaryCons(f, tail);
    assert DataFrames([f] + tail) == [f] + DataFrames(tail);
  }

  /** The stream begins with a text message. */
  ghost predicate HasMessage(items: seq<Read>, open: bool) {
    exists n :: 0 < n <= |items| && FramesOf(items[..n]) in Messages(open)
  }

  lemma {:induction false} PrefixFrames(items: seq<Read>, n: nat)
    requires 0 < n <= |items|
    ensures FramesOf(items[..n]) == [items[0].frame] + FramesOf(items[1..][..n - 1])
  {
    assert items[..n][1..] == items[1..][..n - 1];
  }

  lemma {:induction false} MessageCons(items: seq<Read>, open: bool, open': bool)
    requires items != [] && Acceptable(items[0].frame) && HasMessage(items[1..], open')
    requires
      var f := items[0].frame;
      (f.opcode in {9, 10} && open' == open) || (f.opcode == (if open then 0 else 1) && !f.final && open')
    ensures HasMessage(items, open)
  {
    var n :| 0 < n <= |items[1..]| && FramesOf(items[1..][..n]) in Messages(open');
    PrefixFrames(items, n + 1);
    if items[0].frame.opcode >= 8 {
      ControlCons(items[0].frame, FramesOf(items[1..][..n]), open);
    } else {
      DataCons(items[0].frame, FramesOf(items[1..][..n]), open);
    }
  }

  /** Nothing else is delivered: what was delivered came from a text message at the head of the stream. */
  lemma {:induction false} DeliveredIsMessage(items: seq<Read>, data: Bytes, open: bool, closed: bool)
    requires forall i :: 0 <= i < |items| ==> Acceptable(items[i].frame)
    requires Reassemble(items, data, open, closed).Message?
    ensures HasMessage(items, open)
    decreases |items|
  {
    var f, tail := items[0].frame, items[1..];
    if f.opcode >= 8 {
      DeliveredIsMessage(tail, data, open, closed);
      MessageCons(items, open, open);
    } else if !f.final {
      DeliveredIsMessage(tail, data + f.payload, true, closed);
      MessageCons(items, open, true);
    } else {
      PrefixFrames(items, 1);
      DataCons(f, [], open);
    }
  }

  lemma {:induction false} ReadsAcceptable(s: Bytes)
    ensures forall i :: 0 <= i < |Reads(s)| ==> Acceptable(Reads(s)[i].frame)
    decreases |s|
  {
    if Reads(s) != [] {
      ReadsAcceptable(Decode(s).value.1);
    }
  }

  /** `receive_json` delivers exactly when the stream begins with a well-formed text message. */
  lemma DeliversExactlyMessages(s: Bytes, closed: bool)
    ensures Reassemble(Reads(s), [], false, closed).Message? <==> HasMessage(Reads(s), false)
  {
    ReadsAcceptable(s);
    DeliveryIsExact(Reads(s), closed);
  }

  lemma DeliveryIsExact(items: seq<Read>, closed: bool)
    requires forall i :: 0 <= i < |items| ==> Acceptable(items[i].frame)
    ensures Reassemble(items, [], false, closed).Message? <==> HasMessage(items, false)
  {
    if HasMessage(items, false) {
      MessageDelivered(items, closed);
    } else if Reassemble(items, [], false, closed).Message? {
      DeliveredIsMessage(items, [], false, closed);
    }
  }

  lemma MessageDelivered(items: seq<Read>, closed: bool)
    requires HasMessage(items, false)
    ensures Reassemble(items, [], false, closed).Message?
  {
    var n :| 0 < n <= |items| && FramesOf(items[..n]) in Messages(false);
    MessageReassembles(FramesOf(items[..n]), items, items[n - 1].rest, [], false, closed);
  }

  /** The same from the bytes: every way to fragment, interleave and encode a text message. */
  lemma WireMessage(frames: seq<Frame>, forms: seq<Form>, rest: Bytes, closed: bool)
    requires TextMessage(frames, false) && |forms| == |frames|
    requires forall i :: 0 <= i < |frames| ==> WellFormed(frames[i]) && Fits(forms[i], |frames[i].payload|)
    ensures Reassemble(Reads(EncodeAll(frames, forms) + rest), [], false, closed) == Message(Payloads(frames), rest, Pongs(frames))
  {
    StreamOfFrames(frames, forms, rest);
    MessageReassembles(frames, Reads(EncodeAll(frames, forms) + rest), rest, [], false, closed);
    assert [] + Payloads(frames) == Payloads(frames);
  }

  /** What the decoder makes of an unmasked frame whose header ends at `at`. */
  lemma DecodeUnmasked(s: Bytes, length: nat, at: nat)
    requires |s| >= 2 && s[1] < 128 && Length(s) == Some((length, at))
    ensures |s[at..]| < length ==> Decode(s).None?
    ensures |s[at..]| >= length ==> Decode(s) == Some((Assemble(s[0], None, s[at..][..length]), s[at..][length..]))
  {
  }

  lemma DecodedHeader(s: Bytes)
    requires Decode(s).Some?
    ensures |s| >= 2 && Length(s).Some?
    ensures Decode(s).value.0.reserved == s[0] as nat / 16 % 8 && (Decode(s).value.0.mask.Some? <==> s[1] >= 128)
  {
  }

  class Client {
    var buffer: Bytes
    var incoming: Bytes   // what the peer has sent and recv has not delivered; then it closes
    var sent: Bytes
    var closed: bool

    constructor (incoming: Bytes)
      ensures Stream() == incoming && sent == [] && !closed
    {
      buffer, this.incoming, sent, closed := [], incoming, [], false;
    }

    /** Everything the client has yet to read. */
    ghost function Stream(): Bytes reads this { buffer + incoming }

    /** `socket.recv`: any nonempty part of what is there, at most `limit` bytes; empty once it is over. */
    method Recv(limit: nat) returns (chunk: Bytes)
      requires limit > 0
      modifies this`incoming
      ensures chunk + incoming == old(incoming)
      ensures chunk == [] <==> old(incoming) == []
    {
      if incoming == [] {
        return [];
      }
      var n: nat :| 1 <= n <= |incoming| && n <= limit;
      chunk := incoming[..n];
      incoming := incoming[n..];
    }

    /** `_recv_exact`: the next bytes of the stream, however recv splits them. */
    method RecvExact(length: nat) returns (r: Result<Bytes>)
      modifies this`buffer, this`incoming
      ensures r.Ok? <==> length <= |old(Stream())|
      ensures r.Ok? ==> r.value == old(Stream())[..length] && Stream() == old(Stream())[length..]
      ensures r.Err? ==> Stream() == old(Stream())
    {
      while |buffer| < length
        invariant Stream() == old(Stream())
        decreases |incoming|
      {
        var missing := length - |buffer|;
        var chunk := Recv(if missing < 4096 then 4096 else missing);
        if chunk == [] {
          return Err;
        }
        buffer := buffer + chunk;
      }
      r := Ok(buffer[..length]);
      buffer := buffer[length..];
    }

    /** The length of the frame whose first two bytes are `head`. */
    method ReadLength(head: Bytes) returns (r: Result<nat>)
      requires |head| == 2
      modifies this`buffer, this`incoming
      ensures r.Ok? <==> Length(head + old(Stream())).Some?
      ensures r.Ok? ==>
        r.value == Length(head + old(Stream())).value.0 && Stream() == (head + old(Stream()))[Length(head + old(Stream())).value.1..]
    {
      ghost var s, tail := head + Stream(), Stream();
      var length := head[1] as nat % 128;
      if length < 126 {
        return Ok(length);
      }
      var width := if length == 126 then 2 else 8;
      assert |tail| >= width ==> s[2..2 + width] == tail[..width] && s[2 + width..] == tail[width..];
      var extended := RecvExact(width);
      return if extended.Err? then Err else Ok(Unpack(extended.value));
    }

    /** `_read_frame`: exactly the frames by the book that are acceptable, leaving the rest intact. */
    method ReadFrame() returns (r: Result<Frame>)
      modifies this`buffer, this`incoming
      ensures r.Ok? <==> Decode(old(Stream())).Some? && Acceptable(Decode(old(Stream())).value.0)
      ensures r.Ok? ==> Decode(old(Stream())) == Some((r.value, Stream()))
    {
      ghost var s := Stream();
      var head := RecvExact(2);
      if head.Err? {
        return Err;
      }
      assert s == head.value + Stream();
      var first, second := head.value[0], head.value[1];
      if first as nat / 16 % 8 != 0 || second >= 128 {
        if Decode(s).Some? {
          DecodedHeader(s);
        }
        return Err;
      }
      var size := ReadLength(head.value);
      if size.Err? {
        return Err;
      }
      var length := size.value;
      DecodeUnmasked(s, length, Length(s).value.1);
      if length > MAX_BODY_BYTES {
        return Err;
      }
      if first as nat % 16 >= 8 && (first < 128 || length > 125) {
        return Err;
      }
      var payload := RecvExact(length);
      return if payload.Err? then Err else Ok(Frame(first >= 128, 0, first as nat % 16, None, payload.value));
    }

    /** `_send_frame`; `mask` is the random key.  It fails for a length that eight bytes cannot hold. */
    method SendFrame(opcode: Nibble, payload: Bytes, mask: Bytes) returns (ok: bool)
      requires |mask| == 4
      modifies this`sent
      ensures ok <==> |payload| < Pow256(8)
      ensures sent == if ok then old(sent) + Sent(Reply(opcode, payload), mask) else old(sent)
    {
      var first := (128 + opcode) as byte;
      var length := |payload|;
      assert Pow256(1) == 256;
      assert Pow256(2) <= Pow256(8) by { assert Pow256(4) >= Pow256(2); assert Pow256(6) >= Pow256(4); }
      if length >= Pow256(8) {
        return false;
      }
      var header :=
        if length < 126 then [first, (128 + length) as byte]
        else if length <= 0xFFFF then [first, (128 + 126) as byte] + Pack(length, 2)
        else [first, (128 + 127) as byte] + Pack(length, 8);
      var masked := Masked(payload, mask);
      assert header + mask + masked == Sent(Reply(opcode, payload), mask);
      sent := sent + (header + mask + masked);
      return true;
    }

    /** Answering with a fresh mask. */
    method Answer(reply: Reply, ghost before: Bytes, ghost replies: seq<Reply>)
      requires |reply.payload| <= 125 && replies in Log(before, sent)
      modifies this`sent
      ensures replies + [reply] in Log(before, sent)
    {
      ghost var zeros: Bytes := [0, 0, 0, 0];
      assert |zeros| == 4;
      var mask: Bytes :| |mask| == 4;
      assert Pow256(1) == 256 && Pow256(8) >= Pow256(1);
      LogSnoc(before, sent, replies, reply, mask);
      var ok := SendFrame(reply.opcode, reply.payload, mask);
    }

    /** One frame more, in terms of the frames of the stream. */
    method NextFrame(ghost items: seq<Read>) returns (r: Result<Frame>)
      requires items in StreamOf(Stream())
      modifies this`buffer, this`incoming
      ensures r.Ok? <==> items != []
      ensures r.Ok? ==> items[0] == Read(r.value, Stream()) && Acceptable(r.value) && items[1..] in StreamOf(Stream())
    {
      r := ReadFrame();
    }

    /** The branches for control frames: a close is answered once and ends the wait, a ping is answered with
        its own payload, a pong is ignored, and no other opcode is known. */
    method Control(f: Frame, ghost before: Bytes, ghost replies: seq<Reply>) returns (go: bool, ghost after: seq<Reply>)
      requires f.opcode >= 8 && Acceptable(f) && replies in Log(before, sent)
      modifies this`sent, this`closed
      ensures go <==> f.opcode in {9, 10}
      ensures closed == (old(closed) || f.opcode == 8)
      ensures after == replies + (if f.opcode == 9 then [Reply(10, f.payload)] else if f.opcode == 8 && !old(closed) then [Reply(8, f.payload)] else [])
      ensures after in Log(before, sent)
    {
      assert replies + [] == replies;
      after := replies;
      if f.opcode == 8 {
        if !closed {
          Answer(Reply(8, f.payload), before, replies);
          after := replies + [Reply(8, f.payload)];
          closed := true;
        }
        return false, after;
      }
      if f.opcode == 9 {
        Answer(Reply(10, f.payload), before, replies);
        return true, replies + [Reply(10, f.payload)];
      }
      return f.opcode == 10, after;
    }

    /** The loop of `receive_json`, up to decoding the JSON text. */
    method ReceiveFrames(ghost all: seq<Read>) returns (r: Result<Bytes>)
      requires all in StreamOf(Stream())
      modifies this
      ensures (r, Stream(), sent) in Ends(Reassemble(all, [], false, old(closed)), old(sent))
      ensures closed == (old(closed) || Bids(Reassemble(all, [], false, old(closed)).replies))
    {
      var fragments: Bytes := [];
      var fragmented := false;
      ghost var before, goal := sent, Reassemble(all, [], false, closed);
      ghost var left, replies: seq<Reply> := all, [];
      StartOfLog(sent);
      assert [] + goal.replies == goal.replies;
      while true
        invariant closed == old(closed)
        invariant left in StreamOf(Stream())
        invariant goal == After(replies, Reassemble(left, fragments, fragmented, closed))
        invariant replies in Log(before, sent) && !Bids(replies)
        decreases |left|
      {
        assert replies + [] == replies;
        var frame := NextFrame(left);
        if frame.Err? {
          EndsWell(Stream(), [], before, sent, replies);
          return Err;
        }
        var f := frame.value;
        OneFrame(replies, left, fragments, fragmented, closed);
        BidsSnoc(replies, Reply(8, f.payload));
        BidsSnoc(replies, Reply(10, f.payload));
        left := left[1..];
        var go := f.opcode == (if fragmented then 0 else 1);
        if f.opcode >= 8 {
          go, replies := Control(f, before, replies);
        }
        if !go {
          EndsWell(Stream(), [], before, sent, replies);
          return Err;
        }
        if f.opcode >= 8 {
          continue;
        }
        fragments := fragments + f.payload;
        fragmented := !f.final;
        if !fragmented {
          EndsWell(Stream(), fragments, before, sent, replies);
          return Ok(fragments);
        }
      }
    }

    /** `receive_json`, up to decoding the JSON text. */
    method Receive() returns (r: Result<Bytes>)
      modifies this
      ensures (r, Stream(), sent) in Ends(Reassemble(Reads(old(Stream())), [], false, old(closed)), old(sent))
      ensures closed == (old(closed) || Bids(Reassemble(Reads(old(Stream())), [], false, old(closed)).replies))
    {
      r := ReceiveFrames(Reads(Stream()));
    }
  }
}
