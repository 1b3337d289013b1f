/** Length-prefixed messages and the tagged frames inside them. */
module Framing {
  import opened Basics
  import opened Aead

  const MAX_PAYLOAD_SIZE: nat := 64 * 1024 * 1024
  const LENGTH_BYTES: nat := 8

  function Encode(message: Bytes): Bytes {
    BigEndian(|message|, LENGTH_BYTES) + message
  }

  function EncodeAll(messages: seq<Bytes>): Bytes {
    if messages == [] then [] else Encode(messages[0]) + EncodeAll(messages[1..])
  }

  /** What reading one message from the bytes that are still to come gives. */
  datatype Reception =
    | Message(payload: Bytes, rest: Bytes)
    | NoLength           // the stream ends inside the length
    | NoPayload          // the stream ends inside the payload
    | Oversized(claimed: nat)

  function Receive(stream: Bytes): (r: Reception)
    ensures r.Message? ==> |r.rest| < |stream|
  {
    if |stream| < LENGTH_BYTES then NoLength
    else
      var n := FromBigEndian(stream[..LENGTH_BYTES]);
      if n > MAX_PAYLOAD_SIZE then Oversized(n)
      else if |stream| < LENGTH_BYTES + n then NoPayload
      else Message(stream[LENGTH_BYTES..LENGTH_BYTES + n], stream[LENGTH_BYTES + n..])
  }

  /** Repeated reception until it fails. */
  function ReceiveAll(stream: Bytes): seq<Bytes>
    decreases |stream|
  {
    match Receive(stream)
    case Message(payload, rest) => [payload] + ReceiveAll(rest)
    case _ => []
  }

  predicate Fit(messages: seq<Bytes>) {
    forall k :: 0 <= k < |messages| ==> |messages[k]| <= MAX_PAYLOAD_SIZE
  }

  lemma LengthField(message: Bytes, tail: Bytes)
    requires |message| < U64_MODULUS
    ensures var s := Encode(message) + tail;
            |s| >= LENGTH_BYTES && FromBigEndian(s[..LENGTH_BYTES]) == |message|
  {
    Pow256Values();
    BigEndianRoundTrip(|message|, LENGTH_BYTES);
    assert (Encode(message) + tail)[..LENGTH_BYTES] == BigEndian(|message|, LENGTH_BYTES);
  }

  /** A message is received as sent, whatever follows it, exactly when it is within the limit. */
  lemma ReceiveEncoded(message: Bytes, tail: Bytes)
    requires |message| < U64_MODULUS
    ensures Receive(Encode(message) + tail)
            == if |message| <= MAX_PAYLOAD_SIZE then Message(message, tail) else Oversized(|message|)
  {
    LengthField(message, tail);
    var s := Encode(message) + tail;
    if |message| <= MAX_PAYLOAD_SIZE {
      assert s[LENGTH_BYTES..LENGTH_BYTES + |message|] == message;
      assert s[LENGTH_BYTES + |message|..] == tail;
    }
  }

  /** Where a prefix of the sent bytes takes in the first message, what follows is a prefix of the others. */
  lemma PastFirst(first: Bytes, rest: Bytes, stream: Bytes) returns (tail: Bytes)
    requires stream <= first + rest && |stream| >= |first|
    ensures stream == first + tail && tail <= rest
  {
    tail := stream[|first|..];
    assert stream[..|first|] == (first + rest)[..|first|] == first;
    assert (first + rest)[|first|..] == rest;
  }

  /** Where it does not, nothing is received. */
  lemma WithinFirst(message: Bytes, rest: Bytes, stream: Bytes)
    requires |message| <= MAX_PAYLOAD_SIZE && stream <= Encode(message) + rest && |stream| < |Encode(message)|
    ensures !Receive(stream).Message?
  {
    if |stream| >= LENGTH_BYTES {
      LengthField(message, rest);
      assert stream[..LENGTH_BYTES] == (Encode(message) + rest)[..LENGTH_BYTES];
    }
  }

  /** Cut anywhere: from any prefix of the sent bytes the receiver takes a prefix of the sent list. */
  lemma {:induction false} PrefixReceives(messages: seq<Bytes>, stream: Bytes)
    requires Fit(messages) && stream <= EncodeAll(messages)
    ensures ReceiveAll(stream) <= messages
    decreases |messages|
  {
    if messages == [] {
      assert stream == [];
    } else {
      var m, others := messages[0], messages[1..];
      if |stream| >= |Encode(m)| {
        var tail := PastFirst(Encode(m), EncodeAll(others), stream);
        ReceiveEncoded(m, tail);
        PrefixReceives(others, tail);
        assert messages == [m] + others;
      } else {
        WithinFirst(m, EncodeAll(others), stream);
      }
    }
  }

  /** Everything arrives: repeated reception yields exactly the list that was sent. */
  lemma {:induction false} RoundTrip(messages: seq<Bytes>)
    requires Fit(messages)
    ensures ReceiveAll(EncodeAll(messages)) == messages
  {
    if messages != [] {
      ReceiveEncoded(messages[0], EncodeAll(messages[1..]));
      RoundTrip(messages[1..]);
    }
  }

  /** Different lists never share a byte stream. */
  lemma EncodingInjective(xs: seq<Bytes>, ys: seq<Bytes>)
    requires Fit(xs) && Fit(ys) && EncodeAll(xs) == EncodeAll(ys)
    ensures xs == ys
  {
    RoundTrip(xs);
    RoundTrip(ys);
  }

  // ---- tagged frames ----

  const TAG_CHUNK: Byte := 0x01

  function LittleEndian(v: nat, width: nat): (s: Bytes)
    ensures |s| == width
  {
    if width == 0 then [] else [v % 256] + LittleEndian(v / 256, width - 1)
  }

  function FromLittleEndian(s: Bytes): nat {
    if s == [] then 0 else s[0] + 256 * FromLittleEndian(s[1..])
  }

  lemma {:induction false} LittleEndianRoundTrip(v: nat, width: nat)
    requires v < Pow256(width)
    ensures FromLittleEndian(LittleEndian(v, width)) == v
  {
    if width > 0 { LittleEndianRoundTrip(v / 256, width - 1); }
  }

  /** The payload of a chunk frame: tag, index cut to 32 bits, compression flag, ciphertext. */
  function ChunkFrame(index: nat, compressed: bool, ciphertext: Bytes): Bytes {
    [TAG_CHUNK] + LittleEndian(index % U32_MODULUS, 4) + [if compressed then 1 else 0] + ciphertext
  }

  datatype Decoded = Decoded(index: nat, compressed: bool, ciphertext: Bytes)

  /** The receiver's reading of a frame payload; None when it is not a chunk or is too short. */
  function DecodeChunk(payload: Bytes): Option<Decoded> {
    if |payload| < 6 || payload[0] != TAG_CHUNK then None
    else Some(Decoded(FromLittleEndian(payload[1..5]), payload[5] != 0, payload[6..]))
  }

  /** A chunk frame sent as a message comes back with its index, flag and ciphertext, provided the
      index fits its 32-bit field; the message itself arrives exactly when ciphertext and header fit. */
  lemma ChunkFrameRoundTrip(index: nat, compressed: bool, ciphertext: Bytes, tail: Bytes)
    requires |ciphertext| + 6 < U64_MODULUS
    ensures var f := ChunkFrame(index, compressed, ciphertext);
            && |f| == |ciphertext| + 6
            && DecodeChunk(f) == Some(Decoded(index % U32_MODULUS, compressed, ciphertext))
            && (Receive(Encode(f) + tail) == Message(f, tail) <==> |ciphertext| + 6 <= MAX_PAYLOAD_SIZE)
  {
    var f := ChunkFrame(index, compressed, ciphertext);
    Pow256Values();
    LittleEndianRoundTrip(index % U32_MODULUS, 4);
    assert f[1..5] == LittleEndian(index % U32_MODULUS, 4);
    assert f[6..] == ciphertext;
    ReceiveEncoded(f, tail);
  }

  // ---- reading from a socket ----

  /** Reception in two reads: the length, then that many bytes. */
  lemma ReceiveInTwo(stream: Bytes)
    requires |stream| >= LENGTH_BYTES
    ensures var n, body := FromBigEndian(stream[..LENGTH_BYTES]), stream[LENGTH_BYTES..];
            Receive(stream) == if n > MAX_PAYLOAD_SIZE then Oversized(n)
                               else if |body| < n then NoPayload else Message(body[..n], body[n..])
  {
    var n, body := FromBigEndian(stream[..LENGTH_BYTES]), stream[LENGTH_BYTES..];
    if n <= |body| {
      assert body[..n] == stream[LENGTH_BYTES..LENGTH_BYTES + n] && body[n..] == stream[LENGTH_BYTES + n..];
    }
  }

  /** The reading half of a connection: the bytes that will still arrive before it closes. */
  class Reader {
    var unread: Bytes

    constructor (unread: Bytes)
      ensures this.unread == unread
    {
      this.unread := unread;
    }

    /** One read: some non-empty fragment, of whatever length the network chose, or nothing at the end. */
    method Read(limit: nat) returns (data: Bytes)
      modifies this
      ensures |data| <= limit && old(unread) == data + unread
      ensures data == [] <==> limit == 0 || old(unread) == []
    {
      if limit == 0 || unread == [] {
        data := [];
      } else {
        var n: nat :| 1 <= n <= limit && n <= |unread|;
        data, unread := unread[..n], unread[n..];
      }
    }

    /** `read_exact`: None when the stream ends first. */
    method ReadExact(n: nat) returns (data: Option<Bytes>)
      modifies this
      ensures |old(unread)| >= n ==> data == Some(old(unread)[..n]) && unread == old(unread)[n..]
      ensures |old(unread)| < n ==> data == None && unread == []
    {
      var got: Bytes := [];
      while |got| < n
        invariant |got| <= n && old(unread) == got + unread
        decreases n - |got|
      {
        var more := Read(n - |got|);
        if more == [] { return None; }
        got := got + more;
      }
      data := Some(got);
    }

    method ReceiveMessage() returns (payload: Option<Bytes>)
      modifies this
      ensures match Receive(old(unread))
              case Message(p, rest) => payload == Some(p) && unread == rest
              case _ => payload == None
    {
      var lengthField := ReadExact(LENGTH_BYTES);
      if lengthField == None { return None; }
      ReceiveInTwo(old(unread));
      var n := FromBigEndian(lengthField.value);
      if n > MAX_PAYLOAD_SIZE { return None; }
      payload := ReadExact(n);
    }
  }

  datatype Outcome = ClosedByPeer | Disconnected | Failed | Stopped

  /** What a server writes back and how the connection ends, when the running flag is seen set
      `turns` times before it is seen clear. */
  function Serve(stream: Bytes, handler: Bytes -> Option<Bytes>, turns: nat): (Bytes, Outcome)
    decreases turns
  {
    if turns == 0 then ([], Stopped)
    else
      match Receive(stream)
      case NoLength => ([], ClosedByPeer)
      case Oversized(_) => ([], Disconnected)
      case NoPayload => ([], Failed)
      case Message(payload, rest) =>
        match handler(payload)
        case None => ([], Failed)
        case Some(response) =>
          var (more, outcome) := Serve(rest, handler, turns - 1);
          (Encode(response) + more, outcome)
  }

  /** Serving `start` for `turns` turns has written `written`, and has `unread` and some turns left. */
  ghost predicate Serving(start: Bytes, handler: Bytes -> Option<Bytes>, turns: nat, written: Bytes, unread: Bytes, left: nat) {
    var (more, outcome) := Serve(unread, handler, left);
    Serve(start, handler, turns) == (written + more, outcome)
  }

  /** One turn of the loop: a response to write, with Stopped, or how the connection ends. */
  ghost predicate OneTurn(unread: Bytes, handler: Bytes -> Option<Bytes>, response: Bytes, outcome: Outcome, rest: Bytes) {
    match Receive(unread)
    case NoLength => outcome == ClosedByPeer
    case Oversized(_) => outcome == Disconnected
    case NoPayload => outcome == Failed
    case Message(p, r) =>
      if handler(p).None? then outcome == Failed
      else outcome == Stopped && response == handler(p).value && rest == r
  }

  lemma ServingNext(start: Bytes, handler: Bytes -> Option<Bytes>, turns: nat, written: Bytes, unread: Bytes, left: nat,
                    response: Bytes, rest: Bytes)
    requires Serving(start, handler, turns, written, unread, left) && left > 0
    requires OneTurn(unread, handler, response, Stopped, rest)
    ensures Serving(start, handler, turns, written + BigEndian(|response|, LENGTH_BYTES) + response, rest, left - 1)
  {
    Associates(written, Encode(response), Serve(rest, handler, left - 1).0);
    Associates(written, BigEndian(|response|, LENGTH_BYTES), response);
  }

  lemma ServingOver(start: Bytes, handler: Bytes -> Option<Bytes>, turns: nat, written: Bytes, unread: Bytes, left: nat,
                    response: Bytes, outcome: Outcome, rest: Bytes)
    requires Serving(start, handler, turns, written, unread, left) && left > 0
    requires OneTurn(unread, handler, response, outcome, rest) && outcome != Stopped
    ensures Serve(start, handler, turns) == (written, outcome)
  {
    ServingEnds(start, handler, turns, written, unread, left);
  }

  lemma ServingStarts(start: Bytes, handler: Bytes -> Option<Bytes>, turns: nat)
    ensures Serving(start, handler, turns, [], start, turns)
  {
    assert [] + Serve(start, handler, turns).0 == Serve(start, handler, turns).0;
  }

  lemma ServingStops(start: Bytes, handler: Bytes -> Option<Bytes>, turns: nat, written: Bytes, unread: Bytes)
    requires Serving(start, handler, turns, written, unread, 0)
    ensures Serve(start, handler, turns) == (written, Stopped)
  {
    ServingEnds(start, handler, turns, written, unread, 0);
  }

  lemma ServingEnds(start: Bytes, handler: Bytes -> Option<Bytes>, turns: nat, written: Bytes, unread: Bytes, left: nat)
    requires Serving(start, handler, turns, written, unread, left) && Serve(unread, handler, left).0 == []
    ensures Serve(start, handler, turns) == (written, Serve(unread, handler, left).1)
  {
    assert written + [] == written;
  }

  method HandleConnection(reader: Reader, handler: Bytes -> Option<Bytes>, turns: nat)
    returns (written: Bytes, outcome: Outcome)
    modifies reader
    ensures (written, outcome) == Serve(old(reader.unread), handler, turns)
  {
    ghost var start := reader.unread;
    written := [];
    ServingStarts(start, handler, turns);
    for turn := 0 to turns
      invariant Serving(start, handler, turns, written, reader.unread, turns - turn)
    {
      ghost var unread := reader.unread;
      var response: Bytes;
      response, outcome := ServeOne(reader, handler);
      if outcome != Stopped {
        ServingOver(start, handler, turns, written, unread, turns - turn, response, outcome, reader.unread);
        return written, outcome;
      }
      ServingNext(start, handler, turns, written, unread, turns - turn, response, reader.unread);
      written := written + BigEndian(|response|, LENGTH_BYTES) + response;
    }
    ServingStops(start, handler, turns, written, reader.unread);
    outcome := Stopped;
  }

  method ServeOne(reader: Reader, handler: Bytes -> Option<Bytes>) returns (response: Bytes, outcome: Outcome)
    modifies reader
    ensures OneTurn(old(reader.unread), handler, response, outcome, reader.unread)
  {
    response := [];
    var lengthField := reader.ReadExact(LENGTH_BYTES);
    if lengthField == None { return response, ClosedByPeer; }
    ReceiveInTwo(old(reader.unread));
    var n := FromBigEndian(lengthField.value);
    if n > MAX_PAYLOAD_SIZE { return response, Disconnected; }
    var payload := reader.ReadExact(n);
    if payload == None { return response, Failed; }
    match handler(payload.value)
    case None => outcome := Failed;
    case Some(answer) => response, outcome := answer, Stopped;
  }

  ghost predicate Handled(messages: seq<Bytes>, handler: Bytes -> Option<Bytes>) {
    forall k :: 0 <= k < |messages| ==> handler(messages[k]).Some?
  }

  ghost function Respond(messages: seq<Bytes>, handler: Bytes -> Option<Bytes>): seq<Bytes>
    requires Handled(messages, handler)
  {
    if messages == [] then [] else [handler(messages[0]).value] + Respond(messages[1..], handler)
  }

  lemma ServesFirst(message: Bytes, rest: Bytes, handler: Bytes -> Option<Bytes>, turns: nat)
    requires |message| <= MAX_PAYLOAD_SIZE && handler(message).Some? && turns > 0
    ensures var (later, outcome) := Serve(rest, handler, turns - 1);
            Serve(Encode(message) + rest, handler, turns) == (Encode(handler(message).value) + later, outcome)
  {
    ReceiveEncoded(message, rest);
  }


  // ---- where reception and service end ----

  /** A message cut off on the way is not received, and it shows where it was cut. */
  lemma ReceiveTruncated(message: Bytes, n: nat)
    requires |message| <= MAX_PAYLOAD_SIZE && n < |Encode(message)|
    ensures Receive(Encode(message)[..n]) == if n < LENGTH_BYTES then NoLength else NoPayload
  {
    LengthField(message, []);
    assert Encode(message) + [] == Encode(message);
    if n >= LENGTH_BYTES { assert Encode(message)[..n][..LENGTH_BYTES] == Encode(message)[..LENGTH_BYTES]; }
  }

  lemma Associates(a: Bytes, b: Bytes, c: Bytes)
    ensures a + (b + c) == (a + b) + c
  {
  }

  lemma ServesOneMore(m: Bytes, stream: Bytes, handler: Bytes -> Option<Bytes>, turns: nat, answers: Bytes, more: Bytes,
                      outcome: Outcome)
    requires |m| <= MAX_PAYLOAD_SIZE && handler(m).Some? && turns > 0
    requires Serve(stream, handler, turns - 1) == (answers + more, outcome)
    ensures Serve(Encode(m) + stream, handler, turns) == (Encode(handler(m).value) + answers + more, outcome)
  {
    ServesFirst(m, stream, handler, turns);
    Associates(Encode(handler(m).value), answers, more);
  }

  lemma AllResponded(messages: seq<Bytes>, handler: Bytes -> Option<Bytes>)
    requires messages != [] && Handled(messages, handler)
    ensures Handled(messages[1..], handler)
  {
    forall k | 0 <= k < |messages[1..]| ensures handler(messages[1..][k]).Some? {
      assert messages[1..][k] == messages[k + 1];
    }
  }

  ghost predicate ServedThen(messages: seq<Bytes>, tail: Bytes, handler: Bytes -> Option<Bytes>, turns: nat,
                             more: Bytes, outcome: Outcome)
    requires Handled(messages, handler)
  {
    Serve(EncodeAll(messages) + tail, handler, turns) == (EncodeAll(Respond(messages, handler)) + more, outcome)
  }

  lemma ServedStep(messages: seq<Bytes>, tail: Bytes, handler: Bytes -> Option<Bytes>, turns: nat, more: Bytes,
                   outcome: Outcome)
    requires messages != [] && Fit(messages) && turns > 0
    requires Handled(messages, handler)
    requires Handled(messages[1..], handler)
    requires ServedThen(messages[1..], tail, handler, turns - 1, more, outcome)
    ensures ServedThen(messages, tail, handler, turns, more, outcome)
  {
    var m, rest := messages[0], messages[1..];
    ServesOneMore(m, EncodeAll(rest) + tail, handler, turns, EncodeAll(Respond(rest, handler)), more, outcome);
    Associates(Encode(m), EncodeAll(rest), tail);
    RespondsFirst(messages, handler);
  }

  lemma ServedNone(tail: Bytes, handler: Bytes -> Option<Bytes>, turns: nat, more: Bytes, outcome: Outcome)
    requires Serve(tail, handler, turns) == (more, outcome)
    ensures ServedThen([], tail, handler, turns, more, outcome)
  {
    assert [] + tail == tail && [] + more == more;
  }

  /** A server answers the messages a peer sends, in order, and then what follows them decides. */
  lemma {:induction false} ServesThenEnds(messages: seq<Bytes>, tail: Bytes, handler: Bytes -> Option<Bytes>, turns: nat,
                                          more: Bytes, outcome: Outcome)
    requires Fit(messages) && Handled(messages, handler)
    requires Serve(tail, handler, turns) == (more, outcome)
    ensures ServedThen(messages, tail, handler, turns + |messages|, more, outcome)
    decreases |messages|
  {
    if messages == [] {
      ServedNone(tail, handler, turns, more, outcome);
    } else {
      AllResponded(messages, handler);
      ServesThenEnds(messages[1..], tail, handler, turns, more, outcome);
      ServedStep(messages, tail, handler, turns + |messages|, more, outcome);
    }
  }

  lemma RespondsFirst(messages: seq<Bytes>, handler: Bytes -> Option<Bytes>)
    requires messages != [] && Handled(messages, handler)
    requires Handled(messages[1..], handler)
    ensures EncodeAll(Respond(messages, handler))
            == Encode(handler(messages[0]).value) + EncodeAll(Respond(messages[1..], handler))
  {
    var all := Respond(messages, handler);
    assert all[0] == handler(messages[0]).value && all[1..] == Respond(messages[1..], handler);
  }

  /** The endings: a server out of turns stops; a peer that closes between messages or inside a length is
      let go; a claim over the limit is cut off; and a payload cut short or a handler's refusal is an
      error. */
  lemma ServiceEnds(tail: Bytes, message: Bytes, n: nat, handler: Bytes -> Option<Bytes>, turns: nat)
    ensures Serve(tail, handler, 0) == ([], Stopped)
    ensures turns > 0 && |tail| < LENGTH_BYTES ==> Serve(tail, handler, turns) == ([], ClosedByPeer)
    ensures turns > 0 && MAX_PAYLOAD_SIZE < |message| < U64_MODULUS ==>
              Serve(Encode(message) + tail, handler, turns) == ([], Disconnected)
    ensures turns > 0 && |message| <= MAX_PAYLOAD_SIZE && LENGTH_BYTES <= n < |Encode(message)| ==>
              Serve(Encode(message)[..n], handler, turns) == ([], Failed)
    ensures turns > 0 && |message| <= MAX_PAYLOAD_SIZE && handler(message) == None ==>
              Serve(Encode(message) + tail, handler, turns) == ([], Failed)
  {
    if |message| < U64_MODULUS { ReceiveEncoded(message, tail); }
    if |message| <= MAX_PAYLOAD_SIZE && n < |Encode(message)| { ReceiveTruncated(message, n); }
  }

  /** Which payloads decode: those that are tagged as chunks and long enough, to the frame they encode when
      the flag byte is one the sender writes; any flag but zero means compressed. */
  lemma DecodesExactly(payload: Bytes)
    ensures DecodeChunk(payload) == None <==> |payload| < 6 || payload[0] != TAG_CHUNK
    ensures DecodeChunk(payload).Some? ==> var d := DecodeChunk(payload).value;
              && (d.compressed <==> payload[5] != 0)
              && (payload[5] <= 1 ==> payload == ChunkFrame(d.index, d.compressed, d.ciphertext))
  {
    if |payload| >= 6 {
      Pow256Values();
      LittleEndianBytes(payload[1..5]);
      assert payload == [payload[0]] + payload[1..5] + [payload[5]] + payload[6..];
    }
  }

  lemma {:induction false} LittleEndianBytes(s: Bytes)
    ensures FromLittleEndian(s) < Pow256(|s|) && LittleEndian(FromLittleEndian(s), |s|) == s
  {
    if s != [] {
      LittleEndianBytes(s[1..]);
      var rest := FromLittleEndian(s[1..]);
      assert FromLittleEndian(s) / 256 == rest && FromLittleEndian(s) % 256 == s[0];
    }
  }

  /** A peer that sends some messages and closes gets one response a message, in order, from a server
      that is not stopped. */
  lemma ServesEveryMessage(messages: seq<Bytes>, handler: Bytes -> Option<Bytes>, turns: nat)
    requires Fit(messages) && turns > |messages|
    requires Handled(messages, handler)
    ensures Serve(EncodeAll(messages), handler, turns) == (EncodeAll(Respond(messages, handler)), ClosedByPeer)
  {
    ServesThenEnds(messages, [], handler, turns - |messages|, [], ClosedByPeer);
    assert EncodeAll(messages) + [] == EncodeAll(messages);
    assert EncodeAll(Respond(messages, handler)) + [] == EncodeAll(Respond(messages, handler));
  }

  // ---- layouts, byte by byte ----

  lemma {:induction false} LittleEndianDigit(v: nat, width: nat, k: nat)
    requires k < width
    ensures LittleEndian(v, width)[k] == v / Pow256(k) % 256
  {
    if k > 0 {
      LittleEndianDigit(v / 256, width - 1, k - 1);
      DivideTwice(v, Pow256(k - 1));
    }
  }

  /** A message: its length in eight bytes, the most significant first, then the payload. */
  lemma MessageLayout(message: Bytes, k: nat)
    requires k < 8
    ensures var e := Encode(message);
            |e| == 8 + |message| && e[7 - k] == |message| / Pow256(k) % 256 && e[8..] == message
  {
    BigEndianDigit(|message|, LENGTH_BYTES, k);
    assert Encode(message)[7 - k] == BigEndian(|message|, LENGTH_BYTES)[7 - k];
  }

  /** A chunk frame: the tag, four bytes of the index with the least significant first, the flag, the
      ciphertext. */
  lemma ChunkFrameLayout(index: nat, compressed: bool, ciphertext: Bytes, k: nat)
    requires k < 4
    ensures var f := ChunkFrame(index, compressed, ciphertext);
            && |f| == 6 + |ciphertext| && f[0] == 0x01 && f[1 + k] == (index % U32_MODULUS) / Pow256(k) % 256
            && f[5] == (if compressed then 1 else 0) && f[6..] == ciphertext
  {
    var i := index % U32_MODULUS;
    LittleEndianDigit(i, 4, k);
    assert ChunkFrame(index, compressed, ciphertext)[1 + k] == LittleEndian(i, 4)[k];
  }
}
