// The 1164-byte request and 588-byte response of the processor protocol
// (app/shared/protocol.h), written by ChatEncryptionService, answered by the
// processor and the driver, and read back.
module ChatFrames {
  import opened Options
  import opened Substitution
  import opened Exchange

  const RequestSize := 1164
  const MaxUsername := 32
  const MaxPassword := 64
  const MaxMessage := 512
  const MaxResult := 512

  const RequestLogin := 1
  const RequestChatMessage := 2
  const RequestLogout := 3
  const RequestRegister := 4
  const RequestSelectPeer := 5

  const ProcessSubstitution := 1
  const ProcessSha1 := 2
  const ProcessSubstitutionDecrypt := 3

  const ResponseAck := 1
  const StatusOk := 0
  const StatusInvalidRequest := 4

  const Word32 := 0x1_0000_0000

  // ---------------------------------------------------------------------
  // Fields.

  function LE32(v: nat): (r: seq<byte>)
    requires v < Word32
    ensures |r| == 4
  {
    [v % 256, v / 256 % 256, v / 65536 % 256, v / 16777216]
  }

  function FromLE32(s: seq<byte>): (v: nat)
    requires |s| == 4
    ensures v < Word32
  {
    var a: int, b: int, c: int, d: int := s[0], s[1], s[2], s[3];
    a + 256 * b + 65536 * c + 16777216 * d
  }

  // readInt32LE.
  function SignedLE32(s: seq<byte>): int
    requires |s| == 4
  {
    var v := FromLE32(s);
    if v < 0x8000_0000 then v else v - Word32
  }

  lemma LE32ReadsBack(v: nat)
    requires v < Word32
    ensures FromLE32(LE32(v)) == v
  {
    assert v / 65536 == v / 256 / 256 && v / 16777216 == v / 256 / 256 / 256;
  }

  function Zeros(n: nat): (z: seq<byte>)
    ensures |z| == n && forall i :: 0 <= i < n ==> z[i] == 0
  {
    seq(n, _ => 0)
  }

  // A C string field: at most size - 1 bytes, then NULs.
  function Clip(s: seq<byte>, size: nat): (t: seq<byte>)
    requires size > 0
    ensures t <= s && |t| < size
    ensures |s| < size ==> t == s
  {
    if |s| < size then s else s[..size - 1]
  }

  function Field(s: seq<byte>, size: nat): (f: seq<byte>)
    requires size > 0
    ensures |f| == size
  {
    Clip(s, size) + Zeros(size - |Clip(s, size)|)
  }

  // What a reader of the field sees: the clipped bytes up to the first NUL.
  lemma FieldReadsBack(s: seq<byte>, size: nat)
    requires size > 0
    ensures CPrefix(Field(s, size), size) == CPrefix(Clip(s, size), size)
    ensures 0 !in s && |s| < size ==> CPrefix(Field(s, size), size) == s
  {
    var c := Clip(s, size);
    var p := CPrefix(c, size);
    assert Field(s, size)[..|p|] == p;
    if |p| == |c| {
      assert Field(s, size)[|p|] == 0;
    }
    CPrefixIs(Field(s, size), size, |p|);
    if 0 !in s && |s| < size {
      assert c[..|c|] == c;
      CPrefixIs(c, size, |c|);
    }
  }

  function RequestFrame(id: nat, kind: nat, mode: nat, user: seq<byte>, peer: seq<byte>,
                        auth: seq<byte>, payload: seq<byte>, plaintext: seq<byte>): (f: seq<byte>)
    requires id < Word32 && kind < Word32 && mode < Word32
    ensures |f| == RequestSize
  {
    LE32(id) + LE32(kind) + LE32(mode) + Field(user, MaxUsername) + Field(peer, MaxUsername)
    + Field(auth, MaxPassword) + Field(payload, MaxMessage) + Field(plaintext, MaxMessage)
  }

  // The frame of one cipher request.
  function ChatRequest(id: nat, mode: nat, content: seq<byte>, senderId: seq<byte>, conversationId: seq<byte>): (f: seq<byte>)
    requires id < Word32 && mode < Word32
    ensures |f| == RequestSize
  {
    RequestFrame(id, RequestChatMessage, mode, senderId, conversationId, [], content, [])
  }

  // The fields of a frame, by their offsets in chat_request_t.
  datatype Request = Request(id: nat, kind: nat, mode: nat, user: seq<byte>, peer: seq<byte>,
                             auth: seq<byte>, payload: seq<byte>, plaintext: seq<byte>)

  predicate Sized(r: Request) {
    && r.id < Word32
    && |r.user| == |r.peer| == MaxUsername && |r.auth| == MaxPassword && |r.payload| == |r.plaintext| == MaxMessage
  }

  function ReadRequest(f: seq<byte>): (r: Request)
    requires |f| == RequestSize
    ensures Sized(r)
  {
    Request(FromLE32(f[0..4]), FromLE32(f[4..8]), FromLE32(f[8..12]), f[12..44], f[44..76], f[76..140],
            f[140..652], f[652..1164])
  }

  // No field overlaps another.
  lemma RequestReadsBack(id: nat, kind: nat, mode: nat, user: seq<byte>, peer: seq<byte>,
                         auth: seq<byte>, payload: seq<byte>, plaintext: seq<byte>)
    requires id < Word32 && kind < Word32 && mode < Word32
    ensures ReadRequest(RequestFrame(id, kind, mode, user, peer, auth, payload, plaintext))
      == Request(id, kind, mode, Field(user, MaxUsername), Field(peer, MaxUsername),
                 Field(auth, MaxPassword), Field(payload, MaxMessage), Field(plaintext, MaxMessage))
  {
    var f := RequestFrame(id, kind, mode, user, peer, auth, payload, plaintext);
    LE32ReadsBack(id);
    LE32ReadsBack(kind);
    LE32ReadsBack(mode);
    assert f[0..4] == LE32(id) && f[4..8] == LE32(kind) && f[8..12] == LE32(mode);
    assert f[12..44] == Field(user, MaxUsername);
    assert f[44..76] == Field(peer, MaxUsername);
    assert f[76..140] == Field(auth, MaxPassword);
    assert f[140..652] == Field(payload, MaxMessage);
    assert f[652..1164] == Field(plaintext, MaxMessage);
  }

  function ResponseFrame(id: nat, kind: nat, status: nat, from: seq<byte>, peer: seq<byte>, payload: seq<byte>): (f: seq<byte>)
    requires id < Word32 && kind < Word32 && status < Word32
    ensures |f| == ResponseSize
  {
    LE32(id) + LE32(kind) + LE32(status) + Field(from, MaxUsername) + Field(peer, MaxUsername) + Field(payload, MaxResult)
  }

  // ---------------------------------------------------------------------
  // ChatEncryptionService: building the request in place.

  class ChatEncryption {
    var nextMessageId: nat

    constructor ()
      ensures nextMessageId == 1
    {
      nextMessageId := 1;
    }

    // nextId.
    method NextId() returns (current: nat)
      modifies this
      ensures current == old(nextMessageId) && nextMessageId == old(nextMessageId) + 1
    {
      current := nextMessageId;
      nextMessageId := nextMessageId + 1;
    }

    // buildRequest. writeUInt32LE throws once the counter no longer fits.
    method BuildRequest(mode: nat, content: seq<byte>, senderId: seq<byte>, conversationId: seq<byte>)
        returns (request: Option<array<byte>>)
      requires mode < Word32
      modifies this
      ensures nextMessageId == old(nextMessageId) + 1
      ensures request.None? <==> old(nextMessageId) >= Word32
      ensures request.Some? ==> fresh(request.value)
      ensures request.Some? ==>
        request.value[..] == ChatRequest(old(nextMessageId), mode, content, senderId, conversationId)
    {
      var buffer := new byte[RequestSize](_ => 0);
      var messageId := NextId();
      if messageId >= Word32 {
        return None;
      }
      ghost var done: seq<byte> := [];
      assert buffer[..] == done + Zeros(RequestSize);
      WriteUInt32LE(buffer, messageId, 0, done);
      WriteUInt32LE(buffer, RequestChatMessage, 4, LE32(messageId));
      WriteUInt32LE(buffer, mode, 8, LE32(messageId) + LE32(RequestChatMessage));
      done := LE32(messageId) + LE32(RequestChatMessage) + LE32(mode);
      WriteCString(buffer, 12, MaxUsername, senderId, done);
      done := done + Field(senderId, MaxUsername);
      WriteCString(buffer, 12 + MaxUsername, MaxUsername, conversationId, done);
      done := done + Field(conversationId, MaxUsername);
      SkipField(buffer[..], done, MaxPassword);
      done := done + Field([], MaxPassword);
      WriteCString(buffer, 12 + MaxUsername + MaxUsername + MaxPassword, MaxMessage, content, done);
      done := done + Field(content, MaxMessage);
      SkipField(buffer[..], done, MaxMessage);
      assert done + Field([], MaxMessage) + Zeros(0) == done + Field([], MaxMessage);
      return Some(buffer);
    }
  }

  // Everything from done on is still zero.
  predicate Written(buffer: seq<byte>, done: seq<byte>) {
    |done| <= |buffer| && buffer == done + Zeros(|buffer| - |done|)
  }

  // An unwritten field is an empty field.
  lemma SkipField(buffer: seq<byte>, done: seq<byte>, size: nat)
    requires size > 0 && Written(buffer, done) && |done| + size <= |buffer|
    ensures Written(buffer, done + Field([], size))
  {
  }

  // buffer.writeUInt32LE(value, offset).
  method WriteUInt32LE(buffer: array<byte>, value: nat, offset: nat, ghost done: seq<byte>)
    requires value < Word32 && offset + 4 <= buffer.Length
    requires Written(buffer[..], done) && |done| == offset
    modifies buffer
    ensures Written(buffer[..], done + LE32(value))
  {
    var le := LE32(value);
    for i := 0 to 4
      invariant buffer[..] == done + le[..i] + Zeros(buffer.Length - offset - i)
    {
      buffer[offset + i] := le[i];
    }
  }

  // writeCString.
  method WriteCString(buffer: array<byte>, offset: nat, size: nat, value: seq<byte>, ghost done: seq<byte>)
    requires 0 < size && offset + size <= buffer.Length
    requires Written(buffer[..], done) && |done| == offset
    modifies buffer
    ensures Written(buffer[..], done + Field(value, size))
  {
    var encoded := Clip(value, size);
    for i := 0 to |encoded|
      invariant buffer[..] == done + encoded[..i] + Zeros(buffer.Length - offset - i)
    {
      buffer[offset + i] := encoded[i];
    }
    buffer[offset + |encoded|] := 0;
    assert encoded[..|encoded|] == encoded;
  }

  // ---------------------------------------------------------------------
  // The processor (app/processor) and the driver (driver/module/chat_driver_main.c).

  function Ascii(s: string): (r: seq<byte>)
    ensures |r| == |s|
  {
    seq(|s|, i requires 0 <= i < |s| => s[i] as int % 256)
  }

  // processor_validate_request: None when the request is accepted.
  function Validate(r: Request): Option<string>
    requires Sized(r)
  {
    var auth := r.kind == RequestLogin || r.kind == RequestRegister;
    if r.mode != ProcessSubstitution && r.mode != ProcessSha1 && r.mode != ProcessSubstitutionDecrypt then
      Some("unsupported-mode")
    else if auth && r.user[0] != 0 && r.auth[0] != 0 then None
    else if r.kind == RequestSelectPeer && r.peer[0] != 0 then None
    else if r.kind == RequestChatMessage && r.peer[0] != 0 && r.payload[0] != 0 then None
    else if r.kind == RequestLogout then None
    else if auth then Some("missing-auth-payload")
    else if r.kind == RequestSelectPeer then Some("missing-peer")
    else if r.kind == RequestChatMessage then Some("missing-message-payload")
    else Some("invalid-request")
  }

  // A field that does not start with its terminator.
  predicate Given(s: seq<byte>) {
    s != [] && s[0] != 0
  }

  predicate Complete(kind: nat, user: seq<byte>, peer: seq<byte>, auth: seq<byte>, payload: seq<byte>) {
    || kind == 3
    || ((kind == 1 || kind == 4) && Given(user) && Given(auth))
    || (kind == 5 && Given(peer))
    || (kind == 2 && Given(peer) && Given(payload))
  }

  // A frame is accepted if and only if its mode is one of the three and what its
  // kind of request needs was given; the reason for a refusal says what was missing.
  lemma FrameAcceptedIff(id: nat, kind: nat, mode: nat, user: seq<byte>, peer: seq<byte>,
                         auth: seq<byte>, payload: seq<byte>, plaintext: seq<byte>)
    requires id < Word32 && kind < Word32 && mode < Word32
    ensures var v := Validate(ReadRequest(RequestFrame(id, kind, mode, user, peer, auth, payload, plaintext)));
        && (v.None? <==> 1 <= mode <= 3 && Complete(kind, user, peer, auth, payload))
        && (v == Some("unsupported-mode") <==> !(1 <= mode <= 3))
        && (v == Some("invalid-request") <==> 1 <= mode <= 3 && !(1 <= kind <= 5))
        && (v == Some("missing-auth-payload") ==> kind == 1 || kind == 4)
        && (v == Some("missing-peer") ==> kind == 5)
        && (v == Some("missing-message-payload") ==> kind == 2)
  {
    RequestReadsBack(id, kind, mode, user, peer, auth, payload, plaintext);
    FirstByteOfField(user, MaxUsername);
    FirstByteOfField(peer, MaxUsername);
    FirstByteOfField(auth, MaxPassword);
    FirstByteOfField(payload, MaxMessage);
    assert "unsupported-mode" != "invalid-request";
  }

  // What the driver computes for the two substitution modes.
  function DriverResult(mode: nat, payload: seq<byte>): seq<byte>
    requires mode == ProcessSubstitution || mode == ProcessSubstitutionDecrypt
  {
    var text := CPrefix(payload, MaxResult - 1);
    if mode == ProcessSubstitution then ForwardAll(text) else ReverseAll(text)
  }

  // The payload buffer of last_response, zeroed and then filled in place.
  method FillPayload(mode: nat, payload: seq<byte>) returns (out: seq<byte>)
    requires mode == ProcessSubstitution || mode == ProcessSubstitutionDecrypt
    requires |payload| == MaxMessage
    ensures out == Field(DriverResult(mode, payload), MaxResult)
  {
    var buffer := new byte[MaxResult](_ => 0);
    ghost var before := buffer[..];
    if mode == ProcessSubstitution {
      SubstitutionTransform(payload, buffer);
    } else {
      SubstitutionReverseTransform(payload, buffer);
    }
    out := buffer[..];
    TerminatedInZeros(out, before, DriverResult(mode, payload));
  }

  lemma TerminatedInZeros(out: seq<byte>, before: seq<byte>, text: seq<byte>)
    requires Terminated(out, before, text) && |before| == MaxResult
    requires forall i :: 0 <= i < |before| ==> before[i] == 0
    ensures out == Field(text, MaxResult)
  {
    forall i | 0 <= i < MaxResult ensures out[i] == Field(text, MaxResult)[i] {
      if i < |text| {
        assert out[i] == out[..|text|][i];
      } else if i > |text| {
        assert out[i] == out[|text| + 1..][i - |text| - 1];
      }
    }
  }

  // The response to one frame: processor_client_main and, for an accepted
  // substitution request, chat_write followed by chat_read.
  function Reply(q: Request): (r: seq<byte>)
    requires Sized(q) && q.mode != ProcessSha1
    ensures |r| == ResponseSize
  {
    match Validate(q)
    case Some(reason) => ResponseFrame(q.id, ResponseAck, StatusInvalidRequest, [], [], Ascii(reason))
    case None =>
      ResponseFrame(q.id, ResponseAck, StatusOk, CPrefix(q.user, MaxUsername), CPrefix(q.peer, MaxUsername),
                    DriverResult(q.mode, q.payload))
  }

  // ---------------------------------------------------------------------
  // Reading the response back.

  // toString('utf8'): bytes that are not well-formed UTF-8 are replaced, and the
  // text they came from is lost.
  datatype JsText = Exact(utf8: seq<byte>) | Replaced

  datatype RemoteResponse = RemoteResponse(messageId: nat, responseType: nat, status: int, payload: JsText)

  // parseResponse, with readCString.
  function ParseResponse(data: seq<byte>): RemoteResponse
    requires |data| == ResponseSize
  {
    var kind := FromLE32(data[4..8]);
    RemoteResponse(FromLE32(data[0..4]), if kind == 0 then ResponseAck else kind, SignedLE32(data[8..12]),
                   var text := CPrefix(data[76..588], MaxResult);
                   if WellFormed(text) then Exact(text) else Replaced)
  }

  lemma HeaderReadsBack(id: nat, kind: nat, status: nat, from: seq<byte>, peer: seq<byte>, payload: seq<byte>)
    requires id < Word32 && kind < Word32 && status < Word32
    ensures var r := ParseResponse(ResponseFrame(id, kind, status, from, peer, payload));
      && r.messageId == id && (kind == 0 ==> r.responseType == 1) && (kind > 0 ==> r.responseType == kind)
      && -0x8000_0000 <= r.status < 0x8000_0000 && (r.status == status || r.status == status - 0x1_0000_0000)
  {
    ResponseSlices(id, kind, status, from, peer, payload);
    LE32ReadsBack(id);
    LE32ReadsBack(kind);
    LE32ReadsBack(status);
  }

  lemma PayloadReadsBack(id: nat, kind: nat, status: nat, from: seq<byte>, peer: seq<byte>, payload: seq<byte>)
    requires id < Word32 && kind < Word32 && status < Word32 && |payload| < MaxResult && 0 !in payload
    ensures ParseResponse(ResponseFrame(id, kind, status, from, peer, payload)).payload
      == if WellFormed(payload) then Exact(payload) else Replaced
  {
    ResponseSlices(id, kind, status, from, peer, payload);
    FieldReadsBack(payload, MaxResult);
  }

  lemma ResponseReadsBack(id: nat, kind: nat, status: nat, from: seq<byte>, peer: seq<byte>, payload: seq<byte>)
    requires id < Word32 && 0 < kind < Word32 && status < 0x8000_0000
    requires |payload| < MaxResult && 0 !in payload
    ensures ParseResponse(ResponseFrame(id, kind, status, from, peer, payload))
      == RemoteResponse(id, kind, status, if WellFormed(payload) then Exact(payload) else Replaced)
  {
    HeaderReadsBack(id, kind, status, from, peer, payload);
    PayloadReadsBack(id, kind, status, from, peer, payload);
  }

  lemma ResponseSlices(id: nat, kind: nat, status: nat, from: seq<byte>, peer: seq<byte>, payload: seq<byte>)
    requires id < Word32 && kind < Word32 && status < Word32
    ensures var f := ResponseFrame(id, kind, status, from, peer, payload);
      && f[0..4] == LE32(id) && f[4..8] == LE32(kind) && f[8..12] == LE32(status)
      && f[76..588] == Field(payload, MaxResult)
  {
  }

  // ---------------------------------------------------------------------
  // Well-formed UTF-8 (Unicode, table 3-7): the byte strings that encode a text.

  predicate Cont(b: byte) { 0x80 <= b <= 0xBF }

  // The length of the first character, 0 if there is none.
  function CharLen(s: seq<byte>): (n: nat)
    requires s != []
    ensures n <= |s|
  {
    var h := s[0];
    if h < 0x80 then 1
    else if 0xC2 <= h <= 0xDF && |s| >= 2 && Cont(s[1]) then 2
    else if |s| >= 3 && Cont(s[2]) && (
           (h == 0xE0 && 0xA0 <= s[1] <= 0xBF) || (h == 0xED && 0x80 <= s[1] <= 0x9F)
           || (((0xE1 <= h <= 0xEC) || (0xEE <= h <= 0xEF)) && Cont(s[1]))) then 3
    else if |s| >= 4 && Cont(s[2]) && Cont(s[3]) && (
           (h == 0xF0 && 0x90 <= s[1] <= 0xBF) || (0xF1 <= h <= 0xF3 && Cont(s[1]))
           || (h == 0xF4 && 0x80 <= s[1] <= 0x8F)) then 4
    else 0
  }

  lemma ContinuationBytes(s: seq<byte>, i: nat)
    requires s != [] && 0 < i < CharLen(s)
    ensures s[i] >= 0x80
  {
  }

  predicate WellFormed(s: seq<byte>)
    decreases |s|
  {
    s == [] || (CharLen(s) > 0 && WellFormed(s[CharLen(s)..]))
  }

  // Only single-byte characters differ, and they stay single-byte.
  predicate SameShape(s: seq<byte>, t: seq<byte>) {
    |s| == |t| && forall i :: 0 <= i < |s| ==> if s[i] < 0x80 then t[i] < 0x80 else t[i] == s[i]
  }

  lemma {:induction false} ShapeKeepsWellFormed(s: seq<byte>, t: seq<byte>)
    requires SameShape(s, t)
    ensures WellFormed(s) == WellFormed(t)
    decreases |s|
  {
    if s != [] {
      assert CharLen(s) == CharLen(t);
      if CharLen(s) > 0 {
        ShapeKeepsWellFormed(s[CharLen(s)..], t[CharLen(s)..]);
      }
    }
  }

  lemma DropOfTake(s: seq<byte>, k: nat, n: nat)
    requires k <= n <= |s|
    ensures s[..n][k..] == s[k..][..n - k]
  {
  }

  lemma {:induction false} PrefixBeforeAsciiIsWellFormed(s: seq<byte>, n: nat)
    requires WellFormed(s) && n < |s| && s[n] < 0x80
    ensures WellFormed(s[..n])
    decreases |s|
  {
    if n > 0 {
      var k := CharLen(s);
      if n < k {
        ContinuationBytes(s, n);
      }
      assert 0 < k <= n;
      PrefixBeforeAsciiIsWellFormed(s[k..], n - k);
      DropOfTake(s, k, n);
      assert CharLen(s[..n]) == k;
    }
  }

  // The cipher turns a text into a text.
  lemma CipherKeepsWellFormed(s: seq<byte>)
    ensures WellFormed(ForwardAll(s)) == WellFormed(s) == WellFormed(ReverseAll(s))
  {
    forall i | 0 <= i < |s|
      ensures if s[i] < 0x80 then Forward(s[i]) < 0x80 && Reverse(s[i]) < 0x80 else Forward(s[i]) == s[i] == Reverse(s[i])
    {
      MapsAreInverse(s[i]);
    }
    ShapeKeepsWellFormed(s, ForwardAll(s));
    ShapeKeepsWellFormed(s, ReverseAll(s));
  }

  // ---------------------------------------------------------------------
  // Round trip.

  // One processRemote call: the response the service reads for a text.
  function Remote(mode: nat, text: seq<byte>, senderId: seq<byte>, conversationId: seq<byte>, id: nat): RemoteResponse
    requires id < Word32 && CipherMode(mode)
  {
    ReadReply(CipherRequest(mode, text, senderId, conversationId, id))
  }

  function ReadReply(q: Request): RemoteResponse
    requires Sized(q) && q.mode != ProcessSha1
  {
    ParseResponse(Reply(q))
  }

  predicate CipherMode(mode: nat) {
    mode == ProcessSubstitution || mode == ProcessSubstitutionDecrypt
  }

  predicate CipherQuery(q: Request) {
    Sized(q) && CipherMode(q.mode) && q.kind == RequestChatMessage
  }

  // The request as the processor reads it off the wire.
  function CipherRequest(mode: nat, text: seq<byte>, senderId: seq<byte>, conversationId: seq<byte>, id: nat): (q: Request)
    requires id < Word32 && CipherMode(mode)
    ensures CipherQuery(q)
  {
    Request(id, RequestChatMessage, mode, Field(senderId, MaxUsername), Field(conversationId, MaxUsername),
            Field([], MaxPassword), Field(text, MaxMessage), Field([], MaxMessage))
  }

  lemma CipherRequestIsOnTheWire(mode: nat, text: seq<byte>, senderId: seq<byte>, conversationId: seq<byte>, id: nat)
    requires id < Word32 && CipherMode(mode)
    ensures ReadRequest(ChatRequest(id, mode, text, senderId, conversationId))
      == CipherRequest(mode, text, senderId, conversationId, id)
  {
    RequestReadsBack(id, RequestChatMessage, mode, senderId, conversationId, [], text, []);
  }

  // However the network cuts the reply, and whatever happens after its last
  // byte, the promise resolves to it.
  lemma AnyChunking(reply: seq<byte>, events: seq<Event>)
    requires |reply| == ResponseSize && reply <= Bytes(BeforeFailure(events))
    ensures Run(Start, events).outcome == Resolved(reply)
  {
    OutcomeOf(events);
    var data := Bytes(BeforeFailure(events));
    assert [] + data == data;
    assert data[..ResponseSize] == reply;
  }

  // The exact answer for every text of at most 511 bytes. Only the bytes before
  // the first NUL reach the driver, and without any the processor refuses.
  predicate Answers(r: RemoteResponse, mode: nat, seen: seq<byte>, id: nat)
    requires CipherMode(mode)
  {
    && r.messageId == id && r.responseType == ResponseAck
    && if seen == [] then r.status == StatusInvalidRequest
       else r.status == StatusOk && r.payload == Exact(if mode == ProcessSubstitution then ForwardAll(seen) else ReverseAll(seen))
  }

  // A text that is not clipped, with a conversation id the processor accepts.
  predicate Usable(text: seq<byte>, conversationId: seq<byte>) {
    |text| < MaxMessage && WellFormed(text) && conversationId != [] && conversationId[0] != 0
  }

  lemma RemoteAnswers(mode: nat, text: seq<byte>, senderId: seq<byte>, conversationId: seq<byte>, id: nat)
    requires id < Word32 && CipherMode(mode) && Usable(text, conversationId)
    ensures Answers(Remote(mode, text, senderId, conversationId, id), mode, CPrefix(text, MaxMessage), id)
  {
    var q := CipherRequest(mode, text, senderId, conversationId, id);
    QueryReady(q, text, senderId, conversationId);
    ReadAnswers(q, CPrefix(text, MaxMessage));
  }

  predicate Ready(q: Request, seen: seq<byte>) {
    CipherQuery(q) && q.peer[0] != 0 && CPrefix(q.payload, MaxResult - 1) == seen && WellFormed(seen)
  }

  lemma QueryReady(q: Request, text: seq<byte>, senderId: seq<byte>, conversationId: seq<byte>)
    requires Usable(text, conversationId) && CipherQuery(q)
    requires q.peer == Field(conversationId, MaxUsername) && q.payload == Field(text, MaxMessage)
    ensures Ready(q, CPrefix(text, MaxMessage))
  {
    SeenByDriver(text);
    FirstByteOfField(conversationId, MaxUsername);
  }

  lemma FirstByteOfField(s: seq<byte>, size: nat)
    requires size > 1
    ensures Field(s, size)[0] == if s == [] then 0 else s[0]
  {
  }

  lemma ReplyRefuses(q: Request)
    requires CipherQuery(q)
    requires q.payload[0] == 0
    ensures Answers(ReadReply(q), q.mode, [], q.id)
  {
    var reason := Validate(q).value;
    HeaderReadsBack(q.id, ResponseAck, StatusInvalidRequest, [], [], Ascii(reason));
  }

  lemma ReplyTransforms(q: Request, seen: seq<byte>)
    requires Ready(q, seen) && q.payload[0] != 0
    ensures Answers(ReadReply(q), q.mode, seen, q.id)
  {
    AllInverse(seen);
    CipherKeepsWellFormed(seen);
    ResponseReadsBack(q.id, ResponseAck, StatusOk, CPrefix(q.user, MaxUsername), CPrefix(q.peer, MaxUsername),
                      DriverResult(q.mode, q.payload));
  }

  lemma ReadAnswers(q: Request, seen: seq<byte>)
    requires Ready(q, seen)
    ensures Answers(ReadReply(q), q.mode, seen, q.id)
  {
    if q.payload[0] == 0 {
      ReplyRefuses(q);
    } else {
      ReplyTransforms(q, seen);
    }
  }

  lemma SeenByDriver(text: seq<byte>)
    requires |text| < MaxMessage && WellFormed(text)
    ensures CPrefix(Field(text, MaxMessage), MaxResult - 1) == CPrefix(text, MaxMessage)
    ensures WellFormed(CPrefix(text, MaxMessage))
  {
    var seen := CPrefix(text, MaxMessage);
    assert Field(text, MaxMessage)[..|seen|] == seen;
    CPrefixIs(Field(text, MaxMessage), MaxResult - 1, |seen|);
    if |seen| < |text| {
      PrefixBeforeAsciiIsWellFormed(text, |seen|);
      assert text[..|seen|] == seen;
    } else {
      assert seen == text;
    }
  }

  lemma WholeTextIsSeen(text: seq<byte>)
    requires |text| < MaxMessage
    ensures CPrefix(text, MaxMessage) == text <==> 0 !in text
  {
    if 0 !in text {
      assert text[..|text|] == text;
      CPrefixIs(text, MaxMessage, |text|);
    }
  }

  lemma RestoresOnlyWholeTexts(stored: RemoteResponse, text: seq<byte>, senderId: seq<byte>, conversationId: seq<byte>,
                               id1: nat, id2: nat)
    requires id2 < Word32 && Usable(text, conversationId)
    requires Answers(stored, ProcessSubstitution, CPrefix(text, MaxMessage), id1)
    ensures RestoredBy(stored, text, senderId, conversationId, id2) <==> text != [] && 0 !in text
  {
    var seen := CPrefix(text, MaxMessage);
    WholeTextIsSeen(text);
    if seen != [] {
      StoredIsUsable(text, conversationId);
      RemoteAnswers(ProcessSubstitutionDecrypt, ForwardAll(seen), senderId, conversationId, id2);
    }
  }

  lemma StoredIsUsable(text: seq<byte>, conversationId: seq<byte>)
    requires Usable(text, conversationId)
    ensures var seen := CPrefix(text, MaxMessage);
      && Usable(ForwardAll(seen), conversationId)
      && CPrefix(ForwardAll(seen), MaxMessage) == ForwardAll(seen)
      && ReverseAll(ForwardAll(seen)) == seen
  {
    var seen := CPrefix(text, MaxMessage);
    SeenByDriver(text);
    AllInverse(seen);
    CipherKeepsWellFormed(seen);
    WholeTextIsSeen(ForwardAll(seen));
  }

  // The stored payload decrypts to the text.
  predicate RestoredBy(stored: RemoteResponse, text: seq<byte>, senderId: seq<byte>, conversationId: seq<byte>, id: nat)
    requires id < Word32
  {
    && stored.status == StatusOk && stored.payload.Exact?
    && var shown := Remote(ProcessSubstitutionDecrypt, stored.payload.utf8, senderId, conversationId, id);
    shown.status == StatusOk && shown.payload == Exact(text)
  }

  // ---------------------------------------------------------------------
  // Over the wire.

  // The bytes that answer the request frame of one call.
  function ReplyBytes(mode: nat, text: seq<byte>, senderId: seq<byte>, conversationId: seq<byte>, id: nat): (r: seq<byte>)
    requires id < Word32 && CipherMode(mode)
    ensures |r| == ResponseSize
  {
    CipherRequestIsOnTheWire(mode, text, senderId, conversationId, id);
    Reply(ReadRequest(ChatRequest(id, mode, text, senderId, conversationId)))
  }

  // What the service makes of the socket's events.
  function Exchanged(events: seq<Event>): Option<RemoteResponse> {
    var outcome := Run(Start, events).outcome;
    if outcome.Resolved? && |outcome.data| == ResponseSize then Some(ParseResponse(outcome.data)) else None
  }

  // The reply to one call arrives before anything fails, in whatever chunks.
  predicate Carries(events: seq<Event>, reply: seq<byte>) {
    reply <= Bytes(BeforeFailure(events))
  }

  lemma ExchangedIsRemote(mode: nat, text: seq<byte>, senderId: seq<byte>, conversationId: seq<byte>, id: nat, events: seq<Event>)
    requires id < Word32 && CipherMode(mode)
    ensures Carries(events, ReplyBytes(mode, text, senderId, conversationId, id)) ==>
        Exchanged(events) == Some(Remote(mode, text, senderId, conversationId, id))
  {
    if Carries(events, ReplyBytes(mode, text, senderId, conversationId, id)) {
      CipherRequestIsOnTheWire(mode, text, senderId, conversationId, id);
      AnyChunking(ReplyBytes(mode, text, senderId, conversationId, id), events);
    }
  }

  predicate Stored(r: Option<RemoteResponse>) {
    r.Some? && r.value.status == StatusOk && r.value.payload.Exact?
  }

  // The second exchange belongs to what the first one stored.
  predicate Follows(first: seq<Event>, second: seq<Event>, senderId: seq<byte>, conversationId: seq<byte>, id: nat)
    requires id < Word32
  {
    Stored(Exchanged(first)) ==>
        var stored := Exchanged(first).value.payload.utf8;
        Carries(second, ReplyBytes(ProcessSubstitutionDecrypt, stored, senderId, conversationId, id))
  }

  lemma SecondIsRemote(first: seq<Event>, second: seq<Event>, senderId: seq<byte>, conversationId: seq<byte>, id: nat)
    requires id < Word32 && Stored(Exchanged(first))
    ensures var stored := Exchanged(first).value.payload.utf8;
        Follows(first, second, senderId, conversationId, id) ==>
        Exchanged(second) == Some(Remote(ProcessSubstitutionDecrypt, stored, senderId, conversationId, id))
  {
    ExchangedIsRemote(ProcessSubstitutionDecrypt, Exchanged(first).value.payload.utf8, senderId, conversationId, id, second);
  }

  lemma FirstRestores(text: seq<byte>, senderId: seq<byte>, conversationId: seq<byte>, id1: nat, id2: nat)
    requires id1 < Word32 && id2 < Word32 && Usable(text, conversationId)
    ensures RestoredBy(Remote(ProcessSubstitution, text, senderId, conversationId, id1), text, senderId, conversationId, id2)
      <==> text != [] && 0 !in text
  {
    RemoteAnswers(ProcessSubstitution, text, senderId, conversationId, id1);
    RestoresOnlyWholeTexts(Remote(ProcessSubstitution, text, senderId, conversationId, id1), text, senderId,
        conversationId, id1, id2);
  }

  // Both calls succeed, and the second ends with the text.
  predicate Shows(first: seq<Event>, second: seq<Event>, text: seq<byte>) {
    Stored(Exchanged(first)) && Stored(Exchanged(second)) && Exchanged(second).value.payload == Exact(text)
  }

  // encryptForStorage then decryptForDisplay, each through its own request frame,
  // the processor, the driver and a reply in chunks: the text comes back if and
  // only if it is not empty and holds no NUL.
  lemma RoundTrip(text: seq<byte>, senderId: seq<byte>, conversationId: seq<byte>, id1: nat, id2: nat,
                  first: seq<Event>, second: seq<Event>)
    requires id1 < Word32 && id2 < Word32 && Usable(text, conversationId)
    ensures
      Carries(first, ReplyBytes(ProcessSubstitution, text, senderId, conversationId, id1))
      && Follows(first, second, senderId, conversationId, id2) ==>
        (Shows(first, second, text) <==> text != [] && 0 !in text)
  {
    ExchangedIsRemote(ProcessSubstitution, text, senderId, conversationId, id1, first);
    FirstRestores(text, senderId, conversationId, id1, id2);
    if Stored(Exchanged(first)) {
      SecondIsRemote(first, second, senderId, conversationId, id2);
    }
  }
}
