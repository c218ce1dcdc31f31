// The chat documents and the service calls that change them together:
// backend/src/modules/chat/chat.service.ts and chat-attachment.service.ts. One
// call is one step. Document ids are positions.
module ChatDomain {
  import opened Options

  datatype Failure = SelfDirect | EmptyMessage | NotParticipant | InvalidAttachmentId | AttachmentNotFound | NotUploader
                   | NotReady | EncryptionUnavailable | AlreadyAttached | BadFileName | BadMimeType
                   | BadFileSize | ConversationNotFound

  datatype Result<T> = Ok(value: T) | Err(why: Failure)

  datatype Kind = Direct | Group

  datatype Conversation = Conversation(kind: Kind, title: Option<string>, creator: nat)

  datatype Status = Active | Left | Removed

  // A conversation_participant document.
  datatype Row = Row(conv: nat, user: nat, owner: bool, status: Status, unread: nat)

  datatype EventKind = JoinedEvent | AddedEvent | RemovedEvent | LeftEvent

  datatype Event = Event(conv: nat, kind: EventKind, target: nat, actor: Option<nat>)

  datatype Message = Message(conv: nat, sender: nat, content: string, sentAt: int, bot: bool, command: bool,
                             attachment: Option<nat>, seen: bool)

  datatype UploadStatus = Draft | Uploaded | Attached

  datatype Attachment = Attachment(conv: nat, uploader: nat, status: UploadStatus, messageId: Option<nat>)

  // What happened, for the specifications only: rows became active, a row stopped
  // being active, a message was stored (sent through the sender's row, or by the
  // bot), a row's user marked the conversation read.
  datatype Fact = Entered(rows: set<nat>) | Gone(row: nat) | Sent(message: nat, through: Option<nat>) | Read(row: nat)

  datatype State = State(conversations: seq<Conversation>, rows: seq<Row>, events: seq<Event>, messages: seq<Message>,
                         attachments: seq<Attachment>, log: seq<Fact>)

  const Init := State([], [], [], [], [], [])

  // ---------------------------------------------------------------------
  // Queries.

  predicate ActiveRow(row: Row, conv: nat, user: nat) {
    row.conv == conv && row.user == user && row.status == Active
  }

  // getActiveParticipant.
  function FirstActive(rows: seq<Row>, conv: nat, user: nat): (r: Option<nat>)
    ensures r.Some? ==> r.value < |rows| && ActiveRow(rows[r.value], conv, user)
    ensures forall i :: 0 <= i < (if r.Some? then r.value else |rows|) ==> !ActiveRow(rows[i], conv, user)
  {
    if rows == [] then None
    else
      var front := FirstActive(rows[..|rows| - 1], conv, user);
      if front.Some? then front
      else if ActiveRow(rows[|rows| - 1], conv, user) then Some(|rows| - 1) else None
  }

  function LatestSentAt(messages: seq<Message>, conv: nat): (t: Option<int>)
    ensures t.None? ==> forall i :: 0 <= i < |messages| ==> messages[i].conv != conv
    ensures t.Some? ==> forall i :: 0 <= i < |messages| && messages[i].conv == conv ==> messages[i].sentAt <= t.value
    ensures t.Some? ==> exists i :: 0 <= i < |messages| && messages[i].conv == conv && messages[i].sentAt == t.value
  {
    if messages == [] then None
    else
      var last := messages[|messages| - 1];
      var front := LatestSentAt(messages[..|messages| - 1], conv);
      if last.conv != conv then front
      else if front.Some? && last.sentAt < front.value then front
      else Some(last.sentAt)
  }

  // The users of a conversation's rows, whatever their status.
  function Users(rows: seq<Row>, conv: nat): seq<nat> {
    if rows == [] then []
    else Users(rows[..|rows| - 1], conv) + (if rows[|rows| - 1].conv == conv then [rows[|rows| - 1].user] else [])
  }

  // A direct conversation of exactly these two users.
  predicate Between(s: State, d: nat, a: nat, b: nat) {
    && d < |s.conversations| && s.conversations[d].kind == Direct
    && |Users(s.rows, d)| == 2 && a in Users(s.rows, d) && b in Users(s.rows, d)
  }

  function FindFrom(s: State, a: nat, b: nat, d: nat): (r: Option<nat>)
    ensures r.Some? ==> d <= r.value && Between(s, r.value, a, b)
    ensures forall e: nat :: d <= e < (if r.Some? then r.value else |s.conversations|) ==> !Between(s, e, a, b)
    decreases |s.conversations| - d
  {
    if d >= |s.conversations| then None
    else if Between(s, d, a, b) then Some(d) else FindFrom(s, a, b, d + 1)
  }

  // ---------------------------------------------------------------------
  // Changes.

  // Array.from(new Set(users)).
  function Dedup(users: seq<nat>): (r: seq<nat>)
    ensures forall u :: u in r <==> u in users
    ensures forall i, j :: 0 <= i < j < |r| ==> r[i] != r[j]
  {
    if users == [] then []
    else
      var front, last := Dedup(users[..|users| - 1]), users[|users| - 1];
      assert users == users[..|users| - 1] + [last];
      if last in front then front else front + [last]
  }

  function NewRows(conv: nat, creator: nat, users: seq<nat>): seq<Row> {
    seq(|users|, i requires 0 <= i < |users| => Row(conv, users[i], users[i] == creator, Active, 0))
  }

  function NewEvents(conv: nat, creator: nat, users: seq<nat>): seq<Event> {
    seq(|users|, i requires 0 <= i < |users| =>
      if users[i] == creator then Event(conv, JoinedEvent, users[i], None)
      else Event(conv, AddedEvent, users[i], Some(creator)))
  }

  predicate InRange(lo: nat, n: nat, r: nat) {
    lo <= r < lo + n
  }

  function Range(lo: nat, n: nat): set<nat> {
    set r: nat | r < lo + n && InRange(lo, n, r)
  }

  function Create(s: State, kind: Kind, title: Option<string>, creator: nat, others: seq<nat>): State {
    var users := Dedup([creator] + others);
    var conv := |s.conversations|;
    s.(conversations := s.conversations + [Conversation(kind, title, creator)],
       rows := s.rows + NewRows(conv, creator, users),
       events := s.events + NewEvents(conv, creator, users),
       log := s.log + [Entered(Range(|s.rows|, |users|))])
  }

  function Join(s: State, conv: nat, user: nat, actor: nat): State {
    s.(rows := s.rows + [Row(conv, user, false, Active, 0)],
       events := s.events + [Event(conv, AddedEvent, user, Some(actor))],
       log := s.log + [Entered({|s.rows|})])
  }

  function Part(s: State, conv: nat, user: nat, status: Status, event: Event): State {
    var r := FirstActive(s.rows, conv, user);
    if r.None? then s.(events := s.events + [event])
    else s.(rows := s.rows[r.value := s.rows[r.value].(status := status)], events := s.events + [event],
            log := s.log + [Gone(r.value)])
  }

  predicate Returns(row: Row, conv: nat, sender: nat) {
    row.conv == conv && row.user != sender && row.status == Left
  }

  function Restored(rows: seq<Row>, conv: nat, sender: nat): seq<Row> {
    seq(|rows|, i requires 0 <= i < |rows| =>
      if Returns(rows[i], conv, sender) then rows[i].(status := Active) else rows[i])
  }

  function Returning(rows: seq<Row>, conv: nat, sender: nat): set<nat> {
    set r: nat | r < |rows| && Returns(rows[r], conv, sender)
  }

  // restoreDirectParticipantsIfNeeded.
  function Restore(s: State, conv: nat, sender: nat): State {
    if conv < |s.conversations| && s.conversations[conv].kind == Direct then
      s.(rows := Restored(s.rows, conv, sender), log := s.log + [Entered(Returning(s.rows, conv, sender))])
    else s
  }

  // incrementUnreadForOtherParticipants.
  function Bumped(rows: seq<Row>, conv: nat, sender: nat): seq<Row> {
    seq(|rows|, i requires 0 <= i < |rows| =>
      if rows[i].conv == conv && rows[i].user != sender && rows[i].status == Active then rows[i].(unread := rows[i].unread + 1)
      else rows[i])
  }

  function ResetRow(rows: seq<Row>, r: Option<nat>): seq<Row>
    requires r.Some? ==> r.value < |rows|
  {
    if r.Some? then rows[r.value := rows[r.value].(unread := 0)] else rows
  }

  function AttachTo(attachments: seq<Attachment>, a: Option<nat>, m: nat): seq<Attachment>
    requires a.Some? ==> a.value < |attachments|
  {
    if a.Some? then attachments[a.value := attachments[a.value].(messageId := Some(m), status := Attached)] else attachments
  }

  // From messageModel.create on: the message, its attachment, the counters.
  function Post(s: State, m: Message, through: Option<nat>): State
    requires through.Some? ==> through.value < |s.rows|
    requires m.attachment.Some? ==> m.attachment.value < |s.attachments|
  {
    s.(messages := s.messages + [m],
       attachments := AttachTo(s.attachments, m.attachment, |s.messages|),
       rows := Bumped(ResetRow(s.rows, through), m.conv, m.sender),
       log := s.log + [Sent(|s.messages|, through)])
  }

  // The messages of the other active participants, up to the latest message.
  function Marked(s: State, conv: nat, user: nat, latest: int): seq<Message> {
    seq(|s.messages|, i requires 0 <= i < |s.messages| =>
      var m := s.messages[i];
      if m.conv == conv && m.sender != user && FirstActive(s.rows, conv, m.sender).Some? && m.sentAt <= latest then
        m.(seen := true)
      else m)
  }

  function MarkAllRead(s: State, r: nat): State
    requires r < |s.rows|
  {
    var latest := LatestSentAt(s.messages, s.rows[r].conv);
    var s1 := s.(rows := ResetRow(s.rows, Some(r)));
    s1.(messages := if latest.Some? then Marked(s1, s.rows[r].conv, s.rows[r].user, latest.value) else s.messages,
        log := s.log + [Read(r)])
  }

  // ---------------------------------------------------------------------
  // The service calls.

  datatype AttachmentArg = NoAttachment | BadId | Id(id: nat)

  // 25 MB.
  const MaxFileSize := 26_214_400.0

  // text, fileName and mimeType are trimmed; encrypted is what the driver answers
  // for the text, None if it is unavailable; sizeBytes is None if it is not finite.
  datatype Op =
    | OpenDirect(creator: nat, target: nat, title: Option<string>)
    | OpenGroup(creator: nat, others: seq<nat>, title: Option<string>)
    | AddMember(conv: nat, user: nat, actor: nat)
    | RemoveMember(conv: nat, user: nat, actor: nat)
    | Leave(conv: nat, user: nat)
    | Send(conv: nat, user: nat, text: string, attachment: AttachmentArg, encrypted: Option<string>, now: int, command: bool)
    | BotSend(conv: nat, user: nat, text: string, now: int)
    | MarkRead(conv: nat, user: nat)
    | RequestUpload(conv: nat, user: nat, fileName: string, mimeType: string, sizeBytes: Option<real>)
    | ConfirmUpload(conv: nat, user: nat, id: AttachmentArg)

  // The callers check membership of the conversation first, so it exists.
  predicate Allowed(s: State, op: Op) {
    (op.AddMember? || op.RemoveMember? || op.Leave? || op.BotSend?) ==> op.conv < |s.conversations|
  }

  // The attachment checks of sendMessage.
  function AttachmentCheck(s: State, conv: nat, sender: nat, arg: AttachmentArg): Result<Option<nat>> {
    match arg
    case NoAttachment => Ok(None)
    case BadId => Err(InvalidAttachmentId)
    case Id(a) =>
      if a >= |s.attachments| || s.attachments[a].conv != conv then Err(AttachmentNotFound)
      else if s.attachments[a].uploader != sender then Err(NotUploader)
      else if s.attachments[a].status != Uploaded then Err(NotReady)
      else Ok(Some(a))
  }

  function PerformSend(s: State, op: Op): (State, Result<nat>)
    requires op.Send?
  {
    if op.text == "" && op.attachment == NoAttachment then (s, Err(EmptyMessage))
    else
      var r := FirstActive(s.rows, op.conv, op.user);
      if r.None? then (s, Err(NotParticipant))
      else
        var s1 := Restore(s, op.conv, op.user);
        match AttachmentCheck(s1, op.conv, op.user, op.attachment)
        case Err(why) => (s1, Err(why))
        case Ok(a) =>
          if op.text != "" && op.encrypted.None? then (s1, Err(EncryptionUnavailable))
          else
            var content := if op.text != "" then op.encrypted.value else "";
            (Post(s1, Message(op.conv, op.user, content, op.now, false, op.command, a, false), r), Ok(|s.messages|))
  }

  function PerformConfirm(s: State, op: Op): (State, Result<nat>)
    requires op.ConfirmUpload?
  {
    if !op.id.Id? then (s, Err(InvalidAttachmentId))
    else if FirstActive(s.rows, op.conv, op.user).None? then (s, Err(NotParticipant))
    else
      var a := op.id.id;
      if a >= |s.attachments| || s.attachments[a].conv != op.conv then (s, Err(AttachmentNotFound))
      else if s.attachments[a].uploader != op.user then (s, Err(NotUploader))
      else if s.attachments[a].status == Attached then (s, Err(AlreadyAttached))
      else (s.(attachments := s.attachments[a := s.attachments[a].(status := Uploaded)]), Ok(a))
  }

  function Perform(s: State, op: Op): (State, Result<nat>) {
    match op
    case OpenDirect(creator, target, title) =>
      if target == creator then (s, Err(SelfDirect))
      else
        var found := FindFrom(s, creator, target, 0);
        if found.Some? then (s, Ok(found.value))
        else (Create(s, Direct, title, creator, [target]), Ok(|s.conversations|))
    case OpenGroup(creator, others, title) => (Create(s, Group, title, creator, others), Ok(|s.conversations|))
    case AddMember(conv, user, actor) =>
      if FirstActive(s.rows, conv, user).Some? then (s, Ok(1)) else (Join(s, conv, user, actor), Ok(0))
    case RemoveMember(conv, user, actor) => (Part(s, conv, user, Removed, Event(conv, RemovedEvent, user, Some(actor))), Ok(0))
    case Leave(conv, user) => (Part(s, conv, user, Left, Event(conv, LeftEvent, user, None)), Ok(0))
    case Send(_, _, _, _, _, _, _) => PerformSend(s, op)
    case BotSend(conv, requester, text, now) =>
      (Post(s, Message(conv, requester, text, now, true, false, None, false), None), Ok(|s.messages|))
    case MarkRead(conv, user) =>
      var r := FirstActive(s.rows, conv, user);
      if r.None? then (s, Err(NotParticipant)) else (MarkAllRead(s, r.value), Ok(0))
    case RequestUpload(conv, user, fileName, mimeType, sizeBytes) =>
      if fileName == "" then (s, Err(BadFileName))
      else if mimeType == "" then (s, Err(BadMimeType))
      else if sizeBytes.None? || sizeBytes.value <= 0.0 || sizeBytes.value > MaxFileSize then (s, Err(BadFileSize))
      else if conv >= |s.conversations| then (s, Err(ConversationNotFound))
      else if FirstActive(s.rows, conv, user).None? then (s, Err(NotParticipant))
      else (s.(attachments := s.attachments + [Attachment(conv, user, Draft, None)]), Ok(|s.attachments|))
    case ConfirmUpload(_, _, _) => PerformConfirm(s, op)
  }

  function Step(s: State, op: Op): State { Perform(s, op).0 }

  predicate AllowedRun(s: State, run: seq<Op>)
    decreases |run|
  {
    run == [] || (Allowed(s, run[0]) && AllowedRun(Step(s, run[0]), run[1..]))
  }

  function After(s: State, run: seq<Op>): State
    decreases |run|
  {
    if run == [] then s else After(Step(s, run[0]), run[1..])
  }
}
