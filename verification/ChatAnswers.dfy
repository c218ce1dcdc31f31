// What the chat calls answer: when each succeeds, why it fails, and which documents
// it leaves behind.
module ChatAnswers {
  import opened Options
  import opened ChatDomain

  predicate IsActive(s: State, conv: nat, user: nat) {
    exists i :: 0 <= i < |s.rows| && s.rows[i].conv == conv && s.rows[i].user == user && s.rows[i].status == Active
  }

  lemma FirstActiveIff(s: State, conv: nat, user: nat)
    ensures FirstActive(s.rows, conv, user).Some? <==> IsActive(s, conv, user)
  {
    var r := FirstActive(s.rows, conv, user);
    if IsActive(s, conv, user) {
      var i :| 0 <= i < |s.rows| && s.rows[i].conv == conv && s.rows[i].user == user && s.rows[i].status == Active;
      assert ActiveRow(s.rows[i], conv, user);
    }
  }

  // ---------------------------------------------------------------------
  // Sending.

  // An uploaded attachment of this user in this conversation.
  predicate Usable(s: State, conv: nat, user: nat, a: nat) {
    a < |s.attachments| && s.attachments[a] == Attachment(conv, user, Uploaded, s.attachments[a].messageId)
  }

  // The driver answered for the text, if there is one.
  predicate Encrypted(op: Op)
    requires op.Send?
  {
    op.text == "" || op.encrypted != None
  }

  predicate AttachmentFine(s: State, op: Op)
    requires op.Send?
  {
    op.attachment == NoAttachment || (op.attachment.Id? && Usable(s, op.conv, op.user, op.attachment.id))
  }

  // A send succeeds if and only if there is something to send, its sender is an
  // active participant, the attachment is fine and the text was encrypted.
  lemma SendSucceedsIff(s: State, op: Op)
    requires op.Send?
    ensures Perform(s, op).1.Ok? <==>
        && (op.text != "" || op.attachment != NoAttachment) && IsActive(s, op.conv, op.user)
        && AttachmentFine(s, op) && Encrypted(op)
  {
    FirstActiveIff(s, op.conv, op.user);
  }

  // What is stored: the driver's answer for the text, nothing for no text, and the
  // rest as it was sent. Everything stored before is still there.
  lemma SendStores(s: State, op: Op)
    requires op.Send? && Perform(s, op).1.Ok?
    ensures var t := Step(s, op); var id := |s.messages|;
        && Perform(s, op).1 == Ok(id) && |t.messages| == id + 1 && s.messages <= t.messages
        && var m := t.messages[id];
        m.conv == op.conv && m.sender == op.user && m.sentAt == op.now && m.command == op.command && !m.bot && !m.seen
        && m.content == (if op.text == "" then "" else op.encrypted.value)
        && m.attachment == (if op.attachment == NoAttachment then None else Some(op.attachment.id))
  {
  }

  // The attachment is bound to the message; no other attachment changes.
  lemma SendAttaches(s: State, op: Op, a: nat)
    requires op.Send? && Perform(s, op).1.Ok? && a < |s.attachments|
    ensures var t := Step(s, op); |t.attachments| == |s.attachments|
    ensures Step(s, op).attachments[a] ==
        if op.attachment == Id(a) then Attachment(op.conv, op.user, Attached, Some(|s.messages|)) else s.attachments[a]
  {
  }

  // The first check that fails gives the reason.
  lemma SendFailsBecause(s: State, op: Op)
    requires op.Send? && Perform(s, op).1.Err?
    ensures var why := Perform(s, op).1.why; var a := op.attachment;
        && (why == EmptyMessage <==> op.text == "" && a == NoAttachment)
        && (why == NotParticipant <==> (op.text != "" || a != NoAttachment) && !IsActive(s, op.conv, op.user))
        && (why == EncryptionUnavailable ==> op.text != "" && op.encrypted == None && AttachmentFine(s, op))
        && (why == InvalidAttachmentId ==> a == BadId)
        && (why == AttachmentNotFound ==> a.Id? && (a.id >= |s.attachments| || s.attachments[a.id].conv != op.conv))
        && (why == NotUploader ==> a.Id? && a.id < |s.attachments| && s.attachments[a.id].uploader != op.user)
        && (why == NotReady ==> a.Id? && a.id < |s.attachments| && s.attachments[a.id].status != Uploaded)
        && why in {EmptyMessage, NotParticipant, EncryptionUnavailable, InvalidAttachmentId, AttachmentNotFound,
                   NotUploader, NotReady}
  {
    FirstActiveIff(s, op.conv, op.user);
  }

  lemma BotStores(s: State, conv: nat, requester: nat, text: string, now: int)
    ensures var t := Step(s, BotSend(conv, requester, text, now)); var id := |s.messages|;
        && Perform(s, BotSend(conv, requester, text, now)).1 == Ok(id)
        && |t.messages| == id + 1 && s.messages <= t.messages && t.attachments == s.attachments
        && var m := t.messages[id];
        m.conv == conv && m.sender == requester && m.sentAt == now && m.content == text && m.bot && !m.command && !m.seen
        && m.attachment == None
  {
  }

  // ---------------------------------------------------------------------
  // Opening conversations.

  // The users of a new conversation.
  predicate Joins(creator: nat, others: seq<nat>, user: nat) {
    user == creator || user in others
  }

  // Row r of the new conversation: an active row of one of its users, an owner's for
  // the creator and a member's for the others.
  predicate RowOf(row: Row, conv: nat, creator: nat, others: seq<nat>) {
    && row.conv == conv && Joins(creator, others, row.user) && row.status == Active && row.unread == 0
    && (row.owner <==> row.user == creator)
  }

  predicate EventOf(e: Event, conv: nat, creator: nat, others: seq<nat>) {
    && e.conv == conv && Joins(creator, others, e.target)
    && (e.target == creator ==> e.kind == JoinedEvent && e.actor == None)
    && (e.target != creator ==> e.kind == AddedEvent && e.actor == Some(creator))
  }

  predicate HasEvent(events: seq<Event>, user: nat) {
    exists i :: 0 <= i < |events| && events[i].target == user
  }

  predicate NewMembers(rows: seq<Row>, conv: nat, creator: nat, others: seq<nat>) {
    && (forall i :: 0 <= i < |rows| ==> RowOf(rows[i], conv, creator, others))
    && forall i, j :: 0 <= i < j < |rows| ==> rows[i].user != rows[j].user
  }

  predicate NewLog(events: seq<Event>, conv: nat, creator: nat, others: seq<nat>) {
    forall i :: 0 <= i < |events| ==> EventOf(events[i], conv, creator, others)
  }

  // A new conversation: one row and an event for the creator and each of the others.
  ghost predicate OpensAs(s: State, t: State, kind: Kind, title: Option<string>, creator: nat, others: seq<nat>) {
    var conv := |s.conversations|;
    && t.conversations == s.conversations + [Conversation(kind, title, creator)]
    && s.rows <= t.rows && s.events <= t.events && t.messages == s.messages && t.attachments == s.attachments
    && NewMembers(t.rows[|s.rows|..], conv, creator, others) && NewLog(t.events[|s.events|..], conv, creator, others)
    && forall user :: Joins(creator, others, user) ==> IsActive(t, conv, user) && HasEvent(t.events[|s.events|..], user)
  }

  lemma NewDocuments(conv: nat, creator: nat, others: seq<nat>)
    ensures var users := Dedup([creator] + others);
        && NewMembers(NewRows(conv, creator, users), conv, creator, others)
        && NewLog(NewEvents(conv, creator, users), conv, creator, others)
  {
    var users := Dedup([creator] + others);
    forall i | 0 <= i < |users| ensures Joins(creator, others, users[i]) {
      assert users[i] in [creator] + others;
    }
  }

  lemma CreateJoins(s: State, kind: Kind, title: Option<string>, creator: nat, others: seq<nat>, user: nat)
    requires Joins(creator, others, user)
    ensures var t := Create(s, kind, title, creator, others);
        IsActive(t, |s.conversations|, user) && HasEvent(t.events[|s.events|..], user)
  {
    var t := Create(s, kind, title, creator, others);
    var users := Dedup([creator] + others);
    assert user in [creator] + others;
    var k :| 0 <= k < |users| && users[k] == user;
    assert t.rows[|s.rows| + k].user == user && t.rows[|s.rows| + k].status == Active;
    assert t.events[|s.events|..][k].target == user;
  }

  lemma CreateOpens(s: State, kind: Kind, title: Option<string>, creator: nat, others: seq<nat>)
    ensures OpensAs(s, Create(s, kind, title, creator, others), kind, title, creator, others)
  {
    var users, conv := Dedup([creator] + others), |s.conversations|;
    var t := Create(s, kind, title, creator, others);
    NewDocuments(conv, creator, others);
    assert t.rows[|s.rows|..] == NewRows(conv, creator, users);
    assert t.events[|s.events|..] == NewEvents(conv, creator, users);
    forall user | Joins(creator, others, user) ensures IsActive(t, conv, user) && HasEvent(t.events[|s.events|..], user) {
      CreateJoins(s, kind, title, creator, others, user);
    }
  }

  lemma OpenGroupAnswer(s: State, creator: nat, others: seq<nat>, title: Option<string>)
    ensures var op := OpenGroup(creator, others, title);
        Perform(s, op).1 == Ok(|s.conversations|) && OpensAs(s, Step(s, op), Group, title, creator, others)
  {
    CreateOpens(s, Group, title, creator, others);
  }

  // With oneself it is refused; a conversation of the two is returned as it is; and
  // only if there is none, one is opened.
  lemma OpenDirectAnswer(s: State, creator: nat, target: nat, title: Option<string>)
    ensures var op := OpenDirect(creator, target, title); var r := Perform(s, op).1;
        && (r == Err(SelfDirect) <==> target == creator) && (r.Err? ==> r.why == SelfDirect && Step(s, op) == s)
        && (r.Ok? && (exists d: nat :: Between(s, d, creator, target)) ==>
              Between(s, r.value, creator, target) && Step(s, op) == s)
        && (r.Ok? && !(exists d: nat :: Between(s, d, creator, target)) ==>
              r.value == |s.conversations| && OpensAs(s, Step(s, op), Direct, title, creator, [target]))
  {
    CreateOpens(s, Direct, title, creator, [target]);
    var found := FindFrom(s, creator, target, 0);
    assert found == None ==> forall d: nat :: d < |s.conversations| ==> !Between(s, d, creator, target);
  }

  // ---------------------------------------------------------------------
  // Members.

  // Whoever is active is a member already and nothing changes; anybody else gets one
  // new row, and the event says who added them.
  lemma AddAnswer(s: State, conv: nat, user: nat, actor: nat)
    ensures var op := AddMember(conv, user, actor); var t := Step(s, op);
        && Perform(s, op).1 == (if IsActive(s, conv, user) then Ok(1) else Ok(0))
        && (IsActive(s, conv, user) ==> t == s)
        && (!IsActive(s, conv, user) ==>
              t.rows == s.rows + [Row(conv, user, false, Active, 0)] && t.messages == s.messages
              && t.events == s.events + [Event(conv, AddedEvent, user, Some(actor))])
  {
    FirstActiveIff(s, conv, user);
  }

  // One active row of the user ends, if there is one; no other row changes; and the
  // event is recorded either way.
  ghost predicate Ends(s: State, t: State, conv: nat, user: nat, status: Status, event: Event) {
    && t.events == s.events + [event] && t.messages == s.messages && t.conversations == s.conversations
    && |t.rows| == |s.rows|
    && (!IsActive(s, conv, user) ==> t.rows == s.rows)
    && (IsActive(s, conv, user) ==> exists r :: EndsRow(s, t, conv, user, status, r))
  }

  ghost predicate EndsRow(s: State, t: State, conv: nat, user: nat, status: Status, r: nat) {
    && r < |s.rows| && |t.rows| == |s.rows|
    && s.rows[r].conv == conv && s.rows[r].user == user && s.rows[r].status == Active
    && t.rows[r] == s.rows[r].(status := status)
    && forall q :: 0 <= q < |s.rows| && q != r ==> t.rows[q] == s.rows[q]
  }

  lemma PartEnds(s: State, conv: nat, user: nat, status: Status, event: Event)
    ensures Ends(s, Part(s, conv, user, status, event), conv, user, status, event)
  {
    FirstActiveIff(s, conv, user);
    var r := FirstActive(s.rows, conv, user);
    if r.Some? {
      assert EndsRow(s, Part(s, conv, user, status, event), conv, user, status, r.value);
    }
  }

  lemma RemoveAnswer(s: State, conv: nat, user: nat, actor: nat)
    ensures var event := Event(conv, RemovedEvent, user, Some(actor));
        Ends(s, Step(s, RemoveMember(conv, user, actor)), conv, user, Removed, event)
  {
    PartEnds(s, conv, user, Removed, Event(conv, RemovedEvent, user, Some(actor)));
  }

  lemma LeaveAnswer(s: State, conv: nat, user: nat)
    ensures Ends(s, Step(s, Leave(conv, user)), conv, user, Left, Event(conv, LeftEvent, user, None))
  {
    PartEnds(s, conv, user, Left, Event(conv, LeftEvent, user, None));
  }

  lemma MarkReadAnswer(s: State, conv: nat, user: nat)
    ensures Perform(s, MarkRead(conv, user)).1 == if IsActive(s, conv, user) then Ok(0) else Err(NotParticipant)
    ensures !IsActive(s, conv, user) ==> Step(s, MarkRead(conv, user)) == s
  {
    FirstActiveIff(s, conv, user);
  }

  // ---------------------------------------------------------------------
  // Attachments.

  predicate Describes(fileName: string, mimeType: string, sizeBytes: Option<real>) {
    fileName != "" && mimeType != "" && sizeBytes != None && 0.0 < sizeBytes.value <= 26_214_400.0
  }

  // A draft of this user in this conversation is recorded if and only if the file is
  // described, the conversation exists and the user is active in it.
  lemma RequestUploadAnswer(s: State, conv: nat, user: nat, fileName: string, mimeType: string, sizeBytes: Option<real>)
    ensures var op := RequestUpload(conv, user, fileName, mimeType, sizeBytes);
        var t, r := Step(s, op), Perform(s, op).1;
        && (r.Ok? <==> Describes(fileName, mimeType, sizeBytes) && conv < |s.conversations| && IsActive(s, conv, user))
        && (r.Err? ==> t == s)
        && (r.Ok? ==> r.value == |s.attachments| && t.attachments == s.attachments + [Attachment(conv, user, Draft, None)]
                      && t.rows == s.rows && t.messages == s.messages)
  {
    FirstActiveIff(s, conv, user);
  }

  // An upload is confirmed if and only if the user is active in the conversation and
  // the attachment is theirs, of this conversation, and not attached yet.
  lemma ConfirmUploadAnswer(s: State, conv: nat, user: nat, id: AttachmentArg)
    ensures var op := ConfirmUpload(conv, user, id); var t := Step(s, op); var r := Perform(s, op).1;
        && (r.Ok? <==> id.Id? && IsActive(s, conv, user) && id.id < |s.attachments| && s.attachments[id.id].conv == conv
                       && s.attachments[id.id].uploader == user && s.attachments[id.id].status != Attached)
        && (r.Err? ==> t == s)
        && (r.Ok? ==> r.value == id.id && t.rows == s.rows && t.messages == s.messages
                      && t.attachments == s.attachments[id.id := s.attachments[id.id].(status := Uploaded)])
  {
    FirstActiveIff(s, conv, user);
  }
}
