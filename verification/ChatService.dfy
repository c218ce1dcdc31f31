// The collections of backend/src/modules/chat, updated in place by the service
// calls.
module ChatService {
  import opened Options
  import opened ChatDomain

  class Store {
    var conversations: seq<Conversation>
    var rows: seq<Row>
    var events: seq<Event>
    var messages: seq<Message>
    var attachments: seq<Attachment>
    ghost var log: seq<Fact>

    ghost function View(): State
      reads this
    {
      State(conversations, rows, events, messages, attachments, log)
    }

    constructor ()
      ensures View() == Init
    {
      conversations, rows, events, messages, attachments, log := [], [], [], [], [], [];
    }

    // Set, Map and the filter of findDirectConversation.
    method SharedConversations(a: nat, b: nat) returns (shared: set<nat>)
      ensures forall d :: d in shared <==> a in Users(rows, d) && b in Users(rows, d)
    {
      var ofA: set<nat>, ofB: set<nat> := {}, {};
      for i := 0 to |rows|
        invariant forall d :: d in ofA <==> a in Users(rows[..i], d)
        invariant forall d :: d in ofB <==> b in Users(rows[..i], d)
      {
        assert rows[..i + 1][..i] == rows[..i];
        if rows[i].user == a {
          ofA := ofA + {rows[i].conv};
        }
        if rows[i].user == b {
          ofB := ofB + {rows[i].conv};
        }
      }
      assert rows[..|rows|] == rows;
      return ofA * ofB;
    }

    method CountRows(d: nat) returns (n: nat)
      ensures n == |Users(rows, d)|
    {
      n := 0;
      for i := 0 to |rows|
        invariant n == |Users(rows[..i], d)|
      {
        assert rows[..i + 1][..i] == rows[..i];
        if rows[i].conv == d {
          n := n + 1;
        }
      }
      assert rows[..|rows|] == rows;
    }

    method FindDirectConversation(a: nat, b: nat) returns (found: Option<nat>)
      ensures found == FindFrom(View(), a, b, 0)
    {
      var shared := SharedConversations(a, b);
      var d := 0;
      while d < |conversations|
        invariant d <= |conversations|
        invariant FindFrom(View(), a, b, 0) == FindFrom(View(), a, b, d)
      {
        if d in shared && conversations[d].kind == Direct {
          var participants := CountRows(d);
          if participants == 2 {
            return Some(d);
          }
        }
        d := d + 1;
      }
      return None;
    }

    method CreateConversation(kind: Kind, title: Option<string>, creator: nat, participantIds: seq<nat>) returns (r: Result<nat>)
      requires kind == Direct ==> |participantIds| == 1
      modifies this
      ensures kind == Direct ==> (View(), r) == Perform(old(View()), OpenDirect(creator, participantIds[0], title))
      ensures kind == Group ==> (View(), r) == Perform(old(View()), OpenGroup(creator, participantIds, title))
    {
      if kind == Direct {
        if participantIds[0] == creator {
          return Err(SelfDirect);
        }
        var existing := FindDirectConversation(creator, participantIds[0]);
        if existing.Some? {
          return Ok(existing.value);
        }
        assert [participantIds[0]] == participantIds;
      }
      var conv := |conversations|;
      conversations := conversations + [Conversation(kind, title, creator)];
      var users := Dedup([creator] + participantIds);
      log := log + [Entered(Range(|rows|, |users|))];
      rows := rows + NewRows(conv, creator, users);
      events := events + NewEvents(conv, creator, users);
      return Ok(conv);
    }

    method AddMember(conv: nat, user: nat, actor: nat) returns (alreadyMember: bool)
      requires Allowed(View(), ChatDomain.AddMember(conv, user, actor))
      modifies this
      ensures (View(), Ok(if alreadyMember then 1 else 0)) == Perform(old(View()), ChatDomain.AddMember(conv, user, actor))
    {
      var existing := FirstActive(rows, conv, user);
      if existing.Some? {
        return true;
      }
      log := log + [Entered({|rows|})];
      rows := rows + [Row(conv, user, false, Active, 0)];
      events := events + [Event(conv, AddedEvent, user, Some(actor))];
      return false;
    }

    method EndMembership(conv: nat, user: nat, status: Status, event: Event)
      modifies this
      ensures View() == Part(old(View()), conv, user, status, event)
    {
      var r := FirstActive(rows, conv, user);
      if r.Some? {
        rows := rows[r.value := rows[r.value].(status := status)];
        log := log + [Gone(r.value)];
      }
      events := events + [event];
    }

    method RemoveMember(conv: nat, user: nat, actor: nat)
      requires Allowed(View(), ChatDomain.RemoveMember(conv, user, actor))
      modifies this
      ensures View() == Step(old(View()), ChatDomain.RemoveMember(conv, user, actor))
    {
      EndMembership(conv, user, Removed, Event(conv, RemovedEvent, user, Some(actor)));
    }

    // leaveConversation and deleteConversationForUser.
    method MarkConversationLeft(conv: nat, user: nat)
      requires Allowed(View(), Leave(conv, user))
      modifies this
      ensures View() == Step(old(View()), Leave(conv, user))
    {
      EndMembership(conv, user, Left, Event(conv, LeftEvent, user, None));
    }

    method RestoreDirectParticipantsIfNeeded(conv: nat, sender: nat)
      modifies this
      ensures View() == Restore(old(View()), conv, sender)
    {
      if conv >= |conversations| || conversations[conv].kind != Direct {
        return;
      }
      log := log + [Entered(Returning(rows, conv, sender))];
      var before := rows;
      for i := 0 to |before|
        modifies `rows
        invariant |rows| == |before| && rows[i..] == before[i..]
        invariant rows[..i] == Restored(before, conv, sender)[..i]
      {
        if Returns(rows[i], conv, sender) {
          rows := rows[i := rows[i].(status := Active)];
        }
      }
      assert rows == Restored(before, conv, sender);
    }

    method IncrementUnreadForOtherParticipants(conv: nat, sender: nat)
      modifies `rows
      ensures rows == Bumped(old(rows), conv, sender)
    {
      var before := rows;
      for i := 0 to |before|
        invariant |rows| == |before| && rows[i..] == before[i..]
        invariant rows[..i] == Bumped(before, conv, sender)[..i]
      {
        if rows[i].conv == conv && rows[i].user != sender && rows[i].status == Active {
          rows := rows[i := rows[i].(unread := rows[i].unread + 1)];
        }
      }
      assert rows == Bumped(before, conv, sender);
    }

    method FindAttachment(conv: nat, sender: nat, arg: AttachmentArg) returns (r: Result<Option<nat>>)
      ensures r == AttachmentCheck(View(), conv, sender, arg)
    {
      if arg == NoAttachment {
        return Ok(None);
      }
      if arg == BadId {
        return Err(InvalidAttachmentId);
      }
      var a := arg.id;
      if a >= |attachments| || attachments[a].conv != conv {
        return Err(AttachmentNotFound);
      }
      if attachments[a].uploader != sender {
        return Err(NotUploader);
      }
      if attachments[a].status != Uploaded {
        return Err(NotReady);
      }
      return Ok(Some(a));
    }

    // sendMessage from messageModel.create on, and sendAiBotMessage.
    method StoreMessage(m: Message, through: Option<nat>)
      requires through.Some? ==> through.value < |rows|
      requires m.attachment.Some? ==> m.attachment.value < |attachments|
      modifies this
      ensures View() == Post(old(View()), m, through)
    {
      log := log + [Sent(|messages|, through)];
      var id := |messages|;
      messages := messages + [m];
      if m.attachment.Some? {
        var a := m.attachment.value;
        attachments := attachments[a := attachments[a].(messageId := Some(id), status := Attached)];
      }
      if through.Some? {
        rows := rows[through.value := rows[through.value].(unread := 0)];
      }
      IncrementUnreadForOtherParticipants(m.conv, m.sender);
    }

    method SendMessage(op: Op) returns (r: Result<nat>)
      requires op.Send?
      modifies this
      ensures (View(), r) == Perform(old(View()), op)
    {
      if op.text == "" && op.attachment == NoAttachment {
        return Err(EmptyMessage);
      }
      var activeSender := FirstActive(rows, op.conv, op.user);
      if activeSender.None? {
        return Err(NotParticipant);
      }
      RestoreDirectParticipantsIfNeeded(op.conv, op.user);
      var attachment := FindAttachment(op.conv, op.user, op.attachment);
      if attachment.Err? {
        return Err(attachment.why);
      }
      // A message without text has an attachment here.
      var content := "";
      if op.text != "" {
        if op.encrypted.None? {
          return Err(EncryptionUnavailable);
        }
        content := op.encrypted.value;
      }
      var id := |messages|;
      StoreMessage(Message(op.conv, op.user, content, op.now, false, op.command, attachment.value, false), activeSender);
      return Ok(id);
    }

    method SendAiBotMessage(conv: nat, requester: nat, content: string, now: int) returns (id: nat)
      requires Allowed(View(), BotSend(conv, requester, content, now))
      modifies this
      ensures (View(), Ok(id)) == Perform(old(View()), BotSend(conv, requester, content, now))
    {
      id := |messages|;
      StoreMessage(Message(conv, requester, content, now, true, false, None, false), None);
    }

    method MarkConversationRead(conv: nat, user: nat) returns (r: Result<nat>)
      modifies this
      ensures (View(), r) == Perform(old(View()), MarkRead(conv, user))
    {
      var participant := FirstActive(rows, conv, user);
      if participant.None? {
        return Err(NotParticipant);
      }
      var latestMessage := LatestSentAt(messages, conv);
      rows := rows[participant.value := rows[participant.value].(unread := 0)];
      if latestMessage.Some? {
        MarkSeen(conv, user, latestMessage.value);
      }
      log := log + [Read(participant.value)];
      return Ok(0);
    }

    // The updateMany of markConversationRead.
    method MarkSeen(conv: nat, user: nat, latest: int)
      modifies `messages
      ensures messages == Marked(old(View()), conv, user, latest)
    {
      var before := messages;
      ghost var all := Marked(View(), conv, user, latest);
      for i := 0 to |before|
        invariant |messages| == |before| && messages[i..] == before[i..]
        invariant messages[..i] == all[..i]
      {
        var m := messages[i];
        if m.conv == conv && m.sender != user && FirstActive(rows, conv, m.sender).Some? && m.sentAt <= latest {
          messages := messages[i := m.(seen := true)];
        }
      }
      assert messages == all;
    }

    // generatePresignedUploadUrl, the record.
    method CreateAttachment(conv: nat, user: nat, fileName: string, mimeType: string, sizeBytes: Option<real>)
      returns (r: Result<nat>)
      modifies this
      ensures (View(), r) == Perform(old(View()), RequestUpload(conv, user, fileName, mimeType, sizeBytes))
    {
      if fileName == "" {
        return Err(BadFileName);
      }
      if mimeType == "" {
        return Err(BadMimeType);
      }
      if sizeBytes.None? || sizeBytes.value <= 0.0 || sizeBytes.value > MaxFileSize {
        return Err(BadFileSize);
      }
      if conv >= |conversations| {
        return Err(ConversationNotFound);
      }
      var participant := FirstActive(rows, conv, user);
      if participant.None? {
        return Err(NotParticipant);
      }
      var id := |attachments|;
      attachments := attachments + [Attachment(conv, user, Draft, None)];
      return Ok(id);
    }

    method MarkAttachmentUploaded(conv: nat, user: nat, id: AttachmentArg) returns (r: Result<nat>)
      modifies this
      ensures (View(), r) == Perform(old(View()), ConfirmUpload(conv, user, id))
    {
      if !id.Id? {
        return Err(InvalidAttachmentId);
      }
      var participant := FirstActive(rows, conv, user);
      if participant.None? {
        return Err(NotParticipant);
      }
      var a := id.id;
      if a >= |attachments| || attachments[a].conv != conv {
        return Err(AttachmentNotFound);
      }
      if attachments[a].uploader != user {
        return Err(NotUploader);
      }
      if attachments[a].status == Attached {
        return Err(AlreadyAttached);
      }
      attachments := attachments[a := attachments[a].(status := Uploaded)];
      return Ok(a);
    }
  }
}
