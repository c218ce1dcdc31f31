// The life of an attachment: draft, uploaded, attached to one message.
module ChatAttachments {
  import opened Options
  import opened ChatDomain

  function Rank(status: UploadStatus): nat {
    match status
    case Draft => 0
    case Uploaded => 1
    case Attached => 2
  }

  // A message and an attachment that name each other.
  predicate Linked(s: State, m: nat, a: nat) {
    && m < |s.messages| && a < |s.attachments|
    && s.messages[m].attachment == Some(a) && s.attachments[a].messageId == Some(m)
    && s.attachments[a].status == Attached
    && s.attachments[a].conv == s.messages[m].conv && s.attachments[a].uploader == s.messages[m].sender
  }

  ghost predicate Inv(s: State) {
    && (forall m :: 0 <= m < |s.messages| && s.messages[m].attachment.Some? ==> Linked(s, m, s.messages[m].attachment.value))
    && forall a :: 0 <= a < |s.attachments| ==>
        if s.attachments[a].status == Attached then
          s.attachments[a].messageId.Some? && Linked(s, s.attachments[a].messageId.value, a)
        else s.attachments[a].messageId.None?
  }

  // The calls that touch neither messages nor attachments, and the seen marks.
  ghost predicate LinksKept(s: State, t: State) {
    && t.attachments == s.attachments && |t.messages| == |s.messages|
    && forall m :: 0 <= m < |s.messages| ==>
        t.messages[m].attachment == s.messages[m].attachment && t.messages[m].conv == s.messages[m].conv
        && t.messages[m].sender == s.messages[m].sender
  }

  lemma KeptKeeps(s: State, t: State)
    requires Inv(s) && LinksKept(s, t)
    ensures Inv(t)
  {
    forall m | 0 <= m < |t.messages| && t.messages[m].attachment.Some? ensures Linked(t, m, t.messages[m].attachment.value) {
      assert Linked(s, m, s.messages[m].attachment.value);
    }
  }

  // The attachment of a message about to be stored has passed the checks.
  predicate Ready(s: State, m: Message) {
    m.attachment.Some? ==>
      && m.attachment.value < |s.attachments|
      && s.attachments[m.attachment.value].status == Uploaded
      && s.attachments[m.attachment.value].conv == m.conv && s.attachments[m.attachment.value].uploader == m.sender
  }

  lemma PostKeeps(s: State, m: Message, through: Option<nat>)
    requires Inv(s) && Ready(s, m) && (through.Some? ==> through.value < |s.rows|)
    ensures Inv(Post(s, m, through))
  {
    var t := Post(s, m, through);
    forall k | 0 <= k < |t.messages| && t.messages[k].attachment.Some? ensures Linked(t, k, t.messages[k].attachment.value) {
      if k < |s.messages| {
        assert Linked(s, k, s.messages[k].attachment.value);
      }
    }
    forall a | 0 <= a < |t.attachments| && t.attachments[a].status == Attached
      ensures t.attachments[a].messageId.Some? && Linked(t, t.attachments[a].messageId.value, a)
    {
      if m.attachment != Some(a) {
        assert Linked(s, s.attachments[a].messageId.value, a);
      }
    }
  }

  lemma UploadsKeep(s: State, op: Op)
    requires Inv(s) && (op.RequestUpload? || op.ConfirmUpload?)
    ensures Inv(Step(s, op))
  {
    var t := Step(s, op);
    forall m | 0 <= m < |t.messages| && t.messages[m].attachment.Some? ensures Linked(t, m, t.messages[m].attachment.value) {
      assert Linked(s, m, s.messages[m].attachment.value);
    }
    forall a | 0 <= a < |t.attachments| && t.attachments[a].status == Attached
      ensures t.attachments[a].messageId.Some? && Linked(t, t.attachments[a].messageId.value, a)
    {
      assert Linked(s, s.attachments[a].messageId.value, a);
    }
  }

  lemma SendKeeps(s: State, op: Op)
    requires Inv(s) && op.Send?
    ensures Inv(Step(s, op))
  {
    var r := FirstActive(s.rows, op.conv, op.user);
    var s1 := Restore(s, op.conv, op.user);
    KeptKeeps(s, s1);
    var a := AttachmentCheck(s1, op.conv, op.user, op.attachment);
    if r.Some? && a.Ok? {
      var content := if op.text != "" && op.encrypted.Some? then op.encrypted.value else "";
      PostKeeps(s1, Message(op.conv, op.user, content, op.now, false, op.command, a.value, false), r);
    }
  }

  lemma OthersKeepLinks(s: State, op: Op)
    requires !op.Send? && !op.BotSend? && !op.RequestUpload? && !op.ConfirmUpload?
    ensures LinksKept(s, Step(s, op))
  {
  }

  lemma StepKeepsInv(s: State, op: Op)
    requires Inv(s)
    ensures Inv(Step(s, op))
  {
    match op
    case Send(_, _, _, _, _, _, _) => SendKeeps(s, op);
    case BotSend(conv, requester, text, now) => PostKeeps(s, Message(conv, requester, text, now, true, false, None, false), None);
    case RequestUpload(_, _, _, _, _) => UploadsKeep(s, op);
    case ConfirmUpload(_, _, _) => UploadsKeep(s, op);
    case _ =>
      OthersKeepLinks(s, op);
      KeptKeeps(s, Step(s, op));
  }

  lemma {:induction false} RunKeepsInv(s: State, run: seq<Op>)
    requires Inv(s)
    ensures Inv(After(s, run))
    decreases |run|
  {
    if run != [] {
      StepKeepsInv(s, run[0]);
      RunKeepsInv(Step(s, run[0]), run[1..]);
    }
  }

  // Attached attachments and messages with an attachment are in bijection, each
  // pair of one conversation and one user.
  lemma AttachedIffLinked(run: seq<Op>, a: nat)
    requires a < |After(Init, run).attachments|
    ensures var s := After(Init, run); s.attachments[a].status == Attached <==> exists m: nat :: Linked(s, m, a)
  {
    RunKeepsInv(Init, run);
  }

  lemma CarriedIffLinked(run: seq<Op>, m: nat)
    requires m < |After(Init, run).messages|
    ensures var s := After(Init, run); s.messages[m].attachment.Some? <==> exists a: nat :: Linked(s, m, a)
  {
    RunKeepsInv(Init, run);
  }

  lemma LinkIsOneToOne(s: State, m: nat, n: nat, a: nat, b: nat)
    requires Linked(s, m, a) && Linked(s, n, b)
    ensures m == n <==> a == b
  {
  }

  // ---------------------------------------------------------------------
  // Statuses only rise, one at a time, and attached is final. The step to each
  // status is one call's alone.

  predicate Rises(before: Attachment, after: Attachment, op: Op) {
    && after.conv == before.conv && after.uploader == before.uploader
    && (after == before
        || (op.ConfirmUpload? && before.status != Attached && after == before.(status := Uploaded))
        || (op.Send? && before.status == Uploaded && after.status == Attached && before.uploader == op.user))
  }

  lemma StepRises(s: State, op: Op, a: nat)
    requires a < |s.attachments|
    ensures a < |Step(s, op).attachments| && Rises(s.attachments[a], Step(s, op).attachments[a], op)
  {
  }

  lemma {:induction false} AttachedIsFinal(s: State, run: seq<Op>, a: nat)
    requires a < |s.attachments|
    ensures a < |After(s, run).attachments| && Rank(s.attachments[a].status) <= Rank(After(s, run).attachments[a].status)
    ensures s.attachments[a].status == Attached ==> After(s, run).attachments[a] == s.attachments[a]
    decreases |run|
  {
    if run != [] {
      StepRises(s, run[0], a);
      AttachedIsFinal(Step(s, run[0]), run[1..], a);
    }
  }

  // The gate of generatePresignedDownloadUrl.
  predicate CanDownload(s: State, a: nat, user: nat) {
    && a < |s.attachments| && s.attachments[a].status == Attached
    && FirstActive(s.rows, s.attachments[a].conv, user).Some?
  }

  // A message carries the attachment in a conversation the user is active in.
  predicate SentTo(s: State, m: nat, a: nat, user: nat) {
    Linked(s, m, a) && FirstActive(s.rows, s.messages[m].conv, user).Some?
  }

  // What can be downloaded has been sent, in a conversation the user is active in.
  lemma DownloadsWereSent(run: seq<Op>, a: nat, user: nat)
    requires CanDownload(After(Init, run), a, user)
    ensures exists m: nat :: SentTo(After(Init, run), m, a, user)
  {
    RunKeepsInv(Init, run);
    var s := After(Init, run);
    var m := s.attachments[a].messageId.value;
    assert SentTo(s, m, a, user);
  }
}
