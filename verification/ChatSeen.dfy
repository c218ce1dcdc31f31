// Seen marks against the log of what happened.
module ChatSeen {
  import opened Options
  import opened ChatDomain
  import opened ChatUnread

  function Sents(log: seq<Fact>): nat {
    if log == [] then 0 else Sents(log[..|log| - 1]) + (if log[|log| - 1].Sent? then 1 else 0)
  }

  ghost predicate WasActive(rows: seq<Row>, log: seq<Fact>, conv: nat, user: nat) {
    exists q: nat :: q < |rows| && rows[q].conv == conv && rows[q].user == user && ActiveIn(log, q)
  }

  // Entry j of the log is a mark-read by an active participant other than the
  // sender, after the message was stored, while the sender was active.
  ghost predicate ReadAt(rows: seq<Row>, log: seq<Fact>, m: nat, message: Message, j: nat) {
    && j < |log| && log[j].Read? && log[j].row < |rows| && m < Sents(log[..j])
    && rows[log[j].row].conv == message.conv && rows[log[j].row].user != message.sender
    && ActiveIn(log[..j], log[j].row)
    && WasActive(rows, log[..j], message.conv, message.sender)
  }

  ghost predicate WasRead(rows: seq<Row>, log: seq<Fact>, m: nat, message: Message) {
    exists j: nat :: ReadAt(rows, log, m, message, j)
  }

  ghost predicate SeenOk(s: State, m: nat)
    requires m < |s.messages|
  {
    s.messages[m].seen <==> WasRead(s.rows, s.log, m, s.messages[m])
  }

  ghost predicate SeenInv(s: State) {
    && Sents(s.log) == |s.messages|
    && forall m: nat :: m < |s.messages| ==> SeenOk(s, m)
  }

  lemma SentsAfter(log: seq<Fact>, f: Fact)
    ensures Sents(log + [f]) == Sents(log) + (if f.Sent? then 1 else 0)
  {
    assert (log + [f])[..|log|] == log;
  }

  // Rows added later were not active then.
  lemma WasActiveKept(s: State, t: State, f: Fact, n: nat, conv: nat, user: nat)
    requires Inv(s) && LogsOne(s, t, f) && n <= |s.log|
    ensures WasActive(t.rows, s.log[..n], conv, user) <==> WasActive(s.rows, s.log[..n], conv, user)
  {
    if WasActive(t.rows, s.log[..n], conv, user) {
      var q: nat :| q < |t.rows| && t.rows[q].conv == conv && t.rows[q].user == user && ActiveIn(s.log[..n], q);
      if q >= |s.rows| {
        NewRowInactive(s, n, q);
      }
      assert s.rows[q].conv == conv;
    }
    if WasActive(s.rows, s.log[..n], conv, user) {
      var q: nat :| q < |s.rows| && s.rows[q].conv == conv && s.rows[q].user == user && ActiveIn(s.log[..n], q);
      assert t.rows[q].conv == conv;
    }
  }

  lemma ReadAtKept(s: State, t: State, f: Fact, m: nat, message: Message, j: nat)
    requires Inv(s) && LogsOne(s, t, f) && j < |s.log|
    ensures ReadAt(t.rows, t.log, m, message, j) <==> ReadAt(s.rows, s.log, m, message, j)
  {
    assert t.log[..j] == s.log[..j] && t.log[j] == s.log[j];
    assert FactOk(s.rows, s.messages, s.log[j]);
    WasActiveKept(s, t, f, j, message.conv, message.sender);
  }

  // One more fact.
  lemma WasReadAfter(s: State, t: State, f: Fact, m: nat, message: Message)
    requires Inv(s) && LogsOne(s, t, f)
    ensures WasRead(t.rows, t.log, m, message) <==>
        WasRead(s.rows, s.log, m, message) || ReadAt(t.rows, t.log, m, message, |s.log|)
  {
    if WasRead(s.rows, s.log, m, message) {
      var j: nat :| ReadAt(s.rows, s.log, m, message, j);
      ReadAtKept(s, t, f, m, message, j);
    }
    if WasRead(t.rows, t.log, m, message) {
      var j: nat :| ReadAt(t.rows, t.log, m, message, j);
      if j < |s.log| {
        ReadAtKept(s, t, f, m, message, j);
      }
    }
  }

  // A change that logs something else than a mark-read.
  ghost predicate NoMark(s: State, t: State, f: Fact) {
    && LogsOne(s, t, f) && !f.Read?
    && |t.messages| == |s.messages| + (if f.Sent? then 1 else 0)
    && (forall m :: 0 <= m < |s.messages| ==> t.messages[m] == s.messages[m])
    && (f.Sent? ==> !t.messages[|s.messages|].seen)
  }

  lemma UnstoredUnread(rows: seq<Row>, log: seq<Fact>, m: nat, message: Message)
    requires Sents(log) <= m
    ensures !WasRead(rows, log, m, message)
  {
    forall j: nat | j < |log| ensures Sents(log[..j]) <= Sents(log) {
      SentsMonotone(log, j);
    }
  }

  lemma {:induction false} SentsMonotone(log: seq<Fact>, j: nat)
    requires j <= |log|
    ensures Sents(log[..j]) <= Sents(log)
    decreases |log|
  {
    if j < |log| {
      SentsMonotone(log[..|log| - 1], j);
      assert log[..|log| - 1][..j] == log[..j];
    } else {
      assert log[..j] == log;
    }
  }

  lemma NoMarkKeeps(s: State, t: State, f: Fact)
    requires Inv(s) && SeenInv(s) && NoMark(s, t, f)
    ensures SeenInv(t)
  {
    SentsAfter(s.log, f);
    assert t.log[|s.log|] == f;
    forall m: nat | m < |t.messages| ensures SeenOk(t, m) {
      WasReadAfter(s, t, f, m, t.messages[m]);
      if m < |s.messages| {
        assert SeenOk(s, m);
      } else {
        UnstoredUnread(s.rows, s.log, m, t.messages[m]);
      }
    }
  }

  // FirstActive and the log agree on who is active.
  lemma ActiveNow(s: State, conv: nat, user: nat)
    requires Inv(s)
    ensures FirstActive(s.rows, conv, user).Some? <==> WasActive(s.rows, s.log, conv, user)
  {
    var r := FirstActive(s.rows, conv, user);
    if r.Some? {
      assert RowOk(s, r.value);
    }
    if WasActive(s.rows, s.log, conv, user) {
      var q: nat :| q < |s.rows| && s.rows[q].conv == conv && s.rows[q].user == user && ActiveIn(s.log, q);
      assert RowOk(s, q);
      assert ActiveRow(s.rows[q], conv, user);
    }
  }

  lemma SameActive(a: seq<Row>, r: nat, conv: nat, user: nat)
    requires r < |a|
    ensures FirstActive(ResetRow(a, Some(r)), conv, user) == FirstActive(a, conv, user)
  {
    var b := ResetRow(a, Some(r));
    var x, y := FirstActive(a, conv, user), FirstActive(b, conv, user);
    if x.Some? {
      assert ActiveRow(b[x.value], conv, user);
    }
    if y.Some? {
      assert ActiveRow(a[y.value], conv, user);
    }
  }

  // The messages a mark-read of this user is about: of the other active
  // participants.
  predicate MarkedBy(s: State, conv: nat, user: nat, m: Message) {
    m.conv == conv && m.sender != user && FirstActive(s.rows, conv, m.sender).Some?
  }

  // The latest message bounds them all, so a mark-read marks exactly these.
  lemma MarkedExactly(s: State, r: nat, m: nat)
    requires r < |s.rows| && m < |s.messages|
    ensures |MarkAllRead(s, r).messages| == |s.messages|
    ensures MarkAllRead(s, r).messages[m] ==
        if MarkedBy(s, s.rows[r].conv, s.rows[r].user, s.messages[m]) then s.messages[m].(seen := true) else s.messages[m]
  {
    SameActive(s.rows, r, s.messages[m].conv, s.messages[m].sender);
  }

  lemma ReadAtEnd(s: State, t: State, r: nat, m: nat)
    requires Inv(s) && SeenInv(s) && r < |s.rows| && m < |s.messages| && s.rows[r].status == Active
        && t == MarkAllRead(s, r) && LogsOne(s, t, Read(r))
    ensures ReadAt(t.rows, t.log, m, s.messages[m], |s.log|) <==> MarkedBy(s, s.rows[r].conv, s.rows[r].user, s.messages[m])
  {
    assert t.log[..|s.log|] == s.log && t.log[|s.log|] == Read(r) && s.log[..|s.log|] == s.log;
    assert RowOk(s, r);
    WasActiveKept(s, t, Read(r), |s.log|, s.messages[m].conv, s.messages[m].sender);
    ActiveNow(s, s.messages[m].conv, s.messages[m].sender);
  }

  lemma ReadKeepsSeen(s: State, r: nat)
    requires Inv(s) && SeenInv(s) && r < |s.rows| && s.rows[r].status == Active
    ensures SeenInv(MarkAllRead(s, r))
  {
    var t := MarkAllRead(s, r);
    SentsAfter(s.log, Read(r));
    forall m: nat | m < |s.messages| ensures SeenOk(t, m) && |t.messages| == |s.messages| {
      MarkedExactly(s, r, m);
      assert SeenOk(s, m);
      ReadAtEnd(s, t, r, m);
      WasReadAfter(s, t, Read(r), m, s.messages[m]);
      SameMessage(t.rows, t.log, m, s.messages[m], t.messages[m]);
    }
  }

  lemma SameMessage(rows: seq<Row>, log: seq<Fact>, m: nat, a: Message, b: Message)
    requires a.conv == b.conv && a.sender == b.sender
    ensures WasRead(rows, log, m, a) <==> WasRead(rows, log, m, b)
  {
    if WasRead(rows, log, m, a) {
      var j: nat :| ReadAt(rows, log, m, a, j);
      assert ReadAt(rows, log, m, b, j);
    }
    if WasRead(rows, log, m, b) {
      var j: nat :| ReadAt(rows, log, m, b, j);
      assert ReadAt(rows, log, m, a, j);
    }
  }

  // ---------------------------------------------------------------------

  lemma RestoreKeepsSeen(s: State, conv: nat, sender: nat)
    requires Inv(s) && SeenInv(s)
    ensures SeenInv(Restore(s, conv, sender))
  {
    if conv < |s.conversations| && s.conversations[conv].kind == Direct {
      NoMarkKeeps(s, Restore(s, conv, sender), Entered(Returning(s.rows, conv, sender)));
    }
  }

  lemma PostKeepsSeen(s: State, m: Message, through: Option<nat>)
    requires Inv(s) && SeenInv(s) && Posts(s, m, through) && !m.seen
    ensures SeenInv(Post(s, m, through))
  {
    NoMarkKeeps(s, Post(s, m, through), Sent(|s.messages|, through));
  }

  lemma SendKeepsSeen(s: State, op: Op)
    requires Inv(s) && SeenInv(s) && op.Send?
    ensures SeenInv(Step(s, op))
  {
    var r := FirstActive(s.rows, op.conv, op.user);
    var s1 := Restore(s, op.conv, op.user);
    RestoreKeeps(s, op.conv, op.user);
    RestoreKeepsSeen(s, op.conv, op.user);
    var a := AttachmentCheck(s1, op.conv, op.user, op.attachment);
    if r.Some? && a.Ok? {
      var content := if op.text != "" && op.encrypted.Some? then op.encrypted.value else "";
      PostKeepsSeen(s1, Message(op.conv, op.user, content, op.now, false, op.command, a.value, false), r);
    }
  }

  lemma CreateKeepsSeen(s: State, kind: Kind, title: Option<string>, creator: nat, others: seq<nat>)
    requires Inv(s) && SeenInv(s)
    ensures SeenInv(Create(s, kind, title, creator, others))
  {
    var t := Create(s, kind, title, creator, others);
    NoMarkKeeps(s, t, t.log[|s.log|]);
  }

  lemma PartKeepsSeen(s: State, conv: nat, user: nat, status: Status, event: Event)
    requires Inv(s) && SeenInv(s)
    ensures SeenInv(Part(s, conv, user, status, event))
  {
    var r := FirstActive(s.rows, conv, user);
    if r.Some? {
      NoMarkKeeps(s, Part(s, conv, user, status, event), Gone(r.value));
    } else {
      SameLogSeen(s, Part(s, conv, user, status, event));
    }
  }

  lemma SameLogSeen(s: State, t: State)
    requires SeenInv(s) && t.log == s.log && t.rows == s.rows && t.messages == s.messages
    ensures SeenInv(t)
  {
    forall m: nat | m < |t.messages| ensures SeenOk(t, m) {
      assert SeenOk(s, m);
    }
  }

  lemma StepKeepsSeen(s: State, op: Op)
    requires Inv(s) && SeenInv(s)
    ensures SeenInv(Step(s, op))
  {
    match op
    case OpenDirect(creator, target, title) => CreateKeepsSeen(s, Direct, title, creator, [target]);
    case OpenGroup(creator, others, title) => CreateKeepsSeen(s, Group, title, creator, others);
    case AddMember(conv, user, actor) => NoMarkKeeps(s, Join(s, conv, user, actor), Entered({|s.rows|}));
    case RemoveMember(conv, user, actor) => PartKeepsSeen(s, conv, user, Removed, Event(conv, RemovedEvent, user, Some(actor)));
    case Leave(conv, user) => PartKeepsSeen(s, conv, user, Left, Event(conv, LeftEvent, user, None));
    case Send(_, _, _, _, _, _, _) => SendKeepsSeen(s, op);
    case BotSend(conv, requester, text, now) =>
      PostKeepsSeen(s, Message(conv, requester, text, now, true, false, None, false), None);
    case MarkRead(conv, user) =>
      var r := FirstActive(s.rows, conv, user);
      if r.Some? {
        ReadKeepsSeen(s, r.value);
      }
    case RequestUpload(_, _, _, _, _) => SameLogSeen(s, Step(s, op));
    case ConfirmUpload(_, _, _) => SameLogSeen(s, Step(s, op));
  }

  lemma {:induction false} RunKeepsSeen(s: State, run: seq<Op>)
    requires Inv(s) && SeenInv(s)
    ensures SeenInv(After(s, run))
    decreases |run|
  {
    if run != [] {
      StepKeepsSeen(s, run[0]);
      ChatUnread.StepKeepsInv(s, run[0]);
      RunKeepsSeen(Step(s, run[0]), run[1..]);
    }
  }

  // After any calls, a message is seen exactly if, after it was stored, an active
  // participant other than its sender marked the conversation read while the
  // sender was active.
  lemma SeenIffRead(run: seq<Op>, m: nat)
    requires m < |After(Init, run).messages|
    ensures var s := After(Init, run); s.messages[m].seen <==> WasRead(s.rows, s.log, m, s.messages[m])
  {
    RunKeepsSeen(Init, run);
    assert SeenOk(After(Init, run), m);
  }

  // A mark never goes away.
  lemma StepKeepsMarks(s: State, op: Op, m: nat)
    requires m < |s.messages| && s.messages[m].seen
    ensures m < |Step(s, op).messages| && Step(s, op).messages[m].seen
  {
  }

  lemma {:induction false} MarksStay(s: State, run: seq<Op>, m: nat)
    requires m < |s.messages| && s.messages[m].seen
    ensures m < |After(s, run).messages| && After(s, run).messages[m].seen
    decreases |run|
  {
    if run != [] {
      StepKeepsMarks(s, run[0], m);
      MarksStay(Step(s, run[0]), run[1..], m);
    }
  }

  // Right after a mark-read every message of the other active participants is
  // seen, and no message of another conversation or sender is touched.
  lemma MarkReadIsComplete(s: State, conv: nat, user: nat, m: nat)
    requires Perform(s, MarkRead(conv, user)).1.Ok? && m < |s.messages|
    ensures var t := Step(s, MarkRead(conv, user));
        && |t.messages| == |s.messages|
        && t.messages[m] == if MarkedBy(s, conv, user, s.messages[m]) then s.messages[m].(seen := true) else s.messages[m]
  {
    MarkedExactly(s, FirstActive(s.rows, conv, user).value, m);
  }
}
