// Unread counters against the log of what happened.
module ChatUnread {
  import opened Options
  import opened ChatDomain

  predicate ActiveAfter(f: Fact, r: nat, before: bool) {
    match f
    case Entered(rows) => r in rows || before
    case Gone(row) => before && row != r
    case _ => before
  }

  // Whether a row was active after these facts.
  predicate ActiveIn(log: seq<Fact>, r: nat) {
    log != [] && ActiveAfter(log[|log| - 1], r, ActiveIn(log[..|log| - 1], r))
  }

  // The row's user sent a message through it, or marked the conversation read.
  predicate Resets(f: Fact, r: nat) {
    (f.Read? && f.row == r) || (f.Sent? && f.through == Some(r))
  }

  predicate FromOthers(rows: seq<Row>, messages: seq<Message>, f: Fact, r: nat) {
    && f.Sent? && f.message < |messages| && r < |rows|
    && messages[f.message].conv == rows[r].conv && messages[f.message].sender != rows[r].user
  }

  // A message of another user, stored while the row was active, and no reset of
  // the row since.
  predicate Counts(rows: seq<Row>, messages: seq<Message>, log: seq<Fact>, r: nat, i: nat) {
    && i < |log| && FromOthers(rows, messages, log[i], r) && ActiveIn(log[..i], r)
    && forall j :: i < j < |log| ==> !Resets(log[j], r)
  }

  ghost function Counted(rows: seq<Row>, messages: seq<Message>, log: seq<Fact>, r: nat): set<nat> {
    set i: nat | i < |log| && Counts(rows, messages, log, r, i)
  }

  // ---------------------------------------------------------------------

  predicate FactOk(rows: seq<Row>, messages: seq<Message>, f: Fact) {
    match f
    case Entered(entered) => forall r :: r in entered ==> r < |rows|
    case Gone(r) => r < |rows|
    case Sent(m, through) =>
      && m < |messages|
      && (through.Some? ==> through.value < |rows| && rows[through.value].user == messages[m].sender)
    case Read(r) => r < |rows|
  }

  ghost predicate RowOk(s: State, r: nat)
    requires r < |s.rows|
  {
    && s.rows[r].unread == |Counted(s.rows, s.messages, s.log, r)|
    && (s.rows[r].status == Active <==> ActiveIn(s.log, r))
  }

  ghost predicate Inv(s: State) {
    && (forall i :: 0 <= i < |s.log| ==> FactOk(s.rows, s.messages, s.log[i]))
    && forall r: nat :: r < |s.rows| ==> RowOk(s, r)
  }

  ghost predicate KeysKept(s: State, t: State) {
    && |s.rows| <= |t.rows| && |s.messages| <= |t.messages|
    && (forall r :: 0 <= r < |s.rows| ==> t.rows[r].conv == s.rows[r].conv && t.rows[r].user == s.rows[r].user)
    && forall m :: 0 <= m < |s.messages| ==>
        t.messages[m].conv == s.messages[m].conv && t.messages[m].sender == s.messages[m].sender
  }

  ghost predicate LogsOne(s: State, t: State, f: Fact) {
    t.log == s.log + [f] && KeysKept(s, t) && FactOk(t.rows, t.messages, f)
  }

  lemma LastFact(log: seq<Fact>, f: Fact, r: nat)
    ensures ActiveIn(log + [f], r) <==> ActiveAfter(f, r, ActiveIn(log, r))
  {
    assert (log + [f])[..|log|] == log;
  }

  lemma CountsAfter(s: State, t: State, f: Fact, r: nat, i: nat)
    requires Inv(s) && LogsOne(s, t, f) && r < |s.rows| && i < |s.log|
    ensures Counts(t.rows, t.messages, t.log, r, i) <==> Counts(s.rows, s.messages, s.log, r, i) && !Resets(f, r)
  {
    assert t.log[..i] == s.log[..i] && t.log[i] == s.log[i] && t.log[|s.log|] == f;
    assert FactOk(s.rows, s.messages, s.log[i]);
    if Counts(t.rows, t.messages, t.log, r, i) {
      forall j | i < j < |s.log| ensures !Resets(s.log[j], r) {
        assert t.log[j] == s.log[j];
      }
    }
  }

  predicate CountsNow(s: State, t: State, f: Fact, r: nat) {
    FromOthers(t.rows, t.messages, f, r) && ActiveIn(s.log, r)
  }

  lemma CountedAfter(s: State, t: State, f: Fact, r: nat)
    requires Inv(s) && LogsOne(s, t, f) && r < |s.rows|
    ensures |Counted(t.rows, t.messages, t.log, r)| ==
        (if Resets(f, r) then 0 else |Counted(s.rows, s.messages, s.log, r)|) + (if CountsNow(s, t, f, r) then 1 else 0)
  {
    var n := |s.log|;
    var kept := if Resets(f, r) then {} else Counted(s.rows, s.messages, s.log, r);
    assert t.log[..n] == s.log && t.log[n] == f;
    forall i: nat ensures i in Counted(t.rows, t.messages, t.log, r) <==> i in kept || (i == n && CountsNow(s, t, f, r)) {
      if i < n {
        CountsAfter(s, t, f, r, i);
      }
    }
    assert Counted(t.rows, t.messages, t.log, r) == kept + (if CountsNow(s, t, f, r) then {n} else {});
  }

  // Nothing was ever said about a row before it exists.
  lemma {:induction false} NewRowInactive(s: State, n: nat, r: nat)
    requires Inv(s) && |s.rows| <= r && n <= |s.log|
    ensures !ActiveIn(s.log[..n], r)
  {
    if n > 0 {
      NewRowInactive(s, n - 1, r);
      assert s.log[..n] == s.log[..n - 1] + [s.log[n - 1]];
      LastFact(s.log[..n - 1], s.log[n - 1], r);
      assert FactOk(s.rows, s.messages, s.log[n - 1]);
    }
  }

  lemma NewRowCountsNothing(s: State, t: State, f: Fact, r: nat)
    requires Inv(s) && LogsOne(s, t, f) && |s.rows| <= r < |t.rows| && !f.Sent?
    ensures Counted(t.rows, t.messages, t.log, r) == {}
  {
    forall i: nat | i < |t.log| ensures !Counts(t.rows, t.messages, t.log, r, i) {
      if i < |s.log| {
        NewRowInactive(s, i, r);
        assert t.log[..i] == s.log[..i];
      } else {
        assert t.log[i] == f;
      }
    }
  }

  // What one fact does to a row.
  ghost predicate Effect(s: State, t: State, f: Fact, r: nat)
    requires r < |t.rows|
  {
    if r < |s.rows| then
      && t.rows[r].unread ==
          (if Resets(f, r) then 0 else s.rows[r].unread)
          + (if FromOthers(t.rows, t.messages, f, r) && s.rows[r].status == Active then 1 else 0)
      && (t.rows[r].status == Active <==> ActiveAfter(f, r, s.rows[r].status == Active))
    else
      f.Entered? && r in f.rows && t.rows[r].unread == 0 && t.rows[r].status == Active
  }

  lemma EffectKeepsInv(s: State, t: State, f: Fact)
    requires Inv(s) && LogsOne(s, t, f) && forall r: nat :: r < |t.rows| ==> Effect(s, t, f, r)
    ensures Inv(t)
  {
    forall r: nat | r < |t.rows| ensures RowOk(t, r) {
      assert Effect(s, t, f, r);
      LastFact(s.log, f, r);
      if r < |s.rows| {
        assert RowOk(s, r);
        CountedAfter(s, t, f, r);
      } else {
        NewRowCountsNothing(s, t, f, r);
      }
    }
    forall i | 0 <= i < |t.log| ensures FactOk(t.rows, t.messages, t.log[i]) {
      if i < |s.log| {
        assert FactOk(s.rows, s.messages, s.log[i]);
      }
    }
  }

  // ---------------------------------------------------------------------
  // The changes, one by one.

  lemma CreateKeeps(s: State, kind: Kind, title: Option<string>, creator: nat, others: seq<nat>)
    requires Inv(s)
    ensures Inv(Create(s, kind, title, creator, others))
  {
    var t := Create(s, kind, title, creator, others);
    var f := t.log[|s.log|];
    assert forall r: nat :: |s.rows| <= r < |t.rows| ==> r in f.rows;
    assert LogsOne(s, t, f);
    EffectKeepsInv(s, t, f);
  }

  lemma JoinKeeps(s: State, conv: nat, user: nat, actor: nat)
    requires Inv(s)
    ensures Inv(Join(s, conv, user, actor))
  {
    EffectKeepsInv(s, Join(s, conv, user, actor), Entered({|s.rows|}));
  }

  lemma SameLog(s: State, t: State)
    requires Inv(s) && t.log == s.log && t.rows == s.rows && t.messages == s.messages
    ensures Inv(t)
  {
    forall r: nat | r < |t.rows| ensures RowOk(t, r) {
      assert RowOk(s, r);
    }
  }

  lemma PartKeeps(s: State, conv: nat, user: nat, status: Status, event: Event)
    requires Inv(s) && status != Active
    ensures Inv(Part(s, conv, user, status, event))
  {
    var r := FirstActive(s.rows, conv, user);
    if r.Some? {
      EffectKeepsInv(s, Part(s, conv, user, status, event), Gone(r.value));
    } else {
      SameLog(s, Part(s, conv, user, status, event));
    }
  }

  lemma RestoreKeeps(s: State, conv: nat, sender: nat)
    requires Inv(s)
    ensures Inv(Restore(s, conv, sender))
  {
    if conv < |s.conversations| && s.conversations[conv].kind == Direct {
      EffectKeepsInv(s, Restore(s, conv, sender), Entered(Returning(s.rows, conv, sender)));
    }
  }

  predicate Posts(s: State, m: Message, through: Option<nat>) {
    && (through.Some? ==>
        through.value < |s.rows| && s.rows[through.value].conv == m.conv && s.rows[through.value].user == m.sender)
    && (m.attachment.Some? ==> m.attachment.value < |s.attachments|)
  }

  lemma PostKeeps(s: State, m: Message, through: Option<nat>)
    requires Inv(s) && Posts(s, m, through)
    ensures Inv(Post(s, m, through))
  {
    EffectKeepsInv(s, Post(s, m, through), Sent(|s.messages|, through));
  }

  lemma ReadKeeps(s: State, r: nat)
    requires Inv(s) && r < |s.rows|
    ensures Inv(MarkAllRead(s, r))
  {
    EffectKeepsInv(s, MarkAllRead(s, r), Read(r));
  }

  lemma SendKeeps(s: State, op: Op)
    requires Inv(s) && op.Send?
    ensures Inv(Step(s, op))
  {
    RestoreKeeps(s, op.conv, op.user);
    var r := FirstActive(s.rows, op.conv, op.user);
    var s1 := Restore(s, op.conv, op.user);
    var a := AttachmentCheck(s1, op.conv, op.user, op.attachment);
    if r.Some? && a.Ok? {
      var content := if op.text != "" && op.encrypted.Some? then op.encrypted.value else "";
      PostKeeps(s1, Message(op.conv, op.user, content, op.now, false, op.command, a.value, false), r);
    }
  }

  lemma StepKeepsInv(s: State, op: Op)
    requires Inv(s)
    ensures Inv(Step(s, op))
  {
    match op
    case OpenDirect(creator, target, title) => CreateKeeps(s, Direct, title, creator, [target]);
    case OpenGroup(creator, others, title) => CreateKeeps(s, Group, title, creator, others);
    case AddMember(conv, user, actor) => JoinKeeps(s, conv, user, actor);
    case RemoveMember(conv, user, actor) => PartKeeps(s, conv, user, Removed, Event(conv, RemovedEvent, user, Some(actor)));
    case Leave(conv, user) => PartKeeps(s, conv, user, Left, Event(conv, LeftEvent, user, None));
    case Send(_, _, _, _, _, _, _) => SendKeeps(s, op);
    case BotSend(conv, requester, text, now) => PostKeeps(s, Message(conv, requester, text, now, true, false, None, false), None);
    case MarkRead(conv, user) =>
      var r := FirstActive(s.rows, conv, user);
      if r.Some? {
        ReadKeeps(s, r.value);
      }
    case RequestUpload(_, _, _, _, _) => SameLog(s, Step(s, op));
    case ConfirmUpload(_, _, _) => SameLog(s, Step(s, op));
  }

  lemma {:induction false} RunKeepsInv(s: State, run: seq<Op>)
    requires Inv(s)
    ensures Inv(After(s, run))
    decreases |run|
  {
    if run != [] {
      StepKeepsInv(s, run[0]);
      RunKeepsInv(Step(s, run[0]), run[1..]);
    }
  }

  // The counter of every row, after any calls, is the number of messages of other
  // users stored while the row was active since its user last sent or read, bot
  // messages and the message that brought a user back included.
  lemma UnreadIsTheCount(run: seq<Op>, r: nat)
    requires r < |After(Init, run).rows|
    ensures var s := After(Init, run);
        s.rows[r].unread == |Counted(s.rows, s.messages, s.log, r)|
        && (s.rows[r].status == Active <==> ActiveIn(s.log, r))
  {
    RunKeepsInv(Init, run);
    assert RowOk(After(Init, run), r);
  }

  // ---------------------------------------------------------------------
  // What each call does to the counters, against the state before it.

  // Reached by a message: active, or about to be restored.
  predicate Reached(s: State, row: Row, conv: nat, sender: nat) {
    && row.conv == conv && row.user != sender
    && (row.status == Active || (row.status == Left && conv < |s.conversations| && s.conversations[conv].kind == Direct))
  }

  lemma SendMovesCounters(s: State, op: Op, r: nat)
    requires op.Send? && Perform(s, op).1.Ok? && r < |s.rows|
    ensures var t := Step(s, op);
        && |t.rows| == |s.rows|
        && t.rows[r].unread ==
            if FirstActive(s.rows, op.conv, op.user) == Some(r) then 0
            else if Reached(s, s.rows[r], op.conv, op.user) then s.rows[r].unread + 1
            else s.rows[r].unread
    ensures |Step(s, op).messages| == |s.messages| + 1 && Perform(s, op).1.value == |s.messages|
  {
  }

  // A send that fails moves no counter.
  lemma FailedSendMovesNothing(s: State, op: Op, r: nat)
    requires op.Send? && Perform(s, op).1.Err? && r < |s.rows|
    ensures |Step(s, op).rows| == |s.rows| && Step(s, op).rows[r].unread == s.rows[r].unread && Step(s, op).messages == s.messages
  {
  }

  lemma BotSendMovesCounters(s: State, conv: nat, requester: nat, text: string, now: int, r: nat)
    requires r < |s.rows|
    ensures var t := Step(s, BotSend(conv, requester, text, now));
        && |t.rows| == |s.rows|
        && t.rows[r].unread ==
            if s.rows[r].conv == conv && s.rows[r].user != requester && s.rows[r].status == Active then s.rows[r].unread + 1
            else s.rows[r].unread
  {
  }

  lemma MarkReadMovesCounters(s: State, conv: nat, user: nat, r: nat)
    requires r < |s.rows|
    ensures var t := Step(s, MarkRead(conv, user));
        && |t.rows| == |s.rows|
        && t.rows[r].unread == if FirstActive(s.rows, conv, user) == Some(r) then 0 else s.rows[r].unread
  {
  }
}
