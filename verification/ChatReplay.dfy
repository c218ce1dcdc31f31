// The membership log of direct conversations: replaying it misses who was brought
// back by a message.
module ChatReplay {
  import opened Options
  import opened ChatDomain
  import opened ChatMembership
  import Pairs = ChatDirect

  predicate Departs(op: Op, d: nat, u: nat) {
    (op.Leave? || op.RemoveMember?) && op.conv == d && op.user == u
  }

  // A send of the other side gets past the check of its sender while the user's row
  // is `left`. What the send does afterwards, and whether it fails, does not matter.
  predicate BringsBack(s: State, op: Op, d: nat, u: nat) {
    && op.Send? && op.conv == d && Pairs.IsDirect(s, d)
    && !(op.text == "" && op.attachment == NoAttachment)
    && FirstActive(s.rows, d, op.user).Some?
    && exists q: nat :: q < |s.rows| && s.rows[q].user == u && Returns(s.rows[q], d, op.user)
  }

  // It happened in the run, and the user has not left or been removed since.
  ghost predicate BroughtBack(run: seq<Op>, d: nat, u: nat) {
    exists i: nat :: BroughtBackAt(run, d, u, i)
  }

  ghost predicate BroughtBackAt(run: seq<Op>, d: nat, u: nat, i: nat) {
    && i < |run| && BringsBack(After(Init, run[..i]), run[i], d, u)
    && forall j :: i < j < |run| ==> !Departs(run[j], d, u)
  }

  // ---------------------------------------------------------------------
  // Runs, one call longer.

  lemma {:induction false} AfterSnoc(s: State, run: seq<Op>, op: Op)
    ensures After(s, run + [op]) == Step(After(s, run), op)
    decreases |run|
  {
    if run == [] {
      assert (run + [op])[1..] == [];
    } else {
      assert (run + [op])[1..] == run[1..] + [op];
      AfterSnoc(Step(s, run[0]), run[1..], op);
    }
  }

  lemma {:induction false} GoodSnoc(s: State, run: seq<Op>, op: Op)
    requires Pairs.GoodRun(s, run + [op])
    ensures Pairs.GoodRun(s, run) && Pairs.NoDirectAdd(After(s, run), op)
    decreases |run|
  {
    if run != [] {
      assert (run + [op])[1..] == run[1..] + [op];
      GoodSnoc(Step(s, run[0]), run[1..], op);
    }
  }

  lemma {:induction false} GoodIsAllowed(s: State, run: seq<Op>)
    requires Pairs.GoodRun(s, run)
    ensures AllowedRun(s, run)
    decreases |run|
  {
    if run != [] {
      GoodIsAllowed(Step(s, run[0]), run[1..]);
    }
  }

  lemma EarlierAt(run: seq<Op>, op: Op, d: nat, u: nat, i: nat)
    requires i < |run|
    ensures BroughtBackAt(run + [op], d, u, i) <==> BroughtBackAt(run, d, u, i) && !Departs(op, d, u)
  {
    assert (run + [op])[..i] == run[..i] && (run + [op])[i] == run[i] && (run + [op])[|run|] == op;
    if BroughtBackAt(run + [op], d, u, i) {
      assert forall j :: i < j < |run| ==> (run + [op])[j] == run[j];
    }
  }

  lemma BroughtBackSnoc(run: seq<Op>, op: Op, d: nat, u: nat)
    ensures BroughtBack(run + [op], d, u) <==>
        BringsBack(After(Init, run), op, d, u) || (BroughtBack(run, d, u) && !Departs(op, d, u))
  {
    var n := |run|;
    assert (run + [op])[..n] == run && (run + [op])[n] == op;
    assert BroughtBackAt(run + [op], d, u, n) <==> BringsBack(After(Init, run), op, d, u);
    if BroughtBack(run + [op], d, u) {
      var i: nat :| BroughtBackAt(run + [op], d, u, i);
      if i < n {
        EarlierAt(run, op, d, u, i);
      }
    }
    if BroughtBack(run, d, u) && !Departs(op, d, u) {
      var i: nat :| BroughtBackAt(run, d, u, i);
      EarlierAt(run, op, d, u, i);
    }
  }

  // ---------------------------------------------------------------------
  // One user has one row.

  lemma {:induction false} RowsAreUsers(rows: seq<Row>, d: nat, r: nat)
    requires r < |rows| && rows[r].conv == d
    ensures rows[r].user in Users(rows, d)
  {
    if r < |rows| - 1 {
      RowsAreUsers(rows[..|rows| - 1], d, r);
    }
  }

  predicate NoRepeats(users: seq<nat>) {
    forall i, j :: 0 <= i < j < |users| ==> users[i] != users[j]
  }

  lemma RepeatsAtEnd(users: seq<nat>, u: nat)
    requires NoRepeats(users + [u])
    ensures u !in users && NoRepeats(users)
  {
    forall i | 0 <= i < |users| ensures users[i] != u {
      assert (users + [u])[i] == users[i] && (users + [u])[|users|] == u;
    }
    forall i, j | 0 <= i < j < |users| ensures users[i] != users[j] {
      assert (users + [u])[i] == users[i] && (users + [u])[j] == users[j];
    }
  }

  lemma {:induction false} DistinctUsersOneRow(rows: seq<Row>, d: nat, q: nat, r: nat)
    requires q < r < |rows| && rows[q].conv == rows[r].conv == d && NoRepeats(Users(rows, d))
    ensures rows[q].user != rows[r].user
  {
    var front, last := rows[..|rows| - 1], rows[|rows| - 1];
    if last.conv == d {
      RepeatsAtEnd(Users(front, d), last.user);
    } else {
      assert Users(rows, d) == Users(front, d);
    }
    if r == |rows| - 1 {
      RowsAreUsers(front, d, q);
    } else {
      DistinctUsersOneRow(front, d, q, r);
    }
  }

  lemma OneRow(s: State, d: nat, q: nat, r: nat)
    requires Pairs.Inv(s) && Pairs.IsDirect(s, d) && q < |s.rows| && r < |s.rows|
    requires s.rows[q].conv == s.rows[r].conv == d && s.rows[q].user == s.rows[r].user
    ensures q == r
  {
    assert Pairs.PairOk(s, d);
    assert NoRepeats(Users(s.rows, d));
    if q < r {
      DistinctUsersOneRow(s.rows, d, q, r);
    } else if r < q {
      DistinctUsersOneRow(s.rows, d, r, q);
    }
  }

  // ---------------------------------------------------------------------
  // The replay and the rows, call by call.

  ghost predicate ReplayOk(s: State, d: nat, u: nat, back: bool) {
    && (MemberByLog(s.events, d, u) ==> FirstActive(s.rows, d, u).Some?)
    && (FirstActive(s.rows, d, u).Some? && !MemberByLog(s.events, d, u) <==> back)
  }

  predicate Departed(event: Event, status: Status) {
    status != Active && (event.kind == LeftEvent || event.kind == RemovedEvent)
  }

  lemma PartEnds(s: State, d: nat, u: nat, status: Status, event: Event)
    requires Pairs.Inv(s) && Pairs.IsDirect(s, d) && Departed(event, status) && event.conv == d && event.target == u
    ensures ReplayOk(Part(s, d, u, status, event), d, u, false)
  {
    AppendEvent(s.events, event, d, u);
    var t := Part(s, d, u, status, event);
    var r := FirstActive(t.rows, d, u);
    if r.Some? {
      var was := FirstActive(s.rows, d, u);
      assert ActiveRow(s.rows[r.value], d, u);
      OneRow(s, d, r.value, was.value);
    }
  }

  lemma PartOfAnother(s: State, conv: nat, user: nat, status: Status, event: Event, d: nat, u: nat, back: bool)
    requires ReplayOk(s, d, u, back) && Departed(event, status) && event.conv == conv && event.target == user
    requires !(conv == d && user == u)
    ensures ReplayOk(Part(s, conv, user, status, event), d, u, back)
  {
    AppendEvent(s.events, event, d, u);
    SameActive(s.rows, Part(s, conv, user, status, event).rows, d, u);
  }

  lemma SendBringsBack(s: State, op: Op, d: nat, u: nat, back: bool)
    requires Pairs.Inv(s) && ReplayOk(s, d, u, back) && BringsBack(s, op, d, u)
    ensures ReplayOk(Step(s, op), d, u, true)
  {
    var q: nat :| q < |s.rows| && s.rows[q].user == u && Returns(s.rows[q], d, op.user);
    var was := FirstActive(s.rows, d, u);
    if was.Some? {
      OneRow(s, d, q, was.value);
    }
    SendRestores(s, op, q);
    assert ActiveRow(Step(s, op).rows[q], d, u);
  }

  // Whatever becomes of the send, the row is active again and no event is recorded.
  lemma SendRestores(s: State, op: Op, q: nat)
    requires op.Send? && Pairs.IsDirect(s, op.conv) && !(op.text == "" && op.attachment == NoAttachment)
    requires FirstActive(s.rows, op.conv, op.user).Some? && q < |s.rows| && Returns(s.rows[q], op.conv, op.user)
    ensures Step(s, op).events == s.events && |Step(s, op).rows| == |s.rows|
    ensures Step(s, op).rows[q].status == Active && Step(s, op).rows[q].user == s.rows[q].user
    ensures Step(s, op).rows[q].conv == op.conv
  {
  }

  lemma SendLeavesOthers(s: State, op: Op, r: nat, d: nat, u: nat)
    requires op.Send? && r < |s.rows| && !BringsBack(s, op, d, u)
    ensures Step(s, op).events == s.events && |Step(s, op).rows| == |s.rows|
    ensures ActiveRow(Step(s, op).rows[r], d, u) <==> ActiveRow(s.rows[r], d, u)
  {
  }

  lemma SendOfAnother(s: State, op: Op, d: nat, u: nat, back: bool)
    requires ReplayOk(s, d, u, back) && op.Send? && !BringsBack(s, op, d, u)
    ensures ReplayOk(Step(s, op), d, u, back)
  {
    if s.rows == [] {
      assert Step(s, op).rows == [];
    } else {
      forall r: nat | r < |s.rows|
        ensures |Step(s, op).rows| == |s.rows| && Step(s, op).events == s.events
        ensures ActiveRow(Step(s, op).rows[r], d, u) <==> ActiveRow(s.rows[r], d, u)
      {
        SendLeavesOthers(s, op, r, d, u);
      }
      SendLeavesOthers(s, op, 0, d, u);
      SameActive(s.rows, Step(s, op).rows, d, u);
    }
  }

  lemma CreateOfAnother(s: State, title: Option<string>, kind: Kind, creator: nat, others: seq<nat>, d: nat, u: nat, back: bool)
    requires ReplayOk(s, d, u, back) && d != |s.conversations|
    ensures ReplayOk(Create(s, kind, title, creator, others), d, u, back)
  {
    AppendOtherEvents(s.events, NewEvents(|s.conversations|, creator, Dedup([creator] + others)), d, u);
    SameActive(s.rows, Create(s, kind, title, creator, others).rows, d, u);
  }

  lemma JoinOfAnother(s: State, conv: nat, user: nat, actor: nat, d: nat, u: nat, back: bool)
    requires ReplayOk(s, d, u, back) && conv != d
    ensures ReplayOk(Join(s, conv, user, actor), d, u, back)
  {
    AppendEvent(s.events, Event(conv, AddedEvent, user, Some(actor)), d, u);
    SameActive(s.rows, Join(s, conv, user, actor).rows, d, u);
  }

  lemma QuietKeeps(s: State, op: Op, d: nat, u: nat, back: bool)
    requires ReplayOk(s, d, u, back) && (op.BotSend? || op.MarkRead? || op.RequestUpload? || op.ConfirmUpload?)
    ensures ReplayOk(Step(s, op), d, u, back)
  {
    SameActive(s.rows, Step(s, op).rows, d, u);
  }

  lemma StepReplays(s: State, op: Op, d: nat, u: nat, back: bool)
    requires Pairs.Inv(s) && Pairs.NoDirectAdd(s, op) && Pairs.IsDirect(s, d) && ReplayOk(s, d, u, back)
    ensures ReplayOk(Step(s, op), d, u, BringsBack(s, op, d, u) || (back && !Departs(op, d, u)))
  {
    match op
    case OpenDirect(creator, target, title) => CreateOfAnother(s, title, Direct, creator, [target], d, u, back);
    case OpenGroup(creator, others, title) => CreateOfAnother(s, title, Group, creator, others, d, u, back);
    case AddMember(conv, user, actor) => JoinOfAnother(s, conv, user, actor, d, u, back);
    case RemoveMember(conv, user, actor) =>
      DepartReplays(s, conv, user, Removed, Event(conv, RemovedEvent, user, Some(actor)), d, u, back);
    case Leave(conv, user) => DepartReplays(s, conv, user, Left, Event(conv, LeftEvent, user, None), d, u, back);
    case Send(_, _, _, _, _, _, _) =>
      if BringsBack(s, op, d, u) {
        SendBringsBack(s, op, d, u, back);
      } else {
        SendOfAnother(s, op, d, u, back);
      }
    case _ => QuietKeeps(s, op, d, u, back);
  }

  lemma DepartReplays(s: State, conv: nat, user: nat, status: Status, event: Event, d: nat, u: nat, back: bool)
    requires Pairs.Inv(s) && Pairs.IsDirect(s, d) && ReplayOk(s, d, u, back)
    requires Departed(event, status) && event.conv == conv && event.target == user
    ensures ReplayOk(Part(s, conv, user, status, event), d, u, back && !(conv == d && user == u))
  {
    if conv == d && user == u {
      PartEnds(s, d, u, status, event);
    } else {
      PartOfAnother(s, conv, user, status, event, d, u, back);
    }
  }

  // A conversation is new: the log has its members.
  lemma NewDirectReplays(s: State, op: Op, d: nat, u: nat)
    requires ChatMembership.Inv(s) && Pairs.Inv(s) && !Pairs.IsDirect(s, d) && Pairs.IsDirect(Step(s, op), d)
    ensures ReplayOk(Step(s, op), d, u, false) && !BringsBack(s, op, d, u)
  {
    NewDirectIsLast(s, op, d);
    NewConversationOk(s, op.title, Direct, op.creator, [op.target], u);
  }

  lemma NewDirectIsLast(s: State, op: Op, d: nat)
    requires !Pairs.IsDirect(s, d) && Pairs.IsDirect(Step(s, op), d)
    ensures op.OpenDirect? && d == |s.conversations| && Step(s, op) == Create(s, Direct, op.title, op.creator, [op.target])
  {
  }

  lemma NeverDirectNotBack(run: seq<Op>, d: nat, u: nat)
    requires !Pairs.IsDirect(After(Init, run), d)
    ensures !BroughtBack(run, d, u)
  {
    forall i: nat | i < |run| ensures !BroughtBackAt(run, d, u, i) {
      if Pairs.IsDirect(After(Init, run[..i]), d) {
        assert run == run[..i] + run[i..];
        AfterConcat(Init, run[..i], run[i..]);
        StaysDirect(After(Init, run[..i]), run[i..], d);
      }
    }
  }

  lemma {:induction false} AfterConcat(s: State, a: seq<Op>, b: seq<Op>)
    ensures After(s, a + b) == After(After(s, a), b)
    decreases |a|
  {
    if a == [] {
      assert a + b == b;
    } else {
      assert (a + b)[1..] == a[1..] + b;
      AfterConcat(Step(s, a[0]), a[1..], b);
    }
  }

  lemma StepKeepsConversations(s: State, op: Op)
    ensures s.conversations <= Step(s, op).conversations
  {
  }

  lemma {:induction false} StaysDirect(s: State, run: seq<Op>, d: nat)
    requires Pairs.IsDirect(s, d)
    ensures Pairs.IsDirect(After(s, run), d)
    decreases |run|
  {
    if run != [] {
      StepKeepsConversations(s, run[0]);
      StaysDirect(Step(s, run[0]), run[1..], d);
    }
  }

  // Every row has an event of its user.
  ghost predicate RowsHaveEvents(s: State) {
    forall r :: 0 <= r < |s.rows| ==> LastEvent(s.events, s.rows[r].conv, s.rows[r].user).Some?
  }

  lemma {:induction false} EventsStay(events: seq<Event>, more: seq<Event>, conv: nat, user: nat)
    requires LastEvent(events, conv, user).Some?
    ensures LastEvent(events + more, conv, user).Some?
    decreases |more|
  {
    if more == [] {
      assert events + more == events;
    } else {
      var front, last := more[..|more| - 1], more[|more| - 1];
      EventsStay(events, front, conv, user);
      assert events + more == (events + front) + [last];
      AppendEvent(events + front, last, conv, user);
    }
  }

  lemma CreateHasEvents(s: State, kind: Kind, title: Option<string>, creator: nat, others: seq<nat>)
    requires ChatMembership.Inv(s) && RowsHaveEvents(s)
    ensures RowsHaveEvents(Create(s, kind, title, creator, others))
  {
    var users := Dedup([creator] + others);
    var t := Create(s, kind, title, creator, others);
    forall r | 0 <= r < |t.rows| ensures LastEvent(t.events, t.rows[r].conv, t.rows[r].user).Some? {
      if r < |s.rows| {
        EventsStay(s.events, NewEvents(|s.conversations|, creator, users), s.rows[r].conv, s.rows[r].user);
      } else {
        assert t.rows[r].user == users[r - |s.rows|];
        NewMembers(s.events, |s.conversations|, creator, users, t.rows[r].user);
      }
    }
  }

  lemma JoinHasEvents(s: State, conv: nat, user: nat, actor: nat)
    requires RowsHaveEvents(s)
    ensures RowsHaveEvents(Join(s, conv, user, actor))
  {
    var e := Event(conv, AddedEvent, user, Some(actor));
    var t := Join(s, conv, user, actor);
    forall r | 0 <= r < |t.rows| ensures LastEvent(t.events, t.rows[r].conv, t.rows[r].user).Some? {
      AppendEvent(s.events, e, t.rows[r].conv, t.rows[r].user);
    }
  }

  lemma OthersAppendEvents(s: State, op: Op)
    requires !op.OpenDirect? && !op.OpenGroup? && !op.AddMember?
    ensures s.events <= Step(s, op).events
  {
  }

  lemma StepHasEvents(s: State, op: Op)
    requires ChatMembership.Inv(s) && RowsHaveEvents(s)
    ensures RowsHaveEvents(Step(s, op))
  {
    match op
    case OpenDirect(creator, target, title) => CreateHasEvents(s, Direct, title, creator, [target]);
    case OpenGroup(creator, others, title) => CreateHasEvents(s, Group, title, creator, others);
    case AddMember(conv, user, actor) => JoinHasEvents(s, conv, user, actor);
    case _ =>
      var t := Step(s, op);
      Pairs.OthersKeepKeys(s, op);
      OthersAppendEvents(s, op);
      forall r | 0 <= r < |t.rows| ensures LastEvent(t.events, t.rows[r].conv, t.rows[r].user).Some? {
        EventsStay(s.events, t.events[|s.events|..], s.rows[r].conv, s.rows[r].user);
        assert s.events + t.events[|s.events|..] == t.events;
      }
  }

  lemma {:induction false} RunHasEvents(s: State, run: seq<Op>)
    requires ChatMembership.Inv(s) && RowsHaveEvents(s) && AllowedRun(s, run)
    ensures RowsHaveEvents(After(s, run))
    decreases |run|
  {
    if run != [] {
      StepHasEvents(s, run[0]);
      ChatMembership.StepKeepsInv(s, run[0]);
      RunHasEvents(Step(s, run[0]), run[1..]);
    }
  }

  // After any run that adds nobody to a direct conversation: whoever replaying the
  // log makes a member is active; and a user is active whom it does not make a
  // member exactly if the other side's sending brought the user back and the user
  // has not departed since.
  lemma {:induction false} ReplayFailsIff(run: seq<Op>, d: nat, u: nat)
    requires Pairs.GoodRun(Init, run) && Pairs.IsDirect(After(Init, run), d)
    ensures var s := After(Init, run); MemberByLog(s.events, d, u) ==> FirstActive(s.rows, d, u).Some?
    ensures var s := After(Init, run);
        FirstActive(s.rows, d, u).Some? && !MemberByLog(s.events, d, u) <==> BroughtBack(run, d, u)
    decreases |run|
  {
    var n := |run| - 1;
    var front, op := run[..n], run[n];
    assert run == front + [op];
    AfterSnoc(Init, front, op);
    GoodSnoc(Init, front, op);
    BroughtBackSnoc(front, op, d, u);
    var s := After(Init, front);
    Pairs.RunKeepsInv(Init, front);
    if Pairs.IsDirect(s, d) {
      ReplayFailsIff(front, d, u);
      StepReplays(s, op, d, u, BroughtBack(front, d, u));
    } else {
      GoodIsAllowed(Init, front);
      ChatMembership.RunKeepsInv(Init, front);
      NeverDirectNotBack(front, d, u);
      NewDirectReplays(s, op, d, u);
    }
  }

  // What the log says of such a user: left, or removed after having left.
  lemma BroughtBackLooksGone(run: seq<Op>, d: nat, u: nat)
    requires Pairs.GoodRun(Init, run) && Pairs.IsDirect(After(Init, run), d) && BroughtBack(run, d, u)
    ensures var last := LastEvent(After(Init, run).events, d, u); last == Some(LeftEvent) || last == Some(RemovedEvent)
  {
    ReplayFailsIff(run, d, u);
    GoodIsAllowed(Init, run);
    RunHasEvents(Init, run);
    var s := After(Init, run);
    var r := FirstActive(s.rows, d, u).value;
    assert s.rows[r].conv == d && s.rows[r].user == u;
    var last := LastEvent(s.events, s.rows[r].conv, s.rows[r].user);
    assert last.Some?;
    assert last.value == LeftEvent || last.value == RemovedEvent || MemberByLog(s.events, d, u);
  }

  // ---------------------------------------------------------------------
  // The failure is real, in every direct conversation two active users are in: one
  // of them leaves, and the other sends a text, whatever becomes of it.

  lemma {:induction false} GoodLonger(s: State, run: seq<Op>, op: Op)
    requires Pairs.GoodRun(s, run) && Pairs.NoDirectAdd(After(s, run), op)
    ensures Pairs.GoodRun(s, run + [op])
    decreases |run|
  {
    if run == [] {
      assert (run + [op])[1..] == [];
    } else {
      assert (run + [op])[1..] == run[1..] + [op];
      GoodLonger(Step(s, run[0]), run[1..], op);
    }
  }

  predicate BothActive(s: State, d: nat, a: nat, b: nat) {
    Pairs.IsDirect(s, d) && a != b && FirstActive(s.rows, d, a).Some? && FirstActive(s.rows, d, b).Some?
  }

  lemma LeavingOne(s: State, d: nat, a: nat, b: nat)
    requires Pairs.Inv(s) && BothActive(s, d, a, b)
    ensures var t := Step(s, Leave(d, b));
        && Pairs.IsDirect(t, d) && FirstActive(t.rows, d, a).Some? && LastEvent(t.events, d, b) == Some(LeftEvent)
        && exists q: nat :: q < |t.rows| && t.rows[q].user == b && Returns(t.rows[q], d, a)
  {
    var t := Step(s, Leave(d, b));
    var r := FirstActive(s.rows, d, b).value;
    AppendEvent(s.events, Event(d, LeftEvent, b, None), d, b);
    SameActive(s.rows, t.rows, d, a);
    assert t.rows[r].user == b && Returns(t.rows[r], d, a);
  }

  lemma SendBringsBackLeaver(before: seq<Op>, d: nat, a: nat, b: nat, op: Op)
    requires Pairs.GoodRun(Init, before) && BothActive(After(Init, before), d, a, b)
    requires op.Send? && op.conv == d && op.user == a && op.text != ""
    ensures var run := before + [Leave(d, b)] + [op]; var s := After(Init, run);
        Pairs.GoodRun(Init, run) && FirstActive(s.rows, d, b).Some? && LastEvent(s.events, d, b) == Some(LeftEvent)
  {
    var s := After(Init, before);
    Pairs.RunKeepsInv(Init, before);
    LeavingOne(s, d, a, b);
    AfterSnoc(Init, before, Leave(d, b));
    AfterSnoc(Init, before + [Leave(d, b)], op);
    GoodLonger(Init, before, Leave(d, b));
    GoodLonger(Init, before + [Leave(d, b)], op);
    var t := Step(s, Leave(d, b));
    var q: nat :| q < |t.rows| && t.rows[q].user == b && Returns(t.rows[q], d, a);
    SendRestores(t, op, q);
    assert ActiveRow(Step(t, op).rows[q], d, b);
  }

  // The send may be refused: for one, its attachment id is malformed.
  lemma RefusedAfterRestoring(s: State, op: Op)
    requires op.Send? && op.text != "" && FirstActive(s.rows, op.conv, op.user).Some?
    ensures op.attachment == BadId ==> Perform(s, op) == (Restore(s, op.conv, op.user), Err(InvalidAttachmentId))
  {
  }

  // Two users who open a conversation are such users.
  lemma OpenersAreActive(a: nat, b: nat, title: Option<string>)
    requires a != b
    ensures Pairs.GoodRun(Init, [OpenDirect(a, b, title)]) && BothActive(After(Init, [OpenDirect(a, b, title)]), 0, a, b)
  {
    var op := OpenDirect(a, b, title);
    assert [op][1..] == [];
    assert FindFrom(Init, a, b, 0) == None;
    NewConversationOk(Init, title, Direct, a, [b], a);
    NewConversationOk(Init, title, Direct, a, [b], b);
    NewMembers([], 0, a, Dedup([a] + [b]), a);
    NewMembers([], 0, a, Dedup([a] + [b]), b);
    assert [] + NewEvents(0, a, Dedup([a] + [b])) == NewEvents(0, a, Dedup([a] + [b]));
    assert After(Init, [op]) == Step(Init, op);
  }
}
