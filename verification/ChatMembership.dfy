// Group membership: the append-only event log against the participant rows.
module ChatMembership {
  import opened Options
  import opened ChatDomain

  function LastEvent(events: seq<Event>, conv: nat, user: nat): Option<EventKind> {
    if events == [] then None
    else
      var e := events[|events| - 1];
      if e.conv == conv && e.target == user then Some(e.kind) else LastEvent(events[..|events| - 1], conv, user)
  }

  // Replaying the log.
  predicate MemberByLog(events: seq<Event>, conv: nat, user: nat) {
    LastEvent(events, conv, user) == Some(JoinedEvent) || LastEvent(events, conv, user) == Some(AddedEvent)
  }

  predicate IsGroup(s: State, conv: nat) {
    conv < |s.conversations| && s.conversations[conv].kind == Group
  }

  ghost predicate UniqueActive(rows: seq<Row>, conv: nat, user: nat) {
    forall i, j :: 0 <= i < j < |rows| ==> !(ActiveRow(rows[i], conv, user) && ActiveRow(rows[j], conv, user))
  }

  ghost predicate MembershipOk(s: State, conv: nat, user: nat) {
    && (FirstActive(s.rows, conv, user).Some? <==> MemberByLog(s.events, conv, user))
    && UniqueActive(s.rows, conv, user)
  }

  ghost predicate InBounds(s: State) {
    && (forall i :: 0 <= i < |s.rows| ==> s.rows[i].conv < |s.conversations|)
    && forall i :: 0 <= i < |s.events| ==> s.events[i].conv < |s.conversations|
  }

  ghost predicate Inv(s: State) {
    InBounds(s) && forall conv: nat, user: nat :: IsGroup(s, conv) ==> MembershipOk(s, conv, user)
  }

  lemma AppendEvent(events: seq<Event>, e: Event, conv: nat, user: nat)
    ensures LastEvent(events + [e], conv, user) ==
        if e.conv == conv && e.target == user then Some(e.kind) else LastEvent(events, conv, user)
  {
    assert (events + [e])[..|events|] == events;
  }

  lemma {:induction false} AppendOtherEvents(events: seq<Event>, more: seq<Event>, conv: nat, user: nat)
    requires forall i :: 0 <= i < |more| ==> !(more[i].conv == conv && more[i].target == user)
    ensures LastEvent(events + more, conv, user) == LastEvent(events, conv, user)
  {
    if more == [] {
      assert events + more == events;
    } else {
      var front, last := more[..|more| - 1], more[|more| - 1];
      AppendOtherEvents(events, front, conv, user);
      assert events + more == (events + front) + [last];
      AppendEvent(events + front, last, conv, user);
    }
  }

  lemma {:induction false} NoEvent(events: seq<Event>, conv: nat, user: nat)
    requires forall i :: 0 <= i < |events| ==> events[i].conv != conv
    ensures LastEvent(events, conv, user) == None
  {
    if events != [] {
      NoEvent(events[..|events| - 1], conv, user);
    }
  }

  // The events of a new conversation: one for each of its users.
  lemma {:induction false} NewMembers(events: seq<Event>, conv: nat, creator: nat, users: seq<nat>, user: nat)
    requires forall i :: 0 <= i < |events| ==> events[i].conv != conv
    ensures MemberByLog(events + NewEvents(conv, creator, users), conv, user) <==> user in users
  {
    if users == [] {
      assert events + NewEvents(conv, creator, users) == events;
      NoEvent(events, conv, user);
    } else {
      var front, last := users[..|users| - 1], NewEvents(conv, creator, users)[|users| - 1];
      NewMembers(events, conv, creator, front, user);
      assert users == front + [users[|users| - 1]];
      assert events + NewEvents(conv, creator, users) == (events + NewEvents(conv, creator, front)) + [last];
      AppendEvent(events + NewEvents(conv, creator, front), last, conv, user);
    }
  }

  // Rows of other conversations and users, and the unread counters, do not matter.
  lemma SameActive(a: seq<Row>, b: seq<Row>, conv: nat, user: nat)
    requires |a| <= |b| && forall i :: 0 <= i < |b| ==> (ActiveRow(b[i], conv, user) <==> i < |a| && ActiveRow(a[i], conv, user))
    ensures FirstActive(a, conv, user).Some? <==> FirstActive(b, conv, user).Some?
    ensures UniqueActive(a, conv, user) ==> UniqueActive(b, conv, user)
  {
    var x, y := FirstActive(a, conv, user), FirstActive(b, conv, user);
    if x.Some? {
      assert ActiveRow(b[x.value], conv, user);
    }
    if y.Some? {
      assert ActiveRow(a[y.value], conv, user);
    }
  }

  lemma NewConversationOk(s: State, title: Option<string>, kind: Kind, creator: nat, others: seq<nat>, user: nat)
    requires Inv(s)
    ensures MembershipOk(Create(s, kind, title, creator, others), |s.conversations|, user)
  {
    var t := Create(s, kind, title, creator, others);
    var users := Dedup([creator] + others);
    var conv := |s.conversations|;
    NewMembers(s.events, conv, creator, users, user);
    forall i | 0 <= i < |t.rows| && t.rows[i].conv == conv ensures i >= |s.rows| && t.rows[i].user == users[i - |s.rows|] {
    }
    var found := FirstActive(t.rows, conv, user);
    if user in users {
      var k :| 0 <= k < |users| && users[k] == user;
      assert ActiveRow(t.rows[|s.rows| + k], conv, user);
    }
  }

  lemma CreateKeeps(s: State, title: Option<string>, kind: Kind, creator: nat, others: seq<nat>)
    requires Inv(s)
    ensures Inv(Create(s, kind, title, creator, others))
  {
    var t := Create(s, kind, title, creator, others);
    var users := Dedup([creator] + others);
    forall conv: nat, user: nat | IsGroup(t, conv) ensures MembershipOk(t, conv, user) {
      if conv == |s.conversations| {
        NewConversationOk(s, title, kind, creator, others, user);
      } else {
        assert IsGroup(s, conv) && MembershipOk(s, conv, user);
        AppendOtherEvents(s.events, NewEvents(|s.conversations|, creator, users), conv, user);
        SameActive(s.rows, t.rows, conv, user);
      }
    }
  }

  lemma JoinKeeps(s: State, conv: nat, user: nat, actor: nat)
    requires Inv(s) && conv < |s.conversations| && FirstActive(s.rows, conv, user).None?
    ensures Inv(Join(s, conv, user, actor))
  {
    var t := Join(s, conv, user, actor);
    forall c: nat, u: nat | IsGroup(t, c) ensures MembershipOk(t, c, u) {
      assert IsGroup(s, c) && MembershipOk(s, c, u);
      AppendEvent(s.events, Event(conv, AddedEvent, user, Some(actor)), c, u);
      if c == conv && u == user {
        assert ActiveRow(t.rows[|s.rows|], c, u);
      } else {
        SameActive(s.rows, t.rows, c, u);
      }
    }
  }

  predicate Ends(status: Status, event: Event) {
    status != Active && event.kind != JoinedEvent && event.kind != AddedEvent
  }

  lemma PartKeeps(s: State, conv: nat, user: nat, status: Status, event: Event)
    requires Inv(s) && conv < |s.conversations| && Ends(status, event) && event.conv == conv && event.target == user
    ensures Inv(Part(s, conv, user, status, event))
  {
    var t := Part(s, conv, user, status, event);
    forall c: nat, u: nat | IsGroup(t, c) ensures MembershipOk(t, c, u) {
      assert IsGroup(s, c) && MembershipOk(s, c, u);
      AppendEvent(s.events, event, c, u);
      if !(c == conv && u == user) {
        SameActive(s.rows, t.rows, c, u);
      }
    }
  }

  // A change that leaves the groups' memberships alone.
  ghost predicate GroupsKept(s: State, t: State) {
    && t.conversations == s.conversations && t.events == s.events && |t.rows| == |s.rows|
    && forall i :: 0 <= i < |s.rows| ==>
        t.rows[i].conv == s.rows[i].conv && t.rows[i].user == s.rows[i].user
        && (IsGroup(s, s.rows[i].conv) ==> t.rows[i].status == s.rows[i].status)
  }

  lemma KeptKeeps(s: State, t: State)
    requires Inv(s) && GroupsKept(s, t)
    ensures Inv(t)
  {
    forall c: nat, u: nat | IsGroup(t, c) ensures MembershipOk(t, c, u) {
      assert IsGroup(s, c) && MembershipOk(s, c, u);
      SameActive(s.rows, t.rows, c, u);
    }
  }

  lemma SendKeepsGroups(s: State, op: Op)
    requires op.Send?
    ensures GroupsKept(s, Step(s, op))
  {
  }

  lemma OthersKeepGroups(s: State, op: Op)
    requires op.BotSend? || op.MarkRead? || op.RequestUpload? || op.ConfirmUpload?
    ensures GroupsKept(s, Step(s, op))
  {
  }

  lemma StepKeepsInv(s: State, op: Op)
    requires Inv(s) && Allowed(s, op)
    ensures Inv(Step(s, op))
  {
    match op
    case OpenDirect(creator, target, title) => CreateKeeps(s, title, Direct, creator, [target]);
    case OpenGroup(creator, others, title) => CreateKeeps(s, title, Group, creator, others);
    case AddMember(conv, user, actor) =>
      if FirstActive(s.rows, conv, user).None? {
        JoinKeeps(s, conv, user, actor);
      }
    case RemoveMember(conv, user, actor) => PartKeeps(s, conv, user, Removed, Event(conv, RemovedEvent, user, Some(actor)));
    case Leave(conv, user) => PartKeeps(s, conv, user, Left, Event(conv, LeftEvent, user, None));
    case Send(_, _, _, _, _, _, _) =>
      SendKeepsGroups(s, op);
      KeptKeeps(s, Step(s, op));
    case _ =>
      OthersKeepGroups(s, op);
      KeptKeeps(s, Step(s, op));
  }

  lemma {:induction false} RunKeepsInv(s: State, run: seq<Op>)
    requires Inv(s) && AllowedRun(s, run)
    ensures Inv(After(s, run))
    decreases |run|
  {
    if run != [] {
      StepKeepsInv(s, run[0]);
      RunKeepsInv(Step(s, run[0]), run[1..]);
    }
  }

  // In a group, after any calls, a user has at most one active row, and has one
  // exactly if the last event about them is that they joined or were added.
  lemma LogIsMembership(run: seq<Op>, conv: nat, user: nat)
    requires AllowedRun(Init, run) && IsGroup(After(Init, run), conv)
    ensures MembershipOk(After(Init, run), conv, user)
  {
    RunKeepsInv(Init, run);
  }

  // The log only grows.
  lemma EventsAppended(s: State, op: Op)
    ensures s.events <= Step(s, op).events
  {
  }
}
