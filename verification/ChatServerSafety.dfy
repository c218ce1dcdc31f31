// What every interleaving of the server's threads keeps.
module ChatServerSafety {
  import opened OnlineTable
  import opened ChatServer

  // ---------------------------------------------------------------------
  // Invariants.

  // Connection c has a claim on the name: it is logged in under it, or holds its
  // slot on the way to being so.
  predicate Owns(s: Server, c: nat, name: string) {
    && c in s.sessions && !s.sessions[c].phase.Closing?
    && var x := s.sessions[c];
    (x.authenticated && x.username == name) || x.phase == Registered(name)
  }

  ghost predicate DescriptorsInv(s: Server) {
    && (forall c :: c in s.sessions ==> c < s.next)
    && (forall c, d :: c in s.sessions && d in s.sessions && c != d ==> s.sessions[c].fd != s.sessions[d].fd)
  }

  // Every claim is backed by the name's slot, and the slot holds the claimant's
  // own descriptor.
  ghost predicate TableInv(s: Server) {
    && |s.table| <= MaxOnlineUsers
    && forall c, name :: Owns(s, c, name) ==> name in s.table && s.table[name] == s.sessions[c].fd
  }

  // The username is set exactly while authenticated, and is never the name
  // being registered.
  predicate SessionOk(x: Session) {
    && (x.authenticated <==> x.username != "")
    && (x.phase.Checked? ==> x.phase.name != "")
    && (x.phase.Registered? ==> x.phase.name != "" && x.phase.name != x.username)
  }

  // Acks answer the requests read, in order, and at most the last one is due.
  predicate AcksOk(x: Session) {
    if x.phase.Checked? || x.phase.Registered? || x.phase.Sending? then
      |x.requests| == |x.acks| + 1 && x.acks <= x.requests
    else x.acks == x.requests
  }

  ghost predicate SessionsInv(s: Server) {
    forall c :: c in s.sessions ==> SessionOk(s.sessions[c]) && AcksOk(s.sessions[c])
  }

  // The noted holder of a looked-up descriptor still holds it while it lives.
  ghost predicate TargetsInv(s: Server) {
    forall c :: c in s.targets && c in s.sessions && s.sessions[c].phase.Sending? ==>
      s.targets[c] < s.next
      && (s.targets[c] in s.sessions ==> s.sessions[s.targets[c]].fd == s.sessions[c].phase.fd)
  }

  ghost predicate Inv(s: Server) {
    DescriptorsInv(s) && TableInv(s) && SessionsInv(s) && TargetsInv(s)
  }

  predicate Moves(s: Server, a: Action) {
    Enabled(s, a) && !a.Accept? && !a.Close?
  }

  ghost predicate MovedOk(s: Server, a: Action)
    requires Moves(s, a)
  {
    Moved(s, a).fd == s.sessions[Actor(s, a)].fd && SessionOk(Moved(s, a)) && AcksOk(Moved(s, a))
  }

  lemma ServedOk(x: Session, id: nat)
    requires AcksOk(x) && (x.phase.Idle? || x.phase.Leaving?)
    ensures var y := Served(x, id); y == x.(requests := x.requests + [id], acks := x.acks + [id]) && AcksOk(y)
    ensures Read(x, id).acks == x.acks <= Read(x, id).requests
  {
  }

  lemma MovedByLogin(s: Server, a: Action)
    requires Moves(s, a) && SessionsInv(s) && (a.LoginCheck? || a.LoginRegister? || a.LoginFinish?)
    requires a.LoginRegister? && s.sessions[a.c].username != "" ==> s.sessions[a.c].username in s.table
    ensures MovedOk(s, a)
  {
    if a.LoginCheck? {
      ServedOk(s.sessions[a.c].(authenticated := false, username := ""), a.id);
    }
  }

  lemma MovedByChat(s: Server, a: Action)
    requires Moves(s, a) && SessionsInv(s) && (a.SelectPeer? || a.ChatLookup? || a.ChatWrite?)
    ensures MovedOk(s, a)
  {
    var x := s.sessions[a.c];
    if a.SelectPeer? {
      ServedOk(x, a.id);
      ServedOk(x.(selectedPeer := a.peer), a.id);
    } else if a.ChatLookup? {
      ServedOk(x, a.chat.id);
    }
  }

  lemma MovedByOther(s: Server, a: Action)
    requires Moves(s, a) && SessionsInv(s)
    requires a.OtherRequest? || a.Logout? || a.HangUp? || a.Unregister?
    ensures MovedOk(s, a)
  {
    if a.OtherRequest? || a.Logout? {
      ServedOk(s.sessions[a.c], a.id);
    }
  }

  lemma MovedSession(s: Server, a: Action)
    requires Moves(s, a) && SessionsInv(s)
    requires a.LoginRegister? && s.sessions[a.c].username != "" ==> s.sessions[a.c].username in s.table
    ensures MovedOk(s, a)
  {
    if a.LoginCheck? || a.LoginRegister? || a.LoginFinish? {
      MovedByLogin(s, a);
    } else if a.SelectPeer? || a.ChatLookup? || a.ChatWrite? {
      MovedByChat(s, a);
    } else {
      MovedByOther(s, a);
    }
  }

  lemma StepKeepsDescriptors(s: Server, a: Action)
    requires DescriptorsInv(s) && TableInv(s) && SessionsInv(s) && Enabled(s, a)
    ensures DescriptorsInv(Next(s, a)) && SessionsInv(Next(s, a))
    ensures forall d :: d in Next(s, a).sessions && d in s.sessions ==> Next(s, a).sessions[d].fd == s.sessions[d].fd
  {
    if Moves(s, a) {
      if a.LoginRegister? {
        assert s.sessions[a.c].authenticated ==> Owns(s, a.c, s.sessions[a.c].username);
      }
      MovedSession(s, a);
    }
  }

  lemma StepKeepsTargets(s: Server, a: Action)
    requires DescriptorsInv(s) && TableInv(s) && SessionsInv(s) && TargetsInv(s) && Enabled(s, a)
    ensures TargetsInv(Next(s, a))
  {
    StepKeepsDescriptors(s, a);
    var t := Next(s, a);
    forall c | c in t.targets && c in t.sessions && t.sessions[c].phase.Sending?
      ensures t.targets[c] < t.next
      ensures t.targets[c] in t.sessions ==> t.sessions[t.targets[c]].fd == t.sessions[c].phase.fd
    {
      NewTarget(s, a, c);
    }
  }

  // A connection in the sending phase either was there already, or has just
  // looked its descriptor up.
  lemma NewTarget(s: Server, a: Action, c: nat)
    requires Enabled(s, a) && DescriptorsInv(s)
    requires var t := Next(s, a); c in t.targets && c in t.sessions && t.sessions[c].phase.Sending?
    ensures var t := Next(s, a);
      || (c in s.targets && c in s.sessions && s.sessions[c].phase == t.sessions[c].phase && t.targets[c] == s.targets[c])
      || HoldsFd(s, t.targets[c], t.sessions[c].phase.fd)
  {
  }

  // A name has one claimant, because claimants of one name share a descriptor.
  lemma OneOwner(s: Server, c: nat, d: nat, name: string)
    requires DescriptorsInv(s) && TableInv(s) && Owns(s, c, name) && Owns(s, d, name)
    ensures c == d
  {
  }

  // A claim after the step was a claim before it, except for the slot just taken.
  lemma ClaimsAfter(s: Server, a: Action, d: nat, name: string)
    requires Enabled(s, a) && Owns(Next(s, a), d, name) && SessionsInv(s)
    ensures Owns(s, d, name)
      || (a == LoginRegister(d) && s.sessions[d].phase == Checked(name) && CanRegister(s, name))
  {
  }

  lemma StepKeepsTable(s: Server, a: Action)
    requires Inv(s) && Enabled(s, a)
    ensures TableInv(Next(s, a))
  {
    StepKeepsDescriptors(s, a);
    var t := Next(s, a);
    forall d, name | Owns(t, d, name) ensures name in t.table && t.table[name] == t.sessions[d].fd {
      ClaimsAfter(s, a, d, name);
      if a.Unregister? && s.sessions[a.c].username == name && name != "" {
        assert Owns(s, a.c, name);
        OneOwner(s, a.c, d, name);
      }
    }
  }

  ghost predicate EnabledRun(s: Server, run: seq<Action>)
    decreases |run|
  {
    run == [] || (Enabled(s, run[0]) && EnabledRun(Next(s, run[0]), run[1..]))
  }

  ghost function After(s: Server, run: seq<Action>): Server
    requires EnabledRun(s, run)
    decreases |run|
  {
    if run == [] then s else After(Next(s, run[0]), run[1..])
  }

  lemma StepKeepsInv(s: Server, a: Action)
    requires Inv(s) && Enabled(s, a)
    ensures Inv(Next(s, a))
  {
    StepKeepsDescriptors(s, a);
    StepKeepsTargets(s, a);
    StepKeepsTable(s, a);
  }

  lemma {:induction false} RunKeepsInv(s: Server, run: seq<Action>)
    requires Inv(s) && EnabledRun(s, run)
    ensures Inv(After(s, run))
    decreases |run|
  {
    if run != [] {
      StepKeepsInv(s, run[0]);
      RunKeepsInv(Next(s, run[0]), run[1..]);
    }
  }

  // ---------------------------------------------------------------------
  // One session per name, and at most 32 of them.

  predicate LoggedIn(s: Server, c: nat) {
    c in s.sessions && !s.sessions[c].phase.Closing? && s.sessions[c].authenticated
  }

  lemma NoSharedUsername(s: Server, c: nat, d: nat)
    requires Inv(s) && LoggedIn(s, c) && LoggedIn(s, d) && c != d
    ensures s.sessions[c].username != s.sessions[d].username
    ensures s.table[s.sessions[c].username] == s.sessions[c].fd
  {
    assert Owns(s, c, s.sessions[c].username) && Owns(s, d, s.sessions[d].username);
  }

  lemma {:induction false} AtMost32LoggedIn(s: Server, some: set<nat>, names: set<string>)
    requires Inv(s) && names <= s.table.Keys
    requires forall c :: c in some ==> LoggedIn(s, c) && s.sessions[c].username in names
    ensures |some| <= |names| && |names| <= MaxOnlineUsers
    decreases |some|
  {
    KeysCount(s.table, names);
    if some != {} {
      var c :| c in some;
      var name := s.sessions[c].username;
      forall d | d in some - {c} ensures s.sessions[d].username in names - {name} {
        NoSharedUsername(s, d, c);
      }
      AtMost32LoggedIn(s, some - {c}, names - {name});
    }
  }

  lemma KeysCount(table: map<string, nat>, names: set<string>)
    requires names <= table.Keys
    ensures |names| <= |table|
  {
    assert table.Keys == names + (table.Keys - names);
  }

  ghost function AllLoggedIn(s: Server): set<nat> {
    set c | c in s.sessions && LoggedIn(s, c)
  }

  // In every interleaving of the connection threads: no two logged-in sessions
  // share a name, each name is mapped to its session's own descriptor, at most 32
  // are logged in, and every request read has its one ack, in order, but for the
  // one being served.
  lemma EveryRunIsSafe(run: seq<Action>)
    requires EnabledRun(Init, run)
    ensures var s := After(Init, run);
        forall c, d :: LoggedIn(s, c) && LoggedIn(s, d) && c != d ==> s.sessions[c].username != s.sessions[d].username
    ensures var s := After(Init, run);
        forall c :: LoggedIn(s, c) ==>
            s.sessions[c].username in s.table && s.table[s.sessions[c].username] == s.sessions[c].fd
    ensures |AllLoggedIn(After(Init, run))| <= MaxOnlineUsers
    ensures forall c :: c in After(Init, run).sessions ==> AcksOk(After(Init, run).sessions[c])
  {
    var s := After(Init, run);
    RunKeepsInv(Init, run);
    forall c, d | LoggedIn(s, c) && LoggedIn(s, d) && c != d ensures s.sessions[c].username != s.sessions[d].username {
      NoSharedUsername(s, c, d);
    }
    forall c | LoggedIn(s, c) ensures s.sessions[c].username in s.table && s.table[s.sessions[c].username] == s.sessions[c].fd {
      assert Owns(s, c, s.sessions[c].username);
    }
    AtMost32LoggedIn(s, AllLoggedIn(s), s.table.Keys);
  }

  // ---------------------------------------------------------------------
  // Leaked slots: names in the table that no connection will give back.

  ghost predicate Owned(s: Server, name: string) {
    exists c :: Owns(s, c, name)
  }

  ghost function Leaked(s: Server): set<string> {
    set name | name in s.table && !Owned(s, name)
  }

  // A logged-in connection whose next login fails validation, or takes a slot
  // under another name, forgets the name it holds.
  predicate Leaky(s: Server, a: Action) {
    Moves(s, a) && s.sessions[Actor(s, a)].authenticated && (a.LoginFinish? || (a.LoginCheck? && !a.valid))
  }

  lemma ClaimsKept(s: Server, a: Action, d: nat, name: string)
    requires Enabled(s, a) && Owns(s, d, name) && DescriptorsInv(s)
    ensures Owns(Next(s, a), d, name)
      || (d == Actor(s, a) && s.sessions[d].username == name && (Leaky(s, a) || a.Unregister?))
  {
  }

  lemma ForgottenName(s: Server, a: Action)
    requires Inv(s) && Leaky(s, a)
    ensures var name := s.sessions[Actor(s, a)].username;
      name in Next(s, a).table && !Owned(Next(s, a), name)
  {
    var c, t := Actor(s, a), Next(s, a);
    var name := s.sessions[c].username;
    assert Owns(s, c, name);
    forall d ensures !Owns(t, d, name) {
      if Owns(t, d, name) {
        ClaimsAfter(s, a, d, name);
        OneOwner(s, c, d, name);
      }
    }
  }

  lemma LeaverOwnsName(s: Server, c: nat)
    requires SessionsInv(s) && InPhase(s, c, Leaving)
    ensures s.sessions[c].username != "" ==> Owns(s, c, s.sessions[c].username)
  {
  }

  lemma LeakedStays(s: Server, a: Action, name: string)
    requires Inv(s) && Enabled(s, a) && name in Leaked(s)
    ensures name in Leaked(Next(s, a))
  {
    var t := Next(s, a);
    forall d ensures !Owns(t, d, name) {
      if Owns(t, d, name) {
        ClaimsAfter(s, a, d, name);
      }
    }
    if a.Unregister? {
      LeaverOwnsName(s, a.c);
    }
  }

  lemma NewNameIsOwned(s: Server, a: Action, name: string)
    requires Enabled(s, a)
    ensures name !in s.table && name in Next(s, a).table ==> Owned(Next(s, a), name)
  {
    if name !in s.table && name in Next(s, a).table {
      assert Owns(Next(s, a), Actor(s, a), name);
    }
  }

  lemma LeakedIsOldOrForgotten(s: Server, a: Action, name: string)
    requires Inv(s) && Enabled(s, a) && name in Leaked(Next(s, a))
    ensures name in Leaked(s) || (Leaky(s, a) && name == s.sessions[Actor(s, a)].username)
  {
    NewNameIsOwned(s, a, name);
    if Owned(s, name) {
      var d :| Owns(s, d, name);
      ClaimsKept(s, a, d, name);
    }
  }

  // A step leaks the forgotten name if it is leaky, and no leak is ever undone.
  lemma LeakedAfterStep(s: Server, a: Action)
    requires Inv(s) && Enabled(s, a)
    ensures Leaked(Next(s, a)) == Leaked(s) + if Leaky(s, a) then {s.sessions[Actor(s, a)].username} else {}
  {
    var extra := if Leaky(s, a) then {s.sessions[Actor(s, a)].username} else {};
    forall name | name in Leaked(s) ensures name in Leaked(Next(s, a)) {
      LeakedStays(s, a, name);
    }
    forall name | name in Leaked(Next(s, a)) ensures name in Leaked(s) + extra {
      LeakedIsOldOrForgotten(s, a, name);
    }
    if Leaky(s, a) {
      ForgottenName(s, a);
    }
  }

  ghost predicate HasLeakyStep(s: Server, run: seq<Action>)
    requires EnabledRun(s, run)
    decreases |run|
  {
    run != [] && (Leaky(s, run[0]) || HasLeakyStep(Next(s, run[0]), run[1..]))
  }

  lemma {:induction false} LeakedAfterRun(s: Server, run: seq<Action>)
    requires Inv(s) && EnabledRun(s, run)
    ensures Leaked(s) <= Leaked(After(s, run))
    ensures Leaked(s) == {} ==> (Leaked(After(s, run)) == {} <==> !HasLeakyStep(s, run))
    decreases |run|
  {
    if run != [] {
      StepKeepsInv(s, run[0]);
      LeakedAfterStep(s, run[0]);
      LeakedAfterRun(Next(s, run[0]), run[1..]);
    }
  }

  // From the start of the server: slots are lost exactly by the leaky logins.
  // Without one, the table is the logged-in connections and those about to be,
  // so it is empty once every connection has closed.
  lemma NoSlotLostIffNoLeakyLogin(run: seq<Action>)
    requires EnabledRun(Init, run)
    ensures Inv(After(Init, run))
    ensures Leaked(After(Init, run)) == {} <==> !HasLeakyStep(Init, run)
    ensures After(Init, run).sessions == map[] ==>
      (After(Init, run).table == map[] <==> !HasLeakyStep(Init, run))
  {
    assert Inv(Init) && Leaked(Init) == {};
    RunKeepsInv(Init, run);
    LeakedAfterRun(Init, run);
    var t := After(Init, run);
    if t.sessions == map[] {
      assert Leaked(t) == t.table.Keys;
    }
  }

  // Names in the table and claimants are in bijection.
  lemma TableIsTheClaims(s: Server, name: string)
    requires Inv(s) && Leaked(s) == {}
    ensures name in s.table <==> Owned(s, name)
    ensures forall c, d :: Owns(s, c, name) && Owns(s, d, name) ==> c == d
    ensures forall c :: Owns(s, c, name) ==> name in s.table && s.table[name] == s.sessions[c].fd
  {
    assert name in s.table && !Owned(s, name) <==> name in Leaked(s);
    if Owned(s, name) {
      var c :| Owns(s, c, name);
    }
  }

  // ---------------------------------------------------------------------
  // Delivery.

  // The lookup of a chat request notes the peer's own connection exactly when
  // the peer's slot is not a leaked one.
  lemma LookupFindsPeer(s: Server, c: nat, chat: Chat)
    requires Inv(s) && Enabled(s, ChatLookup(c, chat))
    requires Moved(s, ChatLookup(c, chat)).phase.Sending?
    ensures var t := Next(s, ChatLookup(c, chat));
      (c in t.targets && Owns(s, t.targets[c], chat.peer)) <==> chat.peer !in Leaked(s)
  {
    if Owned(s, chat.peer) {
      var d :| Owns(s, d, chat.peer);
      assert HoldsFd(s, d, s.table[chat.peer]);
    }
  }

  predicate Pending(s: Server, c: nat, name: string, chat: Chat, fd: nat, target: nat) {
    InPhase(s, c, Sending(chat, fd)) && s.sessions[c].username == name && c in s.targets && s.targets[c] == target
  }

  predicate NotWritten(run: seq<Action>, c: nat) {
    forall a :: a in run ==> a != ChatWrite(c)
  }

  lemma NotWrittenTail(run: seq<Action>, c: nat)
    requires run != [] && NotWritten(run, c)
    ensures run[0] != ChatWrite(c) && NotWritten(run[1..], c)
  {
    assert run[0] in run;
    assert forall a :: a in run[1..] ==> a in run;
  }

  // The steps of other connections leave a pending delivery as it is.
  lemma OthersLeavePending(s: Server, a: Action, c: nat, name: string, chat: Chat, fd: nat, target: nat)
    requires Enabled(s, a) && DescriptorsInv(s) && a != ChatWrite(c) && Pending(s, c, name, chat, fd, target)
    ensures Pending(Next(s, a), c, name, chat, fd, target)
  {
  }

  lemma {:induction false} PendingDeliveryStays(s: Server, run: seq<Action>, c: nat, name: string, chat: Chat, fd: nat, target: nat)
    requires Inv(s) && EnabledRun(s, run) && NotWritten(run, c) && Pending(s, c, name, chat, fd, target)
    ensures Inv(After(s, run)) && Pending(After(s, run), c, name, chat, fd, target)
    decreases |run|
  {
    if run != [] {
      StepKeepsInv(s, run[0]);
      NotWrittenTail(run, c);
      OthersLeavePending(s, run[0], c, name, chat, fd, target);
      PendingDeliveryStays(Next(s, run[0]), run[1..], c, name, chat, fd, target);
    }
  }

  lemma HeldByOne(s: Server, target: nat, fd: nat)
    requires DescriptorsInv(s)
    ensures HoldsFd(s, target, fd) ==> Holders(s.sessions, fd) == {target}
  {
  }

  // The write is delivered to the connection that was the peer's when it was looked
  // up, and to no other, if and only if that connection has not been closed in
  // between: otherwise the descriptor belongs to nobody, or to whoever was given it
  // since.
  lemma ChatReachesPeer(s: Server, c: nat, chat: Chat, run: seq<Action>) returns (target: nat)
    requires Inv(s) && Enabled(s, ChatLookup(c, chat)) && chat.peer !in Leaked(s)
    requires Moved(s, ChatLookup(c, chat)).phase.Sending?
    requires EnabledRun(Next(s, ChatLookup(c, chat)), run) && NotWritten(run, c)
    ensures Owns(s, target, chat.peer)
    ensures var w, fd := After(Next(s, ChatLookup(c, chat)), run), s.table[chat.peer];
      && Enabled(w, ChatWrite(c))
      && Next(w, ChatWrite(c)).deliveries == w.deliveries + [Delivery(c, s.sessions[c].username, chat, fd, Holders(w.sessions, fd))]
      && (if target in w.sessions then Holders(w.sessions, fd) == {target} else target !in Holders(w.sessions, fd))
  {
    var a := ChatLookup(c, chat);
    LookupFindsPeer(s, c, chat);
    StepKeepsInv(s, a);
    target := Next(s, a).targets[c];
    PendingDeliveryStays(Next(s, a), run, c, s.sessions[c].username, chat, s.table[chat.peer], target);
    HeldByOne(After(Next(s, a), run), target, s.table[chat.peer]);
  }

  // Such a run: while connection 0 is between the lookup of "b" and the write,
  // connection 1 of "b" leaves and its descriptor goes to a stranger, who gets the
  // message.
  lemma DescriptorReused() returns (run: seq<Action>)
    ensures EnabledRun(Init, run)
    ensures var w := After(Init, run);
      w.deliveries == [Delivery(0, "a", ToB, 4, {2})] && 1 !in w.sessions && 2 in w.sessions && !w.sessions[2].authenticated
  {
    run := PeerReplaced();
    run := BothLogIn(run);
    StrangerGetsIt();
  }

  // "a" on descriptor 3 and "b" on descriptor 4, both idle.
  const Talking := Server(map[0 := Session(3, true, "a", "", Idle, [1], [1]), 1 := Session(4, true, "b", "", Idle, [1], [1])],
                          map["a" := 3, "b" := 4], 2, map[], [])

  lemma FirstServed(x: Session)
    requires x.requests == [] && x.acks == []
    ensures Served(x, 1) == x.(requests := [1], acks := [1])
  {
    assert Read(x, 1).requests == [1];
  }

  lemma BothLogIn(rest: seq<Action>) returns (run: seq<Action>)
    requires EnabledRun(Talking, rest)
    ensures EnabledRun(Init, run) && After(Init, run) == After(Talking, rest)
  {
    BothAreAccepted();
    FirstLogsIn();
    SecondLogsIn();
    run := LogIn(OneLoggedIn, 1, "b", rest);
    run := LogIn(BothAccepted, 0, "a", run);
    run := Cons(Next(Init, Accept(3)), Accept(4), run);
    run := Cons(Init, Accept(3), run);
  }

  const Stranger4 := Session(4, false, "", "", Idle, [], [])
  const BothAccepted := Server(map[0 := Session(3, false, "", "", Idle, [], []), 1 := Stranger4], map[], 2, map[], [])
  const OneLoggedIn := Server(map[0 := Session(3, true, "a", "", Idle, [1], [1]), 1 := Stranger4], map["a" := 3], 2, map[], [])

  lemma BothAreAccepted()
    ensures Next(Next(Init, Accept(3)), Accept(4)) == BothAccepted
  {
  }

  lemma FirstLogsIn()
    ensures LoggedInAs(BothAccepted, 0, "a") == OneLoggedIn
  {
    FirstServed(BothAccepted.sessions[0]);
  }

  lemma SecondLogsIn()
    ensures LoggedInAs(OneLoggedIn, 1, "b") == Talking
  {
    FirstServed(Stranger4);
  }

  const ToB := Chat(2, "b", "hello")

  const Asking := Talking.(sessions := Talking.sessions[0 := Session(3, true, "a", "", Sending(ToB, 4), [1, 2], [1])],
                           targets := map[0 := 1])

  lemma PeerLookedUp()
    ensures Enabled(Talking, ChatLookup(0, ToB)) && Next(Talking, ChatLookup(0, ToB)) == Asking
  {
    assert HoldsFd(Talking, 1, 4);
    var t := Next(Talking, ChatLookup(0, ToB));
    assert t.targets == map[0 := 1];
    assert t.sessions[0] == Asking.sessions[0];
  }

  const PeerGone := Server(map[0 := Asking.sessions[0]], map["a" := 3], 2, map[0 := 1], [])

  lemma PeerGoes(rest: seq<Action>) returns (run: seq<Action>)
    requires EnabledRun(PeerGone, rest)
    ensures EnabledRun(Asking, run) && After(Asking, run) == After(PeerGone, rest)
  {
    var s5 := Next(Asking, HangUp(1));
    var s6 := Next(s5, Unregister(1));
    assert Next(s6, Close(1)) == PeerGone;
    run := Cons(s6, Close(1), rest);
    run := Cons(s5, Unregister(1), run);
    run := Cons(Asking, HangUp(1), run);
  }

  const StrangerIn := Server(map[0 := Asking.sessions[0], 2 := Stranger4], map["a" := 3], 3, map[0 := 1], [])

  lemma StrangerGetsIt()
    ensures Enabled(PeerGone, Accept(4)) && Next(PeerGone, Accept(4)) == StrangerIn
    ensures Enabled(StrangerIn, ChatWrite(0)) && Next(StrangerIn, ChatWrite(0)).deliveries == [Delivery(0, "a", ToB, 4, {2})]
  {
    assert Holders(StrangerIn.sessions, 4) == {2};
  }

  lemma StrangerComes() returns (run: seq<Action>)
    ensures EnabledRun(PeerGone, run) && After(PeerGone, run) == Next(StrangerIn, ChatWrite(0))
  {
    StrangerGetsIt();
    run := Cons(StrangerIn, ChatWrite(0), []);
    run := Cons(PeerGone, Accept(4), run);
  }

  lemma PeerReplaced() returns (run: seq<Action>)
    ensures EnabledRun(Talking, run) && After(Talking, run) == Next(StrangerIn, ChatWrite(0))
  {
    run := StrangerComes();
    run := PeerGoes(run);
    PeerLookedUp();
    run := Cons(Talking, ChatLookup(0, ToB), run);
  }

  // A slot that is lost: the one connection logs in as "a", tries to log in again
  // and is refused, and closes.
  const Alone := Server(map[0 := Session(3, true, "a", "", Idle, [1], [1])], map["a" := 3], 1, map[], [])
  const Refused := Server(map[0 := Session(3, false, "", "", Idle, [1, 2], [1, 2])], map["a" := 3], 1, map[], [])
  const AllGone := Server(map[], map["a" := 3], 1, map[], [])

  lemma SecondLoginRefused()
    ensures Enabled(Alone, LoginCheck(0, 2, "a", false)) && Next(Alone, LoginCheck(0, 2, "a", false)) == Refused
  {
    var x := Alone.sessions[0].(authenticated := false, username := "");
    assert Read(x, 2).requests == [1, 2] && x.acks + [2] == [1, 2];
  }

  lemma RefusedCloses() returns (run: seq<Action>)
    ensures EnabledRun(Refused, run) && After(Refused, run) == AllGone
  {
    var s1 := Next(Refused, HangUp(0));
    var s2 := Next(s1, Unregister(0));
    assert Next(s2, Close(0)) == AllGone;
    run := Cons(s2, Close(0), []);
    run := Cons(s1, Unregister(0), run);
    run := Cons(Refused, HangUp(0), run);
  }

  const First := Server(map[0 := Session(3, false, "", "", Idle, [], [])], map[], 1, map[], [])

  lemma AloneLogsIn()
    ensures Next(Init, Accept(3)) == First && LoggedInAs(First, 0, "a") == Alone
  {
    FirstServed(First.sessions[0]);
  }

  lemma AloneComes(rest: seq<Action>) returns (run: seq<Action>)
    requires EnabledRun(Alone, rest)
    ensures EnabledRun(Init, run) && After(Init, run) == After(Alone, rest)
  {
    AloneLogsIn();
    run := LogIn(First, 0, "a", rest);
    run := Cons(Init, Accept(3), run);
  }

  lemma SlotLost() returns (run: seq<Action>)
    ensures EnabledRun(Init, run) && After(Init, run).sessions == map[] && After(Init, run).table == map["a" := 3]
    ensures HasLeakyStep(Init, run)
  {
    run := RefusedCloses();
    SecondLoginRefused();
    run := Cons(Alone, LoginCheck(0, 2, "a", false), run);
    run := AloneComes(run);
    NoSlotLostIffNoLeakyLogin(run);
    assert "a" in After(Init, run).table;
  }

  lemma Cons(s: Server, a: Action, rest: seq<Action>) returns (run: seq<Action>)
    requires Enabled(s, a) && EnabledRun(Next(s, a), rest)
    ensures EnabledRun(s, run) && After(s, run) == After(Next(s, a), rest) && run == [a] + rest
  {
    run := [a] + rest;
    assert run[1..] == rest;
  }

  // The state after the three steps of a login that succeeds.
  function LoggedInAs(s: Server, c: nat, name: string): Server
    requires InPhase(s, c, Idle)
  {
    var x := s.sessions[c];
    s.(sessions := s.sessions[c := Served(x, 1).(authenticated := true, username := name)],
       table := s.table[name := x.fd])
  }

  lemma LogIn(s: Server, c: nat, name: string, rest: seq<Action>) returns (run: seq<Action>)
    requires InPhase(s, c, Idle) && name != "" && CanRegister(s, name)
    requires EnabledRun(LoggedInAs(s, c, name), rest)
    ensures EnabledRun(s, run) && After(s, run) == After(LoggedInAs(s, c, name), rest)
  {
    var s1 := Next(s, LoginCheck(c, 1, name, true));
    var s2 := Next(s1, LoginRegister(c));
    assert Next(s2, LoginFinish(c)) == LoggedInAs(s, c, name);
    run := Cons(s2, LoginFinish(c), rest);
    run := Cons(s1, LoginRegister(c), run);
    run := Cons(s, LoginCheck(c, 1, name, true), run);
  }
}
