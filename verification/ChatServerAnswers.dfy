// What the C server answers: when a request is granted, what it leaves behind, and
// who is behind a delivery.
module ChatServerAnswers {
  import opened OnlineTable
  import opened ChatServer
  import opened ChatServerSafety

  // Nothing but c's session, the table and the deliveries may differ.
  predicate OnlyOf(s: Server, t: Server, c: nat) {
    && c in s.sessions && c in t.sessions && t.next == s.next && t.sessions.Keys == s.sessions.Keys
    && forall d :: d in s.sessions && d != c ==> t.sessions[d] == s.sessions[d]
  }

  // The request was read and acked, and the connection reads the next one.
  predicate Answered(x: Session, y: Session, id: nat) {
    y.requests == x.requests + [id] && y.acks == x.acks + [id] && y.phase == Idle && y.fd == x.fd
  }

  predicate SameUser(x: Session, y: Session) {
    y.authenticated == x.authenticated && y.username == x.username
  }

  // ---------------------------------------------------------------------
  // Logging in.

  lemma LoginRefusedByFile(s: Server, c: nat, id: nat, name: string)
    requires Enabled(s, LoginCheck(c, id, name, false))
    ensures var t := Next(s, LoginCheck(c, id, name, false));
        && OnlyOf(s, t, c) && t.table == s.table && t.deliveries == s.deliveries
        && Answered(s.sessions[c], t.sessions[c], id) && !t.sessions[c].authenticated && t.sessions[c].username == ""
  {
  }

  // The slot decides: after the file's yes, the session is logged in under the name
  // if and only if nobody is online under it and a slot is free.
  lemma SlotDecides(s: Server, c: nat)
    requires c in s.sessions && s.sessions[c].phase.Checked?
    ensures var name := s.sessions[c].phase.name; var t := Next(s, LoginRegister(c));
        && OnlyOf(s, t, c) && SameUser(s.sessions[c], t.sessions[c])
        && (t.sessions[c].phase == Registered(name) <==> name !in s.table && |s.table| < 32)
        && (t.sessions[c].phase == Registered(name) ==> t.table == s.table[name := s.sessions[c].fd])
        && (t.sessions[c].phase != Registered(name) ==> t.sessions[c].phase == Idle && t.table == s.table)
  {
  }

  lemma LoginFinishes(s: Server, c: nat)
    requires c in s.sessions && s.sessions[c].phase.Registered?
    ensures var t := Next(s, LoginFinish(c)); var y := t.sessions[c];
        && OnlyOf(s, t, c) && t.table == s.table && t.deliveries == s.deliveries
        && y.authenticated && y.username == s.sessions[c].phase.name && y.phase == Idle
  {
  }

  // ---------------------------------------------------------------------
  // Selecting a peer, chatting, leaving.

  lemma SelectAnswer(s: Server, c: nat, id: nat, peer: string, known: bool)
    requires Enabled(s, SelectPeer(c, id, peer, known))
    ensures var x := s.sessions[c]; var t := Next(s, SelectPeer(c, id, peer, known)); var y := t.sessions[c];
        && OnlyOf(s, t, c) && t.table == s.table && t.deliveries == s.deliveries
        && Answered(x, y, id) && SameUser(x, y)
        && y.selectedPeer == if x.authenticated && known && peer in s.table then peer else x.selectedPeer
  {
  }

  predicate Sendable(s: Server, c: nat, chat: Chat) {
    c in s.sessions && s.sessions[c].authenticated && chat.peer != "" && chat.peer in s.table
  }

  // A chat request is sent on, to the descriptor under the peer's name, if and only
  // if its connection is logged in and names a peer who is online. If not, it is
  // answered at once.
  lemma ChatAnswer(s: Server, c: nat, chat: Chat)
    requires Enabled(s, ChatLookup(c, chat))
    ensures var x := s.sessions[c]; var t := Next(s, ChatLookup(c, chat)); var y := t.sessions[c];
        && OnlyOf(s, t, c) && SameUser(x, y) && t.table == s.table && t.deliveries == s.deliveries
        && (y.phase.Sending? <==> Sendable(s, c, chat))
        && (y.phase.Sending? ==> y.phase == Sending(chat, s.table[chat.peer]) && y.acks == x.acks)
        && (!y.phase.Sending? ==> Answered(x, y, chat.id))
  {
  }

  lemma WriteAnswer(s: Server, c: nat)
    requires Enabled(s, ChatWrite(c)) && AcksOk(s.sessions[c])
    ensures var x := s.sessions[c]; var t := Next(s, ChatWrite(c)); var y := t.sessions[c];
        && OnlyOf(s, t, c) && SameUser(x, y) && t.table == s.table
        && y.phase == Idle && y.acks == y.requests == x.requests
        && |t.deliveries| == |s.deliveries| + 1 && s.deliveries <= t.deliveries
        && var d := t.deliveries[|s.deliveries|];
        d.sender == c && d.name == x.username && d.chat == x.phase.chat && d.fd == x.phase.fd
        && forall r :: r in d.receivers <==> HoldsFd(s, r, x.phase.fd)
  {
  }

  lemma LogoutAnswer(s: Server, c: nat, id: nat)
    requires Enabled(s, Logout(c, id))
    ensures var x := s.sessions[c]; var t := Next(s, Logout(c, id)); var y := t.sessions[c];
        && OnlyOf(s, t, c) && SameUser(x, y) && t.table == s.table && t.deliveries == s.deliveries
        && y.acks == x.acks + [id] && y.requests == x.requests + [id] && y.phase == Leaving
  {
  }

  lemma OtherAnswer(s: Server, c: nat, id: nat)
    requires Enabled(s, OtherRequest(c, id))
    ensures var x := s.sessions[c]; var t := Next(s, OtherRequest(c, id)); var y := t.sessions[c];
        && OnlyOf(s, t, c) && t.table == s.table && t.deliveries == s.deliveries && Answered(x, y, id) && SameUser(x, y)
  {
  }

  // The end of client_thread_main: the slot of the name, if there is one, is given
  // back, and then the connection is gone.
  lemma LeavingFrees(s: Server, c: nat)
    requires InPhase(s, c, Leaving)
    ensures var s1 := Next(s, Unregister(c)); Enabled(s1, Close(c))
    ensures var name := s.sessions[c].username; var t := Next(Next(s, Unregister(c)), Close(c));
        && t.table == (if name == "" then s.table else s.table - {name}) && t.deliveries == s.deliveries
        && t.sessions == s.sessions - {c}
  {
    var t := Next(Next(s, Unregister(c)), Close(c));
    assert t.sessions == s.sessions - {c};
  }

  // ---------------------------------------------------------------------
  // The client's ordinary conversation: connect, log in, select, chat.

  predicate DeliversOne(s: Server, t: Server, c: nat, name: string, chat: Chat, fd: nat) {
    && |t.deliveries| == |s.deliveries| + 1 && s.deliveries <= t.deliveries
    && var d := t.deliveries[|s.deliveries|];
    d.sender == c && d.name == name && d.chat == chat && d.fd == fd
  }

  lemma ChatWorks(s: Server, c: nat, chat: Chat) returns (run: seq<Action>)
    requires InPhase(s, c, Idle) && Sendable(s, c, chat)
    ensures run == [ChatLookup(c, chat), ChatWrite(c)] && EnabledRun(s, run)
    ensures DeliversOne(s, After(s, run), c, s.sessions[c].username, chat, s.table[chat.peer])
  {
    ChatAnswer(s, c, chat);
    var s1 := Next(s, ChatLookup(c, chat));
    run := Cons(s1, ChatWrite(c), []);
    run := Cons(s, ChatLookup(c, chat), run);
    run := [ChatLookup(c, chat), ChatWrite(c)];
  }

  lemma SelectThenChat(s: Server, c: nat, chat: Chat) returns (run: seq<Action>)
    requires InPhase(s, c, Idle) && Sendable(s, c, chat)
    ensures EnabledRun(s, run) && DeliversOne(s, After(s, run), c, s.sessions[c].username, chat, s.table[chat.peer])
    ensures run == [SelectPeer(c, 2, chat.peer, true), ChatLookup(c, chat), ChatWrite(c)]
  {
    SelectAnswer(s, c, 2, chat.peer, true);
    run := ChatWorks(Next(s, SelectPeer(c, 2, chat.peer, true)), c, chat);
    run := Cons(s, SelectPeer(c, 2, chat.peer, true), run);
  }

  // With a free descriptor and name, a free slot, and the peer online, it ends with
  // the message delivered to the peer's descriptor.
  lemma ConversationDelivers(s: Server, fd: nat, name: string, peer: string, text: string) returns (run: seq<Action>)
    requires Enabled(s, Accept(fd)) && name != "" && peer != "" && name !in s.table && |s.table| < 32 && peer in s.table
    ensures EnabledRun(s, run) && DeliversOne(s, After(s, run), s.next, name, Chat(3, peer, text), s.table[peer])
  {
    var c, chat := s.next, Chat(3, peer, text);
    var s1 := Next(s, Accept(fd));
    run := SelectThenChat(LoggedInAs(s1, c, name), c, chat);
    run := LogIn(s1, c, name, run);
    run := Cons(s, Accept(fd), run);
  }

  // ---------------------------------------------------------------------
  // Behind every delivery is a logged-in connection.

  // At step i of the run, connection c, logged in under this name, asked for this
  // chat, and the peer was online on this descriptor.
  ghost predicate AskedAt(run: seq<Action>, i: nat, c: nat, name: string, chat: Chat, fd: nat)
    requires EnabledRun(Init, run) && i < |run|
  {
    PrefixEnabled(Init, run, i);
    var s := After(Init, run[..i]);
    && run[i] == ChatLookup(c, chat) && LoggedIn(s, c) && s.sessions[c].username == name
    && chat.peer in s.table && s.table[chat.peer] == fd
  }

  ghost predicate Asked(run: seq<Action>, c: nat, name: string, chat: Chat, fd: nat)
    requires EnabledRun(Init, run)
  {
    exists i: nat :: i < |run| && AskedAt(run, i, c, name, chat, fd)
  }

  lemma {:induction false} PrefixEnabled(s: Server, run: seq<Action>, i: nat)
    requires EnabledRun(s, run) && i <= |run|
    ensures EnabledRun(s, run[..i])
    decreases i
  {
    if i > 0 {
      assert run[..i][1..] == run[1..][..i - 1];
      PrefixEnabled(Next(s, run[0]), run[1..], i - 1);
    }
  }

  lemma {:induction false} Snoc(s: Server, run: seq<Action>, a: Action)
    requires EnabledRun(s, run + [a])
    ensures EnabledRun(s, run) && Enabled(After(s, run), a) && After(s, run + [a]) == Next(After(s, run), a)
    decreases |run|
  {
    if run == [] {
      assert (run + [a])[1..] == [];
    } else {
      assert (run + [a])[1..] == run[1..] + [a];
      Snoc(Next(s, run[0]), run[1..], a);
    }
  }

  lemma AskedEarlier(run: seq<Action>, a: Action, c: nat, name: string, chat: Chat, fd: nat)
    requires EnabledRun(Init, run + [a]) && EnabledRun(Init, run) && Asked(run, c, name, chat, fd)
    ensures Asked(run + [a], c, name, chat, fd)
  {
    var i: nat :| i < |run| && AskedAt(run, i, c, name, chat, fd);
    PrefixEnabled(Init, run + [a], i);
    PrefixEnabled(Init, run, i);
    assert (run + [a])[..i] == run[..i] && (run + [a])[i] == run[i];
    assert AskedAt(run + [a], i, c, name, chat, fd);
  }

  lemma AskedNow(run: seq<Action>, c: nat, chat: Chat)
    requires EnabledRun(Init, run + [ChatLookup(c, chat)]) && EnabledRun(Init, run)
    requires Sendable(After(Init, run), c, chat) && InPhase(After(Init, run), c, Idle)
    ensures var s := After(Init, run);
        Asked(run + [ChatLookup(c, chat)], c, s.sessions[c].username, chat, s.table[chat.peer])
  {
    var s := After(Init, run);
    var all := run + [ChatLookup(c, chat)];
    PrefixEnabled(Init, all, |run|);
    assert all[..|run|] == run && all[|run|] == ChatLookup(c, chat);
    assert AskedAt(all, |run|, c, s.sessions[c].username, chat, s.table[chat.peer]);
  }

  // A pending chat was pending before, under the same name, or is just asked for.
  lemma PendingBefore(s: Server, a: Action, c: nat)
    requires Enabled(s, a) && SessionsInv(s) && DescriptorsInv(s)
    requires c in Next(s, a).sessions && Next(s, a).sessions[c].phase.Sending?
    ensures var y := Next(s, a).sessions[c];
        (c in s.sessions && s.sessions[c].phase == y.phase && s.sessions[c].username == y.username)
        || (a == ChatLookup(c, y.phase.chat) && Sendable(s, c, y.phase.chat) && y.username == s.sessions[c].username
            && y.phase.fd == s.table[y.phase.chat.peer])
  {
  }

  ghost predicate Backed(run: seq<Action>)
    requires EnabledRun(Init, run)
  {
    var s := After(Init, run);
    && (forall c :: c in s.sessions && s.sessions[c].phase.Sending? ==>
          Asked(run, c, s.sessions[c].username, s.sessions[c].phase.chat, s.sessions[c].phase.fd))
    && forall k :: 0 <= k < |s.deliveries| ==>
        var d := s.deliveries[k]; Asked(run, d.sender, d.name, d.chat, d.fd)
  }

  lemma DeliveriesStep(s: Server, a: Action)
    requires Enabled(s, a)
    ensures var t := Next(s, a);
        t.deliveries == s.deliveries + if a.ChatWrite? then [t.deliveries[|t.deliveries| - 1]] else []
    ensures a.ChatWrite? ==>
        var x := s.sessions[a.c]; var d := Next(s, a).deliveries[|s.deliveries|];
        d.sender == a.c && d.name == x.username && d.chat == x.phase.chat && d.fd == x.phase.fd
  {
  }

  lemma BackedPending(run: seq<Action>, a: Action, c: nat)
    requires EnabledRun(Init, run + [a]) && EnabledRun(Init, run) && Backed(run)
    requires var t := After(Init, run + [a]); c in t.sessions && t.sessions[c].phase.Sending?
    ensures var y := After(Init, run + [a]).sessions[c]; Asked(run + [a], c, y.username, y.phase.chat, y.phase.fd)
  {
    Snoc(Init, run, a);
    RunKeepsInv(Init, run);
    var s := After(Init, run);
    var y := After(Init, run + [a]).sessions[c];
    PendingBefore(s, a, c);
    if c in s.sessions && s.sessions[c].phase == y.phase && s.sessions[c].username == y.username {
      AskedEarlier(run, a, c, y.username, y.phase.chat, y.phase.fd);
    } else {
      AskedNow(run, c, y.phase.chat);
    }
  }

  lemma BackedDelivery(run: seq<Action>, a: Action, k: nat)
    requires EnabledRun(Init, run + [a]) && EnabledRun(Init, run) && Backed(run)
    requires k < |After(Init, run + [a]).deliveries|
    ensures var d := After(Init, run + [a]).deliveries[k]; Asked(run + [a], d.sender, d.name, d.chat, d.fd)
  {
    Snoc(Init, run, a);
    var s := After(Init, run);
    DeliveriesStep(s, a);
    var d := After(Init, run + [a]).deliveries[k];
    assert k < |s.deliveries| ==> d == s.deliveries[k];
    AskedEarlier(run, a, d.sender, d.name, d.chat, d.fd);
  }

  lemma {:induction false} RunIsBacked(run: seq<Action>)
    requires EnabledRun(Init, run)
    ensures Backed(run)
    decreases |run|
  {
    if run != [] {
      var front, a := run[..|run| - 1], run[|run| - 1];
      assert run == front + [a];
      Snoc(Init, front, a);
      RunIsBacked(front);
      var t := After(Init, run);
      forall c | c in t.sessions && t.sessions[c].phase.Sending?
        ensures Asked(run, c, t.sessions[c].username, t.sessions[c].phase.chat, t.sessions[c].phase.fd)
      {
        BackedPending(front, a, c);
      }
      forall k | 0 <= k < |t.deliveries|
        ensures var d := t.deliveries[k]; Asked(run, d.sender, d.name, d.chat, d.fd)
      {
        BackedDelivery(front, a, k);
      }
    }
  }

  // In every run, every delivery was asked for by a connection logged in under the
  // name it carries, with the peer and text it carries, for the descriptor the peer
  // was online on.
  lemma DeliveriesWereAskedFor(run: seq<Action>, k: nat)
    requires EnabledRun(Init, run) && k < |After(Init, run).deliveries|
    ensures var d := After(Init, run).deliveries[k]; Asked(run, d.sender, d.name, d.chat, d.fd) && d.name != ""
  {
    RunIsBacked(run);
    var d := After(Init, run).deliveries[k];
    var i: nat :| i < |run| && AskedAt(run, i, d.sender, d.name, d.chat, d.fd);
    PrefixEnabled(Init, run, i);
    RunKeepsInv(Init, run[..i]);
  }
}
