// The threads of the C chat server, app/server/server.c, as interleaved steps:
// each locked table operation, each write_full and each session update between
// them is one step of one connection. The answers of the user file are inputs.
module ChatServer {
  import opened OnlineTable

  // A chat request: message_id, peer_username and payload.
  datatype Chat = Chat(id: nat, peer: string, text: string)

  // Where a connection's thread is between two atomic operations.
  datatype Phase =
    | Idle                              // about to read a request
    | Checked(name: string)             // login accepted by the user file, slot not taken yet
    | Registered(name: string)          // slot taken, session fields not set yet
    | Sending(chat: Chat, fd: nat)      // peer's descriptor looked up, delivery not written yet
    | Leaving                           // out of the request loop
    | Closing                           // slot given back, descriptor still open

  // client_session_t, with the ids of the requests read and of the acks written.
  datatype Session = Session(fd: nat, authenticated: bool, username: string, selectedPeer: string,
                             phase: Phase, requests: seq<nat>, acks: seq<nat>)

  // A delivery written: by which connection, in whose name, what, to which
  // descriptor, and the connections that had the descriptor then.
  datatype Delivery = Delivery(sender: nat, name: string, chat: Chat, fd: nat, receivers: set<nat>)

  // Connections are numbered in the order of accept; sessions holds those not
  // closed yet. Descriptors are reused, connection numbers are not. targets
  // notes who held the descriptor when a chat request looked it up.
  datatype Server = Server(sessions: map<nat, Session>, table: map<string, nat>, next: nat, targets: map<nat, nat>,
                           deliveries: seq<Delivery>)

  const Init := Server(map[], map[], 0, map[], [])

  datatype Action =
    | Accept(fd: nat)
    | LoginCheck(c: nat, id: nat, name: string, valid: bool)
    | LoginRegister(c: nat)
    | LoginFinish(c: nat)
    | SelectPeer(c: nat, id: nat, peer: string, known: bool)
    | ChatLookup(c: nat, chat: Chat)
    | ChatWrite(c: nat)
    | OtherRequest(c: nat, id: nat)     // register, or an unknown request type
    | Logout(c: nat, id: nat)
    | HangUp(c: nat)                    // read_full fails
    | Unregister(c: nat)
    | Close(c: nat)

  predicate InPhase(s: Server, c: nat, phase: Phase) {
    c in s.sessions && s.sessions[c].phase == phase
  }

  predicate Enabled(s: Server, a: Action) {
    match a
    case Accept(fd) => forall c :: c in s.sessions ==> s.sessions[c].fd != fd
    case LoginCheck(c, _, name, valid) => InPhase(s, c, Idle) && (valid ==> name != "")
    case SelectPeer(c, _, _, _) => InPhase(s, c, Idle)
    case ChatLookup(c, _) => InPhase(s, c, Idle)
    case OtherRequest(c, _) => InPhase(s, c, Idle)
    case Logout(c, _) => InPhase(s, c, Idle)
    case HangUp(c) => InPhase(s, c, Idle)
    case LoginRegister(c) => c in s.sessions && s.sessions[c].phase.Checked?
    case LoginFinish(c) => c in s.sessions && s.sessions[c].phase.Registered?
    case ChatWrite(c) => c in s.sessions && s.sessions[c].phase.Sending?
    case Unregister(c) => InPhase(s, c, Leaving)
    case Close(c) => InPhase(s, c, Closing)
  }

  function Read(x: Session, id: nat): Session {
    x.(requests := x.requests + [id])
  }

  // send_ack for the request being served.
  function Ack(x: Session): Session {
    if x.requests == [] then x else x.(acks := x.acks + [x.requests[|x.requests| - 1]])
  }

  function Served(x: Session, id: nat): Session {
    Ack(Read(x, id))
  }

  predicate HoldsFd(s: Server, c: nat, fd: nat) {
    c in s.sessions && s.sessions[c].fd == fd
  }

  function Holders(sessions: map<nat, Session>, fd: nat): set<nat> {
    set d | d in sessions && sessions[d].fd == fd
  }

  ghost function NoteTarget(s: Server, c: nat, fd: nat): map<nat, nat> {
    if t: nat :| HoldsFd(s, t, fd) then s.targets[c := t] else s.targets - {c}
  }

  // The connection that takes a step.
  function Actor(s: Server, a: Action): nat {
    match a
    case Accept(_) => s.next
    case LoginCheck(c, _, _, _) => c
    case LoginRegister(c) => c
    case LoginFinish(c) => c
    case SelectPeer(c, _, _, _) => c
    case ChatLookup(c, _) => c
    case ChatWrite(c) => c
    case OtherRequest(c, _) => c
    case Logout(c, _) => c
    case HangUp(c) => c
    case Unregister(c) => c
    case Close(c) => c
  }

  predicate CanRegister(s: Server, name: string) {
    name !in s.table && |s.table| < MaxOnlineUsers
  }

  // The session of the connection that takes the step.
  function Moved(s: Server, a: Action): Session
    requires Enabled(s, a) && !a.Accept? && !a.Close?
  {
    var x := s.sessions[Actor(s, a)];
    match a
    case LoginCheck(_, id, name, valid) =>
      if valid then Read(x, id).(phase := Checked(name))
      else Served(x.(authenticated := false, username := ""), id)
    case LoginRegister(_) =>
      if CanRegister(s, x.phase.name) then x.(phase := Registered(x.phase.name)) else Ack(x.(phase := Idle))
    case LoginFinish(_) =>
      Ack(x.(authenticated := true, username := x.phase.name, phase := Idle))
    case SelectPeer(_, id, peer, known) =>
      Served(if x.authenticated && known && peer in s.table then x.(selectedPeer := peer) else x, id)
    case ChatLookup(_, chat) =>
      if x.authenticated && chat.peer != "" && chat.peer in s.table then
        Read(x, chat.id).(phase := Sending(chat, s.table[chat.peer]))
      else Served(x, chat.id)
    case ChatWrite(_) => Ack(x.(phase := Idle))
    case OtherRequest(_, id) => Served(x, id)
    case Logout(_, id) => Served(x, id).(phase := Leaving)
    case HangUp(_) => x.(phase := Leaving)
    case Unregister(_) => x.(phase := Closing)
  }

  function TableAfter(s: Server, a: Action): map<string, nat>
    requires Enabled(s, a)
  {
    match a
    case LoginRegister(c) =>
      var x := s.sessions[c];
      if CanRegister(s, x.phase.name) then s.table[x.phase.name := x.fd] else s.table
    case Unregister(c) =>
      var name := s.sessions[c].username;
      if name == "" then s.table else s.table - {name}
    case _ => s.table
  }

  ghost function TargetsAfter(s: Server, a: Action): map<nat, nat>
    requires Enabled(s, a)
  {
    if a.ChatLookup? && Moved(s, a).phase.Sending? then NoteTarget(s, a.c, s.table[a.chat.peer]) else s.targets
  }

  function DeliveriesAfter(s: Server, a: Action): seq<Delivery>
    requires Enabled(s, a)
  {
    if a.ChatWrite? then
      var x := s.sessions[a.c];
      s.deliveries + [Delivery(a.c, x.username, x.phase.chat, x.phase.fd, Holders(s.sessions, x.phase.fd))]
    else s.deliveries
  }

  ghost function Next(s: Server, a: Action): Server
    requires Enabled(s, a)
  {
    match a
    case Accept(fd) =>
      s.(sessions := s.sessions[s.next := Session(fd, false, "", "", Idle, [], [])], next := s.next + 1)
    case Close(c) => s.(sessions := s.sessions - {c})
    case _ => Server(s.sessions[Actor(s, a) := Moved(s, a)], TableAfter(s, a), s.next, TargetsAfter(s, a), DeliveriesAfter(s, a))
  }

  // ---------------------------------------------------------------------
  // The server's memory, updated in place.
  class Threads {
    const online: Table
    var sessions: map<nat, Session>
    var next: nat
    ghost var targets: map<nat, nat>
    ghost var deliveries: seq<Delivery>

    ghost function View(): Server
      reads this, online, online.slots
    {
      Server(sessions, online.Users(), next, targets, deliveries)
    }

    ghost predicate Valid()
      reads this, online, online.slots
    {
      online.Valid()
    }

    constructor ()
      ensures Valid() && View() == Init
    {
      online := new Table();
      sessions, next := map[], 0;
      targets, deliveries := map[], [];
    }

    method DoAccept(fd: nat)
      requires Valid() && Enabled(View(), Accept(fd))
      modifies this
      ensures Valid() && View() == Next(old(View()), Accept(fd))
    {
      sessions := sessions[next := Session(fd, false, "", "", Idle, [], [])];
      next := next + 1;
    }

    // handle_login_request up to the answer of server_validate_login.
    method DoLoginCheck(c: nat, id: nat, name: string, valid: bool)
      requires Valid() && Enabled(View(), LoginCheck(c, id, name, valid))
      modifies this
      ensures Valid() && View() == Next(old(View()), LoginCheck(c, id, name, valid))
    {
      var x := Read(sessions[c], id);
      if !valid {
        x := x.(authenticated := false, username := "");
        sessions := sessions[c := Ack(x)];
        return;
      }
      sessions := sessions[c := x.(phase := Checked(name))];
    }

    // register_online_user, and the refusal ack.
    method DoLoginRegister(c: nat)
      requires Valid() && Enabled(View(), LoginRegister(c))
      modifies this, online.slots
      ensures Valid() && View() == Next(old(View()), LoginRegister(c))
    {
      var x := sessions[c];
      var done := online.Register(x.phase.name, x.fd);
      if !done {
        sessions := sessions[c := Ack(x.(phase := Idle))];
        return;
      }
      sessions := sessions[c := x.(phase := Registered(x.phase.name))];
    }

    method DoLoginFinish(c: nat)
      requires Valid() && Enabled(View(), LoginFinish(c))
      modifies this
      ensures Valid() && View() == Next(old(View()), LoginFinish(c))
    {
      var x := sessions[c];
      x := x.(authenticated := true, username := x.phase.name);
      sessions := sessions[c := Ack(x.(phase := Idle))];
    }

    // handle_select_peer_request.
    method DoSelectPeer(c: nat, id: nat, peer: string, known: bool)
      requires Valid() && Enabled(View(), SelectPeer(c, id, peer, known))
      modifies this
      ensures Valid() && View() == Next(old(View()), SelectPeer(c, id, peer, known))
    {
      var x := Read(sessions[c], id);
      if x.authenticated && known {
        var fd := online.GetFd(peer);
        if fd >= 0 {
          x := x.(selectedPeer := peer);
        }
      }
      sessions := sessions[c := Ack(x)];
    }

    // handle_chat_request up to get_online_user_fd.
    method DoChatLookup(c: nat, chat: Chat)
      requires Valid() && Enabled(View(), ChatLookup(c, chat))
      modifies this
      ensures Valid() && View() == Next(old(View()), ChatLookup(c, chat))
    {
      var x := Read(sessions[c], chat.id);
      if !x.authenticated || chat.peer == "" {
        sessions := sessions[c := Ack(x)];
        return;
      }
      var fd := online.GetFd(chat.peer);
      if fd < 0 {
        sessions := sessions[c := Ack(x)];
        return;
      }
      targets := NoteTarget(View(), c, fd);
      sessions := sessions[c := x.(phase := Sending(chat, fd))];
    }

    // write_full of the delivery, and the delivered or peer-offline ack.
    method DoChatWrite(c: nat)
      requires Valid() && Enabled(View(), ChatWrite(c))
      modifies this
      ensures Valid() && View() == Next(old(View()), ChatWrite(c))
    {
      var name, phase := sessions[c].username, sessions[c].phase;
      deliveries := deliveries + [Delivery(c, name, phase.chat, phase.fd, Holders(sessions, phase.fd))];
      sessions := sessions[c := Ack(sessions[c].(phase := Idle))];
    }

    method DoOtherRequest(c: nat, id: nat)
      requires Valid() && Enabled(View(), OtherRequest(c, id))
      modifies this
      ensures Valid() && View() == Next(old(View()), OtherRequest(c, id))
    {
      sessions := sessions[c := Ack(Read(sessions[c], id))];
    }

    method DoLogout(c: nat, id: nat)
      requires Valid() && Enabled(View(), Logout(c, id))
      modifies this
      ensures Valid() && View() == Next(old(View()), Logout(c, id))
    {
      sessions := sessions[c := Ack(Read(sessions[c], id)).(phase := Leaving)];
    }

    method DoHangUp(c: nat)
      requires Valid() && Enabled(View(), HangUp(c))
      modifies this
      ensures Valid() && View() == Next(old(View()), HangUp(c))
    {
      sessions := sessions[c := sessions[c].(phase := Leaving)];
    }

    // unregister_online_user(session.username).
    method DoUnregister(c: nat)
      requires Valid() && Enabled(View(), Unregister(c))
      modifies this, online.slots
      ensures Valid() && View() == Next(old(View()), Unregister(c))
    {
      online.Unregister(sessions[c].username);
      sessions := sessions[c := sessions[c].(phase := Closing)];
    }

    method DoClose(c: nat)
      requires Valid() && Enabled(View(), Close(c))
      modifies this
      ensures Valid() && View() == Next(old(View()), Close(c))
    {
      sessions := sessions - {c};
    }
  }
}
