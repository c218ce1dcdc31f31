// One client of the C chat, app/client/client.c: the sender (main) thread and the
// receiver thread meet at a one-slot mailbox, and the server thread of the
// connection acks each request it reads. Threads interleave step by step; each
// locked section and each write_full is one step.
module AckMailbox {

  const IdModulus := 0x1_0000_0000

  // What the receiver thread reads off the socket.
  datatype Response = Ack(id: nat) | Delivery(id: nat)

  // The sender thread: between requests, or waiting for the ack of the one it
  // sent. bump: submit_auth_request adds 1 to message_id after its ack; quits:
  // the request is a logout.
  datatype Sender = Ready | Waiting(id: nat, bump: bool, quits: bool) | Stopped

  datatype ServerThread = Reading | Serving(id: nat) | Gone

  datatype State = State(
    messageId: nat, sender: Sender,                         // main thread
    running: bool, ackReady: bool, lastAck: Response, receiving: bool, // client_runtime_t, receiver thread
    up: seq<nat>, server: ServerThread, down: seq<Response>, // the socket and its server thread
    sent: seq<nat>, acked: seq<nat>, consumed: seq<nat>)    // ids, in order of occurrence

  const ZeroResponse := Ack(0)

  const Init := State(1, Ready, true, false, ZeroResponse, true, [], Reading, [], [], [], [])

  datatype Action =
    | SubmitAuth(hashed: bool, written: bool)   // login or register
    | SendRequest(quits: bool, formatted: bool, written: bool) // select peer, chat message, logout
    | TakeAck                                   // the wait loop ends with the ack
    | GiveUp                                    // the wait loop ends because running is 0
    | Exit                                      // the menu's exit, between requests
    | Receive                                   // receiver thread: one response
    | ReceiverEnds                              // receiver thread: read_full fails
    | ServerReads
    | ServerAcks(last: bool)
    | PeerDelivers(id: nat)                     // another server thread writes a delivery

  function Bump(id: nat): nat {
    (id + 1) % IdModulus
  }

  predicate Enabled(s: State, a: Action) {
    match a
    case SubmitAuth(_, _) => s.sender.Ready?
    case SendRequest(_, _, _) => s.sender.Ready?
    case TakeAck => s.sender.Waiting? && s.running && s.ackReady && s.lastAck.id == s.sender.id
    case GiveUp => s.sender.Waiting? && !s.running
    case Exit => s.sender.Ready?
    case Receive => s.receiving && s.down != []
    case ReceiverEnds => s.receiving
    case ServerReads => s.server.Reading? && s.up != []
    case ServerAcks(_) => s.server.Serving?
    case PeerDelivers(_) => true
  }

  // What ends the menu: main then clears running before it waits for the receiver.
  function Stop(s: State): State {
    s.(sender := Stopped, running := false)
  }

  // write_full, and the start of the wait.
  function Written(s: State, id: nat, bump: bool, quits: bool, written: bool): State {
    if written then s.(sender := Waiting(id, bump, quits), up := s.up + [id], sent := s.sent + [id])
    else Stop(s)
  }

  function Next(s: State, a: Action): State
    requires Enabled(s, a)
  {
    match a
    case SubmitAuth(hashed, written) =>
      // message_id is spent on the hashing request, and the next one is sent.
      var t := s.(messageId := Bump(s.messageId));
      if hashed then Written(t, t.messageId, true, false, written) else Stop(t)
    case SendRequest(quits, formatted, written) =>
      var t := s.(messageId := Bump(s.messageId));
      if formatted then Written(t, s.messageId, false, quits, written)
      else if quits then Stop(t) else t
    case TakeAck =>
      s.(sender := if s.sender.quits then Stopped else Ready,
         messageId := if s.sender.bump then Bump(s.messageId) else s.messageId,
         running := !s.sender.quits,
         ackReady := false, lastAck := ZeroResponse, consumed := s.consumed + [s.lastAck.id])
    case GiveUp => Stop(s)
    case Exit => Stop(s)
    case Receive =>
      var r := s.down[0];
      if r.Delivery? then s.(down := s.down[1..])
      else s.(down := s.down[1..], lastAck := r, ackReady := true)
    case ReceiverEnds => s.(running := false, receiving := false)
    case ServerReads => s.(server := Serving(s.up[0]), up := s.up[1..])
    case ServerAcks(last) =>
      s.(server := if last then Gone else Reading, down := s.down + [Ack(s.server.id)], acked := s.acked + [s.server.id])
    case PeerDelivers(id) => s.(down := s.down + [Delivery(id)])
  }

  // ---------------------------------------------------------------------
  // The threads' shared memory, updated in place.
  class Client {
    var messageId: nat
    var sender: Sender
    var running: bool
    var ackReady: bool
    var lastAck: Response
    var receiving: bool
    var up: seq<nat>
    var server: ServerThread
    var down: seq<Response>
    ghost var sent: seq<nat>
    ghost var acked: seq<nat>
    ghost var consumed: seq<nat>

    ghost function View(): State
      reads this
    {
      State(messageId, sender, running, ackReady, lastAck, receiving, up, server, down, sent, acked, consumed)
    }

    constructor ()
      ensures View() == Init
    {
      messageId, sender := 1, Ready;
      running, ackReady, lastAck, receiving := true, false, ZeroResponse, true;
      up, server, down := [], Reading, [];
      sent, acked, consumed := [], [], [];
    }

    // send_request_and_wait_ack, up to the wait.
    method Send(id: nat, bump: bool, quits: bool, written: bool)
      modifies this
      ensures View() == Written(old(View()), id, bump, quits, written)
    {
      if !written {
        Leave();
        return;
      }
      up := up + [id];
      sent := sent + [id];
      sender := Waiting(id, bump, quits);
    }

    // submit_auth_request.
    method SubmitAuthRequest(hashed: bool, written: bool)
      requires Enabled(View(), SubmitAuth(hashed, written))
      modifies this
      ensures View() == Next(old(View()), SubmitAuth(hashed, written))
    {
      messageId := Bump(messageId);
      if !hashed {
        Leave();
        return;
      }
      Send(messageId, true, false, written);
    }

    // A request of select_peer or chat_loop: (*message_id)++.
    method SubmitRequest(quits: bool, formatted: bool, written: bool)
      requires Enabled(View(), SendRequest(quits, formatted, written))
      modifies this
      ensures View() == Next(old(View()), SendRequest(quits, formatted, written))
    {
      var id := messageId;
      messageId := Bump(messageId);
      if formatted {
        Send(id, false, quits, written);
      } else if quits {
        Leave();
      }
    }

    // The end of send_request_and_wait_ack.
    method FinishWait() returns (response: Response)
      requires Enabled(View(), TakeAck)
      modifies this
      ensures View() == Next(old(View()), TakeAck) && response == old(lastAck)
    {
      response := lastAck;
      ackReady := false;
      lastAck := ZeroResponse;
      consumed := consumed + [response.id];
      if sender.bump {
        messageId := Bump(messageId);
      }
      if sender.quits {
        running := false;
        sender := Stopped;
      } else {
        sender := Ready;
      }
    }

    // The end of main, after its menu loop.
    method Leave()
      modifies this
      ensures View() == Stop(old(View()))
    {
      running := false;
      sender := Stopped;
    }

    method AbandonWait()
      requires Enabled(View(), GiveUp)
      modifies this
      ensures View() == Next(old(View()), GiveUp)
    {
      Leave();
    }

    // One turn of receiver_thread_main.
    method ReceiveOne()
      requires Enabled(View(), Receive)
      modifies this
      ensures View() == Next(old(View()), Receive)
    {
      var response := down[0];
      down := down[1..];
      if response.Ack? {
        lastAck := response;
        ackReady := true;
      }
    }

    method EndReceiver()
      requires Enabled(View(), ReceiverEnds)
      modifies this
      ensures View() == Next(old(View()), ReceiverEnds)
    {
      running := false;
      receiving := false;
    }

    method ServerRead()
      requires Enabled(View(), ServerReads)
      modifies this
      ensures View() == Next(old(View()), ServerReads)
    {
      server := Serving(up[0]);
      up := up[1..];
    }

    method ServerAck(last: bool)
      requires Enabled(View(), ServerAcks(last))
      modifies this
      ensures View() == Next(old(View()), ServerAcks(last))
    {
      down := down + [Ack(server.id)];
      acked := acked + [server.id];
      server := if last then Gone else Reading;
    }

    method DeliverFromPeer(id: nat)
      modifies this
      ensures View() == Next(old(View()), PeerDelivers(id))
    {
      down := down + [Delivery(id)];
    }
  }

  // ---------------------------------------------------------------------
  // Safety.

  function AcksIn(down: seq<Response>): seq<nat> {
    if down == [] then []
    else AcksIn(down[..|down| - 1]) + if down[|down| - 1].Ack? then [down[|down| - 1].id] else []
  }

  lemma {:induction false} AcksInHead(down: seq<Response>)
    requires down != []
    ensures AcksIn(down) == (if down[0].Ack? then [down[0].id] else []) + AcksIn(down[1..])
  {
    var n := |down| - 1;
    if n > 0 {
      AcksInHead(down[..n]);
      assert down[1..][..n - 1] == down[..n][1..];
    }
  }

  function Slot(s: State): seq<nat> {
    if s.ackReady then [s.lastAck.id] else []
  }

  function BeingServed(s: State): seq<nat> {
    if s.server.Serving? then [s.server.id] else []
  }

  // Requests sent and not yet answered to the caller, oldest first: answered in
  // the slot or on the way back, being served, or on the way up.
  function Outstanding(s: State): seq<nat> {
    Slot(s) + AcksIn(s.down) + BeingServed(s) + s.up
  }

  predicate Inv(s: State) {
    && s.sent == s.consumed + Outstanding(s)
    && s.acked == s.consumed + Slot(s) + AcksIn(s.down)
    && (s.ackReady ==> s.lastAck.Ack?)
    && |Outstanding(s)| <= 1
    && (s.sender.Ready? ==> Outstanding(s) == [])
    && (s.sender.Waiting? ==> Outstanding(s) == [s.sender.id])
  }

  lemma WrittenKeepsInv(s: State, id: nat, bump: bool, quits: bool, written: bool)
    requires Inv(s) && s.sender.Ready?
    ensures Inv(Written(s, id, bump, quits, written))
  {
    if written {
      var t := Written(s, id, bump, quits, written);
      assert Outstanding(t) == Outstanding(s) + [id];
    }
  }

  lemma TakeAckKeepsInv(s: State)
    requires Inv(s) && Enabled(s, TakeAck)
    ensures Inv(Next(s, TakeAck))
  {
    var t := Next(s, TakeAck);
    assert Outstanding(s) == Slot(s) + Outstanding(t);
  }

  // With at most one request outstanding, an ack on its way finds the slot empty.
  lemma SlotIsFree(s: State)
    requires Inv(s) && s.down != [] && s.down[0].Ack?
    ensures !s.ackReady
  {
    AcksInHead(s.down);
    assert |AcksIn(s.down)| >= 1;
    assert |Outstanding(s)| >= |Slot(s)| + |AcksIn(s.down)|;
  }

  lemma ReceiveMovesAck(s: State)
    requires Inv(s) && Enabled(s, Receive)
    ensures var t := Next(s, Receive); Slot(t) + AcksIn(t.down) == Slot(s) + AcksIn(s.down)
  {
    AcksInHead(s.down);
    if s.down[0].Ack? {
      SlotIsFree(s);
    }
  }

  lemma ReceiveKeepsInv(s: State)
    requires Inv(s) && Enabled(s, Receive)
    ensures Inv(Next(s, Receive))
  {
    var t := Next(s, Receive);
    ReceiveMovesAck(s);
    assert Outstanding(t) == (Slot(t) + AcksIn(t.down)) + BeingServed(t) + t.up;
    assert t.consumed + Slot(t) + AcksIn(t.down) == t.consumed + (Slot(t) + AcksIn(t.down));
    assert s.consumed + Slot(s) + AcksIn(s.down) == s.consumed + (Slot(s) + AcksIn(s.down));
  }

  lemma ServerReadsKeepsInv(s: State)
    requires Inv(s) && Enabled(s, ServerReads)
    ensures Inv(Next(s, ServerReads))
  {
    assert Outstanding(Next(s, ServerReads)) == Outstanding(s);
  }

  lemma ServerAcksKeepsInv(s: State, last: bool)
    requires Inv(s) && Enabled(s, ServerAcks(last))
    ensures Inv(Next(s, ServerAcks(last)))
  {
    var t := Next(s, ServerAcks(last));
    assert t.down[..|t.down| - 1] == s.down;
    assert AcksIn(t.down) == AcksIn(s.down) + [s.server.id];
    assert Outstanding(t) == Outstanding(s);
  }

  lemma PeerDeliversKeepsInv(s: State, id: nat)
    requires Inv(s)
    ensures Inv(Next(s, PeerDelivers(id)))
  {
    var t := Next(s, PeerDelivers(id));
    assert t.down[..|t.down| - 1] == s.down;
    assert AcksIn(t.down) == AcksIn(s.down);
  }

  lemma StepKeepsInv(s: State, a: Action)
    requires Inv(s) && Enabled(s, a)
    ensures Inv(Next(s, a))
  {
    match a
    case SubmitAuth(_, written) =>
      var t := s.(messageId := Bump(s.messageId));
      WrittenKeepsInv(t, t.messageId, true, false, written);
    case SendRequest(quits, _, written) =>
      WrittenKeepsInv(s.(messageId := Bump(s.messageId)), s.messageId, false, quits, written);
    case TakeAck => TakeAckKeepsInv(s);
    case GiveUp =>
    case Exit =>
    case Receive => ReceiveKeepsInv(s);
    case ReceiverEnds =>
    case ServerReads => ServerReadsKeepsInv(s);
    case ServerAcks(last) => ServerAcksKeepsInv(s, last);
    case PeerDelivers(id) => PeerDeliversKeepsInv(s, id);
  }

  predicate EnabledRun(s: State, run: seq<Action>)
    decreases |run|
  {
    run == [] || (Enabled(s, run[0]) && EnabledRun(Next(s, run[0]), run[1..]))
  }

  function After(s: State, run: seq<Action>): State
    requires EnabledRun(s, run)
    decreases |run|
  {
    if run == [] then s else After(Next(s, run[0]), run[1..])
  }

  lemma {:induction false} RunKeepsInv(s: State, run: seq<Action>)
    requires Inv(s) && EnabledRun(s, run)
    ensures Inv(After(s, run))
    decreases |run|
  {
    if run != [] {
      StepKeepsInv(s, run[0]);
      RunKeepsInv(Next(s, run[0]), run[1..]);
    }
  }

  // In every interleaving: requests are acked once each and in order, callers
  // take the acks in the order they sent, and at most one request is open.
  lemma AcksFollowRequests(run: seq<Action>)
    requires EnabledRun(Init, run)
    ensures var s := After(Init, run);
      && s.consumed <= s.acked <= s.sent && |s.sent| <= |s.consumed| + 1
      && (s.sender.Ready? ==> s.consumed == s.acked == s.sent)
  {
    InitInv();
    RunKeepsInv(Init, run);
    SentAckedConsumed(After(Init, run));
  }

  lemma InitInv()
    ensures Inv(Init)
  {
    assert Outstanding(Init) == [];
  }

  lemma SentAckedConsumed(s: State)
    requires Inv(s)
    ensures s.consumed <= s.acked <= s.sent && |s.sent| <= |s.consumed| + 1
    ensures s.sender.Ready? ==> s.consumed == s.acked == s.sent
  {
    var open, onTheWay := BeingServed(s) + s.up, Slot(s) + AcksIn(s.down);
    assert Outstanding(s) == onTheWay + open;
    assert s.acked == s.consumed + onTheWay;
    assert s.sent == s.acked + open;
  }

  // No ack is overwritten before it is taken, and a delivery never enters the slot.
  lemma NoAckOverwritten(run: seq<Action>)
    requires EnabledRun(Init, run) && Enabled(After(Init, run), Receive)
    ensures var s := After(Init, run); var t := Next(s, Receive);
      && (s.down[0].Ack? ==> !s.ackReady && t.ackReady && t.lastAck == s.down[0])
      && (s.down[0].Delivery? ==> t.ackReady == s.ackReady && t.lastAck == s.lastAck)
  {
    InitInv();
    RunKeepsInv(Init, run);
    if After(Init, run).down[0].Ack? {
      SlotIsFree(After(Init, run));
    }
  }

  // A waiting sender whose mailbox is full is never left waiting: the ack in it is its own.
  lemma ReadyAckIsMine(run: seq<Action>)
    requires EnabledRun(Init, run)
    requires After(Init, run).sender.Waiting? && After(Init, run).ackReady && After(Init, run).running
    ensures Enabled(After(Init, run), TakeAck)
    ensures After(Init, run).lastAck == Ack(After(Init, run).sender.id)
  {
    InitInv();
    RunKeepsInv(Init, run);
    var s := After(Init, run);
    assert Outstanding(s)[0] == s.lastAck.id;
  }

  // ---------------------------------------------------------------------
  // Message ids, as long as the counter does not wrap around: every request has its
  // own.

  predicate Increasing(ids: seq<nat>) {
    forall i, j :: 0 <= i < j < |ids| ==> ids[i] < ids[j]
  }

  predicate Below(ids: seq<nat>, n: nat) {
    forall i :: 0 <= i < |ids| ==> ids[i] < n
  }

  // The counter is past every id sent, or at the last one while its ack is awaited.
  predicate IdsOk(s: State, steps: nat) {
    && 1 <= s.messageId <= 1 + steps && Increasing(s.sent)
    && (s.sender.Ready? ==> Below(s.sent, s.messageId))
    && (s.sender.Waiting? ==> Below(s.sent, s.messageId + (if s.sender.bump then 1 else 0)))
  }

  lemma AppendKeepsIncreasing(ids: seq<nat>, n: nat)
    requires Increasing(ids) && Below(ids, n)
    ensures Increasing(ids + [n]) && Below(ids + [n], n + 1)
  {
  }

  lemma BumpRaises(id: nat)
    requires id + 1 < 0x1_0000_0000
    ensures Bump(id) == id + 1
  {
  }

  lemma AuthKeepsIds(s: State, a: Action, steps: nat)
    requires Enabled(s, a) && a.SubmitAuth? && IdsOk(s, steps) && steps + 2 < 0x1_0000_0000
    ensures IdsOk(Next(s, a), steps + 1)
  {
    BumpRaises(s.messageId);
    AppendKeepsIncreasing(s.sent, s.messageId + 1);
  }

  lemma SendKeepsIds(s: State, a: Action, steps: nat)
    requires Enabled(s, a) && a.SendRequest? && IdsOk(s, steps) && steps + 2 < 0x1_0000_0000
    ensures IdsOk(Next(s, a), steps + 1)
  {
    BumpRaises(s.messageId);
    AppendKeepsIncreasing(s.sent, s.messageId);
  }

  lemma StepKeepsIds(s: State, a: Action, steps: nat)
    requires Enabled(s, a) && IdsOk(s, steps) && steps + 2 < 0x1_0000_0000
    ensures IdsOk(Next(s, a), steps + 1)
  {
    if a.SubmitAuth? {
      AuthKeepsIds(s, a, steps);
    } else if a.SendRequest? {
      SendKeepsIds(s, a, steps);
    } else {
      BumpRaises(s.messageId);
    }
  }

  lemma {:induction false} RunKeepsIds(s: State, run: seq<Action>, steps: nat)
    requires EnabledRun(s, run) && IdsOk(s, steps) && steps + |run| + 1 < 0x1_0000_0000
    ensures IdsOk(After(s, run), steps + |run|)
    decreases |run|
  {
    if run != [] {
      StepKeepsIds(s, run[0], steps);
      RunKeepsIds(Next(s, run[0]), run[1..], steps + 1);
    }
  }

  lemma IdsIncrease(run: seq<Action>)
    requires EnabledRun(Init, run) && |run| + 1 < 0x1_0000_0000
    ensures Increasing(After(Init, run).sent)
  {
    RunKeepsIds(Init, run, 0);
  }

  // What each request of the sender puts on the socket, and who goes on without one.
  lemma RequestAnswer(s: State, a: Action)
    requires Enabled(s, a) && (a.SubmitAuth? || a.SendRequest?)
    ensures var t := Next(s, a); var usable := if a.SubmitAuth? then a.hashed else a.formatted;
        && (t.sender.Waiting? <==> usable && a.written)
        && (t.sender.Ready? <==> a.SendRequest? && !a.formatted && !a.quits)
        && t.sent == (if usable && a.written then s.sent + [t.sender.id] else s.sent)
        && t.up == (if usable && a.written then s.up + [t.sender.id] else s.up)
        && t.acked == s.acked && t.consumed == s.consumed && t.down == s.down && t.lastAck == s.lastAck
  {
  }

  // ---------------------------------------------------------------------
  // Who stops the client: the end of the receiver thread, an acked logout, or the
  // menu's exit.

  predicate RunningOk(s: State) {
    s.running <==> s.receiving && !s.sender.Stopped?
  }

  lemma StepKeepsRunning(s: State, a: Action)
    requires Enabled(s, a) && RunningOk(s)
    ensures RunningOk(Next(s, a))
  {
  }

  lemma {:induction false} RunKeepsRunning(s: State, run: seq<Action>)
    requires EnabledRun(s, run) && RunningOk(s)
    ensures RunningOk(After(s, run))
    decreases |run|
  {
    if run != [] {
      StepKeepsRunning(s, run[0]);
      RunKeepsRunning(Next(s, run[0]), run[1..]);
    }
  }

  // A waiting sender gives up exactly if the receiver thread has ended, and takes
  // its ack exactly if the slot is full while the receiver thread runs.
  lemma WaitEndsIff(run: seq<Action>)
    requires EnabledRun(Init, run) && After(Init, run).sender.Waiting?
    ensures Enabled(After(Init, run), GiveUp) <==> !After(Init, run).receiving
    ensures Enabled(After(Init, run), TakeAck) <==> After(Init, run).receiving && After(Init, run).ackReady
  {
    RunKeepsRunning(Init, run);
    var s := After(Init, run);
    if s.ackReady && s.running {
      ReadyAckIsMine(run);
    }
  }

  // The ack of a logout stops the client, any other leaves it ready for the menu.
  lemma WaitEndsWith(s: State)
    requires Enabled(s, TakeAck)
    ensures var t := Next(s, TakeAck);
        && t.consumed == s.consumed + [s.lastAck.id] && !t.ackReady
        && (if s.sender.quits then t.sender == Stopped && !t.running else t.sender == Ready && t.running)
    ensures var t := Next(s, TakeAck); t.receiving == s.receiving && t.sent == s.sent && t.acked == s.acked
  {
  }

  lemma StoppedBy(s: State, a: Action)
    requires Enabled(s, a) && (a.Exit? || a.GiveUp? || a.ReceiverEnds?)
    ensures var t := Next(s, a);
        && !t.running && (a.ReceiverEnds? <==> t.sender == s.sender) && (!a.ReceiverEnds? ==> t.sender == Stopped)
        && t.receiving == (s.receiving && !a.ReceiverEnds?) && t.sent == s.sent && t.consumed == s.consumed
  {
  }

  // ---------------------------------------------------------------------
  // No request waits in vain: while the receiver thread runs and the server thread
  // has not left, steps of these two bring the ack to the waiting sender.

  predicate OnlyThreads(run: seq<Action>) {
    forall i :: 0 <= i < |run| ==> run[i] == Receive || run[i] == ServerReads || run[i] == ServerAcks(false)
  }

  predicate Awaits(s: State) {
    Inv(s) && RunningOk(s) && s.sender.Waiting? && s.receiving && !s.server.Gone?
  }

  function AckStep(s: State): Action {
    if s.down != [] then Receive else if s.server.Serving? then ServerAcks(false) else ServerReads
  }

  function StepsToAck(s: State): nat {
    2 * |s.up| + (if s.server.Serving? then 1 else 0)
  }

  lemma AckStepAdvances(s: State)
    requires Awaits(s) && !s.ackReady
    ensures Enabled(s, AckStep(s)) && Awaits(Next(s, AckStep(s))) && Next(s, AckStep(s)).sender == s.sender
    ensures var a := AckStep(s); a == Receive || a == ServerReads || a == ServerAcks(false)
    ensures var t := Next(s, AckStep(s));
        StepsToAck(t) < StepsToAck(s) || (StepsToAck(t) == StepsToAck(s) && |t.down| < |s.down|)
  {
    StepKeepsInv(s, AckStep(s));
  }

  lemma ReadyIsTaken(s: State)
    requires Awaits(s) && s.ackReady
    ensures Enabled(s, TakeAck)
  {
    assert Outstanding(s)[0] == s.lastAck.id;
  }

  lemma {:induction false} AckCanArrive(s: State) returns (run: seq<Action>)
    requires Awaits(s)
    ensures EnabledRun(s, run) && OnlyThreads(run) && Enabled(After(s, run), TakeAck)
    ensures After(s, run).sender == s.sender
    decreases StepsToAck(s), |s.down|
  {
    if s.ackReady {
      ReadyIsTaken(s);
      run := [];
    } else {
      AckStepAdvances(s);
      var rest := AckCanArrive(Next(s, AckStep(s)));
      run := Cons(s, AckStep(s), rest);
    }
  }

  lemma Cons(s: State, a: Action, rest: seq<Action>) returns (run: seq<Action>)
    requires Enabled(s, a) && EnabledRun(Next(s, a), rest)
    ensures run == [a] + rest && EnabledRun(s, run) && After(s, run) == After(Next(s, a), rest)
  {
    run := [a] + rest;
    assert run[1..] == rest;
  }

  // In every reachable state.
  lemma NoWaitInVain(run: seq<Action>) returns (more: seq<Action>)
    requires EnabledRun(Init, run)
    requires var s := After(Init, run); s.sender.Waiting? && s.receiving && !s.server.Gone?
    ensures var s := After(Init, run);
        && EnabledRun(s, more) && OnlyThreads(more) && Enabled(After(s, more), TakeAck)
        && After(s, more).sender == s.sender
  {
    InitInv();
    RunKeepsInv(Init, run);
    RunKeepsRunning(Init, run);
    more := AckCanArrive(After(Init, run));
  }

  // Once the server thread has written its last ack it acks nothing more.
  lemma {:induction false} GoneStays(s: State, run: seq<Action>)
    requires EnabledRun(s, run) && s.server.Gone?
    ensures After(s, run).server.Gone? && After(s, run).acked == s.acked
    decreases |run|
  {
    if run != [] {
      GoneStays(Next(s, run[0]), run[1..]);
    }
  }

  lemma LastAckIsLast(s: State, run: seq<Action>)
    requires Enabled(s, ServerAcks(true)) && EnabledRun(Next(s, ServerAcks(true)), run)
    ensures After(Next(s, ServerAcks(true)), run).acked == s.acked + [s.server.id]
  {
    GoneStays(Next(s, ServerAcks(true)), run);
  }
}
