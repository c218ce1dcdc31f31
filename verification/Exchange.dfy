// One request to the remote processor as the socket callbacks see it:
// ChatEncryptionService.exchange in backend/src/modules/chat/chat-encryption.service.ts.
module Exchange {
  import opened Substitution

  const ResponseSize := 588

  datatype Event = Connect | Data(chunk: seq<byte>) | Timeout | Error | Close

  datatype Failure = TimedOut | ConnectionFailed | ClosedEarly

  datatype Outcome = Pending | Resolved(data: seq<byte>) | Rejected(failure: Failure)

  // The closure variables. Once settled, the listeners are gone.
  datatype State = State(chunks: seq<seq<byte>>, received: nat, outcome: Outcome)

  const Start := State([], 0, Pending)

  function Concat(chunks: seq<seq<byte>>): seq<byte> {
    if chunks == [] then [] else Concat(chunks[..|chunks| - 1]) + chunks[|chunks| - 1]
  }

  predicate Fails(e: Event) { e.Timeout? || e.Error? || e.Close? }

  function FailureOf(e: Event): Failure
    requires Fails(e)
  {
    match e
    case Timeout => TimedOut
    case Error => ConnectionFailed
    case Close => ClosedEarly
  }

  // subarray(0, 588).
  function Head(data: seq<byte>): seq<byte> {
    if |data| <= ResponseSize then data else data[..ResponseSize]
  }

  function Step(s: State, e: Event): State {
    if s.outcome != Pending then s
    else match e
      case Connect => s
      case Data(chunk) =>
        var t := State(s.chunks + [chunk], s.received + |chunk|, Pending);
        if t.received < ResponseSize then t else t.(outcome := Resolved(Head(Concat(t.chunks))))
      case Close => if s.received < ResponseSize then s.(outcome := Rejected(ClosedEarly)) else s
      case _ => s.(outcome := Rejected(FailureOf(e)))
  }

  function Run(s: State, events: seq<Event>): State
    decreases |events|
  {
    if events == [] then s else Run(Step(s, events[0]), events[1..])
  }

  class Socket {
    var chunks: seq<seq<byte>>
    var received: nat
    var settled: bool
    var outcome: Outcome

    ghost function View(): State
      reads this
    {
      State(chunks, received, outcome)
    }

    ghost predicate Valid()
      reads this
    {
      settled == (outcome != Pending) && received == |Concat(chunks)|
    }

    constructor ()
      ensures Valid() && View() == Start
    {
      chunks, received, settled, outcome := [], 0, false, Pending;
    }

    // fail: only the first settlement counts.
    method Fail(f: Failure)
      requires Valid()
      modifies this
      ensures Valid() && View() == old(View()).(outcome := if old(settled) then old(outcome) else Rejected(f))
    {
      if settled {
        return;
      }
      settled := true;
      outcome := Rejected(f);
    }

    method OnData(chunk: seq<byte>)
      requires Valid() && !settled
      modifies this
      ensures Valid() && View() == Step(old(View()), Data(chunk))
    {
      chunks := chunks + [chunk];
      received := received + |chunk|;
      assert chunks[..|chunks| - 1] == old(chunks);
      if received < ResponseSize || settled {
        return;
      }
      settled := true;
      var data := Head(Concat(chunks));
      outcome := Resolved(data);
    }

    method OnClose()
      requires Valid()
      modifies this
      ensures Valid() && View() == Step(old(View()), Close)
    {
      if !settled && received < ResponseSize {
        Fail(ClosedEarly);
      }
    }

    // The event loop: cleanup() removes the listeners once settled.
    method Deliver(e: Event)
      requires Valid()
      modifies this
      ensures Valid() && View() == Step(old(View()), e)
    {
      if settled {
        return;
      }
      match e
      case Connect =>
      case Data(chunk) => OnData(chunk);
      case Timeout => Fail(TimedOut);
      case Error => Fail(ConnectionFailed);
      case Close => OnClose();
    }
  }

  // ---------------------------------------------------------------------
  // What any event sequence leads to, said without the machine.

  // The events before the first failure, and the bytes they carry.
  function BeforeFailure(events: seq<Event>): (p: seq<Event>)
    ensures p <= events
    ensures |p| < |events| ==> Fails(events[|p|])
  {
    if events == [] || Fails(events[0]) then []
    else
      var q := BeforeFailure(events[1..]);
      assert events == [events[0]] + events[1..];
      [events[0]] + q
  }

  function Bytes(events: seq<Event>): seq<byte> {
    if events == [] then []
    else (if events[0].Data? then events[0].chunk else []) + Bytes(events[1..])
  }

  lemma {:induction false} SettledStays(s: State, events: seq<Event>)
    requires s.outcome != Pending
    ensures Run(s, events) == s
    decreases |events|
  {
    if events != [] {
      SettledStays(s, events[1..]);
    }
  }

  predicate Consistent(s: State) {
    s.received == |Concat(s.chunks)| && s.outcome == Pending && s.received < ResponseSize
  }

  // The outcome depends only on the bytes that arrive before the first failure
  // event: enough of them resolve with the first 588, however they are cut into
  // chunks; too few reject with that failure, or leave the promise open.
  function Expected(held: seq<byte>, events: seq<Event>): Outcome {
    var before := BeforeFailure(events);
    var data := held + Bytes(before);
    if |data| >= ResponseSize then Resolved(Head(data))
    else if |before| < |events| then Rejected(FailureOf(events[|before|]))
    else Pending
  }

  lemma ExpectedSkips(held: seq<byte>, events: seq<Event>)
    requires events != [] && !Fails(events[0])
    ensures Expected(held, events) ==
      Expected(held + (if events[0].Data? then events[0].chunk else []), events[1..])
  {
    var head := if events[0].Data? then events[0].chunk else [];
    var rest := BeforeFailure(events[1..]);
    assert BeforeFailure(events) == [events[0]] + rest;
    assert BeforeFailure(events)[1..] == rest;
    assert held + (head + Bytes(rest)) == held + head + Bytes(rest);
  }

  lemma ExpectedWhenFull(held: seq<byte>, events: seq<Event>)
    requires |held| >= ResponseSize
    ensures Expected(held, events) == Resolved(Head(held))
  {
  }

  lemma {:induction false} OutcomeFrom(s: State, events: seq<Event>)
    requires Consistent(s)
    ensures Run(s, events).outcome == Expected(Concat(s.chunks), events)
    decreases |events|
  {
    if events != [] {
      var e := events[0];
      var s' := Step(s, e);
      if Fails(e) {
        SettledStays(s', events[1..]);
      } else if e.Connect? {
        ExpectedSkips(Concat(s.chunks), events);
        assert Concat(s.chunks) + [] == Concat(s.chunks);
        OutcomeFrom(s', events[1..]);
      } else {
        ExpectedSkips(Concat(s.chunks), events);
        assert s'.chunks[..|s'.chunks| - 1] == s.chunks;
        assert Concat(s'.chunks) == Concat(s.chunks) + e.chunk;
        if s'.outcome == Pending {
          OutcomeFrom(s', events[1..]);
        } else {
          SettledStays(s', events[1..]);
          ExpectedWhenFull(Concat(s'.chunks), events[1..]);
        }
      }
    } else {
      assert Concat(s.chunks) + [] == Concat(s.chunks);
    }
  }

  lemma OutcomeOf(events: seq<Event>)
    ensures Run(Start, events).outcome == Expected([], events)
  {
    OutcomeFrom(Start, events);
  }

  predicate FailsAt(events: seq<Event>, i: nat, e: Event) {
    i < |events| && events[i] == e
  }

  // Which failure a refused exchange reports: what came first, too early.
  lemma FailureReported(events: seq<Event>)
    ensures var before := BeforeFailure(events); var short := |Bytes(before)| < 588; var outcome := Run(Start, events).outcome;
        && (outcome == Rejected(TimedOut) <==> short && FailsAt(events, |before|, Timeout))
        && (outcome == Rejected(ConnectionFailed) <==> short && FailsAt(events, |before|, Error))
        && (outcome == Rejected(ClosedEarly) <==> short && FailsAt(events, |before|, Close))
        && (outcome == Pending <==> short && before == events)
  {
    OutcomeOf(events);
    assert [] + Bytes(BeforeFailure(events)) == Bytes(BeforeFailure(events));
  }
}
