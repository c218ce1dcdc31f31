// The HTTP client's response interceptor, frontend/src/services/http.ts, with the
// session store of frontend/src/store/auth.store.ts behind its handlers. One step
// is one callback of the event loop; requests, replies and the refresh call come
// back in any order.
module HttpRefresh {
  import opened Options
  import opened Sets

  type Token = Option<string>

  // null and the empty string are both falsy.
  predicate Truthy(t: Token) {
    t.Some? && t.value != ""
  }

  datatype Reply = Success | AccessTokenExpired | OtherFailure

  datatype Phase =
    | InFlight
    | Waiting(flight: Option<nat>) // None: no refresh handler was set
    | Succeeded
    | Failed

  // sent counts how often the request went out; joined is the refresh it awaited
  // and refreshed what that await returned.
  datatype Request = Request(skipAuthRefresh: bool, retry: bool, phase: Phase, bearer: Token, sent: nat,
                             joined: Option<nat>, refreshed: Option<Token>)

  // A refresh started by the interceptor. Answered: the handler's promise has
  // resolved but its finally callback has not run.
  datatype Progress = Running | Answered(answer: Token) | Settled(outcome: Token)

  datatype Flight = Flight(starter: nat, progress: Progress)

  datatype State = State(accessToken: Token, refreshPromise: Option<nat>, handlerSet: bool, requests: seq<Request>,
                         flights: seq<Flight>, authFailures: nat)

  const Init := State(None, None, true, [], [], 0)

  datatype Action =
    | SetToken(t: Token)               // login, logout, hydrateSession
    | SetHandler(present: bool)
    | Send(skip: bool)
    | Answer(r: nat, reply: Reply)
    | HandlerDone(t: Token)
    | Finally
    | Resume(r: nat)

  predicate Enabled(s: State, a: Action) {
    match a
    case Answer(r, _) => r < |s.requests| && s.requests[r].phase.InFlight?
    case HandlerDone(_) => s.refreshPromise.Some? && s.refreshPromise.value < |s.flights|
        && s.flights[s.refreshPromise.value].progress.Running?
    case Finally => s.refreshPromise.Some? && s.refreshPromise.value < |s.flights|
        && s.flights[s.refreshPromise.value].progress.Answered?
    case Resume(r) =>
      && r < |s.requests| && s.requests[r].phase.Waiting?
      && (s.requests[r].phase.flight.Some? ==>
            s.requests[r].phase.flight.value < |s.flights| && s.flights[s.requests[r].phase.flight.value].progress.Settled?)
    case _ => true
  }

  // The request interceptor.
  function Bearer(s: State, skip: bool, header: Token): Token {
    if Truthy(s.accessToken) && !skip then s.accessToken else header
  }

  // The guard of the response interceptor.
  predicate Refreshes(request: Request, reply: Reply) {
    reply == AccessTokenExpired && !request.skipAuthRefresh && !request.retry
  }

  // The catch block, on a request whose retry or refresh failed.
  function GiveUp(s: State, r: nat, failures: nat): State
    requires r < |s.requests|
  {
    s.(requests := s.requests[r := s.requests[r].(phase := Failed)], accessToken := None,
       authFailures := s.authFailures + failures)
  }

  // runSharedRefresh, up to the await.
  function AwaitRefresh(s: State, r: nat): State
    requires r < |s.requests|
  {
    var request := s.requests[r].(retry := true);
    if !s.handlerSet then
      s.(requests := s.requests[r := request.(phase := Waiting(None), joined := None)])
    else if s.refreshPromise.Some? then
      s.(requests := s.requests[r := request.(phase := Waiting(s.refreshPromise), joined := s.refreshPromise)])
    else
      var f := |s.flights|;
      s.(requests := s.requests[r := request.(phase := Waiting(Some(f)), joined := Some(f))],
         flights := s.flights + [Flight(r, Running)], refreshPromise := Some(f))
  }

  function Resumed(s: State, r: nat): State
    requires Enabled(s, Resume(r))
  {
    var request := s.requests[r];
    var t := if request.phase.flight.None? then None else s.flights[request.phase.flight.value].progress.outcome;
    var s1 := s.(requests := s.requests[r := request.(refreshed := Some(t))]);
    if !Truthy(t) then GiveUp(s1, r, 2)
    else
      var again := s1.requests[r].(phase := InFlight, sent := request.sent + 1, bearer := Bearer(s, false, t));
      s1.(requests := s1.requests[r := again])
  }

  function Next(s: State, a: Action): State
    requires Enabled(s, a)
  {
    match a
    case SetToken(t) => s.(accessToken := t)
    case SetHandler(present) => s.(handlerSet := present)
    case Send(skip) =>
      s.(requests := s.requests + [Request(skip, false, InFlight, Bearer(s, skip, None), 1, None, None)])
    case Answer(r, reply) =>
      if reply == Success then s.(requests := s.requests[r := s.requests[r].(phase := Succeeded)])
      else if Refreshes(s.requests[r], reply) then AwaitRefresh(s, r)
      else if s.requests[r].retry then GiveUp(s, r, 1)
      else s.(requests := s.requests[r := s.requests[r].(phase := Failed)])
    case HandlerDone(t) =>
      var f := s.refreshPromise.value;
      s.(accessToken := t, flights := s.flights[f := s.flights[f].(progress := Answered(t))])
    case Finally =>
      var f := s.refreshPromise.value;
      s.(refreshPromise := None, flights := s.flights[f := s.flights[f].(progress := Settled(s.flights[f].progress.answer))])
    case Resume(r) => Resumed(s, r)
  }

  // ---------------------------------------------------------------------
  // The module's variables, one method per callback.
  class HttpClient {
    var accessToken: Token
    var refreshPromise: Option<nat>
    var handlerSet: bool
    var requests: seq<Request>
    var flights: seq<Flight>
    var authFailures: nat

    ghost function View(): State
      reads this
    {
      State(accessToken, refreshPromise, handlerSet, requests, flights, authFailures)
    }

    constructor ()
      ensures View() == Init
    {
      accessToken, refreshPromise, handlerSet := None, None, true;
      requests, flights, authFailures := [], [], 0;
    }

    method SendRequest(skipAuthRefresh: bool) returns (r: nat)
      modifies this
      ensures View() == Next(old(View()), Send(skipAuthRefresh)) && r == |old(requests)|
    {
      r := |requests|;
      var authorization: Token := None;
      if Truthy(accessToken) && !skipAuthRefresh {
        authorization := accessToken;
      }
      requests := requests + [Request(skipAuthRefresh, false, InFlight, authorization, 1, None, None)];
    }

    // runSharedRefresh: the refresh to wait for, if there is a handler.
    method RunSharedRefresh(r: nat) returns (flight: Option<nat>)
      modifies this
      ensures flight ==
          if !handlerSet then None
          else if old(refreshPromise).Some? then old(refreshPromise)
          else Some(|old(flights)|)
      ensures flights == if handlerSet && old(refreshPromise).None? then old(flights) + [Flight(r, Running)] else old(flights)
      ensures refreshPromise == if handlerSet then flight else old(refreshPromise)
      ensures unchanged(`accessToken) && unchanged(`handlerSet) && unchanged(`requests) && unchanged(`authFailures)
    {
      if !handlerSet {
        return None;
      }
      if refreshPromise.None? {
        refreshPromise := Some(|flights|);
        flights := flights + [Flight(r, Running)];
      }
      return refreshPromise;
    }

    // The response interceptor.
    method OnReply(r: nat, reply: Reply)
      requires Enabled(View(), Answer(r, reply))
      modifies this
      ensures View() == Next(old(View()), Answer(r, reply))
    {
      var config := requests[r];
      if reply == Success {
        requests := requests[r := config.(phase := Succeeded)];
        return;
      }
      if config.skipAuthRefresh || config.retry || reply != AccessTokenExpired {
        requests := requests[r := config.(phase := Failed)];
        if config.retry {
          // Thrown inside the try block of the first failure.
          accessToken := None;
          authFailures := authFailures + 1;
        }
        return;
      }
      config := config.(retry := true);
      var flight := RunSharedRefresh(r);
      requests := requests[r := config.(phase := Waiting(flight), joined := flight)];
    }

    method OnHandlerDone(t: Token)
      requires Enabled(View(), HandlerDone(t))
      modifies this
      ensures View() == Next(old(View()), HandlerDone(t))
    {
      var f := refreshPromise.value;
      accessToken := t;
      flights := flights[f := flights[f].(progress := Answered(t))];
    }

    method OnFinally()
      requires Enabled(View(), Finally)
      modifies this
      ensures View() == Next(old(View()), Finally)
    {
      var f := refreshPromise.value;
      refreshPromise := None;
      flights := flights[f := flights[f].(progress := Settled(flights[f].progress.answer))];
    }

    // The interceptor after its await.
    method OnRefreshed(r: nat)
      requires Enabled(View(), Resume(r))
      modifies this
      ensures View() == Next(old(View()), Resume(r))
    {
      var config := requests[r];
      var refreshedToken: Token := None;
      if config.phase.flight.Some? {
        refreshedToken := flights[config.phase.flight.value].progress.outcome;
      }
      config := config.(refreshed := Some(refreshedToken));
      if !Truthy(refreshedToken) {
        authFailures := authFailures + 1;
        accessToken := None;
        authFailures := authFailures + 1;
        requests := requests[r := config.(phase := Failed)];
        return;
      }
      var authorization := refreshedToken;
      if Truthy(accessToken) {
        authorization := accessToken;
      }
      requests := requests[r := config.(phase := InFlight, sent := config.sent + 1, bearer := authorization)];
    }
  }

  // ---------------------------------------------------------------------
  // What every interleaving keeps.

  predicate RequestOk(s: State, r: nat)
    requires r < |s.requests|
  {
    var request := s.requests[r];
    && request.sent == (if request.refreshed.Some? && Truthy(request.refreshed.value) then 2 else 1)
    && (request.skipAuthRefresh ==> !request.retry && request.bearer.None?)
    && (request.sent == 2 ==> Truthy(request.bearer))
    && (!request.retry ==> request.joined.None? && request.refreshed.None? && !request.phase.Waiting?)
    && (request.phase.Waiting? ==> request.refreshed.None? && request.joined == request.phase.flight)
    && (request.retry && request.phase.InFlight? ==> request.refreshed.Some? && Truthy(request.refreshed.value))
    && (request.joined.Some? ==> request.joined.value < |s.flights|)
    && (request.joined.Some? && request.refreshed.Some? ==>
        s.flights[request.joined.value].progress == Settled(request.refreshed.value))
  }

  predicate FlightOk(s: State, f: nat)
    requires f < |s.flights|
  {
    var flight := s.flights[f];
    && flight.starter < |s.requests| && s.requests[flight.starter].retry && s.requests[flight.starter].joined == Some(f)
    && (!flight.progress.Settled? <==> s.refreshPromise == Some(f))
  }

  ghost predicate Inv(s: State) {
    && (forall r: nat :: r < |s.requests| ==> RequestOk(s, r))
    && (forall f: nat :: f < |s.flights| ==> FlightOk(s, f))
    && (s.refreshPromise.Some? ==> s.refreshPromise.value < |s.flights|)
  }

  // The request an answer or the end of an await is for.
  lemma StepKeepsOwnRequest(s: State, a: Action)
    requires Inv(s) && Enabled(s, a) && (a.Answer? || a.Resume?)
    ensures RequestOk(Next(s, a), a.r)
  {
    assert RequestOk(s, a.r);
  }

  lemma StepKeepsRequest(s: State, a: Action, r: nat)
    requires Inv(s) && Enabled(s, a) && r < |Next(s, a).requests|
    ensures RequestOk(Next(s, a), r)
  {
    if (a.Answer? || a.Resume?) && a.r == r {
      StepKeepsOwnRequest(s, a);
    } else if r < |s.requests| {
      assert RequestOk(s, r);
      assert s.refreshPromise.Some? ==> FlightOk(s, s.refreshPromise.value);
    }
  }

  lemma StepKeepsFlight(s: State, a: Action, f: nat)
    requires Inv(s) && Enabled(s, a) && f < |Next(s, a).flights|
    ensures FlightOk(Next(s, a), f)
  {
    if f < |s.flights| {
      assert FlightOk(s, f);
      assert RequestOk(s, s.flights[f].starter);
    }
  }

  lemma StepKeepsInv(s: State, a: Action)
    requires Inv(s) && Enabled(s, a)
    ensures Inv(Next(s, a))
  {
    forall r: nat | r < |Next(s, a).requests| ensures RequestOk(Next(s, a), r) {
      StepKeepsRequest(s, a, r);
    }
    forall f: nat | f < |Next(s, a).flights| ensures FlightOk(Next(s, a), f) {
      StepKeepsFlight(s, a, f);
    }
  }

  predicate EnabledRun(s: State, run: seq<Action>)
    decreases |run|
  {
    run == [] || (Enabled(s, run[0]) && EnabledRun(Next(s, run[0]), run[1..]))
  }

  function After(s: State, run: seq<Action>): State
    requires EnabledRun(s, run)
    decreases |run|
  {
    if run == [] then s else After(Next(s, run[0]), run[1..])
  }

  lemma {:induction false} RunKeepsInv(s: State, run: seq<Action>)
    requires Inv(s) && EnabledRun(s, run)
    ensures Inv(After(s, run))
    decreases |run|
  {
    if run != [] {
      StepKeepsInv(s, run[0]);
      RunKeepsInv(Next(s, run[0]), run[1..]);
    }
  }

  // ---------------------------------------------------------------------
  // The properties, of every state a run reaches.

  lemma OneRefreshInFlight(run: seq<Action>, f: nat, g: nat)
    requires EnabledRun(Init, run)
    requires var s := After(Init, run);
        f < |s.flights| && g < |s.flights| && !s.flights[f].progress.Settled? && !s.flights[g].progress.Settled?
    ensures f == g
  {
    RunKeepsInv(Init, run);
    var s := After(Init, run);
    assert FlightOk(s, f) && FlightOk(s, g);
  }

  lemma WaitersShareTheOutcome(run: seq<Action>, q: nat, r: nat)
    requires EnabledRun(Init, run)
    requires var s := After(Init, run);
        q < |s.requests| && r < |s.requests| && s.requests[q].joined.Some?
        && s.requests[q].joined == s.requests[r].joined && s.requests[q].refreshed.Some?
        && s.requests[r].refreshed.Some?
    ensures After(Init, run).requests[q].refreshed == After(Init, run).requests[r].refreshed
  {
    RunKeepsInv(Init, run);
    var s := After(Init, run);
    assert RequestOk(s, q) && RequestOk(s, r);
  }

  // Sent again exactly when its refresh brought a token, then never without one,
  // and never a third time.
  lemma SentAtMostTwice(run: seq<Action>, r: nat)
    requires EnabledRun(Init, run) && r < |After(Init, run).requests|
    ensures var q := After(Init, run).requests[r];
        1 <= q.sent <= 2 && (q.sent == 2 <==> q.refreshed.Some? && Truthy(q.refreshed.value))
        && (q.sent == 2 ==> q.retry && !q.skipAuthRefresh && Truthy(q.bearer)) && (q.skipAuthRefresh ==> q.bearer.None?)
  {
    RunKeepsInv(Init, run);
    assert RequestOk(After(Init, run), r);
  }

  // What starts a refresh: an expired answer to a request sent once, while none
  // is pending.
  lemma StartsRefreshIff(s: State, a: Action)
    requires Inv(s) && Enabled(s, a)
    ensures |Next(s, a).flights| == |s.flights| + 1 <==>
        (a.Answer? && a.reply == AccessTokenExpired && s.requests[a.r].sent == 1 && !s.requests[a.r].skipAuthRefresh
        && s.handlerSet && s.refreshPromise.None?)
    ensures |s.flights| <= |Next(s, a).flights| <= |s.flights| + 1
  {
    if a.Answer? {
      assert RequestOk(s, a.r);
    }
  }

  ghost function Expired(s: State): set<nat> {
    set r: nat | r < |s.requests| && s.requests[r].retry
  }

  ghost function Starters(s: State, n: nat): set<nat>
    requires n <= |s.flights|
  {
    set f: nat | f < n :: s.flights[f].starter
  }

  lemma {:induction false} StartersAreDistinct(s: State, n: nat)
    requires Inv(s) && n <= |s.flights|
    ensures |Starters(s, n)| == n
  {
    if n == 0 {
      assert Starters(s, n) == {};
    } else {
      StartersAreDistinct(s, n - 1);
      assert Starters(s, n) == Starters(s, n - 1) + {s.flights[n - 1].starter};
      forall f: nat | f < n - 1 ensures s.flights[f].starter != s.flights[n - 1].starter {
        assert FlightOk(s, f) && FlightOk(s, n - 1);
      }
    }
  }

  // Refreshes never outnumber the requests whose access token had expired.
  lemma RefreshesAtMostExpired(run: seq<Action>)
    requires EnabledRun(Init, run)
    ensures |After(Init, run).flights| <= |Expired(After(Init, run))|
  {
    var s := After(Init, run);
    RunKeepsInv(Init, run);
    StartersAreDistinct(s, |s.flights|);
    forall r | r in Starters(s, |s.flights|) ensures r in Expired(s) {
      var f: nat :| f < |s.flights| && s.flights[f].starter == r;
      assert FlightOk(s, f);
    }
    SubsetSize(Starters(s, |s.flights|), Expired(s));
  }

  // ---------------------------------------------------------------------
  // Termination: without new requests, only so many callbacks can run, and
  // while a request is open one of them can.

  function RequestWeight(r: Request): nat {
    match r.phase
    case InFlight => if r.retry then 1 else 6
    case Waiting(_) => 3
    case _ => 0
  }

  function FlightWeight(f: Flight): nat {
    match f.progress
    case Running => 2
    case Answered(_) => 1
    case Settled(_) => 0
  }

  function Requests(rs: seq<Request>): nat {
    if rs == [] then 0 else Requests(rs[..|rs| - 1]) + RequestWeight(rs[|rs| - 1])
  }

  function Flights(fs: seq<Flight>): nat {
    if fs == [] then 0 else Flights(fs[..|fs| - 1]) + FlightWeight(fs[|fs| - 1])
  }

  function Measure(s: State): nat {
    Requests(s.requests) + Flights(s.flights)
  }

  lemma {:induction false} RequestsUpdate(rs: seq<Request>, i: nat, r: Request)
    requires i < |rs|
    ensures Requests(rs[i := r]) == Requests(rs) - RequestWeight(rs[i]) + RequestWeight(r)
  {
    var last := |rs| - 1;
    if i == last {
      assert rs[i := r][..last] == rs[..last];
    } else {
      RequestsUpdate(rs[..last], i, r);
      assert rs[i := r][..last] == rs[..last][i := r];
    }
  }

  lemma {:induction false} FlightsUpdate(fs: seq<Flight>, i: nat, f: Flight)
    requires i < |fs|
    ensures Flights(fs[i := f]) == Flights(fs) - FlightWeight(fs[i]) + FlightWeight(f)
  {
    var last := |fs| - 1;
    if i == last {
      assert fs[i := f][..last] == fs[..last];
    } else {
      FlightsUpdate(fs[..last], i, f);
      assert fs[i := f][..last] == fs[..last][i := f];
    }
  }

  lemma FlightsAppend(fs: seq<Flight>, f: Flight)
    ensures Flights(fs + [f]) == Flights(fs) + FlightWeight(f)
  {
    assert (fs + [f])[..|fs|] == fs;
  }

  // The callbacks of requests already made.
  predicate Internal(a: Action) {
    a.Answer? || a.HandlerDone? || a.Finally? || a.Resume?
  }

  lemma AnswerDecreases(s: State, r: nat, reply: Reply)
    requires Inv(s) && Enabled(s, Answer(r, reply))
    ensures Measure(Next(s, Answer(r, reply))) < Measure(s)
  {
    var t := Next(s, Answer(r, reply));
    RequestsUpdate(s.requests, r, t.requests[r]);
    FlightsAppend(s.flights, Flight(r, Running));
    assert RequestOk(s, r);
  }

  lemma ResumeDecreases(s: State, r: nat)
    requires Inv(s) && Enabled(s, Resume(r))
    ensures Measure(Next(s, Resume(r))) < Measure(s)
  {
    var t := Next(s, Resume(r));
    RequestsUpdate(s.requests, r, t.requests[r]);
    assert RequestOk(s, r);
    assert t.requests == s.requests[r := t.requests[r]];
  }

  lemma InternalDecreases(s: State, a: Action)
    requires Inv(s) && Enabled(s, a) && Internal(a)
    ensures Measure(Next(s, a)) < Measure(s)
  {
    match a
    case Answer(r, reply) => AnswerDecreases(s, r, reply);
    case Resume(r) => ResumeDecreases(s, r);
    case HandlerDone(t) => FlightsUpdate(s.flights, s.refreshPromise.value, Next(s, a).flights[s.refreshPromise.value]);
    case Finally => FlightsUpdate(s.flights, s.refreshPromise.value, Next(s, a).flights[s.refreshPromise.value]);
    case _ =>
  }

  lemma {:induction false} CallbacksRunOut(s: State, run: seq<Action>)
    requires Inv(s) && EnabledRun(s, run) && forall i :: 0 <= i < |run| ==> Internal(run[i])
    ensures |run| + Measure(After(s, run)) <= Measure(s)
    decreases |run|
  {
    if run != [] {
      InternalDecreases(s, run[0]);
      StepKeepsInv(s, run[0]);
      CallbacksRunOut(Next(s, run[0]), run[1..]);
    }
  }

  // The callback that brings an open request on.
  function NextCallback(s: State, r: nat): (a: Action)
    requires r < |s.requests|
  {
    var phase := s.requests[r].phase;
    if phase.InFlight? then Answer(r, OtherFailure)
    else if !phase.Waiting? || phase.flight.None? || phase.flight.value >= |s.flights| then Resume(r)
    else match s.flights[phase.flight.value].progress
         case Running => HandlerDone(None)
         case Answered(_) => Finally
         case Settled(_) => Resume(r)
  }

  lemma NoRequestIsStuck(run: seq<Action>, r: nat)
    requires EnabledRun(Init, run) && r < |After(Init, run).requests|
    requires var phase := After(Init, run).requests[r].phase; phase.InFlight? || phase.Waiting?
    ensures var s := After(Init, run); Internal(NextCallback(s, r)) && Enabled(s, NextCallback(s, r))
  {
    RunKeepsInv(Init, run);
    var s := After(Init, run);
    assert RequestOk(s, r);
    if s.requests[r].joined.Some? {
      assert FlightOk(s, s.requests[r].joined.value);
    }
  }
}
