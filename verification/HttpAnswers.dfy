// What the HTTP client answers: which token goes out with a request, and how a
// request ends.
module HttpAnswers {
  import opened Options
  import opened HttpRefresh

  // A token that is neither null nor empty.
  predicate Present(t: Token) {
    t != None && t != Some("")
  }

  // Nothing but request r may differ among the requests.
  predicate OnlyRequest(s: State, t: State, r: nat) {
    |t.requests| == |s.requests| && forall q :: 0 <= q < |s.requests| && q != r ==> t.requests[q] == s.requests[q]
  }

  // ---------------------------------------------------------------------
  // Step by step.

  // A request goes out with the access token of the moment, unless it opts out.
  lemma SendAnswer(s: State, skip: bool)
    ensures var t := Next(s, Send(skip));
        && |t.requests| == |s.requests| + 1 && s.requests <= t.requests
        && t.accessToken == s.accessToken && t.flights == s.flights
        && var q := t.requests[|s.requests|];
        q.bearer == (if Present(s.accessToken) && !skip then s.accessToken else None)
        && q.phase == InFlight && !q.retry && q.skipAuthRefresh == skip && q.sent == 1
  {
  }

  // After a login the next request carries its token; after a logout none does.
  lemma TokenInUse(s: State, token: Token)
    ensures var q := Next(Next(s, SetToken(token)), Send(false)).requests[|s.requests|];
        q.bearer == if Present(token) then token else None
  {
    SendAnswer(Next(s, SetToken(token)), false);
  }

  lemma HandlerInUse(s: State, present: bool)
    ensures Next(s, SetHandler(present)) == s.(handlerSet := present)
  {
  }

  // The store's handler: the answer becomes the access token, and the flight's.
  lemma HandlerAnswer(s: State, token: Token)
    requires Enabled(s, HandlerDone(token))
    ensures var f := s.refreshPromise.value; var t := Next(s, HandlerDone(token));
        && t.accessToken == token && t.flights[f].progress == Answered(token) && t.refreshPromise == s.refreshPromise
        && t.requests == s.requests && |t.flights| == |s.flights|
        && forall g :: 0 <= g < |s.flights| && g != f ==> t.flights[g] == s.flights[g]
  {
  }

  lemma FinallyAnswer(s: State)
    requires Enabled(s, Finally)
    ensures var f := s.refreshPromise.value; var t := Next(s, Finally);
        && t.refreshPromise == None && t.flights[f].progress == Settled(s.flights[f].progress.answer)
        && t.accessToken == s.accessToken && t.requests == s.requests && |t.flights| == |s.flights|
        && forall g :: 0 <= g < |s.flights| && g != f ==> t.flights[g] == s.flights[g]
  {
  }

  // A request succeeds with a success, waits for a refresh on the expiry of its
  // first sending, and fails otherwise; failing after a retry gives the session up.
  lemma ReplyAnswer(s: State, r: nat, reply: Reply)
    requires Inv(s) && Enabled(s, Answer(r, reply))
    ensures var t := Next(s, Answer(r, reply)); var p, q := s.requests[r], t.requests[r];
        && OnlyRequest(s, t, r) && q.bearer == p.bearer && q.sent == p.sent
        && (q.phase == Succeeded <==> reply == Success)
        && (q.phase.Waiting? <==> reply == AccessTokenExpired && p.sent == 1 && !p.skipAuthRefresh)
        && (q.phase == Failed <==> reply != Success && !q.phase.Waiting?)
        && (q.phase.Waiting? && !s.handlerSet ==> q.phase.flight == None)
        && (q.phase.Waiting? && s.handlerSet && s.refreshPromise != None ==> q.phase.flight == s.refreshPromise)
        && (q.phase.Waiting? && s.handlerSet && s.refreshPromise == None ==> q.phase.flight == Some(|s.flights|))
        && (q.phase == Failed && p.sent == 2 ==> t.accessToken == None && t.authFailures == s.authFailures + 1)
        && (!(q.phase == Failed && p.sent == 2) ==> t.accessToken == s.accessToken && t.authFailures == s.authFailures)
  {
    assert RequestOk(s, r);
  }

  // What an awaited refresh brought.
  function Brought(s: State, r: nat): Token
    requires Enabled(s, Resume(r))
  {
    var flight := s.requests[r].phase.flight;
    if flight == None then None else s.flights[flight.value].progress.outcome
  }

  // With a token the request goes out again, under the access token of the moment
  // or, without one, under the token the refresh brought; without it the request
  // fails and the session is given up.
  lemma ResumeAnswer(s: State, r: nat)
    requires Enabled(s, Resume(r))
    ensures var t := Next(s, Resume(r)); var q := t.requests[r];
        && OnlyRequest(s, t, r) && t.flights == s.flights && t.refreshPromise == s.refreshPromise
        && (if Present(Brought(s, r)) then
              q.phase == InFlight && q.sent == s.requests[r].sent + 1 && t.accessToken == s.accessToken
              && q.bearer == (if Present(s.accessToken) then s.accessToken else Brought(s, r))
            else q.phase == Failed && t.accessToken == None && t.authFailures == s.authFailures + 2)
  {
  }

  // ---------------------------------------------------------------------
  // The token a refresh brings is the one its waiters go out with again.

  // Steps after which the access token is another's: a login, another refresh, a
  // request given up.
  predicate Interferes(s: State, a: Action)
    requires Enabled(s, a)
  {
    || a.SetToken? || a.HandlerDone?
    || (a.Answer? && a.reply != Success && s.requests[a.r].retry)
    || (a.Resume? && !Present(Brought(s, a.r)))
  }

  predicate Undisturbed(s: State, run: seq<Action>)
    requires EnabledRun(s, run)
    decreases |run|
  {
    run == [] || (!Interferes(s, run[0]) && Undisturbed(Next(s, run[0]), run[1..]))
  }

  // The refresh f has answered this token, which is the access token.
  predicate Holds(s: State, f: nat, token: Token) {
    && s.accessToken == token && f < |s.flights|
    && (s.flights[f].progress == Answered(token) || s.flights[f].progress == Settled(token))
  }

  lemma StepHolds(s: State, a: Action, f: nat, token: Token)
    requires Enabled(s, a) && !Interferes(s, a) && Holds(s, f, token)
    ensures Holds(Next(s, a), f, token)
  {
  }

  lemma {:induction false} RunHolds(s: State, run: seq<Action>, f: nat, token: Token)
    requires EnabledRun(s, run) && Undisturbed(s, run) && Holds(s, f, token)
    ensures Holds(After(s, run), f, token)
    decreases |run|
  {
    if run != [] {
      StepHolds(s, run[0], f, token);
      RunHolds(Next(s, run[0]), run[1..], f, token);
    }
  }

  // Whatever else runs in between, as long as nothing changes the access token.
  lemma RetryCarriesItsToken(s: State, token: Token, run: seq<Action>, r: nat)
    requires Enabled(s, HandlerDone(token)) && Present(token)
    requires var s1 := Next(s, HandlerDone(token)); EnabledRun(s1, run) && Undisturbed(s1, run)
    requires var w := After(Next(s, HandlerDone(token)), run);
        Enabled(w, Resume(r)) && w.requests[r].phase.flight == s.refreshPromise
    ensures var w := After(Next(s, HandlerDone(token)), run); var q := Next(w, Resume(r)).requests[r];
        q.phase == InFlight && q.bearer == token && q.sent == w.requests[r].sent + 1
  {
    var s1 := Next(s, HandlerDone(token));
    var f := s.refreshPromise.value;
    RunHolds(s1, run, f, token);
    ResumeAnswer(After(s1, run), r);
  }

  // The ordinary case, from the start: an expired request is sent again with the
  // token its refresh brings.
  lemma ExpiredRequestRetried(expired: Token, token: Token) returns (run: seq<Action>)
    requires Present(token)
    ensures run == [SetToken(expired), Send(false), Answer(0, AccessTokenExpired), HandlerDone(token), Finally, Resume(0)]
    ensures EnabledRun(Init, run) && |After(Init, run).requests| == 1
    ensures var q := After(Init, run).requests[0]; q.phase == InFlight && q.bearer == token && q.sent == 2
  {
    var s1 := Next(Init, SetToken(expired));
    var s2 := Next(s1, Send(false));
    var s3 := Next(s2, Answer(0, AccessTokenExpired));
    var s4 := Next(s3, HandlerDone(token));
    var s5 := Next(s4, Finally);
    ResumeAnswer(s5, 0);
    run := Cons(s5, Resume(0), []);
    run := Cons(s4, Finally, run);
    run := Cons(s3, HandlerDone(token), run);
    run := Cons(s2, Answer(0, AccessTokenExpired), run);
    run := Cons(s1, Send(false), run);
    run := Cons(Init, SetToken(expired), run);
  }

  lemma Cons(s: State, a: Action, rest: seq<Action>) returns (run: seq<Action>)
    requires Enabled(s, a) && EnabledRun(Next(s, a), rest)
    ensures run == [a] + rest && EnabledRun(s, run) && After(s, run) == After(Next(s, a), rest)
  {
    run := [a] + rest;
    assert run[1..] == rest;
  }
}
