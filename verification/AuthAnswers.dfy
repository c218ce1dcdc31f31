// What the session operations answer: when a login, a refresh, a revoke and an
// authentication succeed, and what they leave behind.
module AuthAnswers {
  import opened Options
  import opened AuthSession

  // Nothing but flight f may differ in what is in flight.
  ghost predicate OnlyFlight(s: State, t: State, f: nat) {
    forall g :: g != f ==> (g in t.flights <==> g in s.flights) && (g in t.flights ==> t.flights[g] == s.flights[g])
  }

  predicate SameDocsBut(s: State, t: State, sid: nat) {
    forall other :: other in s.docs && other != sid ==> other in t.docs && t.docs[other] == s.docs[other]
  }

  predicate SameTokens(s: State, t: State) {
    t.minted == s.minted && t.successes == s.successes
  }

  // ---------------------------------------------------------------------
  // Signing.

  lemma SignAnswer(cfg: Config, s: State, f: nat, now: nat)
    requires Enabled(s, SignAccess(f, now))
    ensures var t := Next(cfg, s, SignAccess(f, now));
        var token := AccessToken(s.flights[f].sid, s.flights[f].user, now / 1000);
        && token in t.minted && (forall other :: other != token ==> (other in t.minted <==> other in s.minted))
        && f !in t.flights && OnlyFlight(s, t, f) && t.docs == s.docs
  {
  }

  lemma OnlySigningMints(cfg: Config, s: State, a: Action)
    requires Enabled(s, a)
    ensures a.SignAccess? || Next(cfg, s, a).minted == s.minted
  {
  }

  // ---------------------------------------------------------------------
  // Login.

  lemma IssueAnswer(cfg: Config, s: State, user: string, now: nat)
    requires Enabled(s, Issue(user, now))
    ensures var t := Next(cfg, s, Issue(user, now)); var sid := s.nextSid;
        && t.docs.Keys == s.docs.Keys + {sid} && SameDocsBut(s, t, sid)
        && var doc := t.docs[sid];
        doc.user == user && doc.issuedAt == now && doc.expiresAt == now + cfg.refreshTtl * 1000 && doc.status == Active
        && doc.revokedAt.None? && doc.tokenHash == RefreshToken(sid, user, now / 1000)
    ensures var t := Next(cfg, s, Issue(user, now));
        t.flights[s.nextFlight] == Issued(s.nextSid, user) && OnlyFlight(s, t, s.nextFlight) && SameTokens(s, t)
  {
  }

  // ---------------------------------------------------------------------
  // Refresh.

  predicate Unexpired(cfg: Config, token: RefreshToken, now: nat) {
    now / 1000 < token.iat + cfg.refreshTtl
  }

  // The session is found if and only if the token has not expired and the session
  // exists.
  lemma FindAnswer(cfg: Config, s: State, token: RefreshToken, now: nat)
    requires Enabled(s, RefreshFind(token, now)) && s.nextFlight !in s.flights
    ensures var t := Next(cfg, s, RefreshFind(token, now)); var f := s.nextFlight;
        && (f in t.flights <==> Unexpired(cfg, token, now) && token.sid in s.docs)
        && (f in t.flights ==> t.flights[f] == RefreshFound(token, s.docs[token.sid]))
        && OnlyFlight(s, t, f) && SameTokens(s, t) && t.docs == s.docs
  {
  }

  // What the session found must be for the refresh to be granted.
  predicate Renewable(doc: Doc, token: RefreshToken, now: nat, userFound: bool) {
    doc.tokenHash == token && doc.revokedAt.None? && doc.status != Revoked && now < doc.expiresAt && userFound
  }

  predicate RunOut(doc: Doc, token: RefreshToken, now: nat) {
    doc.tokenHash == token && doc.revokedAt.None? && doc.status != Revoked && doc.expiresAt <= now
  }

  // It goes on to be granted if and only if the hash matches, the session is
  // neither revoked nor expired, and the user exists; an expired session is marked.
  lemma DecideAnswer(cfg: Config, s: State, f: nat, now: nat, userFound: bool)
    requires Enabled(s, RefreshDecide(f, now, userFound))
    ensures var t := Next(cfg, s, RefreshDecide(f, now, userFound));
        var token, doc := s.flights[f].token, s.flights[f].doc;
        && (f in t.flights && t.flights[f] == UseSave(token.sid, token.sub, now) <==> Renewable(doc, token, now, userFound))
        && (f in t.flights && t.flights[f] == ExpireSave(token.sid, doc) <==> RunOut(doc, token, now))
        && (f in t.flights ==> Renewable(doc, token, now, userFound) || RunOut(doc, token, now))
        && OnlyFlight(s, t, f) && SameTokens(s, t) && t.docs == s.docs
  {
  }

  // Each save writes its own field, on the document as it is by then.
  lemma SaveAnswer(cfg: Config, s: State, f: nat)
    requires Enabled(s, RefreshSave(f))
    ensures var t := Next(cfg, s, RefreshSave(f)); var flight := s.flights[f];
        var now, later := s.docs[flight.sid], t.docs[flight.sid];
        && t.docs.Keys == s.docs.Keys && SameDocsBut(s, t, flight.sid)
        && (flight.UseSave? ==> later == now.(lastUsedAt := Some(flight.usedAt)))
        && (flight.ExpireSave? && flight.doc.status != Expired ==> later == now.(status := Expired))
        && (flight.ExpireSave? && flight.doc.status == Expired ==> later == now)
    ensures var t := Next(cfg, s, RefreshSave(f)); var flight := s.flights[f];
        && (f in t.flights <==> flight.UseSave?) && (flight.UseSave? ==> t.flights[f] == Renewed(flight.sid, flight.user))
        && OnlyFlight(s, t, f) && SameTokens(s, t)
  {
  }

  // A granted refresh ends with a new access token of its session and user.
  lemma RefreshSigns(cfg: Config, s: State, f: nat, now: nat, signAt: nat) returns (run: seq<Action>)
    requires f in s.flights && s.flights[f].RefreshFound? && s.flights[f].token.sid in s.docs && s.clock <= now <= signAt
    requires Renewable(s.flights[f].doc, s.flights[f].token, now, true)
    ensures run == [RefreshDecide(f, now, true), RefreshSave(f), SignAccess(f, signAt)] && EnabledRun(cfg, s, run)
    ensures var token := s.flights[f].token;
        AccessToken(token.sid, token.sub, signAt / 1000) in After(cfg, s, run).minted
  {
    DecideAnswer(cfg, s, f, now, true);
    var s1 := Next(cfg, s, RefreshDecide(f, now, true));
    SaveAnswer(cfg, s1, f);
    var s2 := Next(cfg, s1, RefreshSave(f));
    SignAnswer(cfg, s2, f, signAt);
    run := Cons(cfg, s2, SignAccess(f, signAt), []);
    run := Cons(cfg, s1, RefreshSave(f), run);
    run := Cons(cfg, s, RefreshDecide(f, now, true), run);
  }

  // A refused one never signs anything, whatever runs afterwards.
  predicate Over(s: State, f: nat) {
    f < s.nextFlight && (f in s.flights ==> s.flights[f].ExpireSave?)
  }

  lemma StaysOver(cfg: Config, s: State, a: Action, f: nat)
    requires Enabled(s, a) && Over(s, f)
    ensures Over(Next(cfg, s, a), f) && (a.SignAccess? ==> a.f != f)
  {
  }

  lemma {:induction false} RunStaysOver(cfg: Config, s: State, run: seq<Action>, f: nat)
    requires EnabledRun(cfg, s, run) && Over(s, f)
    ensures Over(After(cfg, s, run), f) && forall i :: 0 <= i < |run| && run[i].SignAccess? ==> run[i].f != f
    decreases |run|
  {
    if run != [] {
      StaysOver(cfg, s, run[0], f);
      RunStaysOver(cfg, Next(cfg, s, run[0]), run[1..], f);
      assert forall i :: 1 <= i < |run| ==> run[i] == run[1..][i - 1];
    }
  }

  // From the decision on: the flight is one that can still sign if and only if the
  // refresh was granted, and otherwise no step of any run signs for it.
  lemma RefusedNeverSigns(cfg: Config, s: State, f: nat, now: nat, userFound: bool, run: seq<Action>)
    requires Enabled(s, RefreshDecide(f, now, userFound)) && f < s.nextFlight
    requires !Renewable(s.flights[f].doc, s.flights[f].token, now, userFound)
    requires EnabledRun(cfg, Next(cfg, s, RefreshDecide(f, now, userFound)), run)
    ensures forall i :: 0 <= i < |run| && run[i].SignAccess? ==> run[i].f != f
    ensures Next(cfg, s, RefreshDecide(f, now, userFound)).minted == s.minted
  {
    DecideAnswer(cfg, s, f, now, userFound);
    RunStaysOver(cfg, Next(cfg, s, RefreshDecide(f, now, userFound)), run, f);
  }

  // ---------------------------------------------------------------------
  // Revoke.

  lemma RevokeFindAnswer(cfg: Config, s: State, token: RefreshToken, now: nat)
    requires Enabled(s, RevokeFind(token, now)) && s.nextFlight !in s.flights
    ensures var t := Next(cfg, s, RevokeFind(token, now)); var f := s.nextFlight;
        && (f in t.flights <==> Unexpired(cfg, token, now) && token.sid in s.docs)
        && (f in t.flights ==> t.flights[f] == RevokeFound(token.sid, s.docs[token.sid]))
        && OnlyFlight(s, t, f) && SameTokens(s, t) && t.docs == s.docs
  {
  }

  lemma RevokeSaveAnswer(cfg: Config, s: State, f: nat, now: nat)
    requires Enabled(s, RevokeSave(f, now))
    ensures var t := Next(cfg, s, RevokeSave(f, now)); var sid := s.flights[f].sid;
        && t.docs.Keys == s.docs.Keys && SameDocsBut(s, t, sid)
        && t.docs[sid] == s.docs[sid].(revokedAt := Some(now), status := t.docs[sid].status)
        && (s.flights[f].doc.status != Revoked ==> t.docs[sid].status == Revoked)
        && f !in t.flights && OnlyFlight(s, t, f) && SameTokens(s, t)
  {
  }

  // ---------------------------------------------------------------------
  // Authenticate.

  lemma VerifyAnswer(cfg: Config, s: State, token: AccessToken, now: nat)
    requires Enabled(s, AuthVerify(token, now)) && s.nextFlight !in s.flights
    ensures var t := Next(cfg, s, AuthVerify(token, now)); var f := s.nextFlight;
        && (f in t.flights <==> now / 1000 < token.iat + cfg.accessTtl)
        && (f in t.flights ==> t.flights[f] == Verified(token, now))
        && OnlyFlight(s, t, f) && SameTokens(s, t) && t.docs == s.docs
  {
  }

  lemma ReadAnswer(cfg: Config, s: State, f: nat)
    requires Enabled(s, AuthRead(f))
    ensures var t := Next(cfg, s, AuthRead(f)); var token, at := s.flights[f].access, s.flights[f].verifiedAt;
        && (f in t.flights <==> token.sid in s.docs)
        && (f in t.flights ==> t.flights[f] == SessionRead(token, at, s.docs[token.sid]))
        && OnlyFlight(s, t, f) && SameTokens(s, t) && t.docs == s.docs
  {
  }

  // The user is returned if and only if the session read is active, not revoked and
  // not expired, and the user exists.
  lemma CheckAnswer(cfg: Config, s: State, f: nat, now: nat, userFound: bool)
    requires Enabled(s, AuthCheck(f, now, userFound))
    ensures var t := Next(cfg, s, AuthCheck(f, now, userFound)); var flight := s.flights[f];
        && (if flight.doc.status == Active && flight.doc.revokedAt.None? && now < flight.doc.expiresAt && userFound then
              t.successes == s.successes + [Success(f, flight.access, flight.verifiedAt, now)]
            else t.successes == s.successes)
        && f !in t.flights && OnlyFlight(s, t, f) && t.minted == s.minted && t.docs == s.docs
  {
  }

  // A token is accepted right after its login, and after any wait that stays within
  // both lifetimes.
  lemma LoginThenAuthenticate(cfg: Config, s: State, user: string, issueAt: nat, signAt: nat, verifyAt: nat, checkAt: nat)
      returns (run: seq<Action>)
    requires s.clock <= issueAt <= signAt <= verifyAt <= checkAt && forall g :: g in s.flights ==> g < s.nextFlight
    requires verifyAt / 1000 < signAt / 1000 + cfg.accessTtl && checkAt < issueAt + cfg.refreshTtl * 1000
    ensures var f, token := s.nextFlight, AccessToken(s.nextSid, user, signAt / 1000);
        run == [Issue(user, issueAt), SignAccess(f, signAt), AuthVerify(token, verifyAt), AuthRead(f + 1),
                AuthCheck(f + 1, checkAt, true)]
    ensures EnabledRun(cfg, s, run)
    ensures var token := AccessToken(s.nextSid, user, signAt / 1000);
        After(cfg, s, run).successes == s.successes + [Success(s.nextFlight + 1, token, verifyAt, checkAt)]
  {
    var f, token := s.nextFlight, AccessToken(s.nextSid, user, signAt / 1000);
    IssueAnswer(cfg, s, user, issueAt);
    var s1 := Next(cfg, s, Issue(user, issueAt));
    SignAnswer(cfg, s1, f, signAt);
    var s2 := Next(cfg, s1, SignAccess(f, signAt));
    run := AuthenticateWorks(cfg, s2, token, verifyAt, checkAt);
    run := Cons(cfg, s1, SignAccess(f, signAt), run);
    run := Cons(cfg, s, Issue(user, issueAt), run);
  }

  lemma AuthenticateWorks(cfg: Config, s: State, token: AccessToken, verifyAt: nat, checkAt: nat)
      returns (run: seq<Action>)
    requires s.clock <= verifyAt <= checkAt && token in s.minted && token.sid in s.docs && s.nextFlight !in s.flights
    requires verifyAt / 1000 < token.iat + cfg.accessTtl && checkAt < s.docs[token.sid].expiresAt
    requires s.docs[token.sid].status == Active && s.docs[token.sid].revokedAt.None?
    ensures var f := s.nextFlight; run == [AuthVerify(token, verifyAt), AuthRead(f), AuthCheck(f, checkAt, true)]
    ensures EnabledRun(cfg, s, run)
    ensures After(cfg, s, run).successes == s.successes + [Success(s.nextFlight, token, verifyAt, checkAt)]
  {
    var f := s.nextFlight;
    VerifyAnswer(cfg, s, token, verifyAt);
    var s1 := Next(cfg, s, AuthVerify(token, verifyAt));
    ReadAnswer(cfg, s1, f);
    var s2 := Next(cfg, s1, AuthRead(f));
    CheckAnswer(cfg, s2, f, checkAt, true);
    run := Cons(cfg, s2, AuthCheck(f, checkAt, true), []);
    run := Cons(cfg, s1, AuthRead(f), run);
    run := Cons(cfg, s, AuthVerify(token, verifyAt), run);
  }
}
