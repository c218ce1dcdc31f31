// Refresh sessions, backend/src/modules/auth/auth.service.ts. Every database call
// of an operation is a step of its own, so operations work on documents they
// read earlier, and save() writes the modified fields only. Signatures and hashes
// are not modelled: an access token is accepted only if the server signed it, and
// any refresh token may be presented.
module AuthSession {
  import opened Options

  datatype Status = Active | Expired | Revoked

  datatype RefreshToken = RefreshToken(sid: nat, sub: string, iat: nat)

  // exp is iat plus the configured lifetime; both are in whole seconds.
  datatype AccessToken = AccessToken(sid: nat, sub: string, iat: nat)

  // A refresh_session document. Times are in milliseconds.
  datatype Doc = Doc(user: string, tokenHash: RefreshToken, issuedAt: nat, expiresAt: nat,
                     status: Status, revokedAt: Option<nat>, lastUsedAt: Option<nat>)

  datatype Config = Config(refreshTtl: nat, accessTtl: nat)

  // An operation between two of its database calls.
  datatype Flight =
    | Issued(sid: nat, user: string)                                  // saved, token not signed yet
    | RefreshFound(token: RefreshToken, doc: Doc)
    | ExpireSave(sid: nat, doc: Doc)
    | UseSave(sid: nat, user: string, usedAt: nat)
    | Renewed(sid: nat, user: string)
    | RevokeFound(sid: nat, doc: Doc)
    | Verified(access: AccessToken, verifiedAt: nat)
    | SessionRead(access: AccessToken, verifiedAt: nat, doc: Doc)

  // authenticateAccessToken returned the user.
  datatype Success = Success(flight: nat, token: AccessToken, verifiedAt: nat, checkedAt: nat)

  datatype State = State(clock: nat, docs: map<nat, Doc>, flights: map<nat, Flight>, nextSid: nat, nextFlight: nat,
                         minted: map<AccessToken, nat>, successes: seq<Success>)

  const Init := State(0, map[], map[], 0, 0, map[], [])

  datatype Action =
    | Issue(user: string, now: nat)
    | SignAccess(f: nat, now: nat)
    | RefreshFind(token: RefreshToken, now: nat)
    | RefreshDecide(f: nat, now: nat, userFound: bool)
    | RefreshSave(f: nat)
    | RevokeFind(token: RefreshToken, now: nat)
    | RevokeSave(f: nat, now: nat)
    | AuthVerify(access: AccessToken, now: nat)
    | AuthRead(f: nat)
    | AuthCheck(f: nat, now: nat, userFound: bool)

  function Now(s: State, a: Action): nat {
    match a
    case Issue(_, now) => now
    case SignAccess(_, now) => now
    case RefreshFind(_, now) => now
    case RefreshDecide(_, now, _) => now
    case RevokeFind(_, now) => now
    case RevokeSave(_, now) => now
    case AuthVerify(_, now) => now
    case AuthCheck(_, now, _) => now
    case _ => s.clock
  }

  // The clock never goes back, and a flight takes the step it is due.
  predicate Enabled(s: State, a: Action) {
    && Now(s, a) >= s.clock
    && match a
       case SignAccess(f, _) => f in s.flights && (s.flights[f].Issued? || s.flights[f].Renewed?)
       case RefreshDecide(f, _, _) => f in s.flights && s.flights[f].RefreshFound?
       case RefreshSave(f) => f in s.flights && (s.flights[f].ExpireSave? || s.flights[f].UseSave?) && s.flights[f].sid in s.docs
       case RevokeSave(f, _) => f in s.flights && s.flights[f].RevokeFound? && s.flights[f].sid in s.docs
       case AuthVerify(token, _) => token in s.minted
       case AuthRead(f) => f in s.flights && s.flights[f].Verified?
       case AuthCheck(f, _, _) => f in s.flights && s.flights[f].SessionRead?
       case _ => true
  }

  // jwt.verify: the clock in whole seconds has not reached exp.
  predicate AccessValid(cfg: Config, token: AccessToken, now: nat) {
    now / 1000 < token.iat + cfg.accessTtl
  }

  predicate RefreshValid(cfg: Config, token: RefreshToken, now: nat) {
    now / 1000 < token.iat + cfg.refreshTtl
  }

  predicate IsRevoked(doc: Doc) {
    doc.revokedAt.Some? || doc.status == Revoked
  }

  // The branches of refreshAccessToken on the document it found: None is an error.
  function Decision(token: RefreshToken, doc: Doc, now: nat, userFound: bool): Option<Flight> {
    if doc.tokenHash != token then None
    else if IsRevoked(doc) then None
    else if doc.expiresAt <= now then Some(ExpireSave(token.sid, doc))
    else if !userFound then None
    else Some(UseSave(token.sid, token.sub, now))
  }

  // status = 'expired'; save(). A field set to the value it was read with is not written.
  function SaveExpired(current: Doc, read: Doc): Doc {
    if read.status == Expired then current else current.(status := Expired)
  }

  function SaveUsed(current: Doc, usedAt: nat): Doc {
    current.(lastUsedAt := Some(usedAt))
  }

  function SaveRevoked(current: Doc, read: Doc, now: nat): Doc {
    current.(revokedAt := Some(now), status := if read.status == Revoked then current.status else Revoked)
  }

  // The checks of authenticateAccessToken on the document it read.
  predicate SessionAccepts(doc: Doc, now: nat) {
    doc.status == Active && doc.revokedAt.None? && now < doc.expiresAt
  }

  function StartFlight(s: State, flight: Flight): State {
    s.(flights := s.flights[s.nextFlight := flight], nextFlight := s.nextFlight + 1)
  }

  function EndFlight(s: State, f: nat): State {
    s.(flights := s.flights - {f})
  }

  function Next(cfg: Config, s0: State, a: Action): State
    requires Enabled(s0, a)
  {
    var s := s0.(clock := Now(s0, a));
    match a
    case Issue(user, now) =>
      var sid := s.nextSid;
      var doc := Doc(user, RefreshToken(sid, user, now / 1000), now, now + cfg.refreshTtl * 1000, Active, None, None);
      StartFlight(s.(docs := s.docs[sid := doc], nextSid := sid + 1), Issued(sid, user))
    case SignAccess(f, now) =>
      var token := AccessToken(s.flights[f].sid, s.flights[f].user, now / 1000);
      // Tokens signed within one second are the same token; the first time counts.
      EndFlight(s, f).(minted := if token in s.minted then s.minted else s.minted[token := now])
    case RefreshFind(token, now) =>
      if RefreshValid(cfg, token, now) && token.sid in s.docs then StartFlight(s, RefreshFound(token, s.docs[token.sid])) else s
    case RefreshDecide(f, now, userFound) =>
      var flight := s.flights[f];
      (match Decision(flight.token, flight.doc, now, userFound)
       case None => EndFlight(s, f)
       case Some(next) => s.(flights := s.flights[f := next]))
    case RefreshSave(f) =>
      var flight := s.flights[f];
      if flight.ExpireSave? then
        EndFlight(s, f).(docs := s.docs[flight.sid := SaveExpired(s.docs[flight.sid], flight.doc)])
      else
        s.(docs := s.docs[flight.sid := SaveUsed(s.docs[flight.sid], flight.usedAt)],
           flights := s.flights[f := Renewed(flight.sid, flight.user)])
    case RevokeFind(token, now) =>
      if RefreshValid(cfg, token, now) && token.sid in s.docs then
        StartFlight(s, RevokeFound(token.sid, s.docs[token.sid]))
      else s
    case RevokeSave(f, now) =>
      var flight := s.flights[f];
      EndFlight(s, f).(docs := s.docs[flight.sid := SaveRevoked(s.docs[flight.sid], flight.doc, now)])
    case AuthVerify(token, now) =>
      if AccessValid(cfg, token, now) then StartFlight(s, Verified(token, now)) else s
    case AuthRead(f) =>
      var flight := s.flights[f];
      if flight.access.sid in s.docs then
        s.(flights := s.flights[f := SessionRead(flight.access, flight.verifiedAt, s.docs[flight.access.sid])])
      else EndFlight(s, f)
    case AuthCheck(f, now, userFound) =>
      var flight := s.flights[f];
      if SessionAccepts(flight.doc, now) && userFound then
        EndFlight(s, f).(successes := s.successes + [Success(f, flight.access, flight.verifiedAt, now)])
      else EndFlight(s, f)
  }

  // ---------------------------------------------------------------------
  // The service and its store, updated in place, one method per step.
  class AuthService {
    const cfg: Config
    var clock: nat
    var docs: map<nat, Doc>
    var flights: map<nat, Flight>
    var nextSid: nat
    var nextFlight: nat
    ghost var minted: map<AccessToken, nat>
    ghost var successes: seq<Success>

    ghost function View(): State
      reads this
    {
      State(clock, docs, flights, nextSid, nextFlight, minted, successes)
    }

    constructor (cfg: Config)
      ensures this.cfg == cfg && View() == Init
    {
      this.cfg := cfg;
      clock, docs, flights, nextSid, nextFlight := 0, map[], map[], 0, 0;
      minted, successes := map[], [];
    }

    method Start(flight: Flight)
      modifies this
      ensures View() == StartFlight(old(View()), flight)
    {
      flights := flights[nextFlight := flight];
      nextFlight := nextFlight + 1;
    }

    // issueTokenPair up to save().
    method IssueTokenPair(user: string, now: nat)
      requires Enabled(View(), Issue(user, now))
      modifies this
      ensures View() == Next(cfg, old(View()), Issue(user, now))
    {
      clock := now;
      var sid := nextSid;
      var expiresAt := now + cfg.refreshTtl * 1000;
      var refreshToken := RefreshToken(sid, user, now / 1000);
      docs := docs[sid := Doc(user, refreshToken, now, expiresAt, Active, None, None)];
      nextSid := nextSid + 1;
      Start(Issued(sid, user));
    }

    // buildRefreshSessionResponse.
    method Sign(f: nat, now: nat)
      requires Enabled(View(), SignAccess(f, now))
      modifies this
      ensures View() == Next(cfg, old(View()), SignAccess(f, now))
    {
      clock := now;
      var accessToken := AccessToken(flights[f].sid, flights[f].user, now / 1000);
      flights := flights - {f};
      minted := if accessToken in minted then minted else minted[accessToken := now];
    }

    // refreshAccessToken: verify the token, find the session.
    method FindForRefresh(token: RefreshToken, now: nat)
      requires Enabled(View(), RefreshFind(token, now))
      modifies this
      ensures View() == Next(cfg, old(View()), RefreshFind(token, now))
    {
      clock := now;
      if !RefreshValid(cfg, token, now) || token.sid !in docs {
        return;
      }
      Start(RefreshFound(token, docs[token.sid]));
    }

    // refreshAccessToken: the checks on what was found.
    method DecideRefresh(f: nat, now: nat, userFound: bool)
      requires Enabled(View(), RefreshDecide(f, now, userFound))
      modifies this
      ensures View() == Next(cfg, old(View()), RefreshDecide(f, now, userFound))
    {
      clock := now;
      var token, refreshSession := flights[f].token, flights[f].doc;
      if refreshSession.tokenHash != token || refreshSession.revokedAt.Some? || refreshSession.status == Revoked {
        flights := flights - {f};
        return;
      }
      if refreshSession.expiresAt <= now {
        flights := flights[f := ExpireSave(token.sid, refreshSession)];
        return;
      }
      if !userFound {
        flights := flights - {f};
        return;
      }
      flights := flights[f := UseSave(token.sid, token.sub, now)];
    }

    // refreshAccessToken: either of its two saves.
    method SaveRefresh(f: nat)
      requires Enabled(View(), RefreshSave(f))
      modifies this
      ensures View() == Next(cfg, old(View()), RefreshSave(f))
    {
      var flight := flights[f];
      var current := docs[flight.sid];
      if flight.ExpireSave? {
        if flight.doc.status != Expired {
          current := current.(status := Expired);
        }
        flights := flights - {f};
      } else {
        current := current.(lastUsedAt := Some(flight.usedAt));
        flights := flights[f := Renewed(flight.sid, flight.user)];
      }
      docs := docs[flight.sid := current];
    }

    // revokeRefreshToken: find.
    method FindForRevoke(token: RefreshToken, now: nat)
      requires Enabled(View(), RevokeFind(token, now))
      modifies this
      ensures View() == Next(cfg, old(View()), RevokeFind(token, now))
    {
      clock := now;
      if RefreshValid(cfg, token, now) && token.sid in docs {
        Start(RevokeFound(token.sid, docs[token.sid]));
      }
    }

    // revokeRefreshToken: save.
    method SaveRevoke(f: nat, now: nat)
      requires Enabled(View(), RevokeSave(f, now))
      modifies this
      ensures View() == Next(cfg, old(View()), RevokeSave(f, now))
    {
      clock := now;
      var flight := flights[f];
      var current := docs[flight.sid];
      current := current.(revokedAt := Some(now));
      if flight.doc.status != Revoked {
        current := current.(status := Revoked);
      }
      docs := docs[flight.sid := current];
      flights := flights - {f};
    }

    // authenticateAccessToken: verifyAccessToken.
    method VerifyAccess(token: AccessToken, now: nat)
      requires Enabled(View(), AuthVerify(token, now))
      modifies this
      ensures View() == Next(cfg, old(View()), AuthVerify(token, now))
    {
      clock := now;
      if AccessValid(cfg, token, now) {
        Start(Verified(token, now));
      }
    }

    // authenticateAccessToken: findById.
    method ReadSession(f: nat)
      requires Enabled(View(), AuthRead(f))
      modifies this
      ensures View() == Next(cfg, old(View()), AuthRead(f))
    {
      var flight := flights[f];
      if flight.access.sid !in docs {
        flights := flights - {f};
        return;
      }
      flights := flights[f := SessionRead(flight.access, flight.verifiedAt, docs[flight.access.sid])];
    }

    // authenticateAccessToken: the checks and the user.
    method CheckSession(f: nat, now: nat, userFound: bool) returns (authenticated: bool)
      requires Enabled(View(), AuthCheck(f, now, userFound))
      modifies this
      ensures View() == Next(cfg, old(View()), AuthCheck(f, now, userFound))
      ensures authenticated <==> SessionAccepts(old(flights)[f].doc, now) && userFound
    {
      clock := now;
      var flight := flights[f];
      flights := flights - {f};
      if flight.doc.status != Active || flight.doc.revokedAt.Some? {
        return false;
      }
      if flight.doc.expiresAt <= now {
        return false;
      }
      if userFound {
        successes := successes + [Success(f, flight.access, flight.verifiedAt, now)];
      }
      return userFound;
    }
  }

  // ---------------------------------------------------------------------
  // Runs.

  predicate EnabledRun(cfg: Config, s: State, run: seq<Action>)
    decreases |run|
  {
    run == [] || (Enabled(s, run[0]) && EnabledRun(cfg, Next(cfg, s, run[0]), run[1..]))
  }

  function After(cfg: Config, s: State, run: seq<Action>): State
    requires EnabledRun(cfg, s, run)
    decreases |run|
  {
    if run == [] then s else After(cfg, Next(cfg, s, run[0]), run[1..])
  }

  // ---------------------------------------------------------------------
  // Revocation is final.

  predicate RevokeLanded(s: State, sid: nat) {
    sid in s.docs && s.docs[sid].revokedAt.Some?
  }

  // early: the flights that had read the session before the revocation landed.
  predicate EarlyFlight(s: State, f: nat, sid: nat) {
    f in s.flights && s.flights[f].SessionRead? && s.flights[f].access.sid == sid
  }

  ghost function EarlyFlights(s: State, sid: nat): set<nat> {
    set f | f in s.flights && EarlyFlight(s, f, sid)
  }

  // Whoever reads the session now sees the revocation.
  ghost predicate LateReadersRefused(s: State, sid: nat, early: set<nat>) {
    && RevokeLanded(s, sid)
    && (forall f :: f in early ==> f < s.nextFlight)
    && (forall f :: f in s.flights ==> f < s.nextFlight)
    && forall f :: EarlyFlight(s, f, sid) && f !in early ==> s.flights[f].doc.revokedAt.Some?
  }

  ghost predicate LateSuccess(s: State, from: nat, sid: nat, early: set<nat>) {
    exists i :: from <= i < |s.successes| && s.successes[i].token.sid == sid && s.successes[i].flight !in early
  }

  // No save clears revokedAt, whatever status a racing refresh writes.
  lemma RevokedAtStays(cfg: Config, s: State, a: Action, sid: nat)
    requires Enabled(s, a) && RevokeLanded(s, sid) && sid < s.nextSid
    ensures RevokeLanded(Next(cfg, s, a), sid)
  {
  }

  lemma LateReadersStayRefused(cfg: Config, s: State, a: Action, sid: nat, early: set<nat>)
    requires Enabled(s, a) && LateReadersRefused(s, sid, early) && sid < s.nextSid
    ensures LateReadersRefused(Next(cfg, s, a), sid, early) && sid < Next(cfg, s, a).nextSid
    ensures forall i :: |s.successes| <= i < |Next(cfg, s, a).successes| ==>
      Next(cfg, s, a).successes[i].token.sid == sid ==> Next(cfg, s, a).successes[i].flight in early
    ensures s.successes <= Next(cfg, s, a).successes
  {
    RevokedAtStays(cfg, s, a, sid);
  }

  lemma {:induction false} NoLateSuccess(cfg: Config, s: State, run: seq<Action>, sid: nat, early: set<nat>)
    requires EnabledRun(cfg, s, run) && LateReadersRefused(s, sid, early) && sid < s.nextSid
    ensures s.successes <= After(cfg, s, run).successes
    ensures !LateSuccess(After(cfg, s, run), |s.successes|, sid, early)
    decreases |run|
  {
    if run != [] {
      LateReadersStayRefused(cfg, s, run[0], sid, early);
      NoLateSuccess(cfg, Next(cfg, s, run[0]), run[1..], sid, early);
    }
  }

  // ---------------------------------------------------------------------
  // Sessions are not extended.

  predicate DocOk(cfg: Config, doc: Doc) {
    doc.expiresAt == doc.issuedAt + cfg.refreshTtl * 1000 && doc.tokenHash.sub == doc.user
  }

  // Two versions of one document.
  predicate SameSession(a: Doc, b: Doc) {
    a.user == b.user && a.tokenHash == b.tokenHash && a.issuedAt == b.issuedAt && a.expiresAt == b.expiresAt
  }

  predicate FlightOk(cfg: Config, s: State, f: Flight) {
    match f
    case Issued(sid, user) => sid in s.docs && s.docs[sid].user == user
    case RefreshFound(token, doc) => token.sid in s.docs && SameSession(doc, s.docs[token.sid])
    case ExpireSave(sid, _) => sid in s.docs
    case UseSave(sid, user, _) => sid in s.docs && s.docs[sid].user == user
    case Renewed(sid, user) => sid in s.docs && s.docs[sid].user == user
    case RevokeFound(sid, _) => sid in s.docs
    case Verified(token, at) => token in s.minted && AccessValid(cfg, token, at) && at <= s.clock
    case SessionRead(token, at, doc) =>
      token in s.minted && AccessValid(cfg, token, at) && at <= s.clock
      && token.sid in s.docs && SameSession(doc, s.docs[token.sid])
  }

  // Accepted for the session's own user, before the access token's end and before
  // the session's first and only expiry.
  predicate SuccessOk(cfg: Config, s: State, e: Success) {
    && e.token in s.minted && e.token.sid in s.docs && e.token.sub == s.docs[e.token.sid].user
    && e.verifiedAt <= e.checkedAt
    && e.verifiedAt < s.minted[e.token] + cfg.accessTtl * 1000
    && e.checkedAt < s.docs[e.token.sid].issuedAt + cfg.refreshTtl * 1000
  }

  ghost predicate DocsOk(cfg: Config, s: State) {
    forall sid :: sid in s.docs ==> sid < s.nextSid && DocOk(cfg, s.docs[sid])
  }

  ghost predicate FlightsOk(cfg: Config, s: State) {
    forall f :: f in s.flights ==> f < s.nextFlight && FlightOk(cfg, s, s.flights[f])
  }

  ghost predicate MintedOk(s: State) {
    forall token :: token in s.minted ==>
        token.sid in s.docs && token.sub == s.docs[token.sid].user && s.minted[token] / 1000 == token.iat
  }

  ghost predicate SuccessesOk(cfg: Config, s: State) {
    forall i :: 0 <= i < |s.successes| ==> SuccessOk(cfg, s, s.successes[i])
  }

  ghost predicate Inv(cfg: Config, s: State) {
    DocsOk(cfg, s) && FlightsOk(cfg, s) && MintedOk(s) && SuccessesOk(cfg, s)
  }

  // exp in whole seconds still means less than a lifetime after signing.
  lemma ValidMeansBefore(cfg: Config, token: AccessToken, mintedAt: nat, at: nat)
    requires mintedAt / 1000 == token.iat && AccessValid(cfg, token, at)
    ensures at < mintedAt + cfg.accessTtl * 1000
  {
  }

  // What a step may change of the documents and the tokens.
  ghost predicate Grows(s: State, t: State) {
    && s.clock <= t.clock
    && (forall sid :: sid in s.docs ==> sid in t.docs && SameSession(s.docs[sid], t.docs[sid]))
    && (forall token :: token in s.minted ==> token in t.minted && t.minted[token] == s.minted[token])
  }

  lemma StepGrows(cfg: Config, s: State, a: Action)
    requires Enabled(s, a)
    requires forall sid :: sid in s.docs ==> sid < s.nextSid
    ensures Grows(s, Next(cfg, s, a))
  {
  }

  lemma GrownFlight(cfg: Config, s: State, t: State, f: Flight)
    requires FlightOk(cfg, s, f) && Grows(s, t)
    ensures FlightOk(cfg, t, f)
  {
  }

  lemma GrownSuccess(cfg: Config, s: State, t: State, e: Success)
    requires SuccessOk(cfg, s, e) && Grows(s, t)
    ensures SuccessOk(cfg, t, e)
  {
  }

  // The one step that can add a success, on a flight that read the session.
  lemma CheckedInTime(cfg: Config, s: State, f: nat, now: nat)
    requires Inv(cfg, s) && Enabled(s, AuthCheck(f, now, true)) && SessionAccepts(s.flights[f].doc, now)
    ensures SuccessOk(cfg, s, Success(f, s.flights[f].access, s.flights[f].verifiedAt, now))
  {
    assert FlightOk(cfg, s, s.flights[f]);
    var token := s.flights[f].access;
    ValidMeansBefore(cfg, token, s.minted[token], s.flights[f].verifiedAt);
    assert DocOk(cfg, s.docs[token.sid]);
  }

  lemma StepKeepsDocs(cfg: Config, s: State, a: Action)
    requires DocsOk(cfg, s) && Enabled(s, a)
    ensures DocsOk(cfg, Next(cfg, s, a))
  {
  }

  lemma SignsForOwner(cfg: Config, s: State, f: nat, now: nat)
    requires Inv(cfg, s) && Enabled(s, SignAccess(f, now))
    ensures MintedOk(Next(cfg, s, SignAccess(f, now)))
  {
    assert FlightOk(cfg, s, s.flights[f]);
  }

  lemma OthersSignNothing(cfg: Config, s: State, a: Action)
    requires Enabled(s, a) && !a.SignAccess?
    ensures Next(cfg, s, a).minted == s.minted
  {
  }

  lemma GrownMinted(s: State, t: State)
    requires MintedOk(s) && Grows(s, t) && t.minted == s.minted
    ensures MintedOk(t)
  {
  }

  lemma StepKeepsMinted(cfg: Config, s: State, a: Action)
    requires Inv(cfg, s) && Enabled(s, a)
    ensures MintedOk(Next(cfg, s, a))
  {
    if a.SignAccess? {
      SignsForOwner(cfg, s, a.f, a.now);
    } else {
      StepGrows(cfg, s, a);
      OthersSignNothing(cfg, s, a);
      GrownMinted(s, Next(cfg, s, a));
    }
  }

  // The flight a step starts, and the one it takes further.
  lemma StartedFlightOk(cfg: Config, s: State, a: Action, f: nat)
    requires Inv(cfg, s) && Enabled(s, a) && f in Next(cfg, s, a).flights && f !in s.flights
    ensures FlightOk(cfg, Next(cfg, s, a), Next(cfg, s, a).flights[f]) && f < Next(cfg, s, a).nextFlight
  {
  }

  lemma MovedFlightOk(cfg: Config, s: State, a: Action, f: nat)
    requires Inv(cfg, s) && Enabled(s, a) && f in Next(cfg, s, a).flights && f in s.flights
    requires s.flights[f] != Next(cfg, s, a).flights[f]
    ensures FlightOk(cfg, Next(cfg, s, a), Next(cfg, s, a).flights[f])
  {
    assert FlightOk(cfg, s, s.flights[f]);
  }

  lemma NumbersGrow(cfg: Config, s: State, a: Action)
    requires Enabled(s, a)
    ensures s.nextFlight <= Next(cfg, s, a).nextFlight
  {
  }

  lemma StepKeepsFlights(cfg: Config, s: State, a: Action)
    requires Inv(cfg, s) && Enabled(s, a)
    ensures FlightsOk(cfg, Next(cfg, s, a))
  {
    var t := Next(cfg, s, a);
    StepGrows(cfg, s, a);
    forall f | f in t.flights
      ensures f < t.nextFlight && FlightOk(cfg, t, t.flights[f])
    {
      if f !in s.flights {
        StartedFlightOk(cfg, s, a, f);
      } else {
        NumbersGrow(cfg, s, a);
        if s.flights[f] == t.flights[f] {
          GrownFlight(cfg, s, t, s.flights[f]);
        } else {
          MovedFlightOk(cfg, s, a, f);
        }
      }
    }
  }

  lemma StepKeepsSuccesses(cfg: Config, s: State, a: Action)
    requires Inv(cfg, s) && Enabled(s, a)
    ensures SuccessesOk(cfg, Next(cfg, s, a))
  {
    var t := Next(cfg, s, a);
    StepGrows(cfg, s, a);
    forall i | 0 <= i < |t.successes|
      ensures SuccessOk(cfg, t, t.successes[i])
    {
      if i < |s.successes| {
        GrownSuccess(cfg, s, t, s.successes[i]);
      } else {
        CheckedInTime(cfg, s, a.f, a.now);
        GrownSuccess(cfg, s, t, t.successes[i]);
      }
    }
  }

  lemma StepKeepsInv(cfg: Config, s: State, a: Action)
    requires Inv(cfg, s) && Enabled(s, a)
    ensures Inv(cfg, Next(cfg, s, a)) && Grows(s, Next(cfg, s, a))
  {
    StepKeepsDocs(cfg, s, a);
    StepKeepsMinted(cfg, s, a);
    StepKeepsFlights(cfg, s, a);
    StepKeepsSuccesses(cfg, s, a);
    StepGrows(cfg, s, a);
    var t := Next(cfg, s, a);
    assert DocsOk(cfg, t) && FlightsOk(cfg, t) && MintedOk(t) && SuccessesOk(cfg, t);
  }

  lemma {:induction false} RunKeepsInv(cfg: Config, s: State, run: seq<Action>)
    requires Inv(cfg, s) && EnabledRun(cfg, s, run)
    ensures Inv(cfg, After(cfg, s, run)) && Grows(s, After(cfg, s, run))
    decreases |run|
  {
    if run != [] {
      StepKeepsInv(cfg, s, run[0]);
      RunKeepsInv(cfg, Next(cfg, s, run[0]), run[1..]);
    }
  }

  // No number of refreshes extends a session: whatever ran before, an access
  // token was accepted for the session's user, within its own lifetime and within
  // the lifetime of the session, counted from the one time it was issued.
  lemma SessionsAreNotExtended(cfg: Config, run: seq<Action>, i: nat)
    requires EnabledRun(cfg, Init, run) && i < |After(cfg, Init, run).successes|
    ensures SuccessOk(cfg, After(cfg, Init, run), After(cfg, Init, run).successes[i])
  {
    RunKeepsInv(cfg, Init, run);
  }

  // Revocation is final: from the moment a revoke's save has landed, whatever
  // else is in flight, no access token of the session is accepted again, except
  // by a call that had already read the session.
  lemma RevocationIsFinal(cfg: Config, before: seq<Action>, run: seq<Action>, sid: nat)
    requires EnabledRun(cfg, Init, before)
    requires RevokeLanded(After(cfg, Init, before), sid)
    requires EnabledRun(cfg, After(cfg, Init, before), run)
    ensures var s := After(cfg, Init, before); !LateSuccess(After(cfg, s, run), |s.successes|, sid, EarlyFlights(s, sid))
  {
    var s := After(cfg, Init, before);
    RunKeepsInv(cfg, Init, before);
    assert LateReadersRefused(s, sid, EarlyFlights(s, sid));
    NoLateSuccess(cfg, s, run, sid, EarlyFlights(s, sid));
  }

  // A revoke lands with its save, and the exception is real: a call that read
  // the session just before is still accepted.
  lemma RevokeLands(cfg: Config, s: State, f: nat, now: nat)
    requires Enabled(s, RevokeSave(f, now))
    ensures RevokeLanded(Next(cfg, s, RevokeSave(f, now)), s.flights[f].sid)
  {
  }

  lemma EarlyReaderAccepted(cfg: Config, s: State, f: nat, g: nat, now: nat)
    requires f != g && Enabled(s, RevokeSave(f, now)) && Enabled(s, AuthCheck(g, now, true))
    requires s.flights[g].access.sid == s.flights[f].sid && SessionAccepts(s.flights[g].doc, now)
    ensures var t := Next(cfg, s, RevokeSave(f, now));
        Enabled(t, AuthCheck(g, now, true)) && RevokeLanded(t, s.flights[f].sid)
        && |Next(cfg, t, AuthCheck(g, now, true)).successes| == |s.successes| + 1
  {
  }

  // Exactly when it happens: some call read the session before, and what it read
  // would be accepted now.
  ghost predicate CanStillPass(s: State, sid: nat) {
    exists f: nat :: EarlyFlight(s, f, sid) && SessionAccepts(s.flights[f].doc, s.clock)
  }

  ghost predicate NewSuccess(s: State, from: nat, sid: nat) {
    exists i :: from <= i < |s.successes| && s.successes[i].token.sid == sid
  }

  ghost predicate Passes(cfg: Config, s: State, run: seq<Action>, sid: nat) {
    EnabledRun(cfg, s, run) && NewSuccess(After(cfg, s, run), |s.successes|, sid)
  }

  lemma StepNonePass(cfg: Config, s: State, a: Action, sid: nat)
    requires Enabled(s, a) && RevokeLanded(s, sid) && sid < s.nextSid && !CanStillPass(s, sid)
    ensures var t := Next(cfg, s, a);
        RevokeLanded(t, sid) && sid < t.nextSid && s.successes <= t.successes && !NewSuccess(t, |s.successes|, sid)
    ensures !CanStillPass(Next(cfg, s, a), sid)
  {
    var t := Next(cfg, s, a);
    RevokedAtStays(cfg, s, a, sid);
    if a.AuthCheck? && s.flights[a.f].access.sid == sid {
      assert EarlyFlight(s, a.f, sid);
    }
    forall f: nat | EarlyFlight(t, f, sid) ensures !SessionAccepts(t.flights[f].doc, t.clock) {
      assert EarlyFlight(s, f, sid) || t.flights[f].doc == s.docs[sid];
    }
  }

  lemma {:induction false} RunNonePass(cfg: Config, s: State, run: seq<Action>, sid: nat)
    requires EnabledRun(cfg, s, run) && RevokeLanded(s, sid) && sid < s.nextSid && !CanStillPass(s, sid)
    ensures s.successes <= After(cfg, s, run).successes && !NewSuccess(After(cfg, s, run), |s.successes|, sid)
    decreases |run|
  {
    if run != [] {
      StepNonePass(cfg, s, run[0], sid);
      RunNonePass(cfg, Next(cfg, s, run[0]), run[1..], sid);
    }
  }

  lemma ChecksOnce(cfg: Config, s: State, f: nat, sid: nat)
    requires EarlyFlight(s, f, sid) && SessionAccepts(s.flights[f].doc, s.clock)
    ensures Passes(cfg, s, [AuthCheck(f, s.clock, true)], sid)
  {
    var a := AuthCheck(f, s.clock, true);
    var t := Next(cfg, s, a);
    assert [a][1..] == [];
    assert After(cfg, s, [a]) == t;
    assert t.successes[|s.successes|].token.sid == sid;
  }

  lemma AcceptedAfterRevokeIff(cfg: Config, before: seq<Action>, sid: nat)
    requires EnabledRun(cfg, Init, before) && RevokeLanded(After(cfg, Init, before), sid)
    ensures (exists run :: Passes(cfg, After(cfg, Init, before), run, sid)) <==> CanStillPass(After(cfg, Init, before), sid)
  {
    var s := After(cfg, Init, before);
    RunKeepsInv(cfg, Init, before);
    if CanStillPass(s, sid) {
      var f: nat :| EarlyFlight(s, f, sid) && SessionAccepts(s.flights[f].doc, s.clock);
      ChecksOnce(cfg, s, f, sid);
    } else {
      forall run ensures !Passes(cfg, s, run, sid) {
        if EnabledRun(cfg, s, run) {
          RunNonePass(cfg, s, run, sid);
        }
      }
    }
  }

  // A run of it: one session, its access token being checked while it is revoked.
  const Access := AccessToken(0, "u", 0)
  const Refresh := RefreshToken(0, "u", 0)

  function OneDoc(cfg: Config): Doc {
    Doc("u", Refresh, 0, cfg.refreshTtl * 1000, Active, None, None)
  }

  function Reading(cfg: Config): State {
    State(0, map[0 := OneDoc(cfg)], map[1 := SessionRead(Access, 0, OneDoc(cfg))], 1, 2, map[Access := 0], [])
  }

  lemma Cons(cfg: Config, s: State, a: Action, rest: seq<Action>) returns (run: seq<Action>)
    requires Enabled(s, a) && EnabledRun(cfg, Next(cfg, s, a), rest)
    ensures run == [a] + rest && EnabledRun(cfg, s, run) && After(cfg, s, run) == After(cfg, Next(cfg, s, a), rest)
  {
    run := [a] + rest;
    assert run[1..] == rest;
  }

  lemma SessionIsRead(cfg: Config, rest: seq<Action>) returns (run: seq<Action>)
    requires cfg.accessTtl > 0 && EnabledRun(cfg, Reading(cfg), rest)
    ensures EnabledRun(cfg, Init, run) && After(cfg, Init, run) == After(cfg, Reading(cfg), rest)
  {
    var s1 := Next(cfg, Init, Issue("u", 0));
    var s2 := Next(cfg, s1, SignAccess(0, 0));
    var s3 := Next(cfg, s2, AuthVerify(Access, 0));
    assert s1.flights == map[0 := Issued(0, "u")] && s2.flights == map[] && s3.flights == map[1 := Verified(Access, 0)];
    assert s3.docs == map[0 := OneDoc(cfg)] && s3.minted == map[Access := 0];
    assert Next(cfg, s3, AuthRead(1)) == Reading(cfg);
    run := Cons(cfg, s3, AuthRead(1), rest);
    run := Cons(cfg, s2, AuthVerify(Access, 0), run);
    run := Cons(cfg, s1, SignAccess(0, 0), run);
    run := Cons(cfg, Init, Issue("u", 0), run);
  }

  lemma RevokedWhileRead(cfg: Config) returns (run: seq<Action>)
    requires cfg.refreshTtl > 0
    ensures EnabledRun(cfg, Reading(cfg), run) && RevokeLanded(After(cfg, Reading(cfg), run), 0)
    ensures var t := After(cfg, Reading(cfg), run);
        t.successes == [] && t.clock == 0 && 1 in t.flights && t.flights[1] == Reading(cfg).flights[1]
  {
    var s := Reading(cfg);
    var s1 := Next(cfg, s, RevokeFind(Refresh, 0));
    assert s1.flights[2] == RevokeFound(0, OneDoc(cfg));
    run := Cons(cfg, s1, RevokeSave(2, 0), []);
    run := Cons(cfg, s, RevokeFind(Refresh, 0), run);
  }

  lemma EarlyReaderRun(cfg: Config) returns (before: seq<Action>)
    requires cfg.accessTtl > 0 && cfg.refreshTtl > 0
    ensures EnabledRun(cfg, Init, before) && RevokeLanded(After(cfg, Init, before), 0)
    ensures var s := After(cfg, Init, before);
        s.successes == [] && Enabled(s, AuthCheck(1, 0, true))
        && Next(cfg, s, AuthCheck(1, 0, true)).successes == [Success(1, Access, 0, 0)]
  {
    before := RevokedWhileRead(cfg);
    before := SessionIsRead(cfg, before);
  }

  // ---------------------------------------------------------------------
  // No refresh that finds the session after the revoke gets as far as signing.

  predicate OnTheWayToSign(flight: Flight, sid: nat) {
    match flight
    case Issued(id, _) => id == sid
    case RefreshFound(token, doc) => token.sid == sid && !IsRevoked(doc)
    case UseSave(id, _, _) => id == sid
    case Renewed(id, _) => id == sid
    case _ => false
  }

  ghost predicate LateRefreshesRefused(s: State, sid: nat, early: set<nat>) {
    && RevokeLanded(s, sid) && sid < s.nextSid
    && (forall f :: f in early ==> f < s.nextFlight)
    && forall f :: f in s.flights && OnTheWayToSign(s.flights[f], sid) ==> f in early
  }

  lemma LateRefreshesStayRefused(cfg: Config, s: State, a: Action, sid: nat, early: set<nat>)
    requires Enabled(s, a) && LateRefreshesRefused(s, sid, early)
    ensures LateRefreshesRefused(Next(cfg, s, a), sid, early)
  {
    RevokedAtStays(cfg, s, a, sid);
  }

  lemma {:induction false} NoLateRefresh(cfg: Config, s: State, run: seq<Action>, sid: nat, early: set<nat>)
    requires EnabledRun(cfg, s, run) && LateRefreshesRefused(s, sid, early)
    ensures LateRefreshesRefused(After(cfg, s, run), sid, early)
    decreases |run|
  {
    if run != [] {
      LateRefreshesStayRefused(cfg, s, run[0], sid, early);
      NoLateRefresh(cfg, Next(cfg, s, run[0]), run[1..], sid, early);
    }
  }

  // After a revoke has landed, a flight that signs an access token of the
  // session is one that was under way when it landed.
  lemma LateRefreshSignsNothing(cfg: Config, before: seq<Action>, run: seq<Action>, sid: nat, f: nat)
    requires EnabledRun(cfg, Init, before)
    requires RevokeLanded(After(cfg, Init, before), sid)
    requires EnabledRun(cfg, After(cfg, Init, before), run)
    requires var t := After(cfg, After(cfg, Init, before), run);
        f in t.flights && (t.flights[f].Issued? || t.flights[f].Renewed?) && t.flights[f].sid == sid
    ensures f in After(cfg, Init, before).flights && OnTheWayToSign(After(cfg, Init, before).flights[f], sid)
  {
    var s := After(cfg, Init, before);
    RunKeepsInv(cfg, Init, before);
    var early := set g | g in s.flights && OnTheWayToSign(s.flights[g], sid);
    NoLateRefresh(cfg, s, run, sid, early);
  }
}
