/**
 What refresh sessions do with the tokens the service signs. Every token of a session is signed for
 the session's user, so all of them share the part that bcrypt reads: verification accepts each of
 them against any hash the session stores, and only the compare-and-set tells calls apart.
 */
module RefreshReplay {
  import opened Prelude
  import opened TokenText
  import opened RefreshSession

  /** What each signed token claims, and its text. Two signings may give one text. */
  datatype Issuer = Issuer(claims: Token -> Claims, text: Token -> string)

  ghost predicate IsText(issuer: Issuer, t: Token) {
    exists signature :: issuer.text(t) == TokenText.Signed(issuer.claims(t), signature)
  }

  ghost predicate SignsClaims(issuer: Issuer) {
    forall t :: IsText(issuer, t)
  }

  /** The stored hash of a token is salted; comparing reads the hashed part of the texts. */
  ghost predicate Bcrypt(hashOf: Token -> Hash, matches: (Token, Hash) -> bool, text: Token -> string) {
    forall t, u :: matches(t, hashOf(u)) <==> HashedPart(text(t)) == HashedPart(text(u))
  }

  lemma TextsAlike(issuer: Issuer, t: Token, u: Token)
    requires IsText(issuer, t) && IsText(issuer, u) && Uuid(issuer.claims(t).sub) && Uuid(issuer.claims(u).sub)
    ensures HashedPart(issuer.text(t)) == HashedPart(issuer.text(u)) <==> Alike(issuer.claims(t).sub, issuer.claims(u).sub)
  {
    var x :| issuer.text(t) == TokenText.Signed(issuer.claims(t), x);
    var y :| issuer.text(u) == TokenText.Signed(issuer.claims(u), y);
    HashedPartsAgree(issuer.claims(t), issuer.claims(u), x, y);
  }

  /** What bcrypt accepts: the tokens of users whose identifiers agree in 18 characters. */
  lemma AcceptedExactly(hashOf: Token -> Hash, matches: (Token, Hash) -> bool, issuer: Issuer, t: Token, u: Token)
    requires Bcrypt(hashOf, matches, issuer.text) && SignsClaims(issuer)
    requires Uuid(issuer.claims(t).sub) && Uuid(issuer.claims(u).sub)
    ensures matches(t, hashOf(u)) <==> Alike(issuer.claims(t).sub, issuer.claims(u).sub)
  {
    TextsAlike(issuer, t, u);
  }

  // ----- Tokens as the service signs them -------------------------------------------------------

  /** A login signs for a user; a refresh signs for the user and session of the token it was shown. */
  ghost predicate SignsAsCoded(w: World, e: Event, issuer: Issuer) {
    match e
    case Login(_, token, _) => Uuid(issuer.claims(token).sub)
    case Resolve(id, _, next) =>
      id in w.flights ==>
        && issuer.claims(next).sub == issuer.claims(w.flights[id].token).sub
        && issuer.claims(next).sessionId == issuer.claims(w.flights[id].token).sessionId
    case _ => true
  }

  ghost predicate RunsAsCoded(w: World, events: seq<Event>, issuer: Issuer)
    decreases |events|
  {
    events != [] ==> SignsAsCoded(w, events[0], issuer) && RunsAsCoded(Next(w, events[0]), events[1..], issuer)
  }

  /** Some run that signs as the service does leads to w, where verification is bcrypt's. */
  ghost predicate ReachedAsCoded(w: World, issuer: Issuer) {
    && AlwaysInjective(w.hashOf) && Bcrypt(w.hashOf, w.matches, issuer.text) && SignsClaims(issuer)
    && exists events :: RunsAsCoded(Nobody(w.hashOf, w.matches), events, issuer) && w == Run(Nobody(w.hashOf, w.matches), events)
  }

  // ----- Invariant -----------------------------------------------------------------------------

  predicate SignedFor(w: World, t: Token, s: Id) {
    t in w.signed && w.signed[t] == s
  }

  /** The hash is that of a token signed for the session. */
  ghost predicate KnownFor(w: World, s: Id, h: Hash) {
    exists t :: SignedFor(w, t, s) && h == w.hashOf(t)
  }

  ghost predicate FlightOwned(w: World, f: Flight) {
    && SignedFor(w, f.token, f.session)
    && (f.Loaded? || f.Minted? ==> KnownFor(w, f.session, f.seen))
    && (f.Minted? ==> SignedFor(w, f.next, f.session))
  }

  /** Stored and read hashes belong to tokens of their own session. */
  ghost predicate Owned(w: World) {
    && (forall t :: t in w.signed ==> w.signed[t] in w.sessions)
    && (forall s :: s in w.sessions ==> KnownFor(w, s, w.sessions[s].hash))
    && (forall f :: f in w.flights ==> FlightOwned(w, w.flights[f]))
  }

  /** All tokens of a session are signed for one user, given by session. */
  ghost predicate Belong(w: World, issuer: Issuer, users: map<Id, string>) {
    && users.Keys <= w.sessions.Keys
    && forall t :: t in w.signed ==> BelongsTo(w, issuer, users, t)
  }

  ghost predicate BelongsTo(w: World, issuer: Issuer, users: map<Id, string>, t: Token)
    requires t in w.signed
  {
    w.signed[t] in users && issuer.claims(t).sub == users[w.signed[t]] && Uuid(issuer.claims(t).sub)
  }

  /** Signatures only add up. */
  ghost predicate SignaturesKept(w: World, v: World) {
    v.hashOf == w.hashOf && forall t :: t in w.signed ==> SignedFor(v, t, w.signed[t])
  }

  lemma KnownForCarries(w: World, v: World, s: Id, h: Hash)
    requires SignaturesKept(w, v) && KnownFor(w, s, h)
    ensures KnownFor(v, s, h)
  {
    var t :| SignedFor(w, t, s) && h == w.hashOf(t);
    assert SignedFor(v, t, s);
  }

  lemma FlightCarries(w: World, v: World, f: Flight)
    requires SignaturesKept(w, v) && FlightOwned(w, f)
    ensures FlightOwned(v, f)
  {
    if f.Loaded? || f.Minted? {
      KnownForCarries(w, v, f.session, f.seen);
    }
  }

  /** One call moved on; the other calls and the stored hashes are as they were. */
  lemma CallOwned(w: World, v: World, id: Id)
    requires Owned(w) && SignaturesKept(w, v) && v.sessions.Keys == w.sessions.Keys
    requires forall t :: t in v.signed ==> v.signed[t] in v.sessions
    requires forall s :: s in v.sessions ==> v.sessions[s].hash == w.sessions[s].hash || KnownFor(v, s, v.sessions[s].hash)
    requires forall g :: g in v.flights && g != id ==> g in w.flights && v.flights[g] == w.flights[g]
    requires id in v.flights ==> FlightOwned(v, v.flights[id])
    ensures Owned(v)
  {
    forall s | s in v.sessions ensures KnownFor(v, s, v.sessions[s].hash) {
      if v.sessions[s].hash == w.sessions[s].hash {
        KnownForCarries(w, v, s, w.sessions[s].hash);
      }
    }
    forall g | g in v.flights ensures FlightOwned(v, v.flights[g]) {
      if g != id {
        FlightCarries(w, v, w.flights[g]);
      }
    }
  }

  lemma LoginOwned(w: World, s: Id, token: Token, expiresAt: nat)
    requires Owned(w) && s !in w.sessions && token !in w.signed
    ensures Owned(LoggedIn(w, s, token, expiresAt))
  {
    var v := LoggedIn(w, s, token, expiresAt);
    assert SignedFor(v, token, s);
    forall r | r in v.sessions ensures KnownFor(v, r, v.sessions[r].hash) {
      if r != s {
        KnownForCarries(w, v, r, w.sessions[r].hash);
      }
    }
    forall g | g in v.flights ensures FlightOwned(v, v.flights[g]) {
      FlightCarries(w, v, w.flights[g]);
    }
  }

  lemma NextOwned(w: World, e: Event)
    requires Owned(w)
    ensures Owned(Next(w, e))
  {
    var v := Next(w, e);
    if v != w {
      match e
      case Login(s, token, expiresAt) => LoginOwned(w, s, token, expiresAt);
      case Present(id, _, _, _) => CallOwned(w, v, id);
      case Load(id) => LoadOwned(w, id);
      case Resolve(id, available, next) => ResolveOwned(w, id, available, next);
      case Rotate(id, expiresAt) => RotateOwned(w, id, expiresAt);
      case Revoke(id) => RevokeOwned(w, id);
      case Tick(_) => CallOwned(w, v, 0);
    }
  }

  lemma LoadOwned(w: World, id: Id)
    requires Owned(w) && id in w.flights && w.flights[id].Presented?
    ensures Owned(Next(w, Load(id)))
  {
    FlightCarries(w, Next(w, Load(id)), w.flights[id]);
    CallOwned(w, Next(w, Load(id)), id);
  }

  lemma RevokeOwned(w: World, id: Id)
    requires Owned(w) && id in w.flights && w.flights[id].MustRevoke?
    ensures Owned(Next(w, Revoke(id)))
  {
    FlightCarries(w, Next(w, Revoke(id)), w.flights[id]);
    CallOwned(w, Next(w, Revoke(id)), id);
  }

  lemma ResolveOwned(w: World, id: Id, available: bool, next: Token)
    requires Owned(w) && id in w.flights && w.flights[id].Loaded? && next !in w.signed
    ensures Owned(Next(w, Resolve(id, available, next)))
  {
    var v := Next(w, Resolve(id, available, next));
    var f := w.flights[id];
    FlightCarries(w, v, f);
    CallOwned(w, v, id);
  }

  lemma RotateOwned(w: World, id: Id, expiresAt: nat)
    requires Owned(w) && id in w.flights && w.flights[id].Minted?
    ensures Owned(Next(w, Rotate(id, expiresAt)))
  {
    var v := Next(w, Rotate(id, expiresAt));
    var f := w.flights[id];
    assert SignedFor(v, f.next, f.session);
    CallOwned(w, v, id);
  }

  function UsersAfter(w: World, e: Event, issuer: Issuer, users: map<Id, string>): map<Id, string> {
    if e.Login? && e.session !in w.sessions && e.token !in w.signed then users[e.session := issuer.claims(e.token).sub] else users
  }

  lemma LoginBelongs(w: World, s: Id, token: Token, expiresAt: nat, issuer: Issuer, users: map<Id, string>)
    requires Belong(w, issuer, users) && Uuid(issuer.claims(token).sub) && s !in w.sessions && token !in w.signed
    ensures Belong(LoggedIn(w, s, token, expiresAt), issuer, users[s := issuer.claims(token).sub])
  {
    var v := LoggedIn(w, s, token, expiresAt);
    forall t | t in v.signed ensures BelongsTo(v, issuer, users[s := issuer.claims(token).sub], t) {
      assert t != token ==> BelongsTo(w, issuer, users, t);
    }
  }

  /** The new token of a refresh is the only one signed, for the user of the token shown. */
  lemma SignedBelongs(w: World, v: World, shown: Token, next: Token, issuer: Issuer, users: map<Id, string>)
    requires Belong(w, issuer, users) && shown in w.signed && issuer.claims(next).sub == issuer.claims(shown).sub
    requires v.signed == w.signed || v.signed == w.signed[next := w.signed[shown]]
    requires v.sessions.Keys == w.sessions.Keys
    ensures Belong(v, issuer, users)
  {
    forall t | t in v.signed ensures BelongsTo(v, issuer, users, t) {
      assert BelongsTo(w, issuer, users, if t in w.signed then t else shown);
      assert BelongsTo(w, issuer, users, shown);
    }
  }

  lemma ResolveSigns(w: World, id: Id, available: bool, next: Token)
    requires Owned(w) && id in w.flights
    ensures var v := Next(w, Resolve(id, available, next));
            && v.sessions == w.sessions
            && (v.signed == w.signed || v.signed == w.signed[next := w.signed[w.flights[id].token]])
    ensures w.flights[id].token in w.signed
  {
    assert FlightOwned(w, w.flights[id]);
  }

  lemma OthersSignNothing(w: World, e: Event)
    requires !e.Login? && !e.Resolve?
    ensures Next(w, e).signed == w.signed && Next(w, e).sessions.Keys == w.sessions.Keys
  {
  }

  lemma NextBelongs(w: World, e: Event, issuer: Issuer, users: map<Id, string>)
    requires Owned(w) && Belong(w, issuer, users) && SignsAsCoded(w, e, issuer)
    ensures Belong(Next(w, e), issuer, UsersAfter(w, e, issuer, users))
  {
    if e.Login? {
      if e.session !in w.sessions && e.token !in w.signed {
        LoginBelongs(w, e.session, e.token, e.expiresAt, issuer, users);
      }
    } else if e.Resolve? {
      if e.flight in w.flights {
        ResolveSigns(w, e.flight, e.available, e.next);
        SignedBelongs(w, Next(w, e), w.flights[e.flight].token, e.next, issuer, users);
      }
    } else {
      OthersSignNothing(w, e);
      KeptBelongs(w, Next(w, e), issuer, users);
    }
  }

  lemma KeptBelongs(w: World, v: World, issuer: Issuer, users: map<Id, string>)
    requires Belong(w, issuer, users) && v.signed == w.signed && v.sessions.Keys == w.sessions.Keys
    ensures Belong(v, issuer, users)
  {
    forall t | t in v.signed ensures BelongsTo(v, issuer, users, t) {
      assert BelongsTo(w, issuer, users, t);
    }
  }

  lemma {:induction false} RunOwned(w: World, events: seq<Event>, issuer: Issuer, users: map<Id, string>)
    returns (after: map<Id, string>)
    requires Owned(w) && Belong(w, issuer, users) && RunsAsCoded(w, events, issuer)
    ensures Owned(Run(w, events)) && Belong(Run(w, events), issuer, after)
    decreases |events|
  {
    if events == [] {
      after := users;
    } else {
      NextOwned(w, events[0]);
      NextBelongs(w, events[0], issuer, users);
      after := RunOwned(Next(w, events[0]), events[1..], issuer, UsersAfter(w, events[0], issuer, users));
    }
  }

  lemma CodedReachable(w: World, issuer: Issuer)
    requires ReachedAsCoded(w, issuer)
    ensures Reachable(w)
  {
    var events :| RunsAsCoded(Nobody(w.hashOf, w.matches), events, issuer) && w == Run(Nobody(w.hashOf, w.matches), events);
  }

  lemma CodedOwned(w: World, issuer: Issuer) returns (users: map<Id, string>)
    requires ReachedAsCoded(w, issuer)
    ensures Owned(w) && Belong(w, issuer, users)
  {
    var events :| RunsAsCoded(Nobody(w.hashOf, w.matches), events, issuer) && w == Run(Nobody(w.hashOf, w.matches), events);
    users := RunOwned(Nobody(w.hashOf, w.matches), events, issuer, map[]);
  }

  // ----- Theorems ------------------------------------------------------------------------------

  /** The tokens of a session are one user's, in every run that signs as the service does. */
  lemma OneUserPerSession(w: World, issuer: Issuer, s: Id, t: Token, u: Token)
    requires ReachedAsCoded(w, issuer) && SignedFor(w, t, s) && SignedFor(w, u, s)
    ensures issuer.claims(t).sub == issuer.claims(u).sub && Uuid(issuer.claims(t).sub)
  {
    var users := CodedOwned(w, issuer);
    assert BelongsTo(w, issuer, users, t) && BelongsTo(w, issuer, users, u);
  }

  lemma PairAccepted(w: World, issuer: Issuer, s: Id, t: Token, u: Token)
    requires ReachedAsCoded(w, issuer) && SignedFor(w, t, s) && SignedFor(w, u, s)
    ensures w.matches(t, w.hashOf(u))
  {
    OneUserPerSession(w, issuer, s, t, u);
    AcceptedExactly(w.hashOf, w.matches, issuer, t, u);
  }

  lemma KnownAccepted(w: World, issuer: Issuer, s: Id, t: Token, h: Hash)
    requires ReachedAsCoded(w, issuer) && SignedFor(w, t, s) && KnownFor(w, s, h)
    ensures w.matches(t, h)
  {
    var u :| SignedFor(w, u, s) && h == w.hashOf(u);
    PairAccepted(w, issuer, s, t, u);
  }

  /** Every token ever signed for a session is accepted against the hash it stores, replaced or not. */
  lemma EveryTokenAccepted(w: World, issuer: Issuer, s: Id, t: Token)
    requires ReachedAsCoded(w, issuer) && SignedFor(w, t, s)
    ensures s in w.sessions && w.matches(t, w.sessions[s].hash)
  {
    var users := CodedOwned(w, issuer);
    KnownAccepted(w, issuer, s, t, w.sessions[s].hash);
  }

  lemma ReadAccepted(w: World, issuer: Issuer, f: Id)
    requires ReachedAsCoded(w, issuer) && f in w.flights && w.flights[f].Loaded?
    ensures w.matches(w.flights[f].token, w.flights[f].seen)
  {
    var users := CodedOwned(w, issuer);
    assert FlightOwned(w, w.flights[f]);
    KnownAccepted(w, issuer, w.flights[f].session, w.flights[f].token, w.flights[f].seen);
  }

  /** So no refresh that read a live session revokes it for its token: it goes on to sign. */
  lemma NeverMismatched(w: World, issuer: Issuer, f: Id, next: Token)
    requires ReachedAsCoded(w, issuer) && f in w.flights && w.flights[f].Loaded? && w.flights[f].kind == Refresh
    ensures var c := w.flights[f];
            && AfterResolve(w, c, true, next) == Minted(Refresh, c.session, c.token, c.seen, next)
            && AfterResolve(w, c, false, next) == Ended(Refresh, c.session, c.token, NoPrincipal)
  {
    ReadAccepted(w, issuer, f);
  }

  /** An undisturbed refresh succeeds with any token of the session, also one that was replaced. */
  lemma AnyTokenRefreshes(w: World, issuer: Issuer, f: Id, s: Id, token: Token, next: Token, expiresAt: nat)
    requires ReachedAsCoded(w, issuer) && f !in w.flights && SignedFor(w, token, s) && next !in w.signed
    requires s in w.sessions && !w.sessions[s].revoked && w.sessions[s].expiresAt > w.now
    ensures var v := Refreshed(w, f, s, token, next, expiresAt);
            && f in v.flights && v.flights[f] == Ended(Refresh, s, token, Succeeded(next))
            && v.sessions == w.sessions[s := Session(w.hashOf(next), expiresAt, false)]
  {
    EveryTokenAccepted(w, issuer, s, token);
    AcceptedSucceeds(w, f, s, token, next, expiresAt);
  }

  /** And any of them logs the session out. */
  lemma AnyTokenLogsOut(w: World, issuer: Issuer, f: Id, s: Id, token: Token, next: Token)
    requires ReachedAsCoded(w, issuer) && f !in w.flights && SignedFor(w, token, s) && next !in w.signed
    requires s in w.sessions && !w.sessions[s].revoked && w.sessions[s].expiresAt > w.now
    ensures Next(Resolved(w, Logout, f, s, token, true, next), Revoke(f)).sessions == w.sessions[s := w.sessions[s].(revoked := true)]
  {
    EveryTokenAccepted(w, issuer, s, token);
    LogoutExact(w, f, s, token, next);
  }

  lemma {:induction false} CodedAppend(w: World, events: seq<Event>, e: Event, issuer: Issuer)
    requires RunsAsCoded(w, events, issuer) && SignsAsCoded(Run(w, events), e, issuer)
    ensures RunsAsCoded(w, events + [e], issuer)
    decreases |events|
  {
    if events == [] {
      assert events + [e] == [e] && [e][1..] == [];
    } else {
      assert (events + [e])[0] == events[0] && (events + [e])[1..] == events[1..] + [e];
      CodedAppend(Next(w, events[0]), events[1..], e, issuer);
    }
  }

  lemma CodedNext(w: World, e: Event, issuer: Issuer)
    requires ReachedAsCoded(w, issuer) && SignsAsCoded(w, e, issuer)
    ensures ReachedAsCoded(Next(w, e), issuer) && Next(w, e).hashOf == w.hashOf && Next(w, e).matches == w.matches
  {
    var empty := Nobody(w.hashOf, w.matches);
    var events :| RunsAsCoded(empty, events, issuer) && w == Run(empty, events);
    CodedAppend(empty, events, e, issuer);
    RunAppend(empty, events, e);
    CodedReachable(w, issuer);
    NextReachable(w, e);
  }

  /** The tokens claim the same user and session. */
  predicate SameClaimant(issuer: Issuer, t: Token, u: Token) {
    issuer.claims(u).sub == issuer.claims(t).sub && issuer.claims(u).sessionId == issuer.claims(t).sessionId
  }

  lemma CodedRefresh(w: World, issuer: Issuer, f: Id, s: Id, token: Token, next: Token, expiresAt: nat)
    requires ReachedAsCoded(w, issuer) && f !in w.flights && SameClaimant(issuer, token, next)
    ensures ReachedAsCoded(Refreshed(w, f, s, token, next, expiresAt), issuer)
  {
    var presented := Next(w, Present(f, Refresh, s, token));
    var loaded := Next(presented, Load(f));
    CodedNext(w, Present(f, Refresh, s, token), issuer);
    CodedNext(presented, Load(f), issuer);
    assert f in loaded.flights ==> loaded.flights[f].token == token;
    CodedNext(loaded, Resolve(f, true, next), issuer);
    CodedNext(Next(loaded, Resolve(f, true, next)), Rotate(f, expiresAt), issuer);
  }

  lemma CodedLogin(hashOf: Token -> Hash, matches: (Token, Hash) -> bool, issuer: Issuer, t: Token)
    requires AlwaysInjective(hashOf) && Bcrypt(hashOf, matches, issuer.text) && SignsClaims(issuer)
    requires Uuid(issuer.claims(t).sub)
    ensures ReachedAsCoded(LoggedIn(Nobody(hashOf, matches), 0, t, 1), issuer)
  {
    var empty := Nobody(hashOf, matches);
    assert RunsAsCoded(empty, [], issuer) && Run(empty, []) == empty;
    CodedNext(empty, Login(0, t, 1), issuer);
  }

  /**
   For any three tokens of one user and session, however they are signed: a run that signs as the
   service does, in which t is replaced by u and then refreshes the session again, unrevoked.
   */
  lemma ReplacedTokenRefreshes(
    hashOf: Token -> Hash, matches: (Token, Hash) -> bool, issuer: Issuer, t: Token, u: Token, next: Token)
    returns (w: World)
    requires AlwaysInjective(hashOf) && Bcrypt(hashOf, matches, issuer.text) && SignsClaims(issuer)
    requires t != u && next !in {t, u} && Uuid(issuer.claims(t).sub) && SameClaimant(issuer, t, u) && SameClaimant(issuer, t, next)
    ensures !Separates(hashOf, matches)
    ensures ReachedAsCoded(w, issuer) && w.hashOf == hashOf && w.matches == matches
    ensures 0 in w.sessions && !w.sessions[0].revoked && w.sessions[0].hash == hashOf(next)
    ensures |w.rotations| == 2 && w.rotations[0].from == hashOf(t)
    ensures 1 in w.flights && w.flights[1] == Ended(Refresh, 0, t, Succeeded(next))
  {
    var start := LoggedIn(Nobody(hashOf, matches), 0, t, 1);
    var first := Refreshed(start, 0, 0, t, u, 1);
    AcceptedExactly(hashOf, matches, issuer, t, t);
    AcceptedExactly(hashOf, matches, issuer, t, u);
    CodedLogin(hashOf, matches, issuer, t);
    AcceptedSucceeds(start, 0, 0, t, u, 1);
    CodedRefresh(start, issuer, 0, 0, t, u, 1);
    AcceptedSucceeds(first, 1, 0, t, next, 1);
    CodedRefresh(first, issuer, 1, 0, t, next, 1);
    w := Refreshed(first, 1, 0, t, next, 1);
  }

  // ----- When a refresh is rejected -------------------------------------------------------------

  /** Since world w the session was neither revoked nor given another hash. */
  ghost predicate Undisturbed(w: World, v: World, s: Id) {
    && s in v.sessions && !v.sessions[s].revoked
    && |w.rotations| <= |v.rotations|
    && forall i :: |w.rotations| <= i < |v.rotations| ==> v.rotations[i].session != s
  }

  /** Since world w, some rotation replaced hash h of the session. */
  ghost predicate Replaced(w: World, v: World, s: Id, h: Hash) {
    exists i :: |w.rotations| <= i < |v.rotations| && v.rotations[i].session == s && v.rotations[i].from == h
  }

  ghost predicate NotRotated(w: World, v: World, s: Id) {
    forall i :: |w.rotations| <= i < |v.rotations| ==> v.rotations[i].session != s
  }

  /** The session still has the hash, or a rotation since then replaced it. */
  ghost predicate HashHeld(w: World, v: World, s: Id, h: Hash) {
    && s in v.sessions && |w.rotations| <= |v.rotations|
    && ((v.sessions[s].hash == h && NotRotated(w, v, s)) || Replaced(w, v, s, h))
  }

  /** Call f still works with what it read, or has gone on. */
  predicate Holds(v: World, f: Id, read: Flight)
    requires read.Loaded?
  {
    && f in v.flights && !v.flights[f].Presented?
    && (v.flights[f].Loaded? ==> v.flights[f] == read)
    && (v.flights[f].Minted? ==> v.flights[f] == Minted(read.kind, read.session, read.token, read.seen, v.flights[f].next))
  }

  lemma NextHolds(v: World, e: Event, f: Id, read: Flight)
    requires read.Loaded? && Holds(v, f, read)
    ensures Holds(Next(v, e), f, read) && Next(v, e).hashOf == v.hashOf
  {
  }

  /** The event appended no rotation and changed no hash of a session there was. */
  ghost predicate HashesKept(v: World, v': World) {
    && v'.rotations == v.rotations
    && forall s :: s in v.sessions ==> s in v'.sessions && v'.sessions[s].hash == v.sessions[s].hash
  }

  lemma KeptOrRotated(v: World, e: Event)
    ensures HashesKept(v, Next(v, e)) || (e.Rotate? && CanRotate(v, e.flight))
  {
  }

  predicate CanRotate(v: World, id: Id) {
    id in v.flights && v.flights[id].Minted? && Rotatable(v.sessions, v.flights[id].session, v.flights[id].seen)
  }

  lemma KeptHeld(w: World, v: World, v': World, s: Id, h: Hash)
    requires HashesKept(v, v') && HashHeld(w, v, s, h)
    ensures HashHeld(w, v', s, h)
  {
  }

  lemma RotatedHeld(w: World, v: World, id: Id, expiresAt: nat, s: Id, h: Hash)
    requires CanRotate(v, id) && HashHeld(w, v, s, h)
    ensures HashHeld(w, Rotating(v, id, expiresAt), s, h)
  {
    var v' := Rotating(v, id, expiresAt);
    assert forall i :: 0 <= i < |v.rotations| ==> v'.rotations[i] == v.rotations[i];
    assert v'.rotations[|v.rotations|] == Rotation(v.flights[id].session, v.flights[id].seen, v.hashOf(v.flights[id].next), id);
    if Replaced(w, v, s, h) {
      var i :| |w.rotations| <= i < |v.rotations| && v.rotations[i].session == s && v.rotations[i].from == h;
      assert v'.rotations[i].from == h;
    }
  }

  lemma NextHeld(w: World, v: World, e: Event, s: Id, h: Hash)
    requires HashHeld(w, v, s, h)
    ensures HashHeld(w, Next(v, e), s, h)
  {
    KeptOrRotated(v, e);
    if HashesKept(v, Next(v, e)) {
      KeptHeld(w, v, Next(v, e), s, h);
    } else {
      RotatedHeld(w, v, e.flight, e.expiresAt, s, h);
    }
  }

  lemma {:induction false} RunHeld(w: World, v: World, events: seq<Event>, s: Id, h: Hash)
    requires HashHeld(w, v, s, h)
    ensures HashHeld(w, Run(v, events), s, h)
    decreases |events|
  {
    if events != [] {
      NextHeld(w, v, events[0], s, h);
      RunHeld(w, Next(v, events[0]), events[1..], s, h);
    }
  }

  lemma {:induction false} RunHolds(v: World, events: seq<Event>, f: Id, read: Flight)
    requires read.Loaded? && Holds(v, f, read)
    ensures Holds(Run(v, events), f, read) && Run(v, events).hashOf == v.hashOf
    decreases |events|
  {
    if events != [] {
      NextHolds(v, events[0], f, read);
      RunHolds(Next(v, events[0]), events[1..], f, read);
    }
  }

  /** In a sound world a replaced hash is stored nowhere. */
  lemma HeldExactly(w: World, v: World, s: Id, h: Hash)
    requires Sound(v) && HashHeld(w, v, s, h)
    ensures Rotatable(v.sessions, s, h) <==> Undisturbed(w, v, s)
  {
    if Replaced(w, v, s, h) {
      var i :| |w.rotations| <= i < |v.rotations| && v.rotations[i].session == s && v.rotations[i].from == h;
      assert v.rotations[i].from != v.sessions[s].hash;
    }
  }

  lemma SoundAfter(w: World, e: Event, events: seq<Event>)
    requires Reachable(w)
    ensures Sound(Run(Next(w, e), events))
  {
    ReachableSound(w);
    NextKeeps(w, e);
    RunKeeps(Next(w, e), events);
  }

  /** What a call that read hash h of session s finds at its compare-and-set. */
  lemma FoundExactly(w: World, f: Id, events: seq<Event>)
    requires Reachable(w) && f in w.flights && w.flights[f].Presented?
    requires Next(w, Load(f)).flights[f].Loaded?
    requires var v := Run(Next(w, Load(f)), events); f in v.flights && v.flights[f].Minted?
    ensures var v := Run(Next(w, Load(f)), events);
            var c := v.flights[f];
            && c == Minted(w.flights[f].kind, w.flights[f].session, w.flights[f].token, c.seen, c.next)
            && v.hashOf == w.hashOf && Sound(v)
            && (Rotatable(v.sessions, c.session, c.seen) <==> Undisturbed(w, v, c.session))
  {
    var read := Next(w, Load(f));
    var s, h := w.flights[f].session, w.sessions[w.flights[f].session].hash;
    NextHeld(w, w, Load(f), s, h);
    RunHeld(w, read, events, s, h);
    RunHolds(read, events, f, read.flights[f]);
    SoundAfter(w, Load(f), events);
    HeldExactly(w, Run(read, events), s, h);
  }

  lemma {:induction false} SessionStays(v: World, events: seq<Event>, s: Id)
    requires s in v.sessions
    ensures s in Run(v, events).sessions
    decreases |events|
  {
    if events != [] {
      SessionStays(Next(v, events[0]), events[1..], s);
    }
  }

  lemma CasWon(v: World, f: Id, expiresAt: nat)
    requires f in v.flights && v.flights[f].Minted? && Rotatable(v.sessions, v.flights[f].session, v.flights[f].seen)
    ensures var c := v.flights[f];
            var done := Next(v, Rotate(f, expiresAt));
            && f in done.flights && done.flights[f] == Ended(c.kind, c.session, c.token, Succeeded(c.next))
            && done.sessions == v.sessions[c.session := Session(v.hashOf(c.next), expiresAt, false)]
  {
  }

  lemma CasLost(v: World, f: Id, expiresAt: nat)
    requires f in v.flights && v.flights[f].Minted? && !Rotatable(v.sessions, v.flights[f].session, v.flights[f].seen)
    ensures var c := v.flights[f];
            Next(v, Rotate(f, expiresAt)) == v.(flights := v.flights[f := MustRevoke(c.kind, c.session, c.token)])
  {
  }

  lemma RevokesAtLast(v: World, f: Id, others: seq<Event>)
    requires f in v.flights && v.flights[f].MustRevoke? && v.flights[f].kind == Refresh && v.flights[f].session in v.sessions
    requires OfOthers(others, f)
    ensures var c := v.flights[f];
            var end := Next(Run(v, others), Revoke(f));
            && f in end.flights && end.flights[f] == Ended(Refresh, c.session, c.token, Answer.Rejected)
            && c.session in end.sessions && end.sessions[c.session].revoked
  {
    OthersLeaveCall(v, others, f);
    SessionStays(v, others, v.flights[f].session);
  }

  /**
   A refresh that read a live session, whatever other calls do: its compare-and-set succeeds exactly
   when nobody has revoked or rotated the session since the read; otherwise it revokes the session.
   */
  lemma RejectedExactly(w: World, f: Id, events: seq<Event>, expiresAt: nat, others: seq<Event>)
    requires Reachable(w) && f in w.flights && w.flights[f].Presented? && w.flights[f].kind == Refresh
    requires Next(w, Load(f)).flights[f].Loaded?
    requires var v := Run(Next(w, Load(f)), events); f in v.flights && v.flights[f].Minted?
    requires OfOthers(others, f)
    ensures var v := Run(Next(w, Load(f)), events);
            var c := v.flights[f];
            var done := Next(v, Rotate(f, expiresAt));
            var end := Next(Run(done, others), Revoke(f));
            && f in done.flights && f in end.flights
            && if Undisturbed(w, v, c.session)
               then && done.flights[f] == Ended(Refresh, c.session, c.token, Succeeded(c.next))
                    && done.sessions == v.sessions[c.session := Session(w.hashOf(c.next), expiresAt, false)]
               else && done.sessions == v.sessions
                    && end.flights[f] == Ended(Refresh, c.session, c.token, Answer.Rejected)
                    && c.session in end.sessions && end.sessions[c.session].revoked
  {
    var v := Run(Next(w, Load(f)), events);
    FoundExactly(w, f, events);
    MintedSession(v, f);
    if Rotatable(v.sessions, v.flights[f].session, v.flights[f].seen) {
      CasWon(v, f, expiresAt);
      OthersLeaveCall(Next(v, Rotate(f, expiresAt)), others, f);
    } else {
      CasLost(v, f, expiresAt);
      RevokesAtLast(Next(v, Rotate(f, expiresAt)), f, others);
    }
  }

  lemma MintedSession(v: World, f: Id)
    requires Sound(v) && f in v.flights && v.flights[f].Minted?
    ensures v.flights[f].session in v.sessions
  {
  }

  /** A whole refresh with any token of a live session: what others do between its read and its write decides it. */
  lemma RefreshCallExactly(
    w: World, issuer: Issuer, f: Id, s: Id, token: Token, next: Token, others: seq<Event>, expiresAt: nat)
    requires ReachedAsCoded(w, issuer) && f !in w.flights && SignedFor(w, token, s) && next !in w.signed && OfOthers(others, f)
    requires s in w.sessions && !w.sessions[s].revoked && w.sessions[s].expiresAt > w.now
    ensures var found := Run(Resolved(w, Refresh, f, s, token, true, next), others);
            var v := RefreshCall(w, f, s, token, true, next, others, expiresAt);
            && f in v.flights && s in v.sessions
            && if Undisturbed(w, found, s)
               then v.flights[f] == Ended(Refresh, s, token, Succeeded(next)) && v.sessions[s] == Session(w.hashOf(next), expiresAt, false)
               else v.flights[f] == Ended(Refresh, s, token, Answer.Rejected) && v.sessions[s].revoked
  {
    EveryTokenAccepted(w, issuer, s, token);
    ResolvedExact(w, Refresh, f, s, token, true, next);
    var resolved := Resolved(w, Refresh, f, s, token, true, next);
    OthersLeaveCall(resolved, others, f);
    CodedReachable(w, issuer);
    FoundHeld(w, f, s, token, next, others);
    FinishedExact(Run(resolved, others), f, expiresAt);
  }

  lemma FoundHeld(w: World, f: Id, s: Id, token: Token, next: Token, others: seq<Event>)
    requires Reachable(w) && s in w.sessions
    ensures var found := Run(Resolved(w, Refresh, f, s, token, true, next), others);
            s in found.sessions && (Rotatable(found.sessions, s, w.sessions[s].hash) <==> Undisturbed(w, found, s))
  {
    var presented := Next(w, Present(f, Refresh, s, token));
    var read := Next(presented, Load(f));
    var h := w.sessions[s].hash;
    NextReachable(w, Present(f, Refresh, s, token));
    NextReachable(presented, Load(f));
    SoundAfter(read, Resolve(f, true, next), others);
    NextHeld(w, w, Present(f, Refresh, s, token), s, h);
    NextHeld(w, presented, Load(f), s, h);
    NextHeld(w, read, Resolve(f, true, next), s, h);
    RunHeld(w, Next(read, Resolve(f, true, next)), others, s, h);
    HeldExactly(w, Run(Next(read, Resolve(f, true, next)), others), s, h);
  }
}
