/**
 Refresh sessions: a stored token hash that is rotated by compare-and-set and a revocation mark,
 under any interleaving of refreshes and logouts. A call is in flight between its steps: read the
 session, verify the token and resolve the principal, rotate, and revoke when something is wrong.
 A token is one signing; its stored hash is salted, so no two signings get one hash. What
 verification accepts is left open here.
 */
module RefreshSession {
  import opened Prelude

  type Token = Id
  type Hash = Id

  datatype Session = Session(hash: Hash, expiresAt: nat, revoked: bool)

  // ----- The stored table ----------------------------------------------------------------------

  /** The compare-and-set: the row must still hold the hash and not be revoked. */
  predicate Rotatable(sessions: map<Id, Session>, s: Id, current: Hash) {
    s in sessions && sessions[s].hash == current && !sessions[s].revoked
  }

  function Rotated(sessions: map<Id, Session>, s: Id, current: Hash, next: Hash, expiresAt: nat): map<Id, Session> {
    if Rotatable(sessions, s, current) then sessions[s := Session(next, expiresAt, false)] else sessions
  }

  function Revoked(sessions: map<Id, Session>, s: Id): map<Id, Session> {
    if s in sessions then sessions[s := sessions[s].(revoked := true)] else sessions
  }

  class AuthRepository {
    var sessions: map<Id, Session>

    constructor ()
      ensures sessions == map[]
    {
      sessions := map[];
    }

    /** The primary key refuses a second session under one identifier. */
    method CreateRefreshSession(s: Id, hash: Hash, expiresAt: nat) returns (created: bool)
      modifies this
      ensures created == (s !in old(sessions))
      ensures sessions == if created then old(sessions)[s := Session(hash, expiresAt, false)] else old(sessions)
    {
      created := s !in sessions;
      if created {
        sessions := sessions[s := Session(hash, expiresAt, false)];
      }
    }

    method FindRefreshSession(s: Id) returns (found: Option<Session>)
      ensures found == if s in sessions then Some(sessions[s]) else None
    {
      found := if s in sessions then Some(sessions[s]) else None;
    }

    method RotateRefreshSession(s: Id, current: Hash, next: Hash, expiresAt: nat) returns (rotated: bool)
      modifies this
      ensures rotated == Rotatable(old(sessions), s, current)
      ensures sessions == Rotated(old(sessions), s, current, next, expiresAt)
    {
      rotated := false;
      if s in sessions && sessions[s].hash == current && !sessions[s].revoked {
        sessions := sessions[s := sessions[s].(hash := next, expiresAt := expiresAt)];
        rotated := true;
      }
    }

    method RevokeRefreshSession(s: Id)
      modifies this
      ensures sessions == Revoked(old(sessions), s)
    {
      if s in sessions && !sessions[s].revoked {
        sessions := sessions[s := sessions[s].(revoked := true)];
      }
    }
  }

  // ----- Calls in flight -----------------------------------------------------------------------

  datatype Kind = Refresh | Logout

  /** How a call ended. */
  datatype Answer =
    | Missing
    | WasRevoked
    | WasExpired
    | NoPrincipal
    | Mismatch
    | Rejected
    | LoggedOut
    | Succeeded(issued: Token)

  datatype Flight =
    | Presented(kind: Kind, session: Id, token: Token)
    | Loaded(kind: Kind, session: Id, token: Token, seen: Hash)
    | Minted(kind: Kind, session: Id, token: Token, seen: Hash, next: Token)
    | MustRevoke(kind: Kind, session: Id, token: Token)
    | Ended(kind: Kind, session: Id, token: Token, answer: Answer)

  datatype Rotation = Rotation(session: Id, from: Hash, to: Hash, call: Id)

  /** signed: the session each token was signed for; rotations: the successful ones so far, in order. */
  datatype World = World(
    sessions: map<Id, Session>, flights: map<Id, Flight>, signed: map<Token, Id>, rotations: seq<Rotation>,
    now: nat, hashOf: Token -> Hash, matches: (Token, Hash) -> bool)

  datatype Event =
    | Login(session: Id, token: Token, expiresAt: nat)
    | Present(flight: Id, kind: Kind, session: Id, token: Token)
    | Load(flight: Id)
    | Resolve(flight: Id, available: bool, next: Token)
    | Rotate(flight: Id, expiresAt: nat)
    | Revoke(flight: Id)
    | Tick(now: nat)

  /** The first read of a call. */
  function AfterLoad(w: World, f: Flight): Flight
    requires f.Presented?
  {
    if f.session !in w.sessions then Ended(f.kind, f.session, f.token, Missing)
    else if w.sessions[f.session].revoked then Ended(f.kind, f.session, f.token, WasRevoked)
    else if w.sessions[f.session].expiresAt <= w.now then Ended(f.kind, f.session, f.token, WasExpired)
    else Loaded(f.kind, f.session, f.token, w.sessions[f.session].hash)
  }

  /** Verification against the hash that was read, then the principal, then a new token. */
  function AfterResolve(w: World, f: Flight, available: bool, next: Token): Flight
    requires f.Loaded?
  {
    var matches := w.matches(f.token, f.seen);
    if f.kind == Logout then
      (if matches then MustRevoke(f.kind, f.session, f.token) else Ended(f.kind, f.session, f.token, Mismatch))
    else if !matches then MustRevoke(f.kind, f.session, f.token)
    else if !available then Ended(f.kind, f.session, f.token, NoPrincipal)
    else Minted(f.kind, f.session, f.token, f.seen, next)
  }

  function With(w: World, id: Id, f: Flight): World {
    w.(flights := w.flights[id := f])
  }

  function Next(w: World, e: Event): World {
    match e
    case Login(s, token, expiresAt) =>
      if s in w.sessions || token in w.signed then w
      else w.(sessions := w.sessions[s := Session(w.hashOf(token), expiresAt, false)], signed := w.signed[token := s])
    case Present(id, kind, s, token) =>
      if id in w.flights || token !in w.signed || w.signed[token] != s then w
      else With(w, id, Presented(kind, s, token))
    case Load(id) =>
      if id in w.flights && w.flights[id].Presented? then With(w, id, AfterLoad(w, w.flights[id])) else w
    case Resolve(id, available, next) =>
      if id in w.flights && w.flights[id].Loaded? && next !in w.signed then
        var f := AfterResolve(w, w.flights[id], available, next);
        With(if f.Minted? then w.(signed := w.signed[next := f.session]) else w, id, f)
      else w
    case Rotate(id, expiresAt) =>
      if id in w.flights && w.flights[id].Minted? then Rotating(w, id, expiresAt) else w
    case Revoke(id) =>
      if id in w.flights && w.flights[id].MustRevoke? then
        var f := w.flights[id];
        With(w.(sessions := Revoked(w.sessions, f.session)), id,
             Ended(f.kind, f.session, f.token, if f.kind == Logout then LoggedOut else Rejected))
      else w
    case Tick(now) => if now >= w.now then w.(now := now) else w
  }

  function Rotating(w: World, id: Id, expiresAt: nat): World
    requires id in w.flights && w.flights[id].Minted?
  {
    var f := w.flights[id];
    if Rotatable(w.sessions, f.session, f.seen) then
      With(w.(sessions := Rotated(w.sessions, f.session, f.seen, w.hashOf(f.next), expiresAt),
              rotations := w.rotations + [Rotation(f.session, f.seen, w.hashOf(f.next), id)]),
           id, Ended(f.kind, f.session, f.token, Succeeded(f.next)))
    else With(w, id, MustRevoke(f.kind, f.session, f.token))
  }

  function Run(w: World, events: seq<Event>): World
    decreases |events|
  {
    if events == [] then w else Run(Next(w, events[0]), events[1..])
  }

  ghost predicate AlwaysInjective(hashOf: Token -> Hash) {
    forall t, u :: hashOf(t) == hashOf(u) ==> t == u
  }

  /** Verification accepts a token against its own hash. */
  ghost predicate Accepts(hashOf: Token -> Hash, matches: (Token, Hash) -> bool) {
    forall t :: matches(t, hashOf(t))
  }

  /** Verification tells tokens apart: it accepts a token against no other token's hash. */
  ghost predicate Separates(hashOf: Token -> Hash, matches: (Token, Hash) -> bool) {
    forall t, u :: matches(t, hashOf(u)) ==> t == u
  }

  function Nobody(hashOf: Token -> Hash, matches: (Token, Hash) -> bool): World {
    World(map[], map[], map[], [], 0, hashOf, matches)
  }

  ghost predicate Reachable(w: World) {
    AlwaysInjective(w.hashOf) && exists events :: w == Run(Nobody(w.hashOf, w.matches), events)
  }

  // ----- Invariant -----------------------------------------------------------------------------

  /** Some signed token has this hash. */
  ghost predicate Known(w: World, h: Hash) {
    exists t :: t in w.signed && h == w.hashOf(t)
  }

  /** The hash is stored, or was rotated away. */
  ghost predicate Spent(w: World, h: Hash) {
    || (exists s :: s in w.sessions && w.sessions[s].hash == h)
    || (exists i :: 0 <= i < |w.rotations| && w.rotations[i].from == h)
  }

  ghost predicate HashesKnown(w: World) {
    && (forall s :: s in w.sessions ==> Known(w, w.sessions[s].hash))
    && (forall i :: 0 <= i < |w.rotations| ==> w.rotations[i].session in w.sessions && Known(w, w.rotations[i].from))
  }

  /** A stored hash was never rotated away, and is stored once. */
  ghost predicate StoredOnce(w: World) {
    && (forall s, i :: s in w.sessions && 0 <= i < |w.rotations| ==> w.rotations[i].from != w.sessions[s].hash)
    && (forall s, r :: s in w.sessions && r in w.sessions && s != r ==> w.sessions[s].hash != w.sessions[r].hash)
  }

  ghost predicate RotatedOnce(w: World) {
    forall i, j :: 0 <= i < j < |w.rotations| ==> w.rotations[i].from != w.rotations[j].from
  }

  ghost predicate HashesSound(w: World) {
    HashesKnown(w) && StoredOnce(w) && RotatedOnce(w)
  }

  /** A minted token is waiting: signed, not stored yet, and waiting in one call only. */
  ghost predicate MintsSound(w: World) {
    && (forall f :: f in w.flights && w.flights[f].Minted? ==>
          && w.flights[f].next in w.signed && !Spent(w, w.hashOf(w.flights[f].next))
          && w.matches(w.flights[f].token, w.flights[f].seen) && w.flights[f].kind == Refresh)
    && (forall f, g :: f in w.flights && g in w.flights && f != g && w.flights[f].Minted? && w.flights[g].Minted? ==>
          w.flights[f].next != w.flights[g].next)
  }

  function LastTo(rotations: seq<Rotation>, s: Id): Option<Hash> {
    if rotations == [] then None
    else if rotations[|rotations| - 1].session == s then Some(rotations[|rotations| - 1].to)
    else LastTo(rotations[..|rotations| - 1], s)
  }

  /** Each rotation of a session starts at the hash the previous one of that session stored. */
  predicate Chained(rotations: seq<Rotation>) {
    rotations != [] ==>
      var front, last := rotations[..|rotations| - 1], rotations[|rotations| - 1];
      Chained(front) && (LastTo(front, last.session).Some? ==> last.from == LastTo(front, last.session).value)
  }

  ghost predicate ChainsSound(w: World) {
    && Chained(w.rotations)
    && forall s :: s in w.sessions && LastTo(w.rotations, s).Some? ==> w.sessions[s].hash == LastTo(w.rotations, s).value
  }

  ghost predicate IsRotation(w: World, i: nat, f: Id, s: Id, token: Token, issued: Token) {
    && i < |w.rotations|
    && w.rotations[i] == Rotation(s, w.rotations[i].from, w.hashOf(issued), f)
    && w.matches(token, w.rotations[i].from)
  }

  ghost predicate RotatedBy(w: World, f: Id, s: Id, token: Token, issued: Token) {
    exists i :: IsRotation(w, i, f, s, token, issued)
  }

  ghost predicate AnswerSound(w: World, f: Id, flight: Flight)
    requires flight.Ended?
  {
    && (flight.answer in {WasRevoked, Rejected, LoggedOut} ==> flight.session in w.sessions && w.sessions[flight.session].revoked)
    && (flight.answer.Succeeded? ==> RotatedBy(w, f, flight.session, flight.token, flight.answer.issued))
    && (flight.answer == Mismatch ==> flight.kind == Logout)
  }

  ghost predicate FlightsSound(w: World) {
    && (forall f :: f in w.flights && w.flights[f].Ended? ==> AnswerSound(w, f, w.flights[f]))
    && (forall f :: f in w.flights && (w.flights[f].Loaded? || w.flights[f].Minted? || w.flights[f].MustRevoke?) ==>
          w.flights[f].session in w.sessions)
  }

  ghost predicate Sound(w: World) {
    AlwaysInjective(w.hashOf) && HashesSound(w) && MintsSound(w) && ChainsSound(w) && FlightsSound(w)
  }

  /** Revocation is final: the row never changes again and no rotation of it succeeds. */
  ghost predicate Evolves(w: World, v: World) {
    && v.hashOf == w.hashOf && v.matches == w.matches
    && |w.rotations| <= |v.rotations| && v.rotations[..|w.rotations|] == w.rotations
    && (forall s :: s in w.sessions ==> s in v.sessions)
    && (forall s :: s in w.sessions && w.sessions[s].revoked ==> v.sessions[s] == w.sessions[s])
    && (forall s, i :: s in w.sessions && w.sessions[s].revoked && |w.rotations| <= i < |v.rotations| ==>
          v.rotations[i].session != s)
  }

  lemma EvolvesTransitive(a: World, b: World, c: World)
    requires Evolves(a, b) && Evolves(b, c)
    ensures Evolves(a, c)
  {
  }

  // ----- Preservation --------------------------------------------------------------------------

  /** Nothing changed but call id, the clock, new signatures and new revocations. */
  ghost predicate Quiet(w: World, v: World, id: Id) {
    && v.hashOf == w.hashOf && v.matches == w.matches && v.rotations == w.rotations && v.sessions.Keys == w.sessions.Keys
    && (forall t :: t in w.signed ==> t in v.signed)
    && (forall s :: s in w.sessions ==>
          v.sessions[s].hash == w.sessions[s].hash && (w.sessions[s].revoked ==> v.sessions[s] == w.sessions[s]))
    && (forall g :: g in v.flights && g != id ==> g in w.flights && v.flights[g] == w.flights[g])
  }

  lemma KnownCarries(w: World, v: World, h: Hash)
    requires v.hashOf == w.hashOf && (forall t :: t in w.signed ==> t in v.signed) && Known(w, h)
    ensures Known(v, h)
  {
  }

  lemma QuietHashes(w: World, v: World, id: Id)
    requires Quiet(w, v, id) && HashesSound(w)
    ensures HashesSound(v)
    ensures forall h :: Spent(v, h) ==> Spent(w, h)
  {
  }

  lemma QuietChains(w: World, v: World, id: Id)
    requires Quiet(w, v, id) && ChainsSound(w)
    ensures ChainsSound(v) && Evolves(w, v)
  {
  }

  lemma QuietFlights(w: World, v: World, id: Id)
    requires Quiet(w, v, id) && FlightsSound(w)
    requires id in v.flights ==>
               var f := v.flights[id];
               (f.Ended? ==> AnswerSound(v, id, f)) && (f.Loaded? || f.Minted? || f.MustRevoke? ==> f.session in v.sessions)
    ensures FlightsSound(v)
  {
    forall g | g in v.flights && v.flights[g].Ended? ensures AnswerSound(v, g, v.flights[g]) {
      if g != id { AnswersCarry(w, v, g, v.flights[g]); }
    }
  }

  lemma QuietMints(w: World, v: World, id: Id)
    requires Quiet(w, v, id) && HashesSound(w) && MintsSound(w)
    requires id in v.flights ==> !v.flights[id].Minted? || (id in w.flights && v.flights[id] == w.flights[id])
    ensures MintsSound(v)
  {
  }

  lemma QuietKeeps(w: World, v: World, id: Id)
    requires Quiet(w, v, id) && Sound(w)
    requires id in v.flights ==>
               var f := v.flights[id];
               (f.Ended? ==> AnswerSound(v, id, f)) && (f.Loaded? || f.Minted? || f.MustRevoke? ==> f.session in v.sessions)
    requires id in v.flights ==> !v.flights[id].Minted? || (id in w.flights && v.flights[id] == w.flights[id])
    ensures Sound(v) && Evolves(w, v)
  {
    QuietHashes(w, v, id);
    QuietChains(w, v, id);
    QuietFlights(w, v, id);
    QuietMints(w, v, id);
  }

  lemma FlightMoved(w: World, id: Id, f: Flight)
    requires Sound(w) && !f.Minted?
    requires f.Ended? ==> AnswerSound(w, id, f)
    requires f.Loaded? || f.MustRevoke? ==> f.session in w.sessions
    ensures Sound(With(w, id, f)) && Evolves(w, With(w, id, f))
  {
    if f.Ended? { AnswersCarry(w, With(w, id, f), id, f); }
    QuietKeeps(w, With(w, id, f), id);
  }

  lemma AnswersCarry(w: World, v: World, g: Id, f: Flight)
    requires f.Ended? && AnswerSound(w, g, f)
    requires v.hashOf == w.hashOf && v.matches == w.matches
    requires |w.rotations| <= |v.rotations| && v.rotations[..|w.rotations|] == w.rotations
    requires forall s :: s in w.sessions && w.sessions[s].revoked ==> s in v.sessions && v.sessions[s].revoked
    ensures AnswerSound(v, g, f)
  {
    if f.answer.Succeeded? {
      var i: nat :| IsRotation(w, i, g, f.session, f.token, f.answer.issued);
      assert v.rotations[i] == v.rotations[..|w.rotations|][i];
      assert IsRotation(v, i, g, f.session, f.token, f.answer.issued);
    }
  }

  function LoggedIn(w: World, s: Id, token: Token, expiresAt: nat): World {
    w.(sessions := w.sessions[s := Session(w.hashOf(token), expiresAt, false)], signed := w.signed[token := s])
  }

  lemma LoginHashes(w: World, s: Id, token: Token, expiresAt: nat)
    requires Sound(w) && s !in w.sessions && token !in w.signed
    ensures HashesSound(LoggedIn(w, s, token, expiresAt))
    ensures forall h :: Spent(LoggedIn(w, s, token, expiresAt), h) ==> Spent(w, h) || h == w.hashOf(token)
  {
  }

  lemma LoginMints(w: World, s: Id, token: Token, expiresAt: nat)
    requires Sound(w) && s !in w.sessions && token !in w.signed
    ensures MintsSound(LoggedIn(w, s, token, expiresAt))
  {
  }

  lemma LoginChains(w: World, s: Id, token: Token, expiresAt: nat)
    requires Sound(w) && s !in w.sessions && token !in w.signed
    ensures ChainsSound(LoggedIn(w, s, token, expiresAt)) && Evolves(w, LoggedIn(w, s, token, expiresAt))
  {
    assert w.rotations[..|w.rotations|] == w.rotations;
    NoRotationYet(w, s, |w.rotations|);
  }

  lemma LoginKeeps(w: World, s: Id, token: Token, expiresAt: nat)
    requires Sound(w) && s !in w.sessions && token !in w.signed
    ensures Sound(LoggedIn(w, s, token, expiresAt)) && Evolves(w, LoggedIn(w, s, token, expiresAt))
  {
    var v := LoggedIn(w, s, token, expiresAt);
    LoginHashes(w, s, token, expiresAt);
    LoginMints(w, s, token, expiresAt);
    LoginChains(w, s, token, expiresAt);
    forall g | g in v.flights && v.flights[g].Ended? ensures AnswerSound(v, g, v.flights[g]) {
      AnswersCarry(w, v, g, v.flights[g]);
    }
  }

  lemma {:induction false} NoRotationYet(w: World, s: Id, n: nat)
    requires HashesKnown(w) && s !in w.sessions && n <= |w.rotations|
    ensures LastTo(w.rotations[..n], s) == None
  {
    if n > 0 {
      NoRotationYet(w, s, n - 1);
      assert w.rotations[..n][..n - 1] == w.rotations[..n - 1];
    }
  }

  /** What minting leaves: a new token is signed, and waits in call id. */
  ghost predicate Mints(w: World, v: World, id: Id, next: Token) {
    && id in w.flights && next !in w.signed && next in v.signed
    && Quiet(w, v, id) && v.sessions == w.sessions
    && id in v.flights && v.flights[id].Minted? && v.flights[id].next == next && v.flights[id].kind == Refresh
    && v.flights[id].session in v.sessions && v.matches(v.flights[id].token, v.flights[id].seen)
  }

  lemma MintMints(w: World, v: World, id: Id, next: Token)
    requires Sound(w) && Mints(w, v, id, next)
    ensures MintsSound(v)
  {
  }

  lemma MintKeeps(w: World, v: World, id: Id, next: Token)
    requires Sound(w) && Mints(w, v, id, next)
    ensures Sound(v) && Evolves(w, v)
  {
    QuietHashes(w, v, id);
    QuietChains(w, v, id);
    QuietFlights(w, v, id);
    MintMints(w, v, id, next);
  }

  lemma RevokeKeeps(w: World, id: Id)
    requires Sound(w) && id in w.flights && w.flights[id].MustRevoke?
    ensures Sound(Next(w, Revoke(id))) && Evolves(w, Next(w, Revoke(id)))
  {
    QuietKeeps(w, Next(w, Revoke(id)), id);
  }

  /** A successful compare-and-set is due for call id. */
  ghost predicate Rotates(w: World, id: Id) {
    Sound(w) && id in w.flights && w.flights[id].Minted? && Rotatable(w.sessions, w.flights[id].session, w.flights[id].seen)
  }

  /** What a successful compare-and-set leaves. */
  ghost predicate Stored(w: World, v: World, id: Id) {
    && id in w.flights && w.flights[id].Minted?
    && var f := w.flights[id];
       && v.hashOf == w.hashOf && v.matches == w.matches && v.signed == w.signed
       && v.rotations == w.rotations + [Rotation(f.session, f.seen, w.hashOf(f.next), id)]
       && v.flights == w.flights[id := Ended(f.kind, f.session, f.token, Succeeded(f.next))]
       && f.session in v.sessions && v.sessions[f.session].hash == w.hashOf(f.next)
       && v.sessions == w.sessions[f.session := v.sessions[f.session]]
  }

  lemma RotatedKnown(w: World, v: World, id: Id)
    requires Rotates(w, id) && Stored(w, v, id)
    ensures HashesKnown(v)
  {
    forall s | s in v.sessions ensures Known(v, v.sessions[s].hash) {
      if s != w.flights[id].session { KnownCarries(w, v, w.sessions[s].hash); }
    }
    forall i | 0 <= i < |v.rotations| ensures v.rotations[i].session in v.sessions && Known(v, v.rotations[i].from) {
      assert i < |w.rotations| ==> v.rotations[i] == w.rotations[i];
      KnownCarries(w, v, v.rotations[i].from);
    }
  }

  lemma RotatedStored(w: World, v: World, id: Id)
    requires Rotates(w, id) && Stored(w, v, id)
    ensures StoredOnce(v) && RotatedOnce(v)
  {
  }

  lemma RotatedSpent(w: World, v: World, id: Id, h: Hash)
    requires Rotates(w, id) && Stored(w, v, id) && Spent(v, h)
    ensures Spent(w, h) || h == w.hashOf(w.flights[id].next)
  {
    if s :| s in v.sessions && v.sessions[s].hash == h {
      assert s != w.flights[id].session ==> s in w.sessions && w.sessions[s].hash == h;
    } else {
      var i :| 0 <= i < |v.rotations| && v.rotations[i].from == h;
      assert i < |w.rotations| ==> w.rotations[i].from == h;
      assert i == |w.rotations| ==> w.sessions[w.flights[id].session].hash == h;
    }
  }

  lemma RotatedMints(w: World, v: World, id: Id)
    requires Rotates(w, id) && Stored(w, v, id)
    ensures MintsSound(v)
  {
    forall g | g in v.flights && v.flights[g].Minted? ensures !Spent(v, w.hashOf(v.flights[g].next)) {
      if Spent(v, w.hashOf(v.flights[g].next)) {
        RotatedSpent(w, v, id, w.hashOf(v.flights[g].next));
        assert false;
      }
    }
  }

  lemma RotatedChains(w: World, v: World, id: Id)
    requires Rotates(w, id) && Stored(w, v, id)
    ensures ChainsSound(v)
  {
  }

  lemma RotatedFlights(w: World, v: World, id: Id)
    requires Rotates(w, id) && Stored(w, v, id)
    ensures FlightsSound(v) && Evolves(w, v)
  {
    var f := w.flights[id];
    assert v.rotations[..|w.rotations|] == w.rotations;
    forall g | g in v.flights && v.flights[g].Ended? ensures AnswerSound(v, g, v.flights[g]) {
      if g == id {
        assert IsRotation(v, |w.rotations|, id, f.session, f.token, f.next);
      } else {
        AnswersCarry(w, v, g, v.flights[g]);
      }
    }
  }

  lemma RotateKeeps(w: World, v: World, id: Id)
    requires Rotates(w, id) && Stored(w, v, id)
    ensures Sound(v) && Evolves(w, v)
  {
    RotatedKnown(w, v, id);
    RotatedStored(w, v, id);
    RotatedMints(w, v, id);
    RotatedChains(w, v, id);
    RotatedFlights(w, v, id);
  }

  lemma RotatingKeeps(w: World, id: Id, expiresAt: nat)
    requires Sound(w) && id in w.flights && w.flights[id].Minted?
    ensures Sound(Rotating(w, id, expiresAt)) && Evolves(w, Rotating(w, id, expiresAt))
  {
    var f := w.flights[id];
    if Rotatable(w.sessions, f.session, f.seen) {
      RotateKeeps(w, Rotating(w, id, expiresAt), id);
    } else {
      FlightMoved(w, id, MustRevoke(f.kind, f.session, f.token));
    }
  }

  lemma LoadKeeps(w: World, id: Id)
    requires Sound(w) && id in w.flights && w.flights[id].Presented?
    ensures Sound(With(w, id, AfterLoad(w, w.flights[id]))) && Evolves(w, With(w, id, AfterLoad(w, w.flights[id])))
  {
    FlightMoved(w, id, AfterLoad(w, w.flights[id]));
  }

  lemma ResolveMints(w: World, id: Id, available: bool, next: Token)
    requires Sound(w) && id in w.flights && w.flights[id].Loaded? && next !in w.signed
    requires AfterResolve(w, w.flights[id], available, next).Minted?
    ensures Mints(w, Next(w, Resolve(id, available, next)), id, next)
  {
  }

  lemma ResolveMoves(w: World, id: Id, available: bool, next: Token)
    requires Sound(w) && id in w.flights && w.flights[id].Loaded? && next !in w.signed
    requires !AfterResolve(w, w.flights[id], available, next).Minted?
    ensures Sound(Next(w, Resolve(id, available, next))) && Evolves(w, Next(w, Resolve(id, available, next)))
  {
    ResolvedSound(w, id, available, next);
    FlightMoved(w, id, AfterResolve(w, w.flights[id], available, next));
  }

  lemma ResolvedSound(w: World, id: Id, available: bool, next: Token)
    requires FlightsSound(w) && id in w.flights && w.flights[id].Loaded? && next !in w.signed
    ensures var f := AfterResolve(w, w.flights[id], available, next);
            && (f.Ended? ==> AnswerSound(w, id, f)) && f.session in w.sessions
            && (!f.Minted? ==> Next(w, Resolve(id, available, next)) == With(w, id, f))
  {
  }

  lemma ResolveKeeps(w: World, id: Id, available: bool, next: Token)
    requires Sound(w) && id in w.flights && w.flights[id].Loaded? && next !in w.signed
    ensures Sound(Next(w, Resolve(id, available, next))) && Evolves(w, Next(w, Resolve(id, available, next)))
  {
    if AfterResolve(w, w.flights[id], available, next).Minted? {
      ResolveMints(w, id, available, next);
      MintKeeps(w, Next(w, Resolve(id, available, next)), id, next);
    } else {
      ResolveMoves(w, id, available, next);
    }
  }

  lemma TickKeeps(w: World, now: nat)
    requires Sound(w)
    ensures Sound(w.(now := now)) && Evolves(w, w.(now := now))
  {
    var v := w.(now := now);
    forall g | g in v.flights && v.flights[g].Ended? ensures AnswerSound(v, g, v.flights[g]) {
      AnswersCarry(w, v, g, v.flights[g]);
    }
    QuietKeeps(w, v, 0);
  }

  lemma NextKeeps(w: World, e: Event)
    requires Sound(w)
    ensures Sound(Next(w, e)) && Evolves(w, Next(w, e))
  {
    if Next(w, e) == w {
      Unchanged(w);
    } else {
      match e
      case Login(s, token, expiresAt) => LoginKeeps(w, s, token, expiresAt);
      case Present(id, kind, s, token) => FlightMoved(w, id, Presented(kind, s, token));
      case Load(id) => LoadKeeps(w, id);
      case Resolve(id, available, next) => ResolveKeeps(w, id, available, next);
      case Rotate(id, expiresAt) => RotatingKeeps(w, id, expiresAt);
      case Revoke(id) => RevokeKeeps(w, id);
      case Tick(now) => TickKeeps(w, now);
    }
  }

  lemma Unchanged(w: World)
    ensures Evolves(w, w)
  {
  }

  lemma {:induction false} RunKeeps(w: World, events: seq<Event>)
    requires Sound(w)
    ensures Sound(Run(w, events)) && Evolves(w, Run(w, events))
    decreases |events|
  {
    if events != [] {
      NextKeeps(w, events[0]);
      RunKeeps(Next(w, events[0]), events[1..]);
      EvolvesTransitive(w, Next(w, events[0]), Run(w, events));
    }
  }

  lemma ReachableSound(w: World)
    requires Reachable(w)
    ensures Sound(w)
  {
    var events :| w == Run(Nobody(w.hashOf, w.matches), events);
    RunKeeps(Nobody(w.hashOf, w.matches), events);
  }

  // ----- Theorems ------------------------------------------------------------------------------

  /** Successful refreshes form one chain per session, and no hash is rotated away twice. */
  lemma OneChain(w: World)
    requires Reachable(w)
    ensures Chained(w.rotations)
    ensures forall i, j :: 0 <= i < j < |w.rotations| ==> w.rotations[i].from != w.rotations[j].from
    ensures forall s :: s in w.sessions && LastTo(w.rotations, s).Some? ==> w.sessions[s].hash == LastTo(w.rotations, s).value
  {
    ReachableSound(w);
  }

  /** Whatever was read before the revocation: the session stays as it is and is not rotated again. */
  lemma RevokedForever(w: World, events: seq<Event>, s: Id)
    requires Reachable(w) && s in w.sessions && w.sessions[s].revoked
    ensures var v := Run(w, events);
            && s in v.sessions && v.sessions[s] == w.sessions[s]
            && |w.rotations| <= |v.rotations|
            && forall i :: |w.rotations| <= i < |v.rotations| ==> v.rotations[i].session != s
  {
    ReachableSound(w);
    RunKeeps(w, events);
  }

  /** The refresh ran to its end: the session was there and unexpired, and the principal available. */
  predicate Completed(f: Flight) {
    f.Ended? && f.kind == Refresh && f.answer !in {Missing, WasExpired, NoPrincipal}
  }

  /** Where verification separates tokens, a call that succeeded rotated its own token's hash away. */
  lemma SucceededRotation(w: World, f: Id) returns (i: nat)
    requires Sound(w) && Separates(w.hashOf, w.matches)
    requires f in w.flights && w.flights[f].Ended? && w.flights[f].answer.Succeeded?
    ensures i < |w.rotations| && w.rotations[i].call == f && w.rotations[i].from == w.hashOf(w.flights[f].token)
  {
    var flight := w.flights[f];
    assert AnswerSound(w, f, flight);
    i :| i < |w.rotations| && IsRotation(w, i, f, flight.session, flight.token, flight.answer.issued);
    assert Known(w, w.rotations[i].from);
  }

  lemma RotatedByOne(w: World, i: nat, j: nat)
    requires RotatedOnce(w) && i < |w.rotations| && j < |w.rotations| && w.rotations[i].from == w.rotations[j].from
    ensures i == j
  {
  }

  /**
   A refresh with a token that another call has rotated away, before it or while it ran, leaves the
   session revoked when it completes, provided verification separates tokens. The service's does not:
   see RefreshReplay.
   */
  lemma ReplayRevokes(w: World, f: Id, i: nat)
    requires Reachable(w) && Separates(w.hashOf, w.matches) && f in w.flights && Completed(w.flights[f])
    requires i < |w.rotations| && w.rotations[i].from == w.hashOf(w.flights[f].token) && w.rotations[i].call != f
    ensures w.flights[f].session in w.sessions && w.sessions[w.flights[f].session].revoked
  {
    ReachableSound(w);
    assert AnswerSound(w, f, w.flights[f]);
    if w.flights[f].answer.Succeeded? {
      var j := SucceededRotation(w, f);
      RotatedByOne(w, i, j);
    }
  }

  /** Two refreshes with one token: when both complete, the session is revoked. */
  lemma SameTokenTwiceRevokes(w: World, f: Id, g: Id)
    requires Reachable(w) && Separates(w.hashOf, w.matches) && f in w.flights && g in w.flights && f != g
    requires Completed(w.flights[f]) && Completed(w.flights[g])
    requires w.flights[f].token == w.flights[g].token && w.flights[f].session == w.flights[g].session
    ensures w.flights[f].session in w.sessions && w.sessions[w.flights[f].session].revoked
  {
    ReachableSound(w);
    assert AnswerSound(w, g, w.flights[g]);
    if w.flights[g].answer.Succeeded? {
      var j := SucceededRotation(w, g);
      ReplayRevokes(w, f, j);
    }
  }

  /** One refresh from start to end, undisturbed, of a session that is there, unexpired and not revoked. */
  function Refreshed(w: World, f: Id, s: Id, token: Token, next: Token, expiresAt: nat): World {
    Next(Next(Next(Next(w, Present(f, Refresh, s, token)), Load(f)), Resolve(f, true, next)), Rotate(f, expiresAt))
  }

  /** A refresh whose token is accepted against the stored hash, and that nobody disturbs, succeeds. */
  lemma AcceptedSucceeds(w: World, f: Id, s: Id, token: Token, next: Token, expiresAt: nat)
    requires f !in w.flights && token in w.signed && w.signed[token] == s && next !in w.signed
    requires s in w.sessions && w.matches(token, w.sessions[s].hash) && !w.sessions[s].revoked && w.sessions[s].expiresAt > w.now
    ensures Refreshed(w, f, s, token, next, expiresAt)
         == w.(sessions := w.sessions[s := Session(w.hashOf(next), expiresAt, false)],
               flights := w.flights[f := Ended(Refresh, s, token, Succeeded(next))],
               signed := w.signed[next := s],
               rotations := w.rotations + [Rotation(s, w.sessions[s].hash, w.hashOf(next), f)])
  {
  }

  lemma {:induction false} RunAppend(w: World, events: seq<Event>, e: Event)
    ensures Run(w, events + [e]) == Next(Run(w, events), e)
    decreases |events|
  {
    if events == [] {
      assert events + [e] == [e] && [e][1..] == [];
    } else {
      assert (events + [e])[0] == events[0] && (events + [e])[1..] == events[1..] + [e];
      RunAppend(Next(w, events[0]), events[1..], e);
    }
  }

  lemma NextReachable(w: World, e: Event)
    requires Reachable(w)
    ensures Reachable(Next(w, e)) && Next(w, e).hashOf == w.hashOf && Next(w, e).matches == w.matches
  {
    var events :| w == Run(Nobody(w.hashOf, w.matches), events);
    RunAppend(Nobody(w.hashOf, w.matches), events, e);
    ReachableSound(w);
    NextKeeps(w, e);
  }

  lemma RefreshedReachable(w: World, f: Id, s: Id, token: Token, next: Token, expiresAt: nat)
    requires Reachable(w)
    ensures Reachable(Refreshed(w, f, s, token, next, expiresAt))
  {
    var presented := Next(w, Present(f, Refresh, s, token));
    var loaded := Next(presented, Load(f));
    var minted := Next(loaded, Resolve(f, true, next));
    NextReachable(w, Present(f, Refresh, s, token));
    NextReachable(presented, Load(f));
    NextReachable(loaded, Resolve(f, true, next));
    NextReachable(minted, Rotate(f, expiresAt));
  }

  /**
   The proviso is needed: as soon as verification accepts a token against the hash of the token that
   replaced it, the replaced token can be used again and nothing is revoked.
   */
  lemma ReplayNeedsSeparation(hashOf: Token -> Hash, matches: (Token, Hash) -> bool, t: Token, u: Token, next: Token)
    returns (w: World)
    requires AlwaysInjective(hashOf) && Accepts(hashOf, matches) && matches(t, hashOf(u)) && t != u && next !in {t, u}
    ensures Reachable(w) && w.hashOf == hashOf && w.matches == matches
    ensures 0 in w.sessions && !w.sessions[0].revoked && w.sessions[0].hash == hashOf(next)
    ensures |w.rotations| == 2 && w.rotations[0].from == hashOf(t)
    ensures 1 in w.flights && w.flights[1] == Ended(Refresh, 0, t, Succeeded(next))
  {
    var empty := Nobody(hashOf, matches);
    assert Run(empty, []) == empty;
    var start := LoggedIn(empty, 0, t, 1);
    NextReachable(empty, Login(0, t, 1));
    var first := Refreshed(start, 0, 0, t, u, 1);
    AcceptedSucceeds(start, 0, 0, t, u, 1);
    RefreshedReachable(start, 0, 0, t, u, 1);
    AcceptedSucceeds(first, 1, 0, t, next, 1);
    RefreshedReachable(first, 1, 0, t, next, 1);
    w := Refreshed(first, 1, 0, t, next, 1);
  }

  /** A refresh with the current token that nobody disturbs succeeds and stores the new token's hash. */
  lemma UndisturbedSucceeds(w: World, f: Id, s: Id, token: Token, next: Token, expiresAt: nat)
    requires Accepts(w.hashOf, w.matches)
    requires f !in w.flights && token in w.signed && w.signed[token] == s && next !in w.signed
    requires s in w.sessions && w.sessions[s].hash == w.hashOf(token) && !w.sessions[s].revoked && w.sessions[s].expiresAt > w.now
    ensures var v := Refreshed(w, f, s, token, next, expiresAt);
            f in v.flights && v.flights[f] == Ended(Refresh, s, token, Succeeded(next))
            && v.sessions == w.sessions[s := Session(w.hashOf(next), expiresAt, false)]
  {
    AcceptedSucceeds(w, f, s, token, next, expiresAt);
  }

  /** A logout revokes exactly when its token is accepted against the stored hash, and else changes nothing. */
  lemma LogoutExact(w: World, f: Id, s: Id, token: Token, next: Token)
    requires f !in w.flights && token in w.signed && w.signed[token] == s && next !in w.signed
    requires s in w.sessions && !w.sessions[s].revoked && w.sessions[s].expiresAt > w.now
    ensures var v := Next(Next(Next(Next(w, Present(f, Logout, s, token)), Load(f)), Resolve(f, true, next)), Revoke(f));
            && f in v.flights
            && if w.matches(token, w.sessions[s].hash) then v.sessions == w.sessions[s := w.sessions[s].(revoked := true)]
               else v.sessions == w.sessions && v.flights[f] == Ended(Logout, s, token, Mismatch)
  {
  }

  // ----- The service ---------------------------------------------------------------------------

  function Resolved(w: World, kind: Kind, f: Id, s: Id, token: Token, available: bool, next: Token): World {
    Next(Next(Next(w, Present(f, kind, s, token)), Load(f)), Resolve(f, available, next))
  }

  /** A refresh from start to end; other calls take their steps before the compare-and-set. */
  function RefreshCall(
    w: World, f: Id, s: Id, token: Token, available: bool, next: Token, others: seq<Event>, expiresAt: nat): World
  {
    var resolved := Resolved(w, Kind.Refresh, f, s, token, available, next);
    if f in resolved.flights && resolved.flights[f].Minted? then Next(Next(Run(resolved, others), Rotate(f, expiresAt)), Revoke(f))
    else Next(resolved, Revoke(f))
  }

  predicate StepOf(e: Event, f: Id) {
    match e
    case Present(id, _, _, _) => id == f
    case Load(id) => id == f
    case Resolve(id, _, _) => id == f
    case Rotate(id, _) => id == f
    case Revoke(id) => id == f
    case _ => false
  }

  predicate OfOthers(events: seq<Event>, f: Id) {
    forall i :: 0 <= i < |events| ==> !StepOf(events[i], f)
  }

  lemma {:induction false} OthersLeaveCall(w: World, events: seq<Event>, f: Id)
    requires f in w.flights && OfOthers(events, f)
    ensures f in Run(w, events).flights && Run(w, events).flights[f] == w.flights[f]
    ensures Run(w, events).hashOf == w.hashOf
    decreases |events|
  {
    if events != [] {
      assert forall i :: 0 <= i < |events[1..]| ==> events[1..][i] == events[i + 1];
      assert !StepOf(events[0], f);
      OthersLeaveCall(Next(w, events[0]), events[1..], f);
    }
  }

  /** Where a call stands once its token is verified and its principal resolved. */
  function Arrived(w: World, kind: Kind, s: Id, token: Token, available: bool, next: Token): Flight {
    var loaded := AfterLoad(w, Presented(kind, s, token));
    if loaded.Loaded? then AfterResolve(w, loaded, available, next) else loaded
  }

  lemma ResolvedExact(w: World, kind: Kind, f: Id, s: Id, token: Token, available: bool, next: Token)
    requires f !in w.flights && token in w.signed && w.signed[token] == s && next !in w.signed
    ensures var r := Resolved(w, kind, f, s, token, available, next);
            && f in r.flights && r.flights[f] == Arrived(w, kind, s, token, available, next)
            && r.sessions == w.sessions && r.hashOf == w.hashOf
  {
  }

  lemma FinishedExact(w: World, f: Id, expiresAt: nat)
    requires f in w.flights && w.flights[f].Minted? && w.flights[f].kind == Kind.Refresh
    ensures var c := w.flights[f];
            var v := Next(Next(w, Rotate(f, expiresAt)), Revoke(f));
            && f in v.flights
            && if Rotatable(w.sessions, c.session, c.seen)
               then v.sessions == Rotated(w.sessions, c.session, c.seen, w.hashOf(c.next), expiresAt)
                    && v.flights[f] == Ended(c.kind, c.session, c.token, Succeeded(c.next))
               else v.sessions == Revoked(w.sessions, c.session)
                    && v.flights[f] == Ended(c.kind, c.session, c.token, Rejected)
  {
  }

  class AuthService {
    const repository: AuthRepository
    const hashOf: Token -> Hash
    const matches: (Token, Hash) -> bool

    constructor (repository: AuthRepository, hashOf: Token -> Hash, matches: (Token, Hash) -> bool)
      ensures this.repository == repository && this.hashOf == hashOf && this.matches == matches
    {
      this.repository, this.hashOf, this.matches := repository, hashOf, matches;
    }

    /** World w is the state of the table and the clock the service works with. */
    ghost predicate Sees(w: World, now: nat)
      reads repository
    {
      w.sessions == repository.sessions && w.now == now && w.hashOf == hashOf && w.matches == matches
    }

    /** seen is the table as the steps of other calls have left it when the hash is to be replaced. */
    method Refresh(
      s: Id, token: Token, now: nat, available: bool, next: Token, expiresAt: nat, seen: map<Id, Session>,
      ghost w: World, ghost f: Id, ghost others: seq<Event>)
      returns (answer: Answer)
      requires Sees(w, now) && f !in w.flights && token in w.signed && w.signed[token] == s && next !in w.signed
      requires OfOthers(others, f)
      requires seen == Run(Resolved(w, Kind.Refresh, f, s, token, available, next), others).sessions
      modifies repository
      ensures var v := RefreshCall(w, f, s, token, available, next, others, expiresAt);
              repository.sessions == v.sessions && f in v.flights && v.flights[f] == Ended(Kind.Refresh, s, token, answer)
    {
      ghost var resolved := Resolved(w, Kind.Refresh, f, s, token, available, next);
      ResolvedExact(w, Kind.Refresh, f, s, token, available, next);
      var session := repository.FindRefreshSession(s);
      if session.None? {
        return Missing;
      }
      if session.value.revoked {
        return WasRevoked;
      }
      if session.value.expiresAt <= now {
        return WasExpired;
      }
      if !matches(token, session.value.hash) {
        repository.RevokeRefreshSession(s);
        return Rejected;
      }
      if !available {
        return NoPrincipal;
      }
      OthersLeaveCall(resolved, others, f);
      FinishedExact(Run(resolved, others), f, expiresAt);
      repository.sessions := seen;
      var rotated := repository.RotateRefreshSession(s, session.value.hash, hashOf(next), expiresAt);
      if !rotated {
        repository.RevokeRefreshSession(s);
        return Rejected;
      }
      answer := Succeeded(next);
    }

    method Logout(s: Id, token: Token, now: nat, ghost w: World, ghost f: Id, ghost next: Token) returns (answer: Answer)
      requires Sees(w, now) && f !in w.flights && token in w.signed && w.signed[token] == s && next !in w.signed
      modifies repository
      ensures var v := Next(Resolved(w, Kind.Logout, f, s, token, true, next), Revoke(f));
              repository.sessions == v.sessions && f in v.flights && v.flights[f] == Ended(Kind.Logout, s, token, answer)
    {
      var session := repository.FindRefreshSession(s);
      if session.None? {
        return Missing;
      }
      if session.value.revoked {
        return WasRevoked;
      }
      if session.value.expiresAt <= now {
        return WasExpired;
      }
      if !matches(token, session.value.hash) {
        return Mismatch;
      }
      repository.RevokeRefreshSession(s);
      answer := LoggedOut;
    }
  }
}
