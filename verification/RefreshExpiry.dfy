/**
 Which sessions a refresh or logout may act on, and what it does, written out in terms of the stored
 rows: a session that is missing, revoked or expired when a call reads it is left alone by that call
 for good, whatever runs beside it, and each rotation and each revocation goes back to a call that
 read the session while it was live.
 */
module RefreshExpiry {
  import opened Prelude
  import opened RefreshSession

  /** The session is there, not revoked, and expires later than now. */
  predicate Live(w: World, s: Id) {
    s in w.sessions && !w.sessions[s].revoked && w.now < w.sessions[s].expiresAt
  }

  /** What a call answers that reads a session which is not live. */
  predicate TurnedAway(w: World, s: Id, answer: Answer) {
    && !Live(w, s)
    && (answer == Missing <==> s !in w.sessions)
    && (answer == WasRevoked <==> s in w.sessions && w.sessions[s].revoked)
    && (answer == WasExpired <==> s in w.sessions && !w.sessions[s].revoked && w.sessions[s].expiresAt <= w.now)
  }

  lemma LoadExact(w: World, f: Id)
    requires f in w.flights && w.flights[f].Presented?
    ensures var c, v := w.flights[f], Next(w, Load(f));
            && f in v.flights && v == w.(flights := w.flights[f := v.flights[f]])
            && if Live(w, c.session) then v.flights[f] == Loaded(c.kind, c.session, c.token, w.sessions[c.session].hash)
               else v.flights[f].Ended? && v.flights[f] == Ended(c.kind, c.session, c.token, v.flights[f].answer)
                    && TurnedAway(w, c.session, v.flights[f].answer)
  {
  }

  // ----- Whole calls ---------------------------------------------------------------------------

  /** A refresh or logout of an expired session is refused as expired, and the stored sessions stay. */
  lemma ExpiredIsRefused(
    w: World, f: Id, s: Id, token: Token, available: bool, next: Token, others: seq<Event>, expiresAt: nat)
    requires f !in w.flights && token in w.signed && w.signed[token] == s && next !in w.signed
    requires s in w.sessions && !w.sessions[s].revoked && w.sessions[s].expiresAt <= w.now
    ensures var v := RefreshCall(w, f, s, token, available, next, others, expiresAt);
            v.sessions == w.sessions && f in v.flights && v.flights[f] == Ended(Refresh, s, token, WasExpired)
    ensures var v := Next(Resolved(w, Logout, f, s, token, available, next), Revoke(f));
            v.sessions == w.sessions && f in v.flights && v.flights[f] == Ended(Logout, s, token, WasExpired)
  {
    ResolvedExact(w, Refresh, f, s, token, available, next);
    ResolvedExact(w, Logout, f, s, token, available, next);
  }

  /** The row is still unrevoked and holds this hash. */
  predicate Holds(w: World, s: Id, hash: Hash) {
    s in w.sessions && !w.sessions[s].revoked && w.sessions[s].hash == hash
  }

  /** The stored sessions of w, with s revoked if it is there. */
  ghost predicate WithRevoked(w: World, s: Id, after: map<Id, Session>) {
    && after.Keys == w.sessions.Keys
    && forall r :: r in after ==>
         if r == s then after[r] == Session(w.sessions[r].hash, w.sessions[r].expiresAt, true) else after[r] == w.sessions[r]
  }

  /** Every answer of a refresh, and what it leaves, whatever other calls do before the hash is replaced. */
  lemma RefreshTable(
    w: World, f: Id, s: Id, token: Token, available: bool, next: Token, others: seq<Event>, expiresAt: nat)
    requires f !in w.flights && token in w.signed && w.signed[token] == s && next !in w.signed && OfOthers(others, f)
    ensures var v := RefreshCall(w, f, s, token, available, next, others, expiresAt);
            && f in v.flights && v.flights[f].Ended?
            && var answer, during := v.flights[f].answer, Run(Resolved(w, Refresh, f, s, token, available, next), others);
               if !Live(w, s) then TurnedAway(w, s, answer) && v.sessions == w.sessions
               else if !w.matches(token, w.sessions[s].hash) then answer == Rejected && WithRevoked(w, s, v.sessions)
               else if !available then answer == NoPrincipal && v.sessions == w.sessions
               else if Holds(during, s, w.sessions[s].hash) then
                 answer == Succeeded(next) && v.sessions == during.sessions[s := Session(w.hashOf(next), expiresAt, false)]
               else answer == Rejected && WithRevoked(during, s, v.sessions)
  {
    var resolved := Resolved(w, Refresh, f, s, token, available, next);
    ResolvedExact(w, Refresh, f, s, token, available, next);
    if resolved.flights[f].Minted? {
      OthersLeaveCall(resolved, others, f);
      FinishedExact(Run(resolved, others), f, expiresAt);
    }
  }

  lemma LogoutTable(w: World, f: Id, s: Id, token: Token, available: bool, next: Token)
    requires f !in w.flights && token in w.signed && w.signed[token] == s && next !in w.signed
    ensures var v := Next(Resolved(w, Logout, f, s, token, available, next), Revoke(f));
            && f in v.flights && v.flights[f].Ended?
            && var answer := v.flights[f].answer;
               if !Live(w, s) then TurnedAway(w, s, answer) && v.sessions == w.sessions
               else if !w.matches(token, w.sessions[s].hash) then answer == Mismatch && v.sessions == w.sessions
               else answer == LoggedOut && WithRevoked(w, s, v.sessions)
  {
    ResolvedExact(w, Logout, f, s, token, available, next);
  }

  // ----- Sessions and time ---------------------------------------------------------------------

  /** A login stores the hash of its token, unrevoked, under an identifier that is not in use; nothing else starts a session. */
  lemma LoginExact(w: World, s: Id, token: Token, expiresAt: nat)
    ensures Next(w, Login(s, token, expiresAt))
         == if s in w.sessions || token in w.signed then w
            else w.(sessions := w.sessions[s := Session(w.hashOf(token), expiresAt, false)], signed := w.signed[token := s])
    ensures forall e: Event :: !e.Login? ==> Next(w, e).sessions.Keys == w.sessions.Keys
  {
  }

  /** The clock can be moved to any later time, and nothing moves it back. */
  lemma ClockExact(w: World, now: nat)
    ensures now >= w.now ==> Next(w, Tick(now)) == w.(now := now)
    ensures forall e: Event :: Next(w, e).now >= w.now
  {
  }

  lemma {:induction false} TimeGoesOn(w: World, events: seq<Event>)
    ensures Run(w, events).now >= w.now
    decreases |events|
  {
    if events != [] {
      ClockExact(w, w.now);
      TimeGoesOn(Next(w, events[0]), events[1..]);
    }
  }

  /** The compare-and-set replaces the hash and expiry of an unrevoked row that still holds the hash, and does nothing else. */
  lemma RotatedExact(w: World, s: Id, current: Hash, next: Hash, expiresAt: nat)
    ensures Rotated(w.sessions, s, current, next, expiresAt)
         == if Holds(w, s, current) then w.sessions[s := Session(next, expiresAt, false)] else w.sessions
  {
  }

  // ----- Every interleaving --------------------------------------------------------------------

  /** Event k is where call id reads its session s: s is live there and holds the hash. */
  ghost predicate LoadedAt(start: World, events: seq<Event>, k: nat, id: Id, s: Id, hash: Hash) {
    && k < |events| && events[k] == Load(id)
    && var w := Run(start, events[..k]);
       && id in w.flights && w.flights[id].Presented? && w.flights[id].session == s
       && Live(w, s) && w.sessions[s].hash == hash
  }

  ghost predicate LoadedLive(start: World, events: seq<Event>, id: Id, s: Id, hash: Hash) {
    exists k: nat :: LoadedAt(start, events, k, id, s, hash)
  }

  ghost predicate FoundLive(start: World, events: seq<Event>, id: Id, s: Id) {
    exists hash :: LoadedLive(start, events, id, s, hash)
  }

  lemma LoadedLonger(start: World, events: seq<Event>, e: Event, id: Id, s: Id, hash: Hash)
    requires LoadedLive(start, events, id, s, hash)
    ensures LoadedLive(start, events + [e], id, s, hash)
  {
    var k: nat :| LoadedAt(start, events, k, id, s, hash);
    assert (events + [e])[..k] == events[..k];
    assert LoadedAt(start, events + [e], k, id, s, hash);
  }

  lemma FoundLonger(start: World, events: seq<Event>, e: Event, id: Id, s: Id)
    requires FoundLive(start, events, id, s)
    ensures FoundLive(start, events + [e], id, s)
  {
    var hash :| LoadedLive(start, events, id, s, hash);
    LoadedLonger(start, events, e, id, s, hash);
  }

  /** A call that got past its read found its session live. */
  ghost predicate CallGrounded(start: World, events: seq<Event>, id: Id, f: Flight) {
    match f
    case Presented(_, _, _) => true
    case Loaded(_, s, _, seen) => LoadedLive(start, events, id, s, seen)
    case Minted(_, s, _, seen, _) => LoadedLive(start, events, id, s, seen)
    case MustRevoke(_, s, _) => FoundLive(start, events, id, s)
    case Ended(_, s, _, answer) => answer in {Missing, WasRevoked, WasExpired} || FoundLive(start, events, id, s)
  }

  ghost predicate RotationGrounded(start: World, events: seq<Event>, r: Rotation) {
    LoadedLive(start, events, r.call, r.session, r.from)
  }

  /** Call id revoked the session, after it had found it live. */
  ghost predicate RevokedBy(start: World, events: seq<Event>, w: World, id: Id, s: Id) {
    && id in w.flights && w.flights[id].Ended? && w.flights[id].session == s
    && w.flights[id].answer == (if w.flights[id].kind == Logout then LoggedOut else Rejected)
    && FoundLive(start, events, id, s)
  }

  ghost predicate RevocationGrounded(start: World, events: seq<Event>, w: World, s: Id) {
    exists id :: RevokedBy(start, events, w, id, s)
  }

  ghost predicate Grounded(start: World, events: seq<Event>, w: World) {
    && (forall id :: id in w.flights ==> CallGrounded(start, events, id, w.flights[id]))
    && (forall i :: 0 <= i < |w.rotations| ==> RotationGrounded(start, events, w.rotations[i]))
    && (forall s :: s in w.sessions && w.sessions[s].revoked ==> RevocationGrounded(start, events, w, s))
  }

  lemma CallLonger(start: World, events: seq<Event>, e: Event, id: Id, f: Flight)
    requires CallGrounded(start, events, id, f)
    ensures CallGrounded(start, events + [e], id, f)
  {
    match f
    case Presented(_, _, _) =>
    case Loaded(_, s, _, seen) => LoadedLonger(start, events, e, id, s, seen);
    case Minted(_, s, _, seen, _) => LoadedLonger(start, events, e, id, s, seen);
    case MustRevoke(_, s, _) => FoundLonger(start, events, e, id, s);
    case Ended(_, s, _, answer) =>
      if answer !in {Missing, WasRevoked, WasExpired} {
        FoundLonger(start, events, e, id, s);
      }
  }

  /** Nothing a call does after its end has an effect. */
  lemma EndedIsOver(w: World, e: Event, id: Id)
    requires id in w.flights && w.flights[id].Ended? && StepOf(e, id)
    ensures Next(w, e) == w
  {
  }

  lemma EndedStays(w: World, e: Event, id: Id)
    requires id in w.flights && w.flights[id].Ended?
    ensures id in Next(w, e).flights && Next(w, e).flights[id] == w.flights[id]
  {
  }

  /** One event: the call it belongs to, and every other call. */
  lemma CallStep(start: World, events: seq<Event>, e: Event, id: Id)
    requires var w := Run(start, events); Grounded(start, events, w) && id in Next(w, e).flights
    ensures CallGrounded(start, events + [e], id, Next(Run(start, events), e).flights[id])
  {
    var w, v := Run(start, events), Next(Run(start, events), e);
    if id in w.flights {
      CallLonger(start, events, e, id, w.flights[id]);
      if e == Load(id) && w.flights[id].Presented? && Live(w, w.flights[id].session) {
        ReadNow(start, events, id);
      } else if v.flights[id] != w.flights[id] {
        StepStaysGrounded(start, events + [e], w, e, id);
      }
    }
  }

  lemma ReadNow(start: World, events: seq<Event>, id: Id)
    requires var w := Run(start, events); id in w.flights && w.flights[id].Presented? && Live(w, w.flights[id].session)
    ensures var w := Run(start, events);
            LoadedLive(start, events + [Load(id)], id, w.flights[id].session, w.sessions[w.flights[id].session].hash)
  {
    var w := Run(start, events);
    assert (events + [Load(id)])[..|events|] == events;
    assert LoadedAt(start, events + [Load(id)], |events|, id, w.flights[id].session, w.sessions[w.flights[id].session].hash);
  }

  /** After its read a call moves on without reading again. */
  lemma StepStaysGrounded(start: World, events: seq<Event>, w: World, e: Event, id: Id)
    requires id in w.flights && id in Next(w, e).flights && CallGrounded(start, events, id, w.flights[id])
    requires !(e == Load(id) && w.flights[id].Presented? && Live(w, w.flights[id].session))
    ensures CallGrounded(start, events, id, Next(w, e).flights[id])
  {
  }

  lemma RotationStep(start: World, events: seq<Event>, e: Event, i: nat)
    requires var w := Run(start, events); Grounded(start, events, w) && i < |Next(w, e).rotations|
    ensures RotationGrounded(start, events + [e], Next(Run(start, events), e).rotations[i])
  {
    var w := Run(start, events);
    var r := Next(w, e).rotations[i];
    if i < |w.rotations| {
      assert r == w.rotations[i];
    } else {
      assert e.Rotate? && CallGrounded(start, events, e.flight, w.flights[e.flight]);
    }
    LoadedLonger(start, events, e, r.call, r.session, r.from);
  }

  lemma RevocationStep(start: World, events: seq<Event>, e: Event, s: Id)
    requires var w := Run(start, events); Grounded(start, events, w)
    requires s in Next(Run(start, events), e).sessions && Next(Run(start, events), e).sessions[s].revoked
    ensures RevocationGrounded(start, events + [e], Next(Run(start, events), e), s)
  {
    var w, v := Run(start, events), Next(Run(start, events), e);
    if s in w.sessions && w.sessions[s].revoked {
      var id :| RevokedBy(start, events, w, id, s);
      EndedStays(w, e, id);
      FoundLonger(start, events, e, id, s);
      assert RevokedBy(start, events + [e], v, id, s);
    } else {
      assert e.Revoke? && CallGrounded(start, events, e.flight, w.flights[e.flight]);
      FoundLonger(start, events, e, e.flight, s);
      assert RevokedBy(start, events + [e], v, e.flight, s);
    }
  }

  lemma {:induction false} RunGrounded(start: World, events: seq<Event>)
    requires Grounded(start, [], start)
    ensures Grounded(start, events, Run(start, events))
    decreases |events|
  {
    if events != [] {
      var front, e := events[..|events| - 1], events[|events| - 1];
      assert events == front + [e];
      RunGrounded(start, front);
      RunAppend(start, front, e);
      var w := Run(start, front);
      forall id | id in Next(w, e).flights ensures CallGrounded(start, events, id, Next(w, e).flights[id]) {
        CallStep(start, front, e, id);
      }
      forall i | 0 <= i < |Next(w, e).rotations| ensures RotationGrounded(start, events, Next(w, e).rotations[i]) {
        RotationStep(start, front, e, i);
      }
      forall s | s in Next(w, e).sessions && Next(w, e).sessions[s].revoked ensures RevocationGrounded(start, events, Next(w, e), s) {
        RevocationStep(start, front, e, s);
      }
    } else {
      assert events == [];
    }
  }

  // ----- Theorems ------------------------------------------------------------------------------

  /**
   In every interleaving, each rotation is that of a call which read the session unrevoked and strictly
   before the expiry stored then, and which read the very hash it replaced.
   */
  lemma RotatedInTime(hashOf: Token -> Hash, matches: (Token, Hash) -> bool, events: seq<Event>, i: nat) returns (k: nat)
    requires i < |Run(Nobody(hashOf, matches), events).rotations|
    ensures k < |events|
    ensures var r := Run(Nobody(hashOf, matches), events).rotations[i];
            var w := Run(Nobody(hashOf, matches), events[..k]);
            && events[k] == Load(r.call) && r.session in w.sessions && !w.sessions[r.session].revoked
            && w.now < w.sessions[r.session].expiresAt && w.sessions[r.session].hash == r.from
  {
    var start := Nobody(hashOf, matches);
    RunGrounded(start, events);
    var r := Run(start, events).rotations[i];
    assert RotationGrounded(start, events, r);
    k :| LoadedAt(start, events, k, r.call, r.session, r.from);
  }

  /** Each revoked session was revoked by a call that had read it unrevoked and strictly before its expiry. */
  lemma RevokedInTime(hashOf: Token -> Hash, matches: (Token, Hash) -> bool, events: seq<Event>, s: Id)
    returns (id: Id, k: nat)
    requires var v := Run(Nobody(hashOf, matches), events); s in v.sessions && v.sessions[s].revoked
    ensures var v := Run(Nobody(hashOf, matches), events);
            && id in v.flights && v.flights[id].Ended? && v.flights[id].session == s
            && v.flights[id].answer == (if v.flights[id].kind == Logout then LoggedOut else Rejected)
    ensures k < |events| && events[k] == Load(id)
    ensures var w := Run(Nobody(hashOf, matches), events[..k]);
            s in w.sessions && !w.sessions[s].revoked && w.now < w.sessions[s].expiresAt
  {
    var start := Nobody(hashOf, matches);
    RunGrounded(start, events);
    assert RevocationGrounded(start, events, Run(start, events), s);
    id :| RevokedBy(start, events, Run(start, events), id, s);
    var hash :| LoadedLive(start, events, id, s, hash);
    k :| LoadedAt(start, events, k, id, s, hash);
  }

  /** No event of an ended call changes anything, however long the run goes on. */
  lemma {:induction false} EndedForGood(w: World, events: seq<Event>, id: Id, e: Event)
    requires id in w.flights && w.flights[id].Ended? && StepOf(e, id)
    ensures var v := Run(w, events);
            id in v.flights && v.flights[id] == w.flights[id] && Next(v, e) == v
    decreases |events|
  {
    if events == [] {
      EndedIsOver(w, e, id);
    } else {
      EndedStays(w, events[0], id);
      EndedForGood(Next(w, events[0]), events[1..], id, e);
    }
  }

  /**
   A call that reads a missing, revoked or expired session ends with that answer, and from then on, in
   every interleaving, none of its events changes anything: it neither rotates nor revokes.
   */
  lemma TurnedAwayForGood(w: World, id: Id, events: seq<Event>, e: Event)
    requires id in w.flights && w.flights[id].Presented? && !Live(w, w.flights[id].session) && StepOf(e, id)
    ensures var v := Run(Next(w, Load(id)), events);
            && Next(w, Load(id)).sessions == w.sessions
            && id in v.flights && v.flights[id].Ended? && TurnedAway(w, w.flights[id].session, v.flights[id].answer)
            && Next(v, e) == v
  {
    LoadExact(w, id);
    EndedForGood(Next(w, Load(id)), events, id, e);
  }
}
