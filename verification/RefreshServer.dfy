/**
 * The refresh handler and the client's refresh as they run: one class holds the tables that a rotation
 * updates statement by statement, the other the client's file.
 */
module RefreshServer {
  import opened Common
  import opened RefreshRotation

  /** What one undisturbed refresh request does to the tables, and the refresh token it answers with. */
  function ServeRefresh(db: Tables, t: int, k: int, now: int): (Tables, Option<int>) {
    if Consumable(db, Rotation(t, k, now, LiveForConsume(db, t, now), Consume)) && Rotatable(db, t) then
      (Rotated(db, t, k, now), Some(db.nextId))
    else if !UsedButAlive(db, t, now) then
      (db, None)
    else if Recallable(db, t, k, now) then
      (db, Some(db.results[t].refreshToken))
    else
      (Revoked(db, db.tokens[t].session), None)
  }

  // ---------------------------------------------------------------- what the handler promises

  /** The session is unrevoked, was used within 90 days, and is younger than 365 days. */
  predicate SessionLives(db: Tables, sid: int, now: int) {
    && sid in db.sessions && !db.sessions[sid].revoked
    && db.sessions[sid].idleExpiresAt > now && now - db.sessions[sid].createdAt < 365 * 24 * 3600
  }

  /**
   * A new token is issued for `t`: it continues the session for 90 days, but not past its 365 days; the access token
   * likewise for 15 minutes; the answer is kept for ten minutes.
   */
  predicate Issued(o: Tables, n: Tables, answer: Option<int>, t: int, k: int, now: int) {
    && t in o.tokens && o.tokens[t].session in o.sessions
    && var u, sid := o.nextId, o.tokens[t].session;
       var end := o.sessions[sid].createdAt + 365 * 24 * 3600;
       var until := if now + 90 * 24 * 3600 < end then now + 90 * 24 * 3600 else end;
       && answer == Some(u)
       && n.tokens == o.tokens[t := o.tokens[t].(consumed := true)][u := Token(sid, Some(t), until, false)]
       && n.sessions == o.sessions[sid := o.sessions[sid].(idleExpiresAt := until)]
       && n.access == o.access[u + 1 := Access(sid, if now + 15 * 60 < end then now + 15 * 60 else end)]
       && n.results == o.results[t := Stored(k, u, now + 10 * 60)]
  }

  /**
   * No token is issued. A consumed token of a living session gets its stored answer, under its key and within its
   * lifetime, or revokes the session; anything else is refused.
   */
  predicate NotIssued(o: Tables, n: Tables, answer: Option<int>, t: int, k: int, now: int) {
    && n.nextId == o.nextId && n.tokens == o.tokens && n.access == o.access && n.results == o.results
    && (if t in o.tokens && o.tokens[t].consumed && SessionLives(o, o.tokens[t].session, now) then
          if t in o.results && o.results[t].key == k && o.results[t].expiresAt > now then
            answer == Some(o.results[t].refreshToken) && n.sessions == o.sessions
          else
            var sid := o.tokens[t].session;
            answer == None && n.sessions == o.sessions[sid := o.sessions[sid].(revoked := true)]
        else answer == None && n.sessions == o.sessions)
  }

  /** A token is issued exactly for an unconsumed and unexpired token of a living session. */
  predicate Refreshed(o: Tables, n: Tables, answer: Option<int>, t: int, k: int, now: int) {
    && o.nextId !in o.tokens
    && (o.nextId in n.tokens <==>
          t in o.tokens && !o.tokens[t].consumed && o.tokens[t].expiresAt > now && SessionLives(o, o.tokens[t].session, now))
    && if o.nextId in n.tokens then Issued(o, n, answer, t, k, now) else NotIssued(o, n, answer, t, k, now)
  }

  lemma MissServedAsSpecified(db: Tables, t: int, k: int, now: int)
    requires t in db.tokens ==> Rotatable(db, t)
    requires !Consumable(db, Rotation(t, k, now, LiveForConsume(db, t, now), Consume))
    ensures var (n, answer) := ServeRefresh(db, t, k, now); NotIssued(db, n, answer, t, k, now)
  {
  }

  lemma ServedAsSpecified(db: Tables, t: int, k: int, now: int)
    requires FreshSound(db) && (t in db.tokens ==> Rotatable(db, t))
    ensures var (n, answer) := ServeRefresh(db, t, k, now); Refreshed(db, n, answer, t, k, now)
  {
    assert db.nextId !in db.tokens;
    if Consumable(db, Rotation(t, k, now, LiveForConsume(db, t, now), Consume)) {
      RotationIsIssued(db, t, k, now);
    } else {
      MissServedAsSpecified(db, t, k, now);
    }
  }

  lemma RotationIsIssued(db: Tables, t: int, k: int, now: int)
    requires Rotatable(db, t)
    ensures Issued(db, Rotated(db, t, k, now), Some(db.nextId), t, k, now)
  {
  }

  // ---------------------------------------------------------------- the handler

  class AuthServer {
    var sessions: map<int, Session>
    var tokens: map<int, Token>
    var access: map<int, Access>
    var results: map<int, Stored>
    ghost var chains: map<int, seq<int>>
    var nextId: int

    ghost function Db(): Tables
      reads this
    {
      Tables(sessions, tokens, access, results, chains, nextId)
    }

    constructor ()
      ensures Db() == Tables(map[], map[], map[], map[], map[], 1)
      ensures ChainsSound(Db()) && FreshSound(Db()) && ExpirySound(Db(), {})
    {
      sessions, tokens, access, results, nextId := map[], map[], map[], map[], 1;
      chains := map[];
    }

    method CreateSession(txStart: int, clock: int) returns (auth: Auth)
      requires ChainsSound(Db()) && FreshSound(Db())
      modifies this
      ensures Db() == Created(old(Db()), txStart, clock)
      ensures auth == Auth(old(nextId), old(nextId) + 1)
      ensures ChainsSound(Db()) && FreshSound(Db())
      ensures sessions == old(sessions)[auth.session := Session(txStart, clock + 90 * 24 * 3600, false)]
      ensures tokens == old(tokens)[auth.token := Token(auth.session, None, clock + 90 * 24 * 3600, false)]
      ensures access == old(access)[old(nextId) + 2 := Access(auth.session, clock + 15 * 60)] && results == old(results)
    {
      hide ChainsSound, FreshSound;
      ghost var before := Db();
      var refreshExpiresAt := clock + IDLE_LIFETIME;
      var sid, refresh, token := nextId, nextId + 1, nextId + 2;
      nextId := nextId + 3;
      sessions := sessions[sid := Session(txStart, refreshExpiresAt, false)];
      access := access[token := Access(sid, clock + ACCESS_LIFETIME)];
      tokens := tokens[refresh := Token(sid, None, refreshExpiresAt, false)];
      chains := chains[sid := [refresh]];
      auth := Auth(sid, refresh);
      CreatedKeepsChains(before, txStart, clock);
    }

    /**
     * A new token is issued exactly for an unconsumed, unexpired token of a session that is unrevoked, used within 90
     * days and younger than 365 days. It continues the session for 90 days, but not past its 365 days, and its answer
     * is kept for ten minutes.
     */
    method RotateRefreshToken(t: int, k: int, now: int) returns (refreshToken: Option<int>)
      requires ChainsSound(Db()) && FreshSound(Db())
      modifies this
      ensures (Db(), refreshToken) == ServeRefresh(old(Db()), t, k, now)
      ensures ChainsSound(Db()) && FreshSound(Db())
      ensures Refreshed(old(Db()), Db(), refreshToken, t, k, now)
    {
      hide AllChains, AllListed, FreshSound, ExpirySound, IsChain, Refreshed, NotIssued;
      ghost var before := Db();
      SessionOfToken(before, t);
      ServedAsSpecified(before, t, k, now);
      if t in tokens && !tokens[t].consumed && tokens[t].expiresAt > now
        && !sessions[tokens[t].session].revoked && sessions[tokens[t].session].idleExpiresAt > now
        && sessions[tokens[t].session].createdAt > now - ABSOLUTE_LIFETIME
      {
        RotatedKeepsChains(before, t, k, now);
        var sid := tokens[t].session;
        tokens := tokens[t := tokens[t].(consumed := true)];
        var absoluteExpiresAt := sessions[sid].createdAt + ABSOLUTE_LIFETIME;
        var accessExpiresAt := MinTime(now + ACCESS_LIFETIME, absoluteExpiresAt);
        var refreshExpiresAt := MinTime(now + IDLE_LIFETIME, absoluteExpiresAt);
        var successor, token := nextId, nextId + 1;
        nextId := nextId + 2;
        access := access[token := Access(sid, accessExpiresAt)];
        tokens := tokens[successor := Token(sid, Some(t), refreshExpiresAt, false)];
        sessions := sessions[sid := sessions[sid].(idleExpiresAt := refreshExpiresAt)];
        results := results[t := Stored(k, successor, now + IDEMPOTENCY_LIFETIME)];
        chains := chains[sid := chains[sid] + [successor]];
        refreshToken := Some(successor);
      } else {
        refreshToken := HandleUsedOrInvalidRefresh(t, k, now);
      }
    }

    method HandleUsedOrInvalidRefresh(t: int, k: int, now: int) returns (refreshToken: Option<int>)
      requires ChainsSound(Db()) && FreshSound(Db())
      requires !Consumable(Db(), Rotation(t, k, now, LiveForConsume(Db(), t, now), Consume))
      modifies this`sessions
      ensures (Db(), refreshToken) == ServeRefresh(old(Db()), t, k, now)
      ensures ChainsSound(Db()) && FreshSound(Db())
      ensures NotIssued(old(Db()), Db(), refreshToken, t, k, now)
    {
      hide AllChains, AllListed, FreshSound, ExpirySound, IsChain, NotIssued;
      ghost var before := Db();
      SessionOfToken(before, t);
      MissServedAsSpecified(before, t, k, now);
      if t !in tokens {
        return None;
      }
      var sid := tokens[t].session;
      if !tokens[t].consumed || sessions[sid].revoked || !(sessions[sid].idleExpiresAt > now)
        || !(sessions[sid].createdAt + ABSOLUTE_LIFETIME > now)
      {
        return None;
      }
      if t in results && results[t].key == k && results[t].expiresAt > now {
        return Some(results[t].refreshToken);
      }
      sessions := sessions[sid := sessions[sid].(revoked := true)];
      refreshToken := None;
      RevokedKeepsChains(before, sid);
    }
  }

  lemma SessionOfToken(db: Tables, t: int)
    requires ChainsSound(db)
    ensures t in db.tokens ==> Rotatable(db, t)
  {
  }

  /** The statements of one request in program order, by what they find. */
  function RefreshSteps(db: Tables, r: int, t: int, k: int, now: int): seq<Step> {
    [BeginRotation(r, t, k)]
    + if Consumable(db, Rotation(t, k, now, LiveForConsume(db, t, now), Consume))
      then [ConsumeHit(r)] + [CommitRotation(r, now)]
      else [ConsumeMiss(r)] + AfterMiss(db, r, t, k, now)
  }

  function AfterMiss(db: Tables, r: int, t: int, k: int, now: int): seq<Step> {
    if !UsedButAlive(db, t, now) then [CheckFails(r)]
    else [CheckPasses(r)] + [if Recallable(db, t, k, now) then RecallHit(r) else RevokeReplay(r)]
  }

  /** The transaction is over, and tables and answer are those of an undisturbed request. */
  predicate Served(w: World, t: int, k: int, end: World) {
    && end.txs == w.txs && end.now == w.now && end.client == w.client
    && var (db, answer) := ServeRefresh(w.db, t, k, w.now);
       end.db == db && end.responses == w.responses + (if answer.Some? then {Response(t, k, answer.value)} else {})
  }

  /** The handler's statements, run without interference, are a path of the step machine with the same outcome. */
  lemma SoloRefreshIsAPath(w: World, r: int, t: int, k: int)
    requires Inv(w) && r !in w.txs && MaySend(w, t, k) && TokenFree(w, r, t)
    ensures exists end: World :: Leads(w, RefreshSteps(w.db, r, t, k, w.now), end) && Served(w, t, k, end)
  {
    hide Inv, Leads, LiveForConsume, UsedButAlive, Served, ServeRefresh, TokenFree, RefreshSteps;
    InvHasChains(w);
    SessionOfToken(w.db, t);
    var x := Rotation(t, k, w.now, LiveForConsume(w.db, t, w.now), Consume);
    var end := SoloSteps(w, r, t, k, x);
  }

  lemma SoloSteps(w: World, r: int, t: int, k: int, x: Rotation) returns (end: World)
    requires t in w.db.tokens ==> Rotatable(w.db, t)
    requires r !in w.txs && MaySend(w, t, k) && TokenFree(w, r, t)
    requires x == Rotation(t, k, w.now, LiveForConsume(w.db, t, w.now), Consume)
    ensures Leads(w, RefreshSteps(w.db, r, t, k, w.now), end) && Served(w, t, k, end)
  {
    hide Leads, LiveForConsume, UsedButAlive, Rotated, Revoked, MaySend;
    var w1 := w.(txs := w.txs[r := x]);
    assert Enabled(w, BeginRotation(r, t, k)) && w1 == Apply(w, BeginRotation(r, t, k));
    PathOf(w, BeginRotation(r, t, k));
    var steps := [BeginRotation(r, t, k)];
    if Consumable(w.db, x) {
      LeadsOn(w, steps, w1, ConsumeHit(r));
      var w2 := w.(txs := w.txs[r := x.(phase := Issue)]);
      assert w2 == Apply(w1, ConsumeHit(r));
      LeadsOn(w, steps + [ConsumeHit(r)], w2, CommitRotation(r, w.now));
      end := Apply(w2, CommitRotation(r, w.now));
      assert steps + [ConsumeHit(r)] + [CommitRotation(r, w.now)] == RefreshSteps(w.db, r, t, k, w.now);
    } else {
      LeadsOn(w, steps, w1, ConsumeMiss(r));
      var w2 := w.(txs := w.txs[r := x.(phase := Check)]);
      assert w2 == Apply(w1, ConsumeMiss(r));
      end := CheckSteps(w, r, x.(phase := Check), steps + [ConsumeMiss(r)]);
      assert steps + [ConsumeMiss(r)] + AfterMiss(w.db, r, t, k, w.now) == RefreshSteps(w.db, r, t, k, w.now);
    }
    assert end.txs == w.txs;
  }

  lemma CheckSteps(w: World, r: int, x: Rotation, done: seq<Step>) returns (end: World)
    requires x.token in w.db.tokens ==> Rotatable(w.db, x.token)
    requires r !in w.txs && x.phase == Check
    requires Leads(w, done, w.(txs := w.txs[r := x]))
    requires !Consumable(w.db, Rotation(x.token, x.key, w.now, LiveForConsume(w.db, x.token, w.now), Consume))
    ensures Leads(w, done + AfterMiss(w.db, r, x.token, x.key, w.now), end) && Served(w, x.token, x.key, end)
  {
    hide Leads, LiveForConsume, Consumable, Revoked;
    var w2 := w.(txs := w.txs[r := x]);
    if !UsedButAlive(w.db, x.token, w.now) {
      LeadsOn(w, done, w2, CheckFails(r));
      end := Apply(w2, CheckFails(r));
    } else {
      LeadsOn(w, done, w2, CheckPasses(r));
      var w3 := w.(txs := w.txs[r := x.(phase := Recall)]);
      assert w3 == Apply(w2, CheckPasses(r));
      var last := if Recallable(w.db, x.token, x.key, w.now) then RecallHit(r) else RevokeReplay(r);
      LeadsOn(w, done + [CheckPasses(r)], w3, last);
      end := Apply(w3, last);
      assert done + [CheckPasses(r)] + [last] == done + AfterMiss(w.db, r, x.token, x.key, w.now);
    }
    assert end.txs == w.txs;
  }

  lemma InvHasChains(w: World)
    requires Inv(w)
    ensures ChainsSound(w.db)
  {
  }

  lemma PathOf(w: World, s: Step)
    requires Enabled(w, s)
    ensures Leads(w, [s], Apply(w, s))
  {
    hide Enabled, Apply;
    assert [s][1..] == [];
  }

  /**
   * A request that rotated its token may be repeated: with the same key and within ten minutes it gets the same
   * answer and changes nothing, with another key or later it revokes the session.
   */
  lemma RepeatedRefresh(db: Tables, t: int, k: int, now: int, k2: int, later: int)
    requires ChainsSound(db) && FreshSound(db) && now <= later
    requires t in db.tokens && !db.tokens[t].consumed && ServeRefresh(db, t, k, now).1.Some?
    requires UsedButAlive(ServeRefresh(db, t, k, now).0, t, later)
    ensures var (db1, answer) := ServeRefresh(db, t, k, now);
            t in db1.tokens && db1.tokens[t].session in db1.sessions
            && ServeRefresh(db1, t, k2, later) ==
               if k2 == k && later < now + IDEMPOTENCY_LIFETIME then (db1, answer)
               else (Revoked(db1, db1.tokens[t].session), None)
  {
    hide AllChains, IsChain;
  }

  datatype RefreshError = NotAuthenticated | DifferentRefreshPending | PendingChanged

  /** The part of the client's durable file that a refresh reads and writes; each method is one atomic update. */
  class RefreshFile {
    var auth: Option<Auth>
    var pending: Option<(int, int)>

    function File(): Client
      reads this
    {
      Client(auth, pending)
    }

    constructor ()
      ensures File() == Client(None, None)
    {
      auth, pending := None, None;
    }

    method PersistAuth(fetched: Auth)
      modifies this
      ensures File() == Client(Some(fetched), None)
    {
      auth := Some(fetched);
      pending := None;
    }

    /** A pending refresh is never replaced: the same key resumes it, another key is refused. */
    method StartRefresh(k: int) returns (sent: Result<(int, int), RefreshError>)
      modifies this
      ensures auth == old(auth)
      ensures sent.Ok? <==> old(auth).Some? && (old(pending).Some? ==> old(pending).value.1 == k)
      ensures sent.Ok? ==> pending == Some(sent.value) && sent.value.1 == k
                           && (old(pending).None? ==> sent.value.0 == old(auth).value.token)
                           && (old(pending).Some? ==> pending == old(pending))
      ensures sent.Err? ==> pending == old(pending)
                            && sent.error == if old(auth).None? then NotAuthenticated else DifferentRefreshPending
    {
      if auth.None? {
        return Err(NotAuthenticated);
      }
      var wanted := if pending.None? then (auth.value.token, k) else pending.value;
      if wanted.1 != k {
        return Err(DifferentRefreshPending);
      }
      pending := Some(wanted);
      sent := Ok(wanted);
    }

    method CompleteRefresh(sent: (int, int), answer: Auth) returns (done: Result<(), RefreshError>)
      modifies this
      ensures done.Ok? <==> old(pending) == Some(sent)
      ensures File() == if done.Ok? then Client(Some(answer), None) else old(File())
      ensures done.Err? ==> done.error == PendingChanged
    {
      if pending.None? || pending.value != sent {
        return Err(PendingChanged);
      }
      auth := Some(answer);
      pending := None;
      done := Ok(());
    }
  }
}
