/**
 * Refresh-token rotation with idempotent recovery, and a client that keeps a durable pending refresh.
 *
 * A token's raw value stands for the token, its hash and its row id: hashing is injective and values
 * are fresh. Times are seconds on one clock; `at` is a transaction's CURRENT_TIMESTAMP.
 */
module RefreshRotation {
  import opened Common

  datatype Session = Session(createdAt: int, idleExpiresAt: int, revoked: bool)
  datatype Token = Token(session: int, parent: Option<int>, expiresAt: int, consumed: bool)
  datatype Access = Access(session: int, expiresAt: int)
  datatype Stored = Stored(key: int, refreshToken: int, expiresAt: int)

  /** The committed tables; `chains` records, per session, the order in which its tokens were issued. */
  datatype Tables = Tables(
    sessions: map<int, Session>,
    tokens: map<int, Token>,
    access: map<int, Access>,
    results: map<int, Stored>,
    chains: map<int, seq<int>>,
    nextId: int)

  datatype Phase =
    | Consume                 // UPDATE ... WHERE consumed_at IS NULL, waits for the token's row lock
    | Issue                   // token row locked and consumed, new rows not yet visible
    | Check                   // nothing updated: look at the token and its session
    | Recall                  // consumed token of an active session: look for the stored response

  /** `live` is what the consuming statement's snapshot says about the token's session. */
  datatype Rotation = Rotation(token: int, key: int, at: int, live: bool, phase: Phase)

  /** The client's file: the current tokens, and the refresh it may have sent. */
  datatype Auth = Auth(session: int, token: int)
  datatype Client = Client(auth: Option<Auth>, pending: Option<(int, int)>)

  datatype Response = Response(token: int, key: int, refreshToken: int)

  /**
   * `owned` are the sessions this client logged in to, `requests` the token and key pairs it ever sent,
   * `responses` the successful answers the server ever gave, `slow` the sessions whose creating
   * transaction lasted more than 275 days, `replayed` the sessions revoked because of a replay.
   */
  datatype World = World(
    db: Tables,
    txs: map<int, Rotation>,
    now: int,
    slow: set<int>,
    replayed: set<int>,
    client: Client,
    owned: set<int>,
    requests: set<(int, int)>,
    responses: set<Response>)

  function MinTime(first: int, second: int): int {
    if first < second then first else second
  }

  /** BeginRotation is the start of the transaction and the snapshot of its consuming statement. */
  datatype Step =
    | Tick(d: nat)
    | CreateSession(txStart: int, forClient: bool)
    | BeginRotation(tx: int, token: int, key: int)
    | ConsumeHit(tx: int)
    | ConsumeMiss(tx: int)
    | CommitRotation(tx: int, clock: int)
    | CheckFails(tx: int)
    | CheckPasses(tx: int)
    | RecallHit(tx: int)
    | RevokeReplay(tx: int)
    | AbortRotation(tx: int)
    | Logout(session: int)
    | StartRefresh(key: int)
    | FinishRefresh(response: Response)

  predicate InPhase(w: World, r: int, p: Phase) {
    r in w.txs && w.txs[r].phase == p
  }

  /** No other transaction holds this token's row lock. */
  predicate TokenFree(w: World, r: int, t: int) {
    forall o :: o in w.txs && o != r && w.txs[o].phase == Issue ==> w.txs[o].token != t
  }

  /** The session conditions of the consuming statement, as its snapshot sees them. */
  predicate LiveForConsume(db: Tables, t: int, now: int) {
    && t in db.tokens && db.tokens[t].session in db.sessions
    && var s := db.sessions[db.tokens[t].session];
       !s.revoked && s.idleExpiresAt > now && s.createdAt > now - ABSOLUTE_LIFETIME
  }

  /** The whole WHERE clause: the token's row is re-read after waiting for its lock, the session's is not. */
  predicate Consumable(db: Tables, x: Rotation) {
    x.live && x.token in db.tokens && !db.tokens[x.token].consumed && db.tokens[x.token].expiresAt > x.at
  }

  /** The token was consumed and its session is still alive. */
  predicate UsedButAlive(db: Tables, t: int, now: int) {
    && t in db.tokens && db.tokens[t].consumed && db.tokens[t].session in db.sessions
    && var s := db.sessions[db.tokens[t].session];
       !s.revoked && s.idleExpiresAt > now && s.createdAt + ABSOLUTE_LIFETIME > now
  }

  predicate Recallable(db: Tables, t: int, k: int, now: int) {
    t in db.results && db.results[t].key == k && db.results[t].expiresAt > now
  }

  predicate OwnedToken(db: Tables, owned: set<int>, t: int) {
    t in db.tokens && db.tokens[t].session in owned
  }

  predicate Rotatable(db: Tables, t: int) {
    t in db.tokens && db.tokens[t].session in db.sessions && db.tokens[t].session in db.chains
  }

  /** Token values are secret: nobody sends one before it is issued, and only the client sends its own. */
  predicate MaySend(w: World, t: int, k: int) {
    t < w.db.nextId && (OwnedToken(w.db, w.owned, t) ==> (t, k) in w.requests)
  }

  predicate Enabled(w: World, s: Step) {
    match s
    case Tick(_) => true
    case CreateSession(txStart, _) => txStart <= w.now
    case BeginRotation(r, t, k) => r !in w.txs && MaySend(w, t, k)
    case ConsumeHit(r) => InPhase(w, r, Consume) && TokenFree(w, r, w.txs[r].token) && Consumable(w.db, w.txs[r])
    case ConsumeMiss(r) => InPhase(w, r, Consume) && TokenFree(w, r, w.txs[r].token) && !Consumable(w.db, w.txs[r])
    case CommitRotation(r, clock) => InPhase(w, r, Issue) && Rotatable(w.db, w.txs[r].token) && w.txs[r].at <= clock <= w.now
    case CheckFails(r) => InPhase(w, r, Check) && !UsedButAlive(w.db, w.txs[r].token, w.now)
    case CheckPasses(r) => InPhase(w, r, Check) && UsedButAlive(w.db, w.txs[r].token, w.now)
    case RecallHit(r) => InPhase(w, r, Recall) && Recallable(w.db, w.txs[r].token, w.txs[r].key, w.now)
    case RevokeReplay(r) => InPhase(w, r, Recall) && !Recallable(w.db, w.txs[r].token, w.txs[r].key, w.now)
                            && Rotatable(w.db, w.txs[r].token)
    case AbortRotation(r) => r in w.txs
    case Logout(sid) => sid in w.db.sessions
    case StartRefresh(k) => w.client.auth.Some? && w.client.pending.None?
    case FinishRefresh(a) => a in w.responses && w.client.pending == Some((a.token, a.key)) && w.client.auth.Some?
  }

  function SetPhase(w: World, r: int, p: Phase): World
    requires r in w.txs
  {
    w.(txs := w.txs[r := w.txs[r].(phase := p)])
  }

  /** The rows of a new session, all from one counter of fresh identities. */
  function Created(db: Tables, txStart: int, clock: int): Tables {
    var sid, t, a := db.nextId, db.nextId + 1, db.nextId + 2;
    Tables(db.sessions[sid := Session(txStart, clock + IDLE_LIFETIME, false)],
           db.tokens[t := Token(sid, None, clock + IDLE_LIFETIME, false)],
           db.access[a := Access(sid, clock + ACCESS_LIFETIME)],
           db.results,
           db.chains[sid := [t]],
           db.nextId + 3)
  }

  /** The rows that a rotation publishes: old token consumed, successor issued, session extended, response stored. */
  function Rotated(db: Tables, t: int, k: int, clock: int): Tables
    requires Rotatable(db, t)
  {
    var sid := db.tokens[t].session;
    var absolute := db.sessions[sid].createdAt + ABSOLUTE_LIFETIME;
    var u, a := db.nextId, db.nextId + 1;
    var expiry := MinTime(clock + IDLE_LIFETIME, absolute);
    Tables(db.sessions[sid := db.sessions[sid].(idleExpiresAt := expiry)],
           db.tokens[t := db.tokens[t].(consumed := true)][u := Token(sid, Some(t), expiry, false)],
           db.access[a := Access(sid, MinTime(clock + ACCESS_LIFETIME, absolute))],
           db.results[t := Stored(k, u, clock + IDEMPOTENCY_LIFETIME)],
           db.chains[sid := db.chains[sid] + [u]],
           db.nextId + 2)
  }

  function Revoked(db: Tables, sid: int): Tables
    requires sid in db.sessions
  {
    db.(sessions := db.sessions[sid := db.sessions[sid].(revoked := true)])
  }

  function Apply(w: World, s: Step): World
    requires Enabled(w, s)
  {
    match s
    case Tick(d) => w.(now := w.now + d)
    case CreateSession(txStart, forClient) =>
      var sid := w.db.nextId;
      var w1 := w.(db := Created(w.db, txStart, w.now),
                   slow := if w.now + IDLE_LIFETIME > txStart + ABSOLUTE_LIFETIME then w.slow + {sid} else w.slow);
      if forClient then w1.(client := Client(Some(Auth(sid, sid + 1)), None), owned := w.owned + {sid}) else w1
    case BeginRotation(r, t, k) =>
      w.(txs := w.txs[r := Rotation(t, k, w.now, LiveForConsume(w.db, t, w.now), Consume)])
    case ConsumeHit(r) => SetPhase(w, r, Issue)
    case ConsumeMiss(r) => SetPhase(w, r, Check)
    case CommitRotation(r, clock) =>
      w.(db := Rotated(w.db, w.txs[r].token, w.txs[r].key, clock),
         txs := w.txs - {r},
         responses := w.responses + {Response(w.txs[r].token, w.txs[r].key, w.db.nextId)})
    case CheckFails(r) => w.(txs := w.txs - {r})
    case CheckPasses(r) => SetPhase(w, r, Recall)
    case RecallHit(r) =>
      w.(txs := w.txs - {r},
         responses := w.responses + {Response(w.txs[r].token, w.txs[r].key, w.db.results[w.txs[r].token].refreshToken)})
    case RevokeReplay(r) =>
      var sid := w.db.tokens[w.txs[r].token].session;
      w.(db := Revoked(w.db, sid), txs := w.txs - {r}, replayed := w.replayed + {sid})
    case AbortRotation(r) => w.(txs := w.txs - {r})
    case Logout(sid) => w.(db := Revoked(w.db, sid))
    case StartRefresh(k) =>
      var t := w.client.auth.value.token;
      w.(client := w.client.(pending := Some((t, k))), requests := w.requests + {(t, k)})
    case FinishRefresh(a) =>
      w.(client := Client(Some(w.client.auth.value.(token := a.refreshToken)), None))
  }

  predicate Initial(w: World) {
    && w.db == Tables(map[], map[], map[], map[], map[], 1)
    && w.txs == map[] && w.slow == {} && w.replayed == {} && w.client == Client(None, None)
    && w.owned == {} && w.requests == {} && w.responses == {}
  }

  predicate Next(w: World, s: Step, w': World) {
    Enabled(w, s) && w' == Apply(w, s)
  }

  ghost predicate IsRun(ws: seq<World>, steps: seq<Step>) {
    |ws| == |steps| + 1 && Initial(ws[0]) && forall i :: 0 <= i < |steps| ==> Next(ws[i], steps[i], ws[i + 1])
  }

  // ---------------------------------------------------------------- invariant of the tables

  function Tail(chain: seq<int>): int
    requires |chain| > 0
  {
    chain[|chain| - 1]
  }

  /** `chain` lists the tokens of session `sid` from the first one to the unconsumed tail. */
  ghost predicate IsChain(db: Tables, sid: int, chain: seq<int>)
    requires sid in db.sessions
  {
    && |chain| > 0
    && (forall i, j :: 0 <= i < j < |chain| ==> chain[i] != chain[j])
    && (forall i :: 0 <= i < |chain| ==> chain[i] in db.tokens && db.tokens[chain[i]].session == sid)
    && (forall i :: 0 <= i < |chain| ==> (db.tokens[chain[i]].consumed <==> i < |chain| - 1))
    && (forall i :: 0 <= i < |chain| ==> db.tokens[chain[i]].parent == ParentAt(chain, i))
    && (forall i :: 0 <= i < |chain| - 1 ==> chain[i] in db.results && db.results[chain[i]].refreshToken == chain[i + 1])
    && db.tokens[Tail(chain)].expiresAt == db.sessions[sid].idleExpiresAt
  }

  function ParentAt(chain: seq<int>, i: int): Option<int>
    requires 0 <= i < |chain|
  {
    if i == 0 then None else Some(chain[i - 1])
  }

  ghost predicate AllChains(db: Tables) {
    && db.chains.Keys == db.sessions.Keys
    && (forall sid :: sid in db.sessions ==> IsChain(db, sid, db.chains[sid]))
  }

  ghost predicate AllListed(db: Tables) {
    && (forall t :: t in db.tokens ==>
          db.tokens[t].session in db.sessions && db.tokens[t].session in db.chains && t in db.chains[db.tokens[t].session])
    && (forall t :: t in db.results ==> t in db.tokens && db.tokens[t].consumed)
  }

  ghost predicate ChainsSound(db: Tables) {
    AllChains(db) && AllListed(db)
  }

  ghost predicate FreshSound(db: Tables) {
    && (forall t :: t in db.tokens ==> t < db.nextId)
    && (forall sid :: sid in db.sessions ==> sid < db.nextId)
    && (forall a :: a in db.access ==> a < db.nextId && db.access[a].session in db.sessions)
  }

  predicate WithinLifetime(db: Tables, sid: int, expiresAt: int)
    requires sid in db.sessions
  {
    expiresAt <= db.sessions[sid].createdAt + ABSOLUTE_LIFETIME
  }

  /** Rotated tokens never outlive the session; first tokens do so exactly in slow sessions. */
  ghost predicate ExpirySound(db: Tables, slow: set<int>) {
    && slow <= db.sessions.Keys
    && (forall t :: t in db.tokens && db.tokens[t].session in db.sessions ==>
          (WithinLifetime(db, db.tokens[t].session, db.tokens[t].expiresAt)
           <==> db.tokens[t].parent.Some? || db.tokens[t].session !in slow))
    && (forall a :: a in db.access && db.access[a].session in db.sessions && db.access[a].session !in slow ==>
          WithinLifetime(db, db.access[a].session, db.access[a].expiresAt))
  }

  /** A transaction that consumed a token still finds it unconsumed in the committed tables, and is alone. */
  ghost predicate TxsSound(db: Tables, txs: map<int, Rotation>) {
    && (forall r :: r in txs ==> txs[r].token < db.nextId)
    && (forall r :: r in txs && txs[r].phase == Issue ==> txs[r].token in db.tokens && !db.tokens[txs[r].token].consumed)
    && (forall r, o :: r in txs && o in txs && r != o && txs[r].phase == Issue && txs[o].phase == Issue ==>
          txs[r].token != txs[o].token)
    && (forall r :: r in txs && txs[r].phase == Recall ==> txs[r].token in db.tokens && db.tokens[txs[r].token].consumed)
  }

  // ---------------------------------------------------------------- invariant of the client

  /** Each of the client's tokens was sent with one key only, and consumed with that key. */
  ghost predicate RequestsSound(db: Tables, owned: set<int>, requests: set<(int, int)>) {
    && owned <= db.sessions.Keys
    && (forall p, q :: p in requests && q in requests && p.0 == q.0 ==> p == q)
    && (forall q :: q in requests ==> OwnedToken(db, owned, q.0))
    && (forall t :: t in db.results && OwnedToken(db, owned, t) ==> (t, db.results[t].key) in requests)
  }

  ghost predicate OwnTxsSound(db: Tables, txs: map<int, Rotation>, owned: set<int>, requests: set<(int, int)>) {
    forall r :: r in txs && OwnedToken(db, owned, txs[r].token) ==> (txs[r].token, txs[r].key) in requests
  }

  ghost predicate ResponsesSound(db: Tables, responses: set<Response>) {
    forall a :: a in responses ==> a.token in db.results && db.results[a.token].refreshToken == a.refreshToken
  }

  /** The client's token is the tail of its session's chain, or the one before it with the matching request pending. */
  ghost predicate ClientSound(db: Tables, c: Client, owned: set<int>, requests: set<(int, int)>) {
    && (c.auth.None? ==> c.pending.None?)
    && (c.auth.Some? ==>
          var t, sid := c.auth.value.token, c.auth.value.session;
          && sid in owned && sid in db.sessions && sid in db.chains && |db.chains[sid]| > 0
          && t in db.tokens && db.tokens[t].session == sid
          && (c.pending.Some? ==> c.pending.value in requests && c.pending.value.0 == t)
          && (forall q :: q in requests && q.0 == t ==> c.pending == Some(q))
          && (t != Tail(db.chains[sid]) ==>
                && c.pending.Some? && t in db.results && db.results[t].refreshToken == Tail(db.chains[sid])
                && (forall q :: q in requests ==> q.0 != Tail(db.chains[sid]))))
  }

  ghost predicate Inv(w: World) {
    && ChainsSound(w.db)
    && FreshSound(w.db)
    && ExpirySound(w.db, w.slow)
    && TxsSound(w.db, w.txs)
    && RequestsSound(w.db, w.owned, w.requests)
    && OwnTxsSound(w.db, w.txs, w.owned, w.requests)
    && ResponsesSound(w.db, w.responses)
    && ClientSound(w.db, w.client, w.owned, w.requests)
    && w.replayed <= w.db.sessions.Keys
  }

  // ---------------------------------------------------------------- how the tables may change

  lemma CreatedKeepsTables(db: Tables, txStart: int, clock: int, slow: set<int>)
    requires ChainsSound(db) && FreshSound(db) && ExpirySound(db, slow)
    ensures var db', sid := Created(db, txStart, clock), db.nextId;
            ChainsSound(db') && FreshSound(db')
            && ExpirySound(db', if clock + IDLE_LIFETIME > txStart + ABSOLUTE_LIFETIME then slow + {sid} else slow)
  {
    CreatedKeepsChains(db, txStart, clock);
    CreatedKeepsExpiry(db, txStart, clock, slow);
  }

  lemma CreatedKeepsChains(db: Tables, txStart: int, clock: int)
    requires ChainsSound(db) && FreshSound(db)
    ensures ChainsSound(Created(db, txStart, clock)) && FreshSound(Created(db, txStart, clock))
  {
    hide IsChain;
    var db' := Created(db, txStart, clock);
    forall sid | sid in db'.sessions ensures IsChain(db', sid, db'.chains[sid]) {
      if sid == db.nextId {
        FirstChain(db', sid, db.nextId + 1);
      } else {
        assert IsChain(db, sid, db.chains[sid]);
        ChainCarries(db, db', sid, db.chains[sid]);
      }
    }
  }

  lemma CreatedKeepsExpiry(db: Tables, txStart: int, clock: int, slow: set<int>)
    requires AllListed(db) && FreshSound(db) && ExpirySound(db, slow)
    ensures ExpirySound(Created(db, txStart, clock),
                        if clock + IDLE_LIFETIME > txStart + ABSOLUTE_LIFETIME then slow + {db.nextId} else slow)
  {
  }

  lemma FirstChain(db: Tables, sid: int, t: int)
    requires sid in db.sessions && t in db.tokens
    requires db.tokens[t] == Token(sid, None, db.sessions[sid].idleExpiresAt, false)
    ensures IsChain(db, sid, [t])
  {
  }

  /** A chain stays one when its rows and its session's expiry are unchanged. */
  lemma ChainCarries(db: Tables, db': Tables, sid: int, chain: seq<int>)
    requires sid in db.sessions && IsChain(db, sid, chain)
    requires sid in db'.sessions && db'.sessions[sid].idleExpiresAt == db.sessions[sid].idleExpiresAt
    requires forall t :: t in db.tokens && db.tokens[t].session == sid ==> t in db'.tokens && db'.tokens[t] == db.tokens[t]
    requires forall t :: t in db.results && t in db.tokens && db.tokens[t].session == sid ==>
      t in db'.results && db'.results[t] == db.results[t]
    ensures IsChain(db', sid, chain)
  {
    forall i | 0 <= i < |chain|
      ensures chain[i] in db'.tokens && db'.tokens[chain[i]] == db.tokens[chain[i]]
      ensures chain[i] in db.results ==> chain[i] in db'.results && db'.results[chain[i]] == db.results[chain[i]]
    {
    }
  }

  lemma RevokedKeepsTables(db: Tables, sid: int, slow: set<int>)
    requires ChainsSound(db) && FreshSound(db) && ExpirySound(db, slow) && sid in db.sessions
    ensures var db' := Revoked(db, sid); ChainsSound(db') && FreshSound(db') && ExpirySound(db', slow)
  {
    hide ChainsSound, FreshSound;
    assert Revoked(db, sid).sessions.Keys == db.sessions.Keys;
    RevokedKeepsChains(db, sid);
  }

  lemma RevokedKeepsChains(db: Tables, sid: int)
    requires ChainsSound(db) && FreshSound(db) && sid in db.sessions
    ensures ChainsSound(Revoked(db, sid)) && FreshSound(Revoked(db, sid))
  {
    hide IsChain;
    var db' := Revoked(db, sid);
    assert db'.sessions.Keys == db.sessions.Keys;
    forall o | o in db'.sessions ensures IsChain(db', o, db'.chains[o]) {
      assert IsChain(db, o, db.chains[o]);
      ChainCarries(db, db', o, db.chains[o]);
    }
  }

  /** The unconsumed token of a session is the last one of its chain. */
  lemma UnconsumedIsTail(db: Tables, t: int)
    requires ChainsSound(db) && t in db.tokens
    ensures |db.chains[db.tokens[t].session]| > 0
    ensures !db.tokens[t].consumed <==> t == Tail(db.chains[db.tokens[t].session])
  {
    var chain := db.chains[db.tokens[t].session];
    assert IsChain(db, db.tokens[t].session, chain);
    var i :| 0 <= i < |chain| && chain[i] == t;
  }

  /** Consuming the tail and appending its fresh successor extends the chain by one. */
  lemma ChainGrows(db: Tables, db': Tables, sid: int, chain: seq<int>, u: int)
    requires sid in db.sessions && IsChain(db, sid, chain) && u !in chain
    requires sid in db'.sessions
    requires forall t :: t in chain && t != Tail(chain) ==>
      t in db'.tokens && db'.tokens[t] == db.tokens[t] && t in db.results && t in db'.results && db'.results[t] == db.results[t]
    requires Tail(chain) in db'.tokens && db'.tokens[Tail(chain)] == db.tokens[Tail(chain)].(consumed := true)
    requires u in db'.tokens && db'.tokens[u] == Token(sid, Some(Tail(chain)), db'.sessions[sid].idleExpiresAt, false)
    requires Tail(chain) in db'.results && db'.results[Tail(chain)].refreshToken == u
    ensures IsChain(db', sid, chain + [u])
  {
    var chain', n := chain + [u], |chain|;
    assert Tail(chain') == u;
    forall i | 0 <= i < n
      ensures chain'[i] in db'.tokens && db'.tokens[chain'[i]].session == sid && db'.tokens[chain'[i]].consumed
      ensures chain'[i] in db'.results && db'.results[chain'[i]].refreshToken == chain'[i + 1]
      ensures db'.tokens[chain'[i]].parent == ParentAt(chain', i)
    {
      assert chain'[i] == chain[i] && chain[i] in chain;
      assert db.tokens[chain[i]].parent == ParentAt(chain, i) == ParentAt(chain', i);
      assert chain'[i + 1] == if i + 1 < n then chain[i + 1] else u;
    }
  }

  lemma RotatedKeepsTables(db: Tables, t: int, k: int, clock: int, slow: set<int>)
    requires ChainsSound(db) && FreshSound(db) && ExpirySound(db, slow) && t in db.tokens && !db.tokens[t].consumed
    ensures Rotatable(db, t)
    ensures var db' := Rotated(db, t, k, clock); ChainsSound(db') && FreshSound(db') && ExpirySound(db', slow)
  {
    RotatedKeepsChains(db, t, k, clock);
    RotatedKeepsExpiry(db, t, k, clock, slow);
  }

  lemma RotatedKeepsChains(db: Tables, t: int, k: int, clock: int)
    requires ChainsSound(db) && FreshSound(db) && t in db.tokens && !db.tokens[t].consumed
    ensures Rotatable(db, t)
    ensures var db' := Rotated(db, t, k, clock); ChainsSound(db') && FreshSound(db')
  {
    hide IsChain;
    var db' := Rotated(db, t, k, clock);
    assert db'.sessions.Keys == db.sessions.Keys;
    forall sid | sid in db'.sessions ensures IsChain(db', sid, db'.chains[sid]) {
      if sid == db.tokens[t].session {
        RotatedGrowsChain(db, t, k, clock);
      } else {
        assert IsChain(db, sid, db.chains[sid]);
        ChainCarries(db, db', sid, db.chains[sid]);
      }
    }
  }

  lemma RotatedGrowsChain(db: Tables, t: int, k: int, clock: int)
    requires ChainsSound(db) && FreshSound(db) && t in db.tokens && !db.tokens[t].consumed && Rotatable(db, t)
    ensures var db', sid := Rotated(db, t, k, clock), db.tokens[t].session; IsChain(db', sid, db'.chains[sid])
  {
    hide IsChain;
    UnconsumedIsTail(db, t);
    var sid := db.tokens[t].session;
    var db', chain := Rotated(db, t, k, clock), db.chains[sid];
    assert IsChain(db, sid, chain);
    forall x | x in chain && x != t
      ensures x in db.tokens && db'.tokens[x] == db.tokens[x] && x in db.results && x in db'.results && db'.results[x] == db.results[x]
    {
      ChainMember(db, sid, chain, x);
    }
    if db.nextId in chain {
      ChainMember(db, sid, chain, db.nextId);
    }
    ChainGrows(db, db', sid, chain, db.nextId);
  }

  lemma ChainMember(db: Tables, sid: int, chain: seq<int>, x: int)
    requires sid in db.sessions && IsChain(db, sid, chain) && x in chain
    ensures x in db.tokens && (x != Tail(chain) ==> x in db.results)
  {
    var i :| 0 <= i < |chain| && chain[i] == x;
  }

  lemma RotatedKeepsExpiry(db: Tables, t: int, k: int, clock: int, slow: set<int>)
    requires FreshSound(db) && ExpirySound(db, slow) && Rotatable(db, t)
    ensures ExpirySound(Rotated(db, t, k, clock), slow)
  {
    assert Rotated(db, t, k, clock).sessions.Keys == db.sessions.Keys;
  }

  // ---------------------------------------------------------------- every step keeps the invariant

  lemma CreatedFrame(w: World, txStart: int, forClient: bool)
    requires FreshSound(w.db) && txStart <= w.now
    ensures var w', sid := Apply(w, CreateSession(txStart, forClient)), w.db.nextId;
            && w'.txs == w.txs && w'.requests == w.requests && w'.responses == w.responses && w'.db.results == w.db.results
            && w'.owned == (if forClient then w.owned + {sid} else w.owned) && w'.db.nextId == sid + 3
            && w'.db.sessions.Keys == w.db.sessions.Keys + {sid}
            && w'.db.tokens == w.db.tokens[sid + 1 := w'.db.tokens[sid + 1]] && w'.db.tokens[sid + 1].session == sid
            && sid !in w.db.sessions && sid + 1 !in w.db.tokens
  {
  }

  lemma CreatedKeepsRecords(w: World, txStart: int, forClient: bool)
    requires Inv(w) && txStart <= w.now
    ensures var w' := Apply(w, CreateSession(txStart, forClient));
            TxsSound(w'.db, w'.txs) && RequestsSound(w'.db, w'.owned, w'.requests)
            && OwnTxsSound(w'.db, w'.txs, w'.owned, w'.requests) && ResponsesSound(w'.db, w'.responses)
  {
    hide IsChain, AllChains, ExpirySound, ClientSound, Apply;
    CreatedFrame(w, txStart, forClient);
    var w' := Apply(w, CreateSession(txStart, forClient));
    forall x | x < w.db.nextId ensures OwnedToken(w'.db, w'.owned, x) <==> OwnedToken(w.db, w.owned, x) {
    }
  }

  lemma CreatedKeepsClient(w: World, txStart: int, forClient: bool)
    requires Inv(w) && txStart <= w.now
    ensures var w' := Apply(w, CreateSession(txStart, forClient)); ClientSound(w'.db, w'.client, w'.owned, w'.requests)
  {
    hide IsChain, AllChains, ExpirySound, TxsSound, OwnTxsSound, ResponsesSound;
    var w' := Apply(w, CreateSession(txStart, forClient));
    forall q | q in w.requests ensures q.0 in w.db.tokens && q.0 < w.db.nextId {
    }
  }

  lemma RotatedFrame(w: World, r: int, clock: int)
    requires FreshSound(w.db) && AllListed(w.db) && TxsSound(w.db, w.txs) && Enabled(w, CommitRotation(r, clock))
    ensures var w', t, u := Apply(w, CommitRotation(r, clock)), w.txs[r].token, w.db.nextId;
            && w'.txs == w.txs - {r} && w'.requests == w.requests && w'.owned == w.owned
            && w'.responses == w.responses + {Response(t, w.txs[r].key, u)}
            && t != u && t in w.db.tokens && u !in w.db.tokens && t !in w.db.results
            && w'.db.sessions.Keys == w.db.sessions.Keys && w'.db.nextId == u + 2
            && w'.db.tokens == w.db.tokens[t := w.db.tokens[t].(consumed := true)][u := w'.db.tokens[u]]
            && w'.db.tokens[u].session == w.db.tokens[t].session && !w'.db.tokens[u].consumed
            && w'.db.results == w.db.results[t := w'.db.results[t]]
            && w'.db.results[t].key == w.txs[r].key && w'.db.results[t].refreshToken == u
  {
  }

  lemma RotatedKeepsTxs(w: World, r: int, clock: int)
    requires FreshSound(w.db) && AllListed(w.db) && TxsSound(w.db, w.txs) && Enabled(w, CommitRotation(r, clock))
    ensures var w' := Apply(w, CommitRotation(r, clock)); TxsSound(w'.db, w'.txs)
  {
    RotatedFrame(w, r, clock);
    hide Apply;
    assert forall o :: o in w.txs - {r} ==> o != r;
  }

  lemma RotatedKeepsRecords(w: World, r: int, clock: int)
    requires Inv(w) && Enabled(w, CommitRotation(r, clock))
    ensures var w' := Apply(w, CommitRotation(r, clock));
            TxsSound(w'.db, w'.txs) && RequestsSound(w'.db, w'.owned, w'.requests)
            && OwnTxsSound(w'.db, w'.txs, w'.owned, w'.requests) && ResponsesSound(w'.db, w'.responses)
  {
    hide IsChain, AllChains, ExpirySound, ClientSound, Apply;
    RotatedFrame(w, r, clock);
    RotatedKeepsTxs(w, r, clock);
    assert forall o :: o in w.txs ==> w.txs[o].token < w.db.nextId;
    assert InPhase(w, r, Issue);
    hide TxsSound, Enabled;
    var w' := Apply(w, CommitRotation(r, clock));
    forall x | x < w.db.nextId ensures OwnedToken(w'.db, w'.owned, x) <==> OwnedToken(w.db, w.owned, x) {
    }
  }

  lemma RotatedKeepsClient(w: World, r: int, clock: int)
    requires Inv(w) && Enabled(w, CommitRotation(r, clock))
    ensures var w' := Apply(w, CommitRotation(r, clock)); ClientSound(w'.db, w'.client, w'.owned, w'.requests)
  {
    hide IsChain, AllChains, ExpirySound, ResponsesSound;
    var w' := Apply(w, CommitRotation(r, clock));
    var t := w.txs[r].token;
    UnconsumedIsTail(w.db, t);
    forall q | q in w.requests ensures q.0 in w.db.tokens && q.0 < w.db.nextId {
    }
    if w.client.auth.Some? && w.client.auth.value.session == w.db.tokens[t].session {
      assert (t, w.txs[r].key) in w.requests;
    }
  }

  lemma SessionsOnlyRevoked(w: World, w': World, sid: int)
    requires Inv(w) && sid in w.db.sessions && w'.db == Revoked(w.db, sid)
    requires w'.slow == w.slow && w'.client == w.client && w'.owned == w.owned && w'.requests == w.requests
    requires w'.replayed <= w.replayed + {sid} && w'.responses == w.responses && forall o :: o in w'.txs ==> o in w.txs && w'.txs[o] == w.txs[o]
    ensures Inv(w')
  {
    hide ChainsSound, FreshSound, ExpirySound, TxsSound, RequestsSound, OwnTxsSound, ResponsesSound, ClientSound;
    RevokedKeepsTables(w.db, sid, w.slow);
    assert w'.db.sessions.Keys == w.db.sessions.Keys && w'.db == w.db.(sessions := w'.db.sessions);
    hide Revoked;
    SameTokensKeepRecords(w.db, w'.db, w, w'.txs);
  }

  /** What is said about transactions, requests, responses and the client does not look into the sessions. */
  lemma SameTokensKeepRecords(db: Tables, db': Tables, w: World, txs: map<int, Rotation>)
    requires db' == db.(sessions := db'.sessions) && db'.sessions.Keys == db.sessions.Keys
    requires TxsSound(db, w.txs) && RequestsSound(db, w.owned, w.requests) && OwnTxsSound(db, w.txs, w.owned, w.requests)
    requires ResponsesSound(db, w.responses) && ClientSound(db, w.client, w.owned, w.requests)
    requires forall o :: o in txs ==> o in w.txs && txs[o] == w.txs[o]
    ensures TxsSound(db', txs) && RequestsSound(db', w.owned, w.requests) && OwnTxsSound(db', txs, w.owned, w.requests)
    ensures ResponsesSound(db', w.responses) && ClientSound(db', w.client, w.owned, w.requests)
  {
    forall x ensures OwnedToken(db', w.owned, x) <==> OwnedToken(db, w.owned, x) {
    }
  }

  /** Steps that only touch one transaction's record. */
  lemma TxStepKeepsInv(w: World, s: Step)
    requires Inv(w) && Enabled(w, s)
    requires s.BeginRotation? || s.ConsumeHit? || s.ConsumeMiss? || s.CheckFails? || s.CheckPasses? || s.AbortRotation?
    ensures Inv(Apply(w, s))
  {
    hide ChainsSound, ExpirySound, RequestsSound, ResponsesSound, ClientSound, TxsSound, OwnTxsSound;
    TxStepKeepsTxs(w, s);
    TxStepKeepsOwnTxs(w, s);
  }

  lemma TxStepKeepsTxs(w: World, s: Step)
    requires TxsSound(w.db, w.txs) && Enabled(w, s)
    requires s.BeginRotation? || s.ConsumeHit? || s.ConsumeMiss? || s.CheckFails? || s.CheckPasses? || s.AbortRotation?
    ensures TxsSound(Apply(w, s).db, Apply(w, s).txs)
  {
    var w' := Apply(w, s);
    if s.ConsumeHit? {
      assert InPhase(w, s.tx, Consume);
    } else {
      hide TxsSound;
      QuietTxsKeepSound(w.db, w.txs, w'.txs, s.tx);
    }
  }

  lemma QuietTxsKeepSound(db: Tables, txs: map<int, Rotation>, txs': map<int, Rotation>, r: int)
    requires TxsSound(db, txs)
    requires forall o :: o in txs' ==> o == r || (o in txs && txs'[o] == txs[o])
    requires r in txs' ==> txs'[r].token < db.nextId && txs'[r].phase != Issue
    requires r in txs' && txs'[r].phase == Recall ==> txs'[r].token in db.tokens && db.tokens[txs'[r].token].consumed
    ensures TxsSound(db, txs')
  {
  }

  lemma TxStepKeepsOwnTxs(w: World, s: Step)
    requires OwnTxsSound(w.db, w.txs, w.owned, w.requests) && Enabled(w, s)
    requires s.BeginRotation? || s.ConsumeHit? || s.ConsumeMiss? || s.CheckFails? || s.CheckPasses? || s.AbortRotation?
    ensures var w' := Apply(w, s); OwnTxsSound(w'.db, w'.txs, w'.owned, w'.requests)
  {
  }

  lemma RecallKeepsInv(w: World, r: int)
    requires Inv(w) && Enabled(w, RecallHit(r))
    ensures Inv(Apply(w, RecallHit(r)))
  {
    hide IsChain, ChainsSound, AllChains, AllListed, ExpirySound, RequestsSound, ClientSound;
  }

  lemma StartKeepsInv(w: World, k: int)
    requires Inv(w) && Enabled(w, StartRefresh(k))
    ensures Inv(Apply(w, StartRefresh(k)))
  {
    hide IsChain, AllChains, ExpirySound, ResponsesSound;
    var t, sid := w.client.auth.value.token, w.client.auth.value.session;
    UnconsumedIsTail(w.db, t);
    assert t == Tail(w.db.chains[sid]);
    assert t !in w.db.results;
  }

  lemma FinishKeepsInv(w: World, a: Response)
    requires Inv(w) && Enabled(w, FinishRefresh(a))
    ensures Inv(Apply(w, FinishRefresh(a)))
  {
    hide IsChain, AllChains, ExpirySound, TxsSound, OwnTxsSound;
    var t, sid := w.client.auth.value.token, w.client.auth.value.session;
    UnconsumedIsTail(w.db, t);
    assert t in w.db.results && w.db.tokens[t].consumed;
    TailBelongs(w.db, sid);
  }

  lemma TailBelongs(db: Tables, sid: int)
    requires AllChains(db) && sid in db.sessions
    ensures |db.chains[sid]| > 0 && Tail(db.chains[sid]) in db.tokens && db.tokens[Tail(db.chains[sid])].session == sid
  {
    assert IsChain(db, sid, db.chains[sid]);
  }

  lemma StepKeepsInv(w: World, s: Step)
    requires Inv(w) && Enabled(w, s)
    ensures Inv(Apply(w, s))
  {
    hide ChainsSound, FreshSound, ExpirySound, RequestsSound, OwnTxsSound, ResponsesSound, ClientSound;
    match s
    case Tick(_) =>
    case CreateSession(txStart, forClient) =>
      CreatedKeepsTables(w.db, txStart, w.now, w.slow);
      CreatedKeepsRecords(w, txStart, forClient);
      CreatedKeepsClient(w, txStart, forClient);
    case CommitRotation(r, clock) =>
      RotatedKeepsTables(w.db, w.txs[r].token, w.txs[r].key, clock, w.slow);
      RotatedKeepsRecords(w, r, clock);
      RotatedKeepsClient(w, r, clock);
    case RecallHit(r) => RecallKeepsInv(w, r);
    case RevokeReplay(r) => SessionsOnlyRevoked(w, Apply(w, s), w.db.tokens[w.txs[r].token].session);
    case Logout(sid) => SessionsOnlyRevoked(w, Apply(w, s), sid);
    case StartRefresh(k) => StartKeepsInv(w, k);
    case FinishRefresh(a) => FinishKeepsInv(w, a);
    case _ => TxStepKeepsInv(w, s);
  }

  lemma {:induction false} RunKeepsInv(ws: seq<World>, steps: seq<Step>)
    requires IsRun(ws, steps)
    ensures forall i :: 0 <= i < |ws| ==> Inv(ws[i])
    decreases |steps|
  {
    hide Inv, Enabled, Apply;
    var n := |steps|;
    if n == 0 {
      InitialInv(ws[0]);
    } else {
      RunKeepsInv(ws[..n], steps[..n - 1]);
      assert ws[..n][n - 1] == ws[n - 1];
      assert Next(ws[n - 1], steps[n - 1], ws[n]);
      StepKeepsInv(ws[n - 1], steps[n - 1]);
      forall i | 0 <= i < |ws| ensures Inv(ws[i]) {
        if i < n {
          assert ws[i] == ws[..n][i];
        }
      }
    }
  }

  lemma InitialInv(w: World)
    requires Initial(w)
    ensures Inv(w)
  {
  }

  // ---------------------------------------------------------------- theorems about the server

  ghost predicate Reachable(w: World) {
    exists ws: seq<World>, steps: seq<Step> :: IsRun(ws, steps) && ws[|steps|] == w
  }

  lemma ReachableInv(w: World)
    requires Reachable(w)
    ensures Inv(w)
  {
    hide Inv, Next;
    var ws: seq<World>, steps: seq<Step> :| IsRun(ws, steps) && ws[|steps|] == w;
    RunKeepsInv(ws, steps);
  }

  /**
   * The tokens of a session are exactly one parent chain; only the last is unconsumed, and it expires with the
   * session's idle deadline.
   */
  lemma TokensFormOneChain(w: World, sid: int)
    requires Reachable(w) && sid in w.db.sessions
    ensures sid in w.db.chains && IsChain(w.db, sid, w.db.chains[sid])
    ensures forall t :: t in w.db.tokens && w.db.tokens[t].session == sid <==> t in w.db.chains[sid]
    ensures forall t :: t in w.db.tokens && w.db.tokens[t].session == sid && !w.db.tokens[t].consumed
                        <==> t == Tail(w.db.chains[sid])
  {
    hide Reachable, FreshSound, ExpirySound, TxsSound, RequestsSound, OwnTxsSound, ResponsesSound, ClientSound;
    ReachableInv(w);
    assert IsChain(w.db, sid, w.db.chains[sid]);
    TailBelongs(w.db, sid);
    forall t | t in w.db.tokens && w.db.tokens[t].session == sid
      ensures !w.db.tokens[t].consumed <==> t == Tail(w.db.chains[sid])
    {
      UnconsumedIsTail(w.db, t);
    }
  }

  /** No token is the parent of two tokens. */
  lemma SuccessorsAreUnique(w: World, t: int, u: int)
    requires Reachable(w) && t in w.db.tokens && u in w.db.tokens
    requires w.db.tokens[t].parent.Some? && w.db.tokens[t].parent == w.db.tokens[u].parent
    ensures t == u
  {
    hide Reachable, FreshSound, ExpirySound, TxsSound, RequestsSound, OwnTxsSound, ResponsesSound, ClientSound;
    ReachableInv(w);
    var p := w.db.tokens[t].parent.value;
    var i := ParentInChain(w.db, t);
    var j := ParentInChain(w.db, u);
    assert w.db.tokens[p].session == w.db.tokens[t].session == w.db.tokens[u].session;
    assert IsChain(w.db, w.db.tokens[t].session, w.db.chains[w.db.tokens[t].session]);
  }

  lemma ParentInChain(db: Tables, t: int) returns (i: int)
    requires ChainsSound(db) && t in db.tokens && db.tokens[t].parent.Some?
    ensures var chain := db.chains[db.tokens[t].session];
            0 < i < |chain| && chain[i] == t && Some(chain[i - 1]) == db.tokens[t].parent
            && chain[i - 1] in db.tokens && db.tokens[chain[i - 1]].session == db.tokens[t].session
  {
    var chain := db.chains[db.tokens[t].session];
    assert IsChain(db, db.tokens[t].session, chain);
    i :| 0 <= i < |chain| && chain[i] == t;
    assert db.tokens[chain[i]].parent == ParentAt(chain, i);
  }

  /**
   * Every refresh token of a session expires within 365 days of its creation exactly when the creating
   * transaction took no more than 275 days; then the access tokens do too.
   */
  lemma LifetimesAreBounded(w: World, sid: int)
    requires Reachable(w) && sid in w.db.sessions
    ensures sid !in w.slow <==> forall t | t in w.db.tokens && w.db.tokens[t].session == sid ::
      WithinLifetime(w.db, sid, w.db.tokens[t].expiresAt)
    ensures sid !in w.slow ==> forall a | a in w.db.access && w.db.access[a].session == sid ::
      WithinLifetime(w.db, sid, w.db.access[a].expiresAt)
  {
    hide Reachable, FreshSound, TxsSound, RequestsSound, OwnTxsSound, ResponsesSound, ClientSound;
    ReachableInv(w);
    var chain := w.db.chains[sid];
    assert IsChain(w.db, sid, chain);
    assert w.db.tokens[chain[0]].parent == ParentAt(chain, 0);
  }

  // ---------------------------------------------------------------- theorems about the client

  /** The refresh the client would send with token `t`, key `k` yields the tail of session `sid`. */
  predicate YieldsTail(db: Tables, sid: int, t: int, k: int) {
    && t in db.results && db.results[t].key == k && sid in db.chains && |db.chains[sid]| > 0
    && db.results[t].refreshToken == Tail(db.chains[sid])
  }

  /** The client's file always holds the unconsumed token, or the pending request whose stored result yields it. */
  lemma ClientTokenIsRecoverable(w: World)
    requires Reachable(w) && w.client.auth.Some?
    ensures var t, sid := w.client.auth.value.token, w.client.auth.value.session;
            && sid in w.owned && t in w.db.tokens && w.db.tokens[t].session == sid
            && (w.db.tokens[t].consumed ==>
                  w.client.pending.Some? && w.client.pending.value.0 == t && YieldsTail(w.db, sid, t, w.client.pending.value.1))
  {
    hide Reachable, IsChain, AllChains, ExpirySound, TxsSound, OwnTxsSound, ResponsesSound;
    ReachableInv(w);
    UnconsumedIsTail(w.db, w.client.auth.value.token);
  }

  /** A retry of one of the client's requests is answered as a replay exactly when its stored result has expired. */
  lemma ReplaysAreLateRetries(w: World, r: int)
    requires Reachable(w) && InPhase(w, r, Recall) && OwnedToken(w.db, w.owned, w.txs[r].token)
    ensures w.txs[r].token in w.db.results
    ensures Enabled(w, RevokeReplay(r)) <==> w.now >= w.db.results[w.txs[r].token].expiresAt
    ensures Enabled(w, RecallHit(r)) <==> w.now < w.db.results[w.txs[r].token].expiresAt
  {
    hide Reachable, Inv, ChainsSound;
    ReachableInv(w);
    RecallKnowsItsKey(w, r);
  }

  lemma RecallKnowsItsKey(w: World, r: int)
    requires Inv(w) && InPhase(w, r, Recall) && OwnedToken(w.db, w.owned, w.txs[r].token)
    ensures Rotatable(w.db, w.txs[r].token)
    ensures w.txs[r].token in w.db.results && w.db.results[w.txs[r].token].key == w.txs[r].key
  {
    hide ExpirySound, ResponsesSound, ClientSound;
    var t := w.txs[r].token;
    var chain := w.db.chains[w.db.tokens[t].session];
    assert IsChain(w.db, w.db.tokens[t].session, chain);
    var i :| 0 <= i < |chain| && chain[i] == t;
    assert (t, w.txs[r].key) in w.requests && (t, w.db.results[t].key) in w.requests;
  }

  /** When this step answers one of the client's consumed tokens, the stored result is still valid. */
  predicate HandledInTime(w: World, s: Step) {
    (s.RecallHit? || s.RevokeReplay?) && s.tx in w.txs && OwnedToken(w.db, w.owned, w.txs[s.tx].token)
      && w.txs[s.tx].token in w.db.results
    ==> w.now < w.db.results[w.txs[s.tx].token].expiresAt
  }

  lemma StepRevokesOnlyLate(w: World, s: Step)
    requires Inv(w) && Enabled(w, s)
    ensures var w' := Apply(w, s);
            w'.owned !! w'.replayed <==> w.owned !! w.replayed && HandledInTime(w, s)
  {
    hide ChainsSound, ExpirySound, TxsSound, RequestsSound, OwnTxsSound, ResponsesSound, ClientSound;
    var w' := Apply(w, s);
    assert w.owned <= w'.owned && w.replayed <= w'.replayed;
    match s
    case RevokeReplay(r) =>
      var sid := w.db.tokens[w.txs[r].token].session;
      if sid in w.owned {
        RecallKnowsItsKey(w, r);
      }
    case _ =>
  }

  /**
   * Over a whole run, no session of the client is ever revoked as a replay if and only if every retry of its
   * requests is handled before the stored result expires, ten minutes after the rotation.
   */
  lemma {:induction false} OnlyLateRetriesRevoke(ws: seq<World>, steps: seq<Step>)
    requires IsRun(ws, steps)
    ensures ws[|steps|].owned !! ws[|steps|].replayed <==> forall i | 0 <= i < |steps| :: HandledInTime(ws[i], steps[i])
    decreases |steps|
  {
    hide Inv, Enabled, Apply, HandledInTime;
    var n := |steps|;
    if n > 0 {
      var ws', steps' := ws[..n], steps[..n - 1];
      OnlyLateRetriesRevoke(ws', steps');
      RunKeepsInv(ws', steps');
      assert ws'[n - 1] == ws[n - 1];
      assert Next(ws[n - 1], steps[n - 1], ws[n]);
      StepRevokesOnlyLate(ws[n - 1], steps[n - 1]);
      assert forall i | 0 <= i < n - 1 :: ws'[i] == ws[i] && steps'[i] == steps[i];
    }
  }

  // ---------------------------------------------------------------- dead sessions

  /** Revoked, idle for 90 days, or 365 days old. */
  predicate Dead(w: World, sid: int) {
    && sid in w.db.sessions
    && (w.db.sessions[sid].revoked || w.db.sessions[sid].idleExpiresAt <= w.now
        || w.now - w.db.sessions[sid].createdAt >= 365 * 24 * 3600)
  }

  predicate OnSession(w: World, r: int, sid: int) {
    r in w.txs && w.txs[r].token in w.db.tokens && w.db.tokens[w.txs[r].token].session == sid
  }

  /** What a step does to an open transaction: it begins it, or leaves everything but its phase. */
  lemma TxStays(w: World, s: Step, r: int)
    requires Enabled(w, s) && r in Apply(w, s).txs
    ensures var x := Apply(w, s).txs[r];
            if s.BeginRotation? && s.tx == r then
              x == Rotation(s.token, s.key, w.now, LiveForConsume(w.db, s.token, w.now), Consume)
            else r in w.txs && x == w.txs[r].(phase := x.phase)
  {
    hide LiveForConsume, Rotated, Created;
  }

  /** Only a live, unexpired token is ever consumed. */
  predicate IssuesLive(w: World) {
    forall r :: r in w.txs && w.txs[r].phase == Issue ==>
      w.txs[r].live && w.txs[r].token in w.db.tokens && w.db.tokens[w.txs[r].token].expiresAt > w.txs[r].at
  }

  lemma TokensStay(w: World, s: Step, t: int)
    requires Inv(w) && Enabled(w, s) && t in w.db.tokens
    ensures var tokens := Apply(w, s).db.tokens;
            t in tokens && tokens[t].session == w.db.tokens[t].session && tokens[t].expiresAt == w.db.tokens[t].expiresAt
  {
    hide ChainsSound, ExpirySound, TxsSound, RequestsSound, OwnTxsSound, ResponsesSound, ClientSound;
  }

  lemma StepKeepsIssuesLive(w: World, s: Step)
    requires Inv(w) && Enabled(w, s) && IssuesLive(w)
    ensures IssuesLive(Apply(w, s))
  {
    hide Inv, LiveForConsume;
    var w' := Apply(w, s);
    forall r | r in w'.txs && w'.txs[r].phase == Issue
      ensures w'.txs[r].live && w'.txs[r].token in w'.db.tokens && w'.db.tokens[w'.txs[r].token].expiresAt > w'.txs[r].at
    {
      TxStays(w, s, r);
      BecomesIssue(w, s, r);
      TokensStay(w, s, w.txs[r].token);
    }
  }

  lemma BecomesIssue(w: World, s: Step, r: int)
    requires Enabled(w, s) && r in Apply(w, s).txs && Apply(w, s).txs[r].phase == Issue
    ensures r in w.txs && (w.txs[r].phase == Issue || Consumable(w.db, w.txs[r]))
  {
    hide LiveForConsume, Rotated, Created, Consumable;
  }

  lemma {:induction false} RunIssuesLive(ws: seq<World>, steps: seq<Step>, j: nat)
    requires IsRun(ws, steps) && j < |ws|
    ensures Inv(ws[j]) && IssuesLive(ws[j])
    decreases j
  {
    hide Inv, Enabled, Apply, IssuesLive;
    RunKeepsInv(ws, steps);
    if j == 0 {
      NothingIssued(ws[0]);
    } else {
      RunIssuesLive(ws, steps, j - 1);
      assert Next(ws[j - 1], steps[j - 1], ws[j - 1 + 1]);
      StepKeepsIssuesLive(ws[j - 1], steps[j - 1]);
    }
  }

  lemma NothingIssued(w: World)
    requires Initial(w)
    ensures IssuesLive(w)
  {
  }

  /** Every open transaction began in the run, with the time and the session's state that it recorded then. */
  lemma {:induction false} TxBegan(ws: seq<World>, steps: seq<Step>, j: nat, r: int) returns (i: nat)
    requires IsRun(ws, steps) && j < |ws| && r in ws[j].txs
    ensures i < j && steps[i] == BeginRotation(r, ws[j].txs[r].token, ws[j].txs[r].key)
    ensures ws[j].txs[r].at == ws[i].now
    ensures ws[j].txs[r].live == LiveForConsume(ws[i].db, ws[j].txs[r].token, ws[i].now)
    decreases j
  {
    hide Enabled, Apply, LiveForConsume;
    assert j > 0;
    assert Next(ws[j - 1], steps[j - 1], ws[j - 1 + 1]);
    TxStays(ws[j - 1], steps[j - 1], r);
    if steps[j - 1].BeginRotation? && steps[j - 1].tx == r {
      i := j - 1;
    } else {
      i := TxBegan(ws, steps, j - 1, r);
    }
  }

  /**
   * In every run a rotation that commits was begun while its token was unexpired and its session neither revoked, nor
   * idle for too long, nor too old; and the token is still unconsumed when it commits.
   */
  lemma RotationsBeginAlive(ws: seq<World>, steps: seq<Step>, j: nat) returns (i: nat)
    requires IsRun(ws, steps) && j < |steps| && steps[j].CommitRotation?
    ensures steps[j].tx in ws[j].txs
    ensures var t := ws[j].txs[steps[j].tx].token;
            && i < j && steps[i].BeginRotation? && steps[i].tx == steps[j].tx && steps[i].token == t
            && t in ws[i].db.tokens && t in ws[j].db.tokens && !ws[j].db.tokens[t].consumed
            && ws[i].now < ws[j].db.tokens[t].expiresAt
            && ws[i].db.tokens[t].session in ws[i].db.sessions && !Dead(ws[i], ws[i].db.tokens[t].session)
  {
    hide Apply, IsChain;
    assert Next(ws[j], steps[j], ws[j + 1]);
    RunIssuesLive(ws, steps, j);
    assert InPhase(ws[j], steps[j].tx, Issue);
    hide Enabled, Inv;
    i := TxBegan(ws, steps, j, steps[j].tx);
    IssuedUnconsumed(ws[j], steps[j].tx);
  }

  lemma IssuedUnconsumed(w: World, r: int)
    requires Inv(w) && InPhase(w, r, Issue)
    ensures w.txs[r].token in w.db.tokens && !w.db.tokens[w.txs[r].token].consumed
  {
    hide ChainsSound, ExpirySound, RequestsSound, OwnTxsSound, ResponsesSound, ClientSound;
  }

  /** No transaction on a token of this session can still consume it. */
  ghost predicate NoneLive(w: World, sid: int) {
    forall r :: OnSession(w, r, sid) ==> !w.txs[r].live
  }

  lemma StepKeepsDead(w: World, s: Step, sid: int)
    requires Inv(w) && IssuesLive(w) && Enabled(w, s) && Dead(w, sid) && NoneLive(w, sid)
    ensures var w' := Apply(w, s);
            && Dead(w', sid) && NoneLive(w', sid)
            && forall u :: u in w'.db.tokens && w'.db.tokens[u].session == sid ==> u in w.db.tokens && w.db.tokens[u].session == sid
  {
    var w' := Apply(w, s);
    if s.CommitRotation? {
      assert InPhase(w, s.tx, Issue);
      IssuedUnconsumed(w, s.tx);
      assert !OnSession(w, s.tx, sid);
    }
    SessionsAfter(w, s, sid);
    hide Inv, Apply, Enabled, IssuesLive;
    forall r | OnSession(w', r, sid) ensures !w'.txs[r].live {
      TxStays(w, s, r);
      TxTokenIsOld(w, s, r);
      TokensStay(w, s, w'.txs[r].token);
      if r in w.txs && !(s.BeginRotation? && s.tx == r) {
        assert OnSession(w, r, sid);
      }
    }
  }

  lemma TxTokenIsOld(w: World, s: Step, r: int)
    requires Inv(w) && Enabled(w, s) && r in Apply(w, s).txs && Apply(w, s).txs[r].token in Apply(w, s).db.tokens
    ensures Apply(w, s).txs[r].token in w.db.tokens
  {
    hide ChainsSound, ExpirySound, RequestsSound, OwnTxsSound, ResponsesSound, ClientSound, LiveForConsume;
  }

  lemma SessionsAfter(w: World, s: Step, sid: int)
    requires Inv(w) && Enabled(w, s) && Dead(w, sid)
    requires s.CommitRotation? ==> !OnSession(w, s.tx, sid) && w.txs[s.tx].token in w.db.tokens
    ensures var w' := Apply(w, s);
            && Dead(w', sid)
            && forall u :: u in w'.db.tokens && w'.db.tokens[u].session == sid ==> u in w.db.tokens && w.db.tokens[u].session == sid
  {
    hide ChainsSound, ExpirySound, TxsSound, RequestsSound, OwnTxsSound, ResponsesSound, ClientSound, LiveForConsume;
  }

  /**
   * Once a session is dead and no refresh of it is under way, it stays dead, and no token of it ever gets a successor,
   * whoever presents it and whatever else runs.
   */
  lemma {:induction false} DeadSessionsNeverRotate(ws: seq<World>, steps: seq<Step>, i: nat, j: nat, sid: int)
    requires IsRun(ws, steps) && i <= j < |ws| && Dead(ws[i], sid) && forall r :: !OnSession(ws[i], r, sid)
    ensures Dead(ws[j], sid) && NoneLive(ws[j], sid)
    ensures forall u :: u in ws[j].db.tokens && ws[j].db.tokens[u].session == sid ==> u in ws[i].db.tokens
    decreases j - i
  {
    hide Inv, Enabled, Apply, Dead, OnSession, IssuesLive;
    if i < j {
      DeadSessionsNeverRotate(ws, steps, i, j - 1, sid);
      RunIssuesLive(ws, steps, j - 1);
      assert Next(ws[j - 1], steps[j - 1], ws[j - 1 + 1]);
      StepKeepsDead(ws[j - 1], steps[j - 1], sid);
    }
  }

  /** Logging out kills the session. */
  lemma LogoutKills(w: World, sid: int)
    requires Enabled(w, Logout(sid))
    ensures Dead(Apply(w, Logout(sid)), sid)
  {
  }

  // ---------------------------------------------------------------- retries of a lost response

  /** The steps can be taken one after the other from `w`, ending in `end`. */
  predicate Leads(w: World, steps: seq<Step>, end: World)
    decreases |steps|
  {
    if steps == [] then w == end
    else Enabled(w, steps[0]) && Leads(Apply(w, steps[0]), steps[1..], end)
  }

  /** A retry that finds its token consumed: these three steps end at the lookup of the stored response. */
  function Lookup(r: int, t: int, k: int): seq<Step> {
    [BeginRotation(r, t, k), ConsumeMiss(r), CheckPasses(r)]
  }

  lemma {:induction false} LeadsOn(w: World, steps: seq<Step>, mid: World, s: Step)
    requires Leads(w, steps, mid) && Enabled(mid, s)
    ensures Leads(w, steps + [s], Apply(mid, s))
    decreases |steps|
  {
    hide Enabled, Apply;
    if steps == [] {
      assert (steps + [s])[1..] == [];
    } else {
      assert (steps + [s])[1..] == steps[1..] + [s];
      LeadsOn(Apply(w, steps[0]), steps[1..], mid, s);
    }
  }

  lemma LookupSteps(w: World, r: int, t: int, k: int, w1: World, w2: World, w3: World)
    requires TxsSound(w.db, w.txs) && r !in w.txs && MaySend(w, t, k) && UsedButAlive(w.db, t, w.now)
    requires w1 == w.(txs := w.txs[r := Rotation(t, k, w.now, LiveForConsume(w.db, t, w.now), Consume)])
    requires w2 == w.(txs := w.txs[r := w1.txs[r].(phase := Check)]) && w3 == w.(txs := w.txs[r := w1.txs[r].(phase := Recall)])
    ensures Next(w, BeginRotation(r, t, k), w1) && Next(w1, ConsumeMiss(r), w2) && Next(w2, CheckPasses(r), w3)
  {
    hide LiveForConsume;
  }

  lemma LookupRuns(w: World, r: int, t: int, k: int)
    requires TxsSound(w.db, w.txs) && r !in w.txs && MaySend(w, t, k) && UsedButAlive(w.db, t, w.now)
    ensures Leads(w, Lookup(r, t, k),
                  w.(txs := w.txs[r := Rotation(t, k, w.now, LiveForConsume(w.db, t, w.now), Recall)]))
  {
    hide LiveForConsume, TxsSound, MaySend, UsedButAlive, Enabled, Apply;
    var w1 := w.(txs := w.txs[r := Rotation(t, k, w.now, LiveForConsume(w.db, t, w.now), Consume)]);
    var w2, w3 := w.(txs := w.txs[r := w1.txs[r].(phase := Check)]), w.(txs := w.txs[r := w1.txs[r].(phase := Recall)]);
    LookupSteps(w, r, t, k, w1, w2, w3);
    assert Lookup(r, t, k)[1..] == [ConsumeMiss(r), CheckPasses(r)];
    assert Lookup(r, t, k)[1..][1..] == [CheckPasses(r)];
    assert Leads(w3, [], w3);
    assert Leads(w2, [CheckPasses(r)], w3);
    assert Leads(w1, [ConsumeMiss(r), CheckPasses(r)], w3);
  }

  /** A consumed token with a pending request: its stored result is that request's and carries the unconsumed tail. */
  lemma RetriedToken(w: World)
    requires Inv(w) && w.client.auth.Some? && w.client.pending.Some? && UsedButAlive(w.db, w.client.auth.value.token, w.now)
    ensures var t, k, sid := w.client.pending.value.0, w.client.pending.value.1, w.client.auth.value.session;
            && t == w.client.auth.value.token && MaySend(w, t, k) && Rotatable(w.db, t) && w.db.tokens[t].session == sid
            && t in w.db.results && w.db.results[t].key == k
            && sid in w.db.sessions && sid in w.db.chains && |w.db.chains[sid]| > 0
            && var tail := Tail(w.db.chains[sid]);
               w.db.results[t].refreshToken == tail && tail in w.db.tokens && !w.db.tokens[tail].consumed
  {
    hide ExpirySound, TxsSound, OwnTxsSound, ResponsesSound, AllChains, IsChain;
    var t, sid := w.client.auth.value.token, w.client.auth.value.session;
    UnconsumedIsTail(w.db, t);
    TailBelongs(w.db, sid);
    UnconsumedIsTail(w.db, Tail(w.db.chains[sid]));
    assert (t, w.db.results[t].key) in w.requests;
  }

  /**
   * The client's retry of a refresh whose response was lost: within the stored result's lifetime it ends with
   * the client holding the unconsumed tail and the tables unchanged, afterwards with the session revoked.
   */
  lemma RetryOfALostResponse(w: World, r: int)
    requires Reachable(w) && r !in w.txs && w.client.auth.Some? && w.client.pending.Some?
    requires UsedButAlive(w.db, w.client.auth.value.token, w.now)
    ensures var t, k, sid := w.client.pending.value.0, w.client.pending.value.1, w.client.auth.value.session;
            && t in w.db.results && sid in w.db.sessions && sid in w.db.chains && |w.db.chains[sid]| > 0
            && var tail := Tail(w.db.chains[sid]);
               && (w.now < w.db.results[t].expiresAt ==>
                     exists end: World :: Leads(w, Lookup(r, t, k) + [RecallHit(r)] + [FinishRefresh(Response(t, k, tail))], end)
                       && end.client == Client(Some(Auth(sid, tail)), None) && end.db == w.db && tail in end.db.tokens && !end.db.tokens[tail].consumed)
               && (w.now >= w.db.results[t].expiresAt ==>
                     exists end: World :: Leads(w, Lookup(r, t, k) + [RevokeReplay(r)], end)
                       && sid in end.replayed && end.db == Revoked(w.db, sid))
  {
    hide Reachable, Leads, IsChain, Lookup;
    ReachableInv(w);
    var t, k, sid := w.client.pending.value.0, w.client.pending.value.1, w.client.auth.value.session;
    RetriedToken(w);
    LookupRuns(w, r, t, k);
    var tail := Tail(w.db.chains[sid]);
    var mid := w.(txs := w.txs[r := Rotation(t, k, w.now, LiveForConsume(w.db, t, w.now), Recall)]);
    hide Inv, TxsSound, UsedButAlive, LiveForConsume, MaySend;
    if w.now < w.db.results[t].expiresAt {
      LeadsOn(w, Lookup(r, t, k), mid, RecallHit(r));
      var found := Apply(mid, RecallHit(r));
      LeadsOn(w, Lookup(r, t, k) + [RecallHit(r)], found, FinishRefresh(Response(t, k, tail)));
    } else {
      LeadsOn(w, Lookup(r, t, k), mid, RevokeReplay(r));
    }
  }

  /** A rotation of the client's first token at time 0, as the tables show it afterwards. */
  function RotatedOnce(now: int): World {
    World(Tables(map[1 := Session(0, IDLE_LIFETIME, false)],
                 map[2 := Token(1, None, IDLE_LIFETIME, true), 4 := Token(1, Some(2), IDLE_LIFETIME, false)],
                 map[3 := Access(1, ACCESS_LIFETIME), 5 := Access(1, ACCESS_LIFETIME)],
                 map[2 := Stored(7, 4, IDEMPOTENCY_LIFETIME)],
                 map[1 := [2, 4]], 6),
          map[], now, {}, {}, Client(Some(Auth(1, 2)), Some((2, 7))), {1}, {(2, 7)}, {Response(2, 7, 4)})
  }

  /** The client's login at time 0, with its first refresh pending. */
  function LoggedIn(txs: map<int, Rotation>): World {
    World(Tables(map[1 := Session(0, IDLE_LIFETIME, false)], map[2 := Token(1, None, IDLE_LIFETIME, false)],
                 map[3 := Access(1, ACCESS_LIFETIME)], map[], map[1 := [2]], 4),
          txs, 0, {}, {}, Client(Some(Auth(1, 2)), Some((2, 7))), {1}, {(2, 7)}, {})
  }

  lemma LoginExample() returns (ws: seq<World>, steps: seq<Step>)
    ensures IsRun(ws, steps) && ws[|steps|] == LoggedIn(map[])
  {
    var w0 := World(Tables(map[], map[], map[], map[], map[], 1), map[], 0, {}, {}, Client(None, None), {}, {}, {});
    var w1 := Apply(w0, CreateSession(0, true));
    var w2 := Apply(w1, StartRefresh(7));
    ws, steps := [w0, w1, w2], [CreateSession(0, true), StartRefresh(7)];
  }

  lemma RotationExample() returns (ws: seq<World>, steps: seq<Step>)
    ensures IsRun(ws, steps) && ws[|steps|] == RotatedOnce(0)
  {
    hide Initial;
    var ws0, steps0 := LoginExample();
    var w3 := Apply(LoggedIn(map[]), BeginRotation(1, 2, 7));
    var w4 := Apply(w3, ConsumeHit(1));
    assert w4 == LoggedIn(map[1 := Rotation(2, 7, 0, true, Issue)]);
    var w5 := Apply(w4, CommitRotation(1, 0));
    ws := ws0 + [w3, w4, w5];
    steps := steps0 + [BeginRotation(1, 2, 7), ConsumeHit(1), CommitRotation(1, 0)];
    assert w5.db == RotatedOnce(0).db by { CommitExample(); }
  }

  lemma CommitExample()
    ensures Rotated(LoggedIn(map[]).db, 2, 7, 0) == RotatedOnce(0).db
  {
    var db, end := Rotated(LoggedIn(map[]).db, 2, 7, 0), RotatedOnce(0).db;
    assert db.tokens.Keys == {2, 4} == end.tokens.Keys;
    assert db.access.Keys == {3, 5} == end.access.Keys;
    assert db.tokens == end.tokens && db.access == end.access;
    assert db.chains[1] == [2, 4];
    assert db.sessions == end.sessions && db.results == end.results && db.chains == end.chains;
  }

  lemma LateLookup(at: World)
    requires at == RotatedOnce(IDEMPOTENCY_LIFETIME)
    ensures Next(RotatedOnce(0), Tick(IDEMPOTENCY_LIFETIME), at)
    ensures TxsSound(at.db, at.txs) && MaySend(at, 2, 7) && UsedButAlive(at.db, 2, at.now) && LiveForConsume(at.db, 2, at.now)
    ensures !Recallable(at.db, 2, 7, at.now) && Rotatable(at.db, 2) && at.db.tokens[2].session == 1
  {
  }

  /** A run in which the client retries a lost response after ten minutes and loses its session. */
  lemma LateRetryExample() returns (ws: seq<World>, steps: seq<Step>)
    ensures IsRun(ws, steps) && !(ws[|steps|].owned !! ws[|steps|].replayed)
  {
    hide Initial;
    var ws0, steps0 := RotationExample();
    var w6 := RotatedOnce(IDEMPOTENCY_LIFETIME);
    assert w6.txs == map[] && w6.owned == {1} && w6.replayed == {};
    LateLookup(w6);
    hide RotatedOnce, Recallable, UsedButAlive, LiveForConsume, MaySend, TxsSound;
    var w7 := w6.(txs := map[1 := Rotation(2, 7, w6.now, true, Consume)]);
    var w8, w9 := w6.(txs := map[1 := w7.txs[1].(phase := Check)]), w6.(txs := map[1 := w7.txs[1].(phase := Recall)]);
    LookupSteps(w6, 1, 2, 7, w7, w8, w9);
    var w10 := w6.(db := Revoked(w6.db, 1), replayed := {1});
    assert Next(w9, RevokeReplay(1), w10);
    hide Enabled, Apply, Revoked;
    ws := ws0 + [w6, w7, w8, w9, w10];
    steps := steps0 + [Tick(IDEMPOTENCY_LIFETIME), BeginRotation(1, 2, 7), ConsumeMiss(1), CheckPasses(1), RevokeReplay(1)];
    assert 1 in w10.owned && 1 in w10.replayed;
  }

  /** A login whose transaction takes more than 275 days: its first token outlives the session's 365 days. */
  lemma SlowLoginExample() returns (ws: seq<World>, steps: seq<Step>)
    ensures IsRun(ws, steps)
    ensures var w := ws[|steps|];
            1 in w.db.sessions && 1 in w.slow && 2 in w.db.tokens && w.db.tokens[2].session == 1
            && !WithinLifetime(w.db, 1, w.db.tokens[2].expiresAt)
  {
    var w0 := World(Tables(map[], map[], map[], map[], map[], 1), map[], 0, {}, {}, Client(None, None), {}, {}, {});
    var late := ABSOLUTE_LIFETIME - IDLE_LIFETIME + 1;
    var w1 := Apply(w0, Tick(late));
    var w2 := Apply(w1, CreateSession(0, false));
    ws, steps := [w0, w1, w2], [Tick(late), CreateSession(0, false)];
  }
}
