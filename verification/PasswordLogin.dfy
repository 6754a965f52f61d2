/**
 * Logins and password changes as concurrent transactions.
 *
 * A login verifies the password against a hash it read without a lock, and later re-reads the hash under a share
 * lock on the user's row. A password change updates that row under an exclusive lock and then revokes sessions.
 * Password hashes are salted, so every hash is a fresh value. The step machine says when a statement may run and
 * what it makes visible; statements of different transactions interleave freely.
 */
module PasswordLogin {
  import opened Common

  /** A committed session; `verified` is the hash its password was checked against. */
  datatype Session = Session(user: int, verified: int, revoked: bool)

  datatype LoginPhase = Verified | Sharing

  datatype Login = Login(user: int, request: int, hash: int, phase: LoginPhase)

  /** `Revoking` keeps the sessions that the revoking UPDATE has matched but not yet published. */
  datatype ChangePhase = Ready | Holding | Revoking(sids: set<int>)

  datatype Change = Change(user: int, current: int, replacement: int, phase: ChangePhase)

  datatype World = World(
    users: map<int, int>,
    sessions: map<int, Session>,
    results: map<int, int>,
    logins: map<int, Login>,
    changes: map<int, Change>,
    nextId: int)

  datatype Step =
    | Register(user: int)
    | LoadCredentials(tx: int, user: int, request: int)
    | ShareAndRecheck(tx: int)
    | CredentialsChanged(tx: int)
    | CommitLogin(tx: int)
    | AbortLogin(tx: int)
    | ReadCurrent(tx: int, user: int)
    | UpdateHash(tx: int)
    | ChangeConflict(tx: int)
    | RevokeSessions(tx: int)
    | CommitChange(tx: int)
    | AbortChange(tx: int)
    | Logout(sid: int)
    | LogoutAll(user: int)

  /** The user's row is locked exclusively by an open password change. */
  predicate Writing(w: World, c: int, user: int) {
    c in w.changes && w.changes[c].user == user && !w.changes[c].phase.Ready?
  }

  predicate Reading(w: World, l: int, user: int) {
    l in w.logins && w.logins[l].user == user && w.logins[l].phase == Sharing
  }

  ghost predicate ShareFree(w: World, user: int) {
    forall c: int :: !Writing(w, c, user)
  }

  ghost predicate ExclusiveFree(w: World, user: int) {
    ShareFree(w, user) && forall l: int :: !Reading(w, l, user)
  }

  function ActiveSessions(w: World, user: int): set<int> {
    set sid | sid in w.sessions && w.sessions[sid].user == user && !w.sessions[sid].revoked
  }

  function RevokeAll(sessions: map<int, Session>, sids: set<int>): map<int, Session> {
    map sid | sid in sessions :: if sid in sids then sessions[sid].(revoked := true) else sessions[sid]
  }

  ghost predicate Enabled(w: World, s: Step) {
    match s
    case Register(u) => u !in w.users
    case LoadCredentials(l, u, _) => l !in w.logins && u in w.users
    case ShareAndRecheck(l) => l in w.logins && w.logins[l].phase == Verified && ShareFree(w, w.logins[l].user)
                               && w.logins[l].user in w.users && w.users[w.logins[l].user] == w.logins[l].hash
    case CredentialsChanged(l) => l in w.logins && w.logins[l].phase == Verified && ShareFree(w, w.logins[l].user)
                                  && w.logins[l].user in w.users && w.users[w.logins[l].user] != w.logins[l].hash
    case CommitLogin(l) => l in w.logins && w.logins[l].phase == Sharing && w.logins[l].request !in w.results
    case AbortLogin(l) => l in w.logins
    case ReadCurrent(c, u) => c !in w.changes && u in w.users
    case UpdateHash(c) => c in w.changes && w.changes[c].phase.Ready? && ExclusiveFree(w, w.changes[c].user)
                          && w.changes[c].user in w.users && w.users[w.changes[c].user] == w.changes[c].current
    case ChangeConflict(c) => c in w.changes && w.changes[c].phase.Ready? && ExclusiveFree(w, w.changes[c].user)
                              && w.changes[c].user in w.users && w.users[w.changes[c].user] != w.changes[c].current
    case RevokeSessions(c) => c in w.changes && w.changes[c].phase.Holding?
    case CommitChange(c) => c in w.changes && w.changes[c].phase.Revoking? && w.changes[c].user in w.users
    case AbortChange(c) => c in w.changes
    case Logout(sid) => sid in w.sessions
    case LogoutAll(u) => u in w.users
  }

  ghost function Apply(w: World, s: Step): World
    requires Enabled(w, s)
  {
    match s
    case Register(u) =>
      w.(users := w.users[u := w.nextId], sessions := w.sessions[w.nextId + 1 := Session(u, w.nextId, false)],
         nextId := w.nextId + 2)
    case LoadCredentials(l, u, q) => w.(logins := w.logins[l := Login(u, q, w.users[u], Verified)])
    case ShareAndRecheck(l) => w.(logins := w.logins[l := w.logins[l].(phase := Sharing)])
    case CredentialsChanged(l) => w.(logins := w.logins - {l})
    case CommitLogin(l) =>
      w.(sessions := w.sessions[w.nextId := Session(w.logins[l].user, w.logins[l].hash, false)],
         results := w.results[w.logins[l].request := w.nextId],
         logins := w.logins - {l},
         nextId := w.nextId + 1)
    case AbortLogin(l) => w.(logins := w.logins - {l})
    case ReadCurrent(c, u) =>
      w.(changes := w.changes[c := Change(u, w.users[u], w.nextId, Ready)], nextId := w.nextId + 1)
    case UpdateHash(c) => w.(changes := w.changes[c := w.changes[c].(phase := Holding)])
    case ChangeConflict(c) => w.(changes := w.changes - {c})
    case RevokeSessions(c) =>
      w.(changes := w.changes[c := w.changes[c].(phase := Revoking(ActiveSessions(w, w.changes[c].user)))])
    case CommitChange(c) =>
      w.(users := w.users[w.changes[c].user := w.changes[c].replacement],
         sessions := RevokeAll(w.sessions, w.changes[c].phase.sids),
         changes := w.changes - {c})
    case AbortChange(c) => w.(changes := w.changes - {c})
    case Logout(sid) => w.(sessions := RevokeAll(w.sessions, {sid}))
    case LogoutAll(u) => w.(sessions := RevokeAll(w.sessions, ActiveSessions(w, u)))
  }

  ghost predicate Next(w: World, s: Step, w': World) {
    Enabled(w, s) && w' == Apply(w, s)
  }

  predicate Initial(w: World) {
    w == World(map[], map[], map[], map[], map[], w.nextId)
  }

  ghost predicate IsRun(ws: seq<World>, steps: seq<Step>) {
    |ws| == |steps| + 1 && Initial(ws[0]) && forall i :: 0 <= i < |steps| ==> Next(ws[i], steps[i], ws[i + 1])
  }

  // ---------------------------------------------------------------- invariant

  /** Every session that still works was opened with the user's present password. */
  ghost predicate SessionsCurrent(w: World) {
    forall sid :: sid in w.sessions ==>
      w.sessions[sid].user in w.users
      && (!w.sessions[sid].revoked ==> w.sessions[sid].verified == w.users[w.sessions[sid].user])
  }

  /** A hash checked under the share lock stays current, and nobody is changing it. */
  ghost predicate LoginsSound(w: World) {
    forall l :: l in w.logins && w.logins[l].phase == Sharing ==>
      w.logins[l].user in w.users && w.users[w.logins[l].user] == w.logins[l].hash && ShareFree(w, w.logins[l].user)
  }

  /** A change that holds the row is the only one to do so, still finds the hash it verified, and misses no session. */
  ghost predicate ChangesSound(w: World) {
    && (forall c :: c in w.changes ==> w.changes[c].current < w.changes[c].replacement < w.nextId)
    && (forall c :: c in w.changes && !w.changes[c].phase.Ready? ==>
          w.changes[c].user in w.users && w.users[w.changes[c].user] == w.changes[c].current)
    && (forall c, d :: c in w.changes && Writing(w, d, w.changes[c].user) && !w.changes[c].phase.Ready? ==> c == d)
    && (forall c :: c in w.changes && w.changes[c].phase.Revoking? ==>
          ActiveSessions(w, w.changes[c].user) <= w.changes[c].phase.sids)
  }

  ghost predicate HashesOld(w: World) {
    && (forall u :: u in w.users ==> w.users[u] < w.nextId)
    && (forall sid :: sid in w.sessions ==> sid < w.nextId)
  }

  ghost predicate Inv(w: World) {
    SessionsCurrent(w) && LoginsSound(w) && ChangesSound(w) && HashesOld(w)
  }

  lemma LoginStepKeepsInv(w: World, s: Step)
    requires Inv(w) && Enabled(w, s)
    requires s.LoadCredentials? || s.ShareAndRecheck? || s.CredentialsChanged? || s.AbortLogin?
    ensures Inv(Apply(w, s))
  {
    var w' := Apply(w, s);
    forall c: int, u: int ensures Writing(w', c, u) <==> Writing(w, c, u) {
    }
    forall u: int ensures ActiveSessions(w', u) == ActiveSessions(w, u) {
    }
    assert SessionsCurrent(w');
    assert HashesOld(w');
    assert ChangesSound(w');
    assert LoginsSound(w');
  }

  lemma CommitLoginKeepsInv(w: World, l: int)
    requires Inv(w) && Enabled(w, CommitLogin(l))
    ensures Inv(Apply(w, CommitLogin(l)))
  {
    var w', user := Apply(w, CommitLogin(l)), w.logins[l].user;
    forall c: int, u: int ensures Writing(w', c, u) <==> Writing(w, c, u) {
    }
    forall u: int | u != user ensures ActiveSessions(w', u) == ActiveSessions(w, u) {
    }
    forall c | c in w.changes && !w.changes[c].phase.Ready? ensures w.changes[c].user != user {
      assert Writing(w, c, w.changes[c].user);
    }
  }

  lemma RegisterKeepsInv(w: World, user: int)
    requires Inv(w) && Enabled(w, Register(user))
    ensures Inv(Apply(w, Register(user)))
  {
    var w' := Apply(w, Register(user));
    forall c: int, u: int ensures Writing(w', c, u) <==> Writing(w, c, u) {
    }
    forall u: int | u != user ensures ActiveSessions(w', u) == ActiveSessions(w, u) {
    }
  }

  predicate IsChangeStep(s: Step) {
    s.ReadCurrent? || s.UpdateHash? || s.ChangeConflict? || s.RevokeSessions? || s.AbortChange?
  }

  lemma ChangeStepKeepsInv(w: World, s: Step)
    requires Inv(w) && Enabled(w, s) && IsChangeStep(s)
    ensures Inv(Apply(w, s))
  {
    hide ActiveSessions;
    var w' := Apply(w, s);
    ChangeStepFrame(w, s);
    assert SessionsCurrent(w') && HashesOld(w');
    if s.UpdateHash? {
      UpdateHashIsAlone(w, w', s.tx);
      UpdateHashKeepsChanges(w, s.tx);
    } else {
      QuietChangeKeepsInv(w, s);
    }
  }

  lemma ChangeStepFrame(w: World, s: Step)
    requires Enabled(w, s) && IsChangeStep(s)
    ensures var w' := Apply(w, s);
            && w'.sessions == w.sessions && w'.users == w.users && w'.logins == w.logins && w.nextId <= w'.nextId
            && (forall u: int :: ActiveSessions(w', u) == ActiveSessions(w, u))
            && (forall c: int, u: int :: Writing(w', c, u) ==> Writing(w, c, u) || s == UpdateHash(c))
            && (forall l: int, u: int :: Reading(w', l, u) <==> Reading(w, l, u))
  {
    var w' := Apply(w, s);
    forall u: int ensures ActiveSessions(w', u) == ActiveSessions(w, u) {
    }
  }

  lemma QuietChangeKeepsInv(w: World, s: Step)
    requires LoginsSound(w) && ChangesSound(w) && HashesOld(w) && Enabled(w, s) && IsChangeStep(s) && !s.UpdateHash?
    ensures LoginsSound(Apply(w, s)) && ChangesSound(Apply(w, s))
  {
    hide ActiveSessions;
    ChangeStepFrame(w, s);
  }

  lemma UpdateHashKeepsChanges(w: World, c: int)
    requires ChangesSound(w) && Enabled(w, UpdateHash(c))
    requires var w' := Apply(w, UpdateHash(c));
      forall a, d :: a in w'.changes && Writing(w', d, w'.changes[a].user) && !w'.changes[a].phase.Ready? ==> a == d
    ensures ChangesSound(Apply(w, UpdateHash(c)))
  {
    hide ActiveSessions;
    ChangeStepFrame(w, UpdateHash(c));
  }

  lemma UpdateHashIsAlone(w: World, w': World, c: int)
    requires Inv(w) && Enabled(w, UpdateHash(c)) && w' == Apply(w, UpdateHash(c))
    ensures LoginsSound(w')
    ensures forall a, d :: a in w'.changes && Writing(w', d, w'.changes[a].user) && !w'.changes[a].phase.Ready? ==> a == d
  {
    var user := w.changes[c].user;
    forall l | l in w.logins && w.logins[l].phase == Sharing ensures ShareFree(w', w.logins[l].user) {
      assert Reading(w, l, w.logins[l].user);
      assert w.logins[l].user != user;
      assert forall d: int :: Writing(w', d, w.logins[l].user) ==> Writing(w, d, w.logins[l].user);
    }
    forall a, d | a in w'.changes && Writing(w', d, w'.changes[a].user) && !w'.changes[a].phase.Ready? ensures a == d {
      if w.changes[a].user == user {
        assert !Writing(w, a, user) && !Writing(w, d, user);
      } else {
        assert Writing(w, d, w.changes[a].user);
      }
    }
  }

  lemma RevokingKeepsInv(w: World, w': World, sids: set<int>)
    requires Inv(w) && w' == w.(sessions := RevokeAll(w.sessions, sids))
    ensures Inv(w')
  {
    forall c: int, u: int ensures Writing(w', c, u) <==> Writing(w, c, u) {
    }
    forall u: int ensures ActiveSessions(w', u) <= ActiveSessions(w, u) {
    }
  }

  lemma CommitChangeKeepsInv(w: World, c: int)
    requires Inv(w) && Enabled(w, CommitChange(c))
    ensures Inv(Apply(w, CommitChange(c)))
  {
    var w', user := Apply(w, CommitChange(c)), w.changes[c].user;
    assert Writing(w, c, user);
    forall d: int, u: int | Writing(w', d, u) ensures Writing(w, d, u) && u != user {
    }
    forall u: int ensures ActiveSessions(w', u) <= ActiveSessions(w, u) {
    }
    forall sid | sid in w'.sessions && !w'.sessions[sid].revoked ensures w'.sessions[sid].user != user {
      assert sid in w.sessions && !w.sessions[sid].revoked;
      assert w.sessions[sid].user == user ==> sid in ActiveSessions(w, user);
    }
  }

  lemma StepKeepsInv(w: World, s: Step)
    requires Inv(w) && Enabled(w, s)
    ensures Inv(Apply(w, s))
  {
    hide Inv;
    match s
    case Register(u) => RegisterKeepsInv(w, u);
    case CommitLogin(l) => CommitLoginKeepsInv(w, l);
    case CommitChange(c) => CommitChangeKeepsInv(w, c);
    case Logout(sid) => RevokingKeepsInv(w, Apply(w, s), {sid});
    case LogoutAll(u) => RevokingKeepsInv(w, Apply(w, s), ActiveSessions(w, u));
    case LoadCredentials(_, _, _) => LoginStepKeepsInv(w, s);
    case ShareAndRecheck(_) => LoginStepKeepsInv(w, s);
    case CredentialsChanged(_) => LoginStepKeepsInv(w, s);
    case AbortLogin(_) => LoginStepKeepsInv(w, s);
    case _ => ChangeStepKeepsInv(w, s);
  }

  lemma {:induction false} RunKeepsInv(ws: seq<World>, steps: seq<Step>)
    requires IsRun(ws, steps)
    ensures forall i :: 0 <= i < |ws| ==> Inv(ws[i])
    decreases |steps|
  {
    hide Enabled, Apply;
    var n := |steps|;
    if n > 0 {
      RunKeepsInv(ws[..n], steps[..n - 1]);
      assert ws[..n][n - 1] == ws[n - 1];
      assert Next(ws[n - 1], steps[n - 1], ws[n]);
      StepKeepsInv(ws[n - 1], steps[n - 1]);
      forall i | 0 <= i < |ws| ensures Inv(ws[i]) {
        if i < n {
          assert ws[i] == ws[..n][i];
        }
      }
    }
  }

  // ---------------------------------------------------------------- theorems

  /** In every run, every unrevoked session was opened by verifying the user's present password hash. */
  lemma ActiveSessionsUseThePresentPassword(ws: seq<World>, steps: seq<Step>, i: nat, sid: int)
    requires IsRun(ws, steps) && i < |ws| && sid in ws[i].sessions
    ensures ws[i].sessions[sid].user in ws[i].users
    ensures !ws[i].sessions[sid].revoked ==> ws[i].sessions[sid].verified == ws[i].users[ws[i].sessions[sid].user]
  {
    RunKeepsInv(ws, steps);
    assert Inv(ws[i]);
  }

  /** A password hash is never current again once it has been replaced. */
  lemma StepKeepsHashes(w: World, s: Step, user: int)
    requires Inv(w) && Enabled(w, s) && user in w.users
    ensures user in Apply(w, s).users && w.users[user] <= Apply(w, s).users[user]
    ensures s.CommitChange? && w.changes[s.tx].user == user ==> w.users[user] < Apply(w, s).users[user]
  {
  }

  lemma {:induction false} HashesOnlyMoveOn(ws: seq<World>, steps: seq<Step>, i: nat, j: nat, user: int)
    requires IsRun(ws, steps) && i <= j < |ws| && user in ws[i].users
    ensures user in ws[j].users && ws[i].users[user] <= ws[j].users[user]
    decreases j - i
  {
    hide Enabled, Apply, Inv;
    if i < j {
      HashesOnlyMoveOn(ws, steps, i, j - 1, user);
      RunKeepsInv(ws, steps);
      assert Next(ws[j - 1], steps[j - 1], ws[j]) && Inv(ws[j - 1]);
      StepKeepsHashes(ws[j - 1], steps[j - 1], user);
    }
  }

  /**
   * After a password change commits, no session opened with an earlier hash of that user is ever unrevoked again,
   * however logins and changes interleave.
   */
  lemma PasswordChangeEndsOldSessions(ws: seq<World>, steps: seq<Step>, k: nat, i: nat, j: nat, sid: int)
    requires IsRun(ws, steps) && k <= i < j < |ws| && steps[i].CommitChange? && steps[i].tx in ws[i].changes
    requires var user := ws[i].changes[steps[i].tx].user;
             sid in ws[j].sessions && ws[j].sessions[sid].user == user
             && user in ws[k].users && ws[j].sessions[sid].verified == ws[k].users[user]
    ensures ws[j].sessions[sid].revoked
  {
    hide ChangesSound, LoginsSound, HashesOld;
    var user := ws[i].changes[steps[i].tx].user;
    RunKeepsInv(ws, steps);
    assert Inv(ws[i]) && Inv(ws[j]) && Next(ws[i], steps[i], ws[i + 1]);
    HashesOnlyMoveOn(ws, steps, k, i, user);
    StepKeepsHashes(ws[i], steps[i], user);
    HashesOnlyMoveOn(ws, steps, i + 1, j, user);
  }

  // ---------------------------------------------------------------- undisturbed runs

  /** A login whose statements nothing disturbs opens one session with the present hash and stores its result. */
  lemma SoloLoginIsAPath(w: World, l: int, user: int, request: int) returns (w1: World, w2: World, w3: World)
    requires l !in w.logins && user in w.users && ShareFree(w, user) && request !in w.results
    ensures Next(w, LoadCredentials(l, user, request), w1) && Next(w1, ShareAndRecheck(l), w2) && Next(w2, CommitLogin(l), w3)
    ensures w3 == w.(sessions := w.sessions[w.nextId := Session(user, w.users[user], false)],
                     results := w.results[request := w.nextId], nextId := w.nextId + 1)
  {
    w1 := Apply(w, LoadCredentials(l, user, request));
    assert forall c: int, u: int :: Writing(w1, c, u) <==> Writing(w, c, u);
    w2 := Apply(w1, ShareAndRecheck(l));
    w3 := Apply(w2, CommitLogin(l));
    assert w3.logins == w.logins;
  }

  /** A password change that nothing disturbs replaces the hash and revokes exactly the user's sessions. */
  lemma SoloChangeIsAPath(w: World, c: int, user: int) returns (w1: World, w2: World, w3: World, w4: World)
    requires c !in w.changes && user in w.users && ExclusiveFree(w, user)
    ensures Next(w, ReadCurrent(c, user), w1) && Next(w1, UpdateHash(c), w2)
    ensures Next(w2, RevokeSessions(c), w3) && Next(w3, CommitChange(c), w4)
    ensures w4.users == w.users[user := w.nextId] && w4.sessions.Keys == w.sessions.Keys
    ensures forall sid :: sid in w.sessions ==>
      w4.sessions[sid] == if w.sessions[sid].user == user then w.sessions[sid].(revoked := true) else w.sessions[sid]
    ensures w4.logins == w.logins && w4.changes == w.changes && w4.results == w.results
  {
    w1 := Apply(w, ReadCurrent(c, user));
    assert forall d: int, u: int :: Writing(w1, d, u) <==> Writing(w, d, u);
    assert forall l: int, u: int :: Reading(w1, l, u) <==> Reading(w, l, u);
    w2 := Apply(w1, UpdateHash(c));
    w3 := Apply(w2, RevokeSessions(c));
    w4 := Apply(w3, CommitChange(c));
    assert w4.changes == w.changes;
  }

  /** Logging out everywhere revokes exactly the user's sessions. */
  lemma LogoutAllRevokes(w: World, user: int)
    requires Enabled(w, LogoutAll(user))
    ensures var w' := Apply(w, LogoutAll(user));
            && w'.sessions.Keys == w.sessions.Keys && w'.users == w.users
            && forall sid :: sid in w.sessions ==>
                 w'.sessions[sid] == if w.sessions[sid].user == user then w.sessions[sid].(revoked := true) else w.sessions[sid]
  {
  }

  // ---------------------------------------------------------------- the handlers as they run

  /** The times of a session row and of the stored login result that names it, in seconds. */
  datatype Times = Times(createdAt: int, idleExpiresAt: int, resultExpiresAt: int)

  datatype LoginOutcome = Created(sid: int) | Existing(sid: int) | CredentialsChanged | RequestConflict

  /** The account tables, with the two handlers as they run without interference. */
  class Accounts {
    var users: map<int, int>
    var sessions: map<int, Session>
    var results: map<int, int>
    var times: map<int, Times>
    var nextId: int

    function View(): World
      reads this
    {
      World(users, sessions, results, map[], map[], nextId)
    }

    constructor ()
      ensures Inv(View()) && users == map[] && sessions == map[] && results == map[] && times == map[]
    {
      users, sessions, results, times, nextId := map[], map[], map[], map[], 1;
    }

    /**
     * `verifiedHash` is what the password was checked against, before the transaction began. A stored result is given
     * out again exactly while it and its session last: unexpired, unrevoked, and this user's.
     */
    method CreateIdempotentLogin(user: int, request: int, verifiedHash: int, now: int) returns (r: LoginOutcome)
      requires Inv(View()) && user in users
      modifies this
      ensures Inv(View()) && users == old(users)
      ensures r == LoginOutcome.CredentialsChanged <==> users[user] != verifiedHash
      ensures r.Created? <==> users[user] == verifiedHash && request !in old(results)
      ensures r.Existing? <==>
        && users[user] == verifiedHash && request in old(results)
        && old(results)[request] in old(sessions) && old(results)[request] in old(times)
        && old(sessions)[old(results)[request]].user == user && !old(sessions)[old(results)[request]].revoked
        && now < old(times)[old(results)[request]].resultExpiresAt && now < old(times)[old(results)[request]].idleExpiresAt
        && now - old(times)[old(results)[request]].createdAt < 365 * 24 * 3600
      ensures r.RequestConflict? <==> users[user] == verifiedHash && request in old(results) && !r.Existing?
      ensures r.Created? ==>
        && r.sid !in old(sessions) && sessions == old(sessions)[r.sid := Session(user, verifiedHash, false)]
        && results == old(results)[request := r.sid]
        && times == old(times)[r.sid := Times(now, now + 90 * 24 * 3600, now + 10 * 60)]
      ensures !r.Created? ==> sessions == old(sessions) && results == old(results) && times == old(times)
      ensures r.Existing? ==> results[request] == r.sid && r.sid in sessions && sessions[r.sid] == Session(user, users[user], false)
    {
      if users[user] != verifiedHash {
        return LoginOutcome.CredentialsChanged;
      }
      if request in results {
        var sid := results[request];
        if sid in sessions && sid in times && sessions[sid].user == user && times[sid].resultExpiresAt > now
          && !sessions[sid].revoked && times[sid].idleExpiresAt > now && times[sid].createdAt > now - ABSOLUTE_LIFETIME
        {
          return Existing(sid);
        }
        return RequestConflict;
      }
      sessions := sessions[nextId := Session(user, verifiedHash, false)];
      times := times[nextId := Times(now, now + IDLE_LIFETIME, now + IDEMPOTENCY_LIFETIME)];
      results := results[request := nextId];
      r := Created(nextId);
      nextId := nextId + 1;
    }

    /**
     * A login repeated under its request: within ten minutes it gets the same session, later it conflicts; it never
     * opens another one.
     */
    method LogInTwice(user: int, request: int, hash: int, first: int, later: int) returns (a: LoginOutcome, b: LoginOutcome)
      requires Inv(View()) && user in users && users[user] == hash && request !in results && first <= later
      modifies this
      ensures a.Created? && b == if later - first < 10 * 60 then Existing(a.sid) else RequestConflict
      ensures sessions == old(sessions)[a.sid := Session(user, hash, false)] && a.sid !in old(sessions)
      ensures users == old(users) && results == old(results)[request := a.sid]
    {
      a := CreateIdempotentLogin(user, request, hash, first);
      b := CreateIdempotentLogin(user, request, hash, later);
    }

    /** Refused when the hash is no longer the one that was checked; otherwise all sessions of the user end. */
    method ChangePassword(user: int, currentHash: int) returns (ok: bool)
      requires Inv(View()) && user in users
      modifies this
      ensures Inv(View()) && (ok <==> old(users)[user] == currentHash)
      ensures ok ==> users == old(users)[user := old(nextId)] && sessions.Keys == old(sessions).Keys
                     && forall sid :: sid in sessions ==>
                          sessions[sid] == if old(sessions)[sid].user == user then old(sessions)[sid].(revoked := true)
                                           else old(sessions)[sid]
      ensures !ok ==> users == old(users) && sessions == old(sessions)
      ensures results == old(results) && times == old(times)
    {
      if users[user] != currentHash {
        return false;
      }
      sessions := RevokeAll(sessions, ActiveSessions(View(), user));
      users := users[user := nextId];
      nextId := nextId + 1;
      ok := true;
    }
  }
}
