/**
 * Outbox workers over one table and one clock: any number of claim / publish / complete cycles, each of
 * which may stall, stop for good, or repeat its completion statements at any point.
 */
module OutboxWorkers {
  import opened Common
  import opened Outbox

  const NANOS_PER_MICRO := 1_000

  /** CURRENT_TIMESTAMP at time `t`: the database's clock counts whole microseconds, the workers' clock nanoseconds. */
  function DbClock(t: int): (r: int)
    ensures r <= t < r + NANOS_PER_MICRO
  {
    t / NANOS_PER_MICRO * NANOS_PER_MICRO
  }

  datatype Phase = Claiming | Publishing | Completing

  /** One cycle of one worker. A worker that dies is a cycle that takes no further step. */
  datatype Cycle = Cycle(phase: Phase, deadline: int, claims: map<int, Claimed>)

  /** A lock token that was handed out; `at` is the database's time of the claim. */
  datatype Issue = Issue(eventId: int, attempt: nat, at: int, cycle: int)

  datatype Completion = Completion(claim: Claimed, verdict: Verdict)

  /** A publication that began; `current` tells whether its token was still the row's token. */
  datatype Start = Start(claim: Claimed, at: int, current: bool)

  datatype Pool = Pool(
    table: Table,
    now: int,
    nextToken: int,
    known: set<int>,
    cycles: map<int, Cycle>,
    issued: map<int, Issue>,
    completions: seq<Completion>,
    starts: seq<Start>)

  datatype Step =
    | Tick(d: nat)
    | Insert(eventId: int, row: Row)
    | Cleanup(eventId: int)
    | Begin(cycle: int)
    | Claim(cycle: int, picks: seq<int>)
    | StartPublish(cycle: int, eventId: int)
    | StopPublishing(cycle: int)
    | CompleteSingle(cycle: int, eventId: int, outcome: Outcome)
    | PublishBatch(cycle: int, claims: seq<Claimed>)

  /** A new pending row, as the send transaction inserts it. */
  predicate NewRow(r: Row) {
    r.attempts == 0 && r.lockedUntil.None? && r.token.None? && Pending(r)
  }

  predicate Holds(p: Pool, cycle: int, phase: Phase, c: Claimed) {
    cycle in p.cycles && p.cycles[cycle].phase == phase
    && c.eventId in p.cycles[cycle].claims && p.cycles[cycle].claims[c.eventId] == c
  }

  ghost predicate Enabled(cfg: Config, p: Pool, s: Step) {
    match s
    case Tick(_) => true
    case Insert(id, row) => id !in p.known && NewRow(row)
    case Cleanup(id) => id in p.table && p.table[id].publishedAt.Some?
    case Begin(w) => w !in p.cycles
    case Claim(w, picks) =>
      && w in p.cycles && p.cycles[w].phase == Claiming
      && Distinct(picks) && |picks| <= ClaimLimit(cfg)
      && forall i :: 0 <= i < |picks| ==> picks[i] in p.table && Claimable(p.table[picks[i]], cfg.eventTypes, DbClock(p.now))
    case StartPublish(w, id) =>
      && w in p.cycles && p.cycles[w].phase == Publishing && id in p.cycles[w].claims
      && p.now < p.cycles[w].deadline
    case StopPublishing(w) => w in p.cycles && p.cycles[w].phase == Publishing
    case CompleteSingle(w, id, o) => o.claim.eventId == id && Holds(p, w, Completing, o.claim)
    case PublishBatch(w, cs) =>
      && (forall c :: c in cs ==> Holds(p, w, Completing, c))
      && (forall i, j :: 0 <= i < j < |cs| ==> cs[i].eventId != cs[j].eventId)
  }

  /** The claims that a cycle holds after its claim statement. */
  function ClaimsOf(t: Table, picks: seq<int>, first: int): map<int, Claimed>
    requires forall i :: 0 <= i < |picks| ==> picks[i] in t
    decreases |picks|
  {
    if picks == [] then map[]
    else ClaimsOf(t, picks[1..], first + 1)[picks[0] := Claimed(picks[0], t[picks[0]].attempts + 1, first)]
  }

  function IssuesOf(t: Table, picks: seq<int>, first: int, now: int, cycle: int): map<int, Issue>
    requires forall i :: 0 <= i < |picks| ==> picks[i] in t
    decreases |picks|
  {
    if picks == [] then map[]
    else IssuesOf(t, picks[1..], first + 1, now, cycle)[first := Issue(picks[0], t[picks[0]].attempts + 1, now, cycle)]
  }

  function Successes(t: Table, cs: seq<Claimed>): seq<Completion>
    decreases |cs|
  {
    if cs == [] then []
    else (if Owned(t, cs[0]) then [Completion(cs[0], Published)] else []) + Successes(t, cs[1..])
  }

  ghost function Apply(cfg: Config, p: Pool, s: Step): Pool
    requires cfg.leaseDuration > 0 && Enabled(cfg, p, s)
  {
    match s
    case Tick(d) => p.(now := p.now + d)
    case Insert(id, row) => p.(table := p.table[id := row], known := p.known + {id})
    case Cleanup(id) => p.(table := p.table - {id})
    case Begin(w) => p.(cycles := p.cycles[w := Cycle(Claiming, p.now + cfg.attemptTimeout, map[])])
    case Claim(w, picks) =>
      p.(table := ClaimRows(p.table, picks, DbClock(p.now) + TruncatedLease(cfg), p.nextToken),
         nextToken := p.nextToken + |picks|,
         cycles := p.cycles[w := p.cycles[w].(phase := Publishing, claims := ClaimsOf(p.table, picks, p.nextToken))],
         issued := p.issued + IssuesOf(p.table, picks, p.nextToken, DbClock(p.now), w))
    case StartPublish(w, id) =>
      var c := p.cycles[w].claims[id];
      p.(starts := p.starts + [Start(c, p.now, c.eventId in p.table && p.table[c.eventId].token == Some(c.token))])
    case StopPublishing(w) => p.(cycles := p.cycles[w := p.cycles[w].(phase := Completing)])
    case CompleteSingle(w, id, o) =>
      var (t, ok) := Complete(p.table, o.claim, VerdictOf(o, cfg), DbClock(p.now));
      p.(table := t, completions := if ok then p.completions + [Completion(o.claim, VerdictOf(o, cfg))] else p.completions)
    case PublishBatch(w, cs) =>
      p.(table := PublishMatching(p.table, cs, DbClock(p.now)), completions := p.completions + Successes(p.table, cs))
  }

  ghost predicate Initial(p: Pool) {
    p.table == map[] && p.known == {} && p.cycles == map[] && p.issued == map[] && p.completions == [] && p.starts == []
  }

  ghost predicate Next(cfg: Config, p: Pool, p': Pool)
    requires cfg.leaseDuration > 0
  {
    exists s :: Enabled(cfg, p, s) && p' == Apply(cfg, p, s)
  }

  ghost predicate IsRun(cfg: Config, ps: seq<Pool>)
    requires cfg.leaseDuration > 0
  {
    |ps| > 0 && Initial(ps[0]) && forall i :: 0 <= i < |ps| - 1 ==> Next(cfg, ps[i], ps[i + 1])
  }

  // ---------------------------------------------------------------- invariants

  predicate IsDone(p: Pool, token: int) {
    exists i :: 0 <= i < |p.completions| && p.completions[i].claim.token == token
  }

  function RetryCount(cs: seq<Completion>, id: int): nat {
    if cs == [] then 0
    else RetryCount(cs[..|cs| - 1], id) +
         (if cs[|cs| - 1].claim.eventId == id && cs[|cs| - 1].verdict.Retry? then 1 else 0)
  }

  /** Locks come in pairs, terminal states exclude each other and carry no lock. */
  predicate RowSound(r: Row) {
    && (r.token.Some? <==> r.lockedUntil.Some?)
    && !(r.publishedAt.Some? && r.deadAt.Some?)
    && (!Pending(r) ==> r.token.None?)
  }

  /** A row's token is the last one issued for it, with its attempt number and its lease. */
  ghost predicate TokenIssued(cfg: Config, p: Pool, id: int)
    requires cfg.leaseDuration > 0 && id in p.table
  {
    var r := p.table[id];
    r.token.Some? ==>
      && r.token.value in p.issued
      && p.issued[r.token.value].eventId == id && p.issued[r.token.value].attempt == r.attempts
      && r.lockedUntil == Some(p.issued[r.token.value].at + TruncatedLease(cfg))
      && !IsDone(p, r.token.value)
  }

  ghost predicate TableInv(cfg: Config, p: Pool)
    requires cfg.leaseDuration > 0
  {
    && (forall id :: id in p.table ==> id in p.known && RowSound(p.table[id]) && TokenIssued(cfg, p, id))
    && (forall k :: k in p.issued ==> k < p.nextToken && p.issued[k].eventId in p.known && p.issued[k].cycle in p.cycles)
  }

  /** What cycles hold was issued to them, before their deadline minus the attempt timeout. */
  ghost predicate CyclesInv(cfg: Config, p: Pool) {
    forall w, id {:trigger p.cycles[w].claims[id]} :: w in p.cycles && id in p.cycles[w].claims ==>
      var c := p.cycles[w].claims[id];
      && c.eventId == id && c.token in p.issued
      && p.issued[c.token].eventId == id && p.issued[c.token].attempt == c.attempt && p.issued[c.token].cycle == w
      && p.cycles[w].deadline < p.issued[c.token].at + NANOS_PER_MICRO + cfg.attemptTimeout
  }

  /** An uncompleted token is still its row's token, or its lease has run out; done tokens were issued once. */
  ghost predicate LeaseInv(cfg: Config, p: Pool)
    requires cfg.leaseDuration > 0
  {
    && (forall k :: k in p.issued ==>
          || IsDone(p, k)
          || (p.issued[k].eventId in p.table && p.table[p.issued[k].eventId].token == Some(k))
          || p.now >= p.issued[k].at + TruncatedLease(cfg))
    && (forall k :: IsDone(p, k) ==> k in p.issued && p.issued[k].cycle in p.cycles && p.cycles[p.issued[k].cycle].phase == Completing)
    && (forall w :: w in p.cycles && p.cycles[w].phase == Claiming ==>
          p.cycles[w].claims == map[] && p.cycles[w].deadline <= p.now + cfg.attemptTimeout
          && forall k :: k in p.issued ==> p.issued[k].cycle != w)
  }

  /** Every retry was scheduled by a claim that is over; a current claim is still to spend. */
  ghost predicate RetriesPaid(p: Pool, id: int)
    requires id in p.table
  {
    RetryCount(p.completions, id) + (if p.table[id].token.Some? then 1 else 0) <= p.table[id].attempts
  }

  /** Each token completes at most once, and retries are paid for by claimed attempts. */
  ghost predicate CompletionsInv(cfg: Config, p: Pool) {
    && (forall i, j :: 0 <= i < j < |p.completions| ==> p.completions[i].claim.token != p.completions[j].claim.token)
    && (forall id :: RetryCount(p.completions, id) <= cfg.maxAttempts - 1)
    && (forall id :: id !in p.known ==> RetryCount(p.completions, id) == 0)
    && (forall id :: id in p.table ==> RetriesPaid(p, id))
  }

  /** Claims of one event carry growing attempt numbers, up to the row's counter. */
  ghost predicate AttemptsInv(p: Pool) {
    && (forall k :: k in p.issued && p.issued[k].eventId in p.table ==> p.issued[k].attempt <= p.table[p.issued[k].eventId].attempts)
    && (forall j, k | j in p.issued && k in p.issued && j < k && p.issued[j].eventId == p.issued[k].eventId ::
          p.issued[j].attempt < p.issued[k].attempt)
  }

  ghost predicate Inv(cfg: Config, p: Pool)
    requires cfg.leaseDuration > 0
  {
    TableInv(cfg, p) && CyclesInv(cfg, p) && LeaseInv(cfg, p) && CompletionsInv(cfg, p) && AttemptsInv(p)
  }

  lemma InitialInv(cfg: Config, p: Pool)
    requires ValidConfig(cfg) && Initial(p)
    ensures Inv(cfg, p)
  {
  }

  // ---------------------------------------------------------------- the claim statement

  lemma {:induction false} ClaimsOfFacts(t: Table, picks: seq<int>, first: int)
    requires Distinct(picks) && forall i :: 0 <= i < |picks| ==> picks[i] in t
    ensures forall id :: id in ClaimsOf(t, picks, first) <==> id in picks
    ensures forall i :: 0 <= i < |picks| ==>
      ClaimsOf(t, picks, first)[picks[i]] == Claimed(picks[i], t[picks[i]].attempts + 1, first + i)
    decreases |picks|
  {
    if picks != [] {
      ClaimsOfFacts(t, picks[1..], first + 1);
      forall i | 0 < i < |picks| ensures picks[i] == picks[1..][i - 1] {}
      forall id ensures id in ClaimsOf(t, picks, first) <==> id in picks {
        if id in picks {
          var i :| 0 <= i < |picks| && picks[i] == id;
          if i > 0 { assert picks[1..][i - 1] == id; }
        }
      }
    }
  }

  lemma {:induction false} IssuesOfFacts(t: Table, picks: seq<int>, first: int, now: int, cycle: int)
    requires forall i :: 0 <= i < |picks| ==> picks[i] in t
    ensures forall k :: k in IssuesOf(t, picks, first, now, cycle) <==> first <= k < first + |picks|
    ensures forall k :: first <= k < first + |picks| ==>
      IssuesOf(t, picks, first, now, cycle)[k] == Issue(picks[k - first], t[picks[k - first]].attempts + 1, now, cycle)
    decreases |picks|
  {
    if picks != [] {
      IssuesOfFacts(t, picks[1..], first + 1, now, cycle);
    }
  }

  /** The claim statement handed row `id` to cycle `w` under token `k`. */
  ghost predicate Handed(cfg: Config, p: Pool, p': Pool, w: int, id: int, k: int)
    requires cfg.leaseDuration > 0
  {
    && id in p.table && id in p'.table && p.nextToken <= k < p'.nextToken && k in p'.issued
    && Claimable(p.table[id], cfg.eventTypes, DbClock(p.now))
    && p'.table[id] == ClaimRow(p.table[id], DbClock(p.now) + TruncatedLease(cfg), k)
    && p'.issued[k] == Issue(id, p.table[id].attempts + 1, DbClock(p.now), w)
  }

  ghost predicate HandedSome(cfg: Config, p: Pool, p': Pool, w: int, id: int)
    requires cfg.leaseDuration > 0
  {
    exists k :: Handed(cfg, p, p', w, id, k)
  }

  /** The effect of a claim statement, row by row, claim by claim and token by token. */
  ghost predicate ClaimEffect(cfg: Config, p: Pool, p': Pool, w: int)
    requires cfg.leaseDuration > 0
  {
    && p'.now == p.now && p'.known == p.known && p'.completions == p.completions && p'.nextToken >= p.nextToken
    && p'.table.Keys == p.table.Keys
    && (forall id :: id in p.table ==> p'.table[id] == p.table[id] || HandedSome(cfg, p, p', w, id))
    && w in p.cycles && p.cycles[w].phase == Claiming && w in p'.cycles
    && p'.cycles == p.cycles[w := p'.cycles[w]]
    && p'.cycles[w].phase == Publishing && p'.cycles[w].deadline == p.cycles[w].deadline
    && (forall id :: id in p'.cycles[w].claims ==>
          id == p'.cycles[w].claims[id].eventId && Handed(cfg, p, p', w, id, p'.cycles[w].claims[id].token)
          && p'.cycles[w].claims[id].attempt == p'.table[id].attempts)
    && (forall k :: k in p.issued ==> k < p.nextToken && k in p'.issued && p'.issued[k] == p.issued[k])
    && (forall k :: k in p'.issued && k !in p.issued ==> k < p'.nextToken && Handed(cfg, p, p', w, p'.issued[k].eventId, k))
  }

  lemma ClaimRowsAt(t: Table, picks: seq<int>, until: int, first: int, i: nat)
    requires Distinct(picks) && (forall j :: 0 <= j < |picks| ==> picks[j] in t) && i < |picks|
    ensures picks[i] in ClaimRows(t, picks, until, first)
    ensures ClaimRows(t, picks, until, first)[picks[i]] == ClaimRow(t[picks[i]], until, first + i)
  {
    ClaimRowsFacts(t, picks, until, first);
  }

  lemma IssuesOfAt(t: Table, picks: seq<int>, first: int, now: int, cycle: int, i: nat)
    requires (forall j :: 0 <= j < |picks| ==> picks[j] in t) && i < |picks|
    ensures first + i in IssuesOf(t, picks, first, now, cycle)
    ensures IssuesOf(t, picks, first, now, cycle)[first + i] == Issue(picks[i], t[picks[i]].attempts + 1, now, cycle)
  {
    IssuesOfFacts(t, picks, first, now, cycle);
  }

  lemma HandedByToken(cfg: Config, p: Pool, p': Pool, w: int, id: int, k: int)
    requires cfg.leaseDuration > 0 && Handed(cfg, p, p', w, id, k)
    ensures HandedSome(cfg, p, p', w, id)
  {
  }

  /** The candidate query's guarantees about the rows it selected. */
  ghost predicate Selected(cfg: Config, p: Pool, picks: seq<int>) {
    Distinct(picks) && forall i :: 0 <= i < |picks| ==> picks[i] in p.table && Claimable(p.table[picks[i]], cfg.eventTypes, DbClock(p.now))
  }

  lemma PickIsHanded(cfg: Config, p: Pool, p': Pool, w: int, picks: seq<int>, i: nat)
    requires cfg.leaseDuration > 0 && Selected(cfg, p, picks) && i < |picks|
    requires p'.table == ClaimRows(p.table, picks, DbClock(p.now) + TruncatedLease(cfg), p.nextToken)
    requires p'.issued == p.issued + IssuesOf(p.table, picks, p.nextToken, DbClock(p.now), w) && p'.nextToken == p.nextToken + |picks|
    ensures Handed(cfg, p, p', w, picks[i], p.nextToken + i)
  {
    hide ClaimRows, IssuesOf, TruncatedLease, Claimable, Distinct;
    ClaimRowsAt(p.table, picks, DbClock(p.now) + TruncatedLease(cfg), p.nextToken, i);
    IssuesOfAt(p.table, picks, p.nextToken, DbClock(p.now), w, i);
  }

  lemma PickedRows(cfg: Config, p: Pool, p': Pool, w: int, picks: seq<int>)
    requires cfg.leaseDuration > 0 && Selected(cfg, p, picks)
    requires p'.table == ClaimRows(p.table, picks, DbClock(p.now) + TruncatedLease(cfg), p.nextToken)
    requires p'.issued == p.issued + IssuesOf(p.table, picks, p.nextToken, DbClock(p.now), w) && p'.nextToken == p.nextToken + |picks|
    ensures p'.table.Keys == p.table.Keys
    ensures forall id :: id in p.table ==> p'.table[id] == p.table[id] || HandedSome(cfg, p, p', w, id)
  {
    hide ClaimRows, IssuesOf, TruncatedLease, HandedSome, Claimable;
    ClaimRowsFacts(p.table, picks, DbClock(p.now) + TruncatedLease(cfg), p.nextToken);
    forall id | id in p.table ensures p'.table[id] == p.table[id] || HandedSome(cfg, p, p', w, id) {
      if id in picks {
        var i :| 0 <= i < |picks| && picks[i] == id;
        PickIsHanded(cfg, p, p', w, picks, i);
        HandedByToken(cfg, p, p', w, id, p.nextToken + i);
      }
    }
  }

  lemma PickedClaims(cfg: Config, p: Pool, p': Pool, w: int, picks: seq<int>)
    requires cfg.leaseDuration > 0 && Selected(cfg, p, picks)
    requires p'.table == ClaimRows(p.table, picks, DbClock(p.now) + TruncatedLease(cfg), p.nextToken)
    requires p'.issued == p.issued + IssuesOf(p.table, picks, p.nextToken, DbClock(p.now), w) && p'.nextToken == p.nextToken + |picks|
    requires w in p'.cycles && p'.cycles[w].claims == ClaimsOf(p.table, picks, p.nextToken)
    ensures forall id :: id in p'.cycles[w].claims ==>
      id == p'.cycles[w].claims[id].eventId && Handed(cfg, p, p', w, id, p'.cycles[w].claims[id].token)
      && p'.cycles[w].claims[id].attempt == p'.table[id].attempts
  {
    hide ClaimRows, ClaimsOf, IssuesOf, TruncatedLease, Claimable;
    ClaimsOfFacts(p.table, picks, p.nextToken);
    forall id | id in p'.cycles[w].claims
      ensures id == p'.cycles[w].claims[id].eventId && Handed(cfg, p, p', w, id, p'.cycles[w].claims[id].token)
              && p'.cycles[w].claims[id].attempt == p'.table[id].attempts
    {
      var i :| 0 <= i < |picks| && picks[i] == id;
      PickIsHanded(cfg, p, p', w, picks, i);
    }
  }

  lemma PickedTokens(cfg: Config, p: Pool, p': Pool, w: int, picks: seq<int>)
    requires cfg.leaseDuration > 0 && Selected(cfg, p, picks) && forall k :: k in p.issued ==> k < p.nextToken
    requires p'.table == ClaimRows(p.table, picks, DbClock(p.now) + TruncatedLease(cfg), p.nextToken)
    requires p'.issued == p.issued + IssuesOf(p.table, picks, p.nextToken, DbClock(p.now), w) && p'.nextToken == p.nextToken + |picks|
    ensures forall k :: k in p.issued ==> k < p.nextToken && k in p'.issued && p'.issued[k] == p.issued[k]
    ensures forall k :: k in p'.issued && k !in p.issued ==> k < p'.nextToken && Handed(cfg, p, p', w, p'.issued[k].eventId, k)
  {
    hide ClaimRows, IssuesOf, TruncatedLease, Claimable;
    IssuesOfFacts(p.table, picks, p.nextToken, DbClock(p.now), w);
    forall k | k in p'.issued && k !in p.issued ensures k < p'.nextToken && Handed(cfg, p, p', w, p'.issued[k].eventId, k) {
      PickIsHanded(cfg, p, p', w, picks, k - p.nextToken);
      assert picks[k - p.nextToken] == p'.issued[k].eventId;
    }
  }

  lemma ClaimHasEffect(cfg: Config, p: Pool, w: int, picks: seq<int>)
    requires cfg.leaseDuration > 0 && TableInv(cfg, p) && Enabled(cfg, p, Claim(w, picks))
    ensures ClaimEffect(cfg, p, Apply(cfg, p, Claim(w, picks)), w)
  {
    hide TokenIssued, RowSound, ClaimRows, ClaimsOf, IssuesOf, Claimable, TruncatedLease, HandedSome, Handed;
    var p' := Apply(cfg, p, Claim(w, picks));
    PickedRows(cfg, p, p', w, picks);
    PickedClaims(cfg, p, p', w, picks);
    PickedTokens(cfg, p, p', w, picks);
  }

  /** One row under the claim statement: untouched, or handed out under a token that nobody has completed. */
  lemma ClaimKeepsRow(cfg: Config, p: Pool, p': Pool, w: int, id: int)
    requires ValidConfig(cfg) && id in p.table && id in p'.table && RowSound(p.table[id]) && TokenIssued(cfg, p, id)
    requires p'.table[id] == p.table[id] || HandedSome(cfg, p, p', w, id)
    requires p'.completions == p.completions && forall k :: IsDone(p, k) ==> k in p.issued
    requires forall k :: k in p.issued ==> k < p.nextToken && k in p'.issued && p'.issued[k] == p.issued[k]
    ensures RowSound(p'.table[id]) && TokenIssued(cfg, p', id)
  {
    hide IsDone, TruncatedLease;
    SameDone(p, p');
    if p'.table[id] != p.table[id] {
      var k :| Handed(cfg, p, p', w, id, k);
    }
  }

  lemma ClaimKeepsTable(cfg: Config, p: Pool, p': Pool, w: int)
    requires ValidConfig(cfg) && TableInv(cfg, p) && LeaseInv(cfg, p) && ClaimEffect(cfg, p, p', w)
    ensures TableInv(cfg, p')
  {
    hide IsDone, RowSound, TokenIssued, HandedSome, TruncatedLease, Claimable;
    forall id | id in p'.table ensures id in p'.known && RowSound(p'.table[id]) && TokenIssued(cfg, p', id) {
      ClaimKeepsRow(cfg, p, p', w, id);
    }
  }

  lemma ClaimKeepsCycles(cfg: Config, p: Pool, p': Pool, w: int)
    requires ValidConfig(cfg) && LeaseInv(cfg, p) && CyclesInv(cfg, p) && ClaimEffect(cfg, p, p', w)
    ensures CyclesInv(cfg, p')
  {
    hide IsDone, HandedSome;
    forall v, id {:trigger p'.cycles[v].claims[id]} | v in p'.cycles && id in p'.cycles[v].claims
      ensures var c := p'.cycles[v].claims[id];
        && c.eventId == id && c.token in p'.issued
        && p'.issued[c.token].eventId == id && p'.issued[c.token].attempt == c.attempt && p'.issued[c.token].cycle == v
        && p'.cycles[v].deadline < p'.issued[c.token].at + NANOS_PER_MICRO + cfg.attemptTimeout
    {
      if v == w {
        assert Handed(cfg, p, p', w, id, p'.cycles[w].claims[id].token);
      } else {
        assert p.cycles[v].claims[id].token in p.issued;
      }
    }
  }

  lemma ClaimKeepsLeases(cfg: Config, p: Pool, p': Pool, w: int)
    requires ValidConfig(cfg) && TableInv(cfg, p) && LeaseInv(cfg, p) && ClaimEffect(cfg, p, p', w)
    ensures LeaseInv(cfg, p')
  {
    assert forall k :: IsDone(p', k) == IsDone(p, k);
    forall k | k in p'.issued
      ensures || IsDone(p', k)
              || (p'.issued[k].eventId in p'.table && p'.table[p'.issued[k].eventId].token == Some(k))
              || p'.now >= p'.issued[k].at + TruncatedLease(cfg)
    {
      if k in p.issued {
        var id := p.issued[k].eventId;
        if id in p.table && p.table[id].token == Some(k) && p'.table[id] != p.table[id] {
          assert TokenIssued(cfg, p, id) && HandedSome(cfg, p, p', w, id);
        }
      }
    }
  }

  lemma ClaimKeepsCompletions(cfg: Config, p: Pool, p': Pool, w: int)
    requires ValidConfig(cfg) && CompletionsInv(cfg, p) && ClaimEffect(cfg, p, p', w)
    requires TableInv(cfg, p)
    ensures CompletionsInv(cfg, p')
  {
    forall id | id in p'.table ensures RetriesPaid(p', id) {
      assert id in p.table && RetriesPaid(p, id);
      if p'.table[id] != p.table[id] { assert HandedSome(cfg, p, p', w, id); }
    }
  }

  lemma ClaimKeepsAttempts(cfg: Config, p: Pool, p': Pool, w: int)
    requires ValidConfig(cfg) && AttemptsInv(p) && ClaimEffect(cfg, p, p', w) && forall k :: k in p.issued ==> k < p.nextToken
    ensures AttemptsInv(p')
  {
    hide ClaimEffect;
    forall k | k in p'.issued && p'.issued[k].eventId in p'.table
      ensures p'.issued[k].attempt <= p'.table[p'.issued[k].eventId].attempts
    {
      TokenBelowCounter(cfg, p, p', w, k);
    }
    forall j, k | j in p'.issued && k in p'.issued && j < k && p'.issued[j].eventId == p'.issued[k].eventId
      ensures p'.issued[j].attempt < p'.issued[k].attempt
    {
      LaterTokenHigher(cfg, p, p', w, j, k);
    }
  }

  lemma TokenBelowCounter(cfg: Config, p: Pool, p': Pool, w: int, k: int)
    requires ValidConfig(cfg) && AttemptsInv(p) && ClaimEffect(cfg, p, p', w)
    requires k in p'.issued && p'.issued[k].eventId in p'.table
    ensures p'.issued[k].attempt <= p'.table[p'.issued[k].eventId].attempts
  {
    hide HandedSome, IsDone, TruncatedLease, Claimable;
    var id := p'.issued[k].eventId;
    if k in p.issued && p'.table[id] != p.table[id] {
      HandedRaises(cfg, p, p', w, id);
    }
  }

  lemma HandedRaises(cfg: Config, p: Pool, p': Pool, w: int, id: int)
    requires cfg.leaseDuration > 0 && HandedSome(cfg, p, p', w, id)
    ensures id in p.table && id in p'.table && p'.table[id].attempts == p.table[id].attempts + 1
  {
    hide TruncatedLease, Claimable;
  }

  lemma LaterTokenHigher(cfg: Config, p: Pool, p': Pool, w: int, j: int, k: int)
    requires ValidConfig(cfg) && AttemptsInv(p) && ClaimEffect(cfg, p, p', w) && forall n :: n in p.issued ==> n < p.nextToken
    requires j in p'.issued && k in p'.issued && j < k && p'.issued[j].eventId == p'.issued[k].eventId
    ensures p'.issued[j].attempt < p'.issued[k].attempt
  {
    hide HandedSome, IsDone, TruncatedLease, Claimable;
    var id := p'.issued[k].eventId;
    assert k !in p.issued ==> Handed(cfg, p, p', w, id, k);
    assert j !in p.issued ==> Handed(cfg, p, p', w, id, j);
  }

  lemma ClaimKeepsInv(cfg: Config, p: Pool, w: int, picks: seq<int>)
    requires ValidConfig(cfg) && Inv(cfg, p) && Enabled(cfg, p, Claim(w, picks))
    ensures Inv(cfg, Apply(cfg, p, Claim(w, picks)))
  {
    assert forall k :: k in p.issued ==> k < p.nextToken;
    hide Apply, Enabled, TableInv, CyclesInv, LeaseInv, CompletionsInv, AttemptsInv, ClaimEffect;
    var p' := Apply(cfg, p, Claim(w, picks));
    assert AttemptsInv(p);
    ClaimHasEffect(cfg, p, w, picks);
    ClaimKeepsTable(cfg, p, p', w);
    ClaimKeepsCycles(cfg, p, p', w);
    ClaimKeepsLeases(cfg, p, p', w);
    ClaimKeepsCompletions(cfg, p, p', w);
    ClaimKeepsAttempts(cfg, p, p', w);
  }

  // ---------------------------------------------------------------- completion statements

  lemma CompletionAppended(p: Pool, p': Pool, c: Completion)
    requires p'.completions == p.completions + [c]
    ensures forall k :: IsDone(p', k) <==> IsDone(p, k) || k == c.claim.token
    ensures forall id :: RetryCount(p'.completions, id) == RetryCount(p.completions, id) + (if c.claim.eventId == id && c.verdict.Retry? then 1 else 0)
  {
    assert p'.completions[..|p.completions|] == p.completions;
    assert p'.completions[|p.completions|] == c;
    forall k | IsDone(p, k) ensures IsDone(p', k) {
      var i :| 0 <= i < |p.completions| && p.completions[i].claim.token == k;
      assert p'.completions[i].claim.token == k;
    }
  }

  /** The pool after an owned row completed. */
  ghost function AfterCompletion(cfg: Config, p: Pool, o: Outcome): Pool {
    p.(table := Complete(p.table, o.claim, VerdictOf(o, cfg), DbClock(p.now)).0,
       completions := p.completions + [Completion(o.claim, VerdictOf(o, cfg))])
  }

  lemma OwnedCompletionKeepsTable(cfg: Config, p: Pool, o: Outcome)
    requires ValidConfig(cfg) && TableInv(cfg, p) && AttemptsInv(p) && Owned(p.table, o.claim)
    ensures TableInv(cfg, AfterCompletion(cfg, p, o)) && AttemptsInv(AfterCompletion(cfg, p, o))
  {
    hide VerdictOf;
    var c, p' := o.claim, AfterCompletion(cfg, p, o);
    CompletionAppended(p, p', Completion(c, VerdictOf(o, cfg)));
    hide IsDone;
    forall e | e in p'.table ensures e in p'.known && RowSound(p'.table[e]) && TokenIssued(cfg, p', e) {
      assert RowSound(p.table[e]) && TokenIssued(cfg, p, e) && TokenIssued(cfg, p, c.eventId);
    }
  }

  lemma OwnedCompletionKeepsLeases(cfg: Config, p: Pool, w: int, o: Outcome)
    requires ValidConfig(cfg) && CyclesInv(cfg, p) && LeaseInv(cfg, p)
    requires Holds(p, w, Completing, o.claim) && Owned(p.table, o.claim)
    ensures CyclesInv(cfg, AfterCompletion(cfg, p, o)) && LeaseInv(cfg, AfterCompletion(cfg, p, o))
  {
    hide VerdictOf;
    var c, p' := o.claim, AfterCompletion(cfg, p, o);
    CompletionAppended(p, p', Completion(c, VerdictOf(o, cfg)));
    hide IsDone;
    assert p.cycles[w].claims[c.eventId] == c;
  }

  lemma OwnedCompletionKeepsCounts(cfg: Config, p: Pool, w: int, o: Outcome)
    requires ValidConfig(cfg) && TableInv(cfg, p) && CyclesInv(cfg, p) && CompletionsInv(cfg, p)
    requires Holds(p, w, Completing, o.claim) && Owned(p.table, o.claim)
    ensures CompletionsInv(cfg, AfterCompletion(cfg, p, o))
  {
    var c, p' := o.claim, AfterCompletion(cfg, p, o);
    CompletionAppended(p, p', Completion(c, VerdictOf(o, cfg)));
    assert p.cycles[w].claims[c.eventId] == c;
    assert TokenIssued(cfg, p, c.eventId) && RetriesPaid(p, c.eventId);
    assert p.issued[c.token].attempt == c.attempt == p.table[c.eventId].attempts;
    forall e | e in p'.table ensures RetriesPaid(p', e) { assert RetriesPaid(p, e); }
    forall i, j | 0 <= i < j < |p'.completions| ensures p'.completions[i].claim.token != p'.completions[j].claim.token {
      if j == |p.completions| { assert IsDone(p, p.completions[i].claim.token); }
    }
  }

  /** One owned row completes: its token is spent, its retry, if any, was paid for by a claim. */
  lemma OwnedCompletionKeepsInv(cfg: Config, p: Pool, w: int, o: Outcome)
    requires ValidConfig(cfg) && Inv(cfg, p) && Holds(p, w, Completing, o.claim) && Owned(p.table, o.claim)
    ensures Inv(cfg, AfterCompletion(cfg, p, o))
  {
    hide TableInv, CyclesInv, LeaseInv, CompletionsInv, AttemptsInv, AfterCompletion;
    OwnedCompletionKeepsTable(cfg, p, o);
    OwnedCompletionKeepsLeases(cfg, p, w, o);
    OwnedCompletionKeepsCounts(cfg, p, w, o);
  }

  lemma CompleteSingleKeepsInv(cfg: Config, p: Pool, w: int, id: int, o: Outcome)
    requires ValidConfig(cfg) && Inv(cfg, p) && Enabled(cfg, p, CompleteSingle(w, id, o))
    ensures Inv(cfg, Apply(cfg, p, CompleteSingle(w, id, o)))
  {
    if Owned(p.table, o.claim) {
      OwnedCompletionKeepsInv(cfg, p, w, o);
    }
  }

  /** The pool after the first event of a batch. */
  ghost function AfterFirst(cfg: Config, p: Pool, cs: seq<Claimed>): Pool
    requires cs != []
  {
    if Owned(p.table, cs[0]) then
      p.(table := Complete(p.table, cs[0], Published, DbClock(p.now)).0, completions := p.completions + [Completion(cs[0], Published)])
    else p
  }

  lemma BatchSplits(cfg: Config, p: Pool, w: int, cs: seq<Claimed>)
    requires cfg.leaseDuration > 0 && Enabled(cfg, p, PublishBatch(w, cs)) && cs != []
    ensures Holds(p, w, Completing, cs[0])
    ensures Enabled(cfg, AfterFirst(cfg, p, cs), PublishBatch(w, cs[1..]))
    ensures Apply(cfg, p, PublishBatch(w, cs)) == Apply(cfg, AfterFirst(cfg, p, cs), PublishBatch(w, cs[1..]))
  {
    var first := AfterFirst(cfg, p, cs);
    forall c | c in cs[1..] ensures Holds(first, w, Completing, c) { assert c in cs; }
    BatchUnfolds(p.table, first.table, cs, DbClock(p.now));
  }

  /** The batch statement keeps the invariant because it acts like its single statements in turn. */
  lemma {:induction false} BatchKeepsInv(cfg: Config, p: Pool, w: int, cs: seq<Claimed>)
    requires ValidConfig(cfg) && Inv(cfg, p) && Enabled(cfg, p, PublishBatch(w, cs))
    ensures Inv(cfg, Apply(cfg, p, PublishBatch(w, cs)))
    decreases |cs|
  {
    if cs == [] {
      assert PublishMatching(p.table, cs, DbClock(p.now)) == p.table;
      assert Apply(cfg, p, PublishBatch(w, cs)) == p;
    } else {
      hide Inv, Apply, Enabled, Owned;
      BatchSplits(cfg, p, w, cs);
      if Owned(p.table, cs[0]) {
        OwnedCompletionKeepsInv(cfg, p, w, Delivered(cs[0]));
      }
      BatchKeepsInv(cfg, AfterFirst(cfg, p, cs), w, cs[1..]);
    }
  }

  lemma BatchUnfolds(t: Table, t1: Table, cs: seq<Claimed>, now: int)
    requires cs != [] && t1 == Complete(t, cs[0], Published, now).0
    requires forall i, j :: 0 <= i < j < |cs| ==> cs[i].eventId != cs[j].eventId
    ensures PublishMatching(t, cs, now) == PublishMatching(t1, cs[1..], now)
    ensures Successes(t, cs) == (if Owned(t, cs[0]) then [Completion(cs[0], Published)] else []) + Successes(t1, cs[1..])
  {
    var tail := cs[1..];
    forall i | 0 <= i < |tail| ensures tail[i].eventId != cs[0].eventId && (Owned(t1, tail[i]) <==> Owned(t, tail[i])) {
      assert tail[i] == cs[i + 1];
    }
    SameSuccesses(t, t1, tail);
    BatchUnfoldsRows(t, t1, cs, now);
  }

  lemma BatchUnfoldsRows(t: Table, t1: Table, cs: seq<Claimed>, now: int)
    requires cs != [] && t1 == Complete(t, cs[0], Published, now).0
    requires var tail := cs[1..];
      forall i :: 0 <= i < |tail| ==> tail[i].eventId != cs[0].eventId && (Owned(t1, tail[i]) <==> Owned(t, tail[i]))
    ensures PublishMatching(t, cs, now) == PublishMatching(t1, cs[1..], now)
  {
    var tail := cs[1..];
    var b, b1 := PublishMatching(t, cs, now), PublishMatching(t1, tail, now);
    forall id | id in t ensures id in b1 && b[id] == b1[id] {
      if i :| 0 <= i < |cs| && cs[i].eventId == id && Owned(t, cs[i]) {
        assert i > 0 ==> tail[i - 1] == cs[i];
      }
    }
  }

  lemma {:induction false} SameSuccesses(t: Table, t1: Table, cs: seq<Claimed>)
    requires forall i :: 0 <= i < |cs| ==> (Owned(t1, cs[i]) <==> Owned(t, cs[i]))
    ensures Successes(t, cs) == Successes(t1, cs)
    decreases |cs|
  {
    if cs != [] {
      assert Owned(t1, cs[0]) <==> Owned(t, cs[0]);
      forall i | 0 <= i < |cs[1..]| ensures Owned(t1, cs[1..][i]) <==> Owned(t, cs[1..][i]) { assert cs[1..][i] == cs[i + 1]; }
      SameSuccesses(t, t1, cs[1..]);
    }
  }

  /** The rest of the invariant does not look at a row that is added or removed. */
  lemma RowSetKeepsRest(cfg: Config, p: Pool, p': Pool)
    requires ValidConfig(cfg) && CyclesInv(cfg, p) && p'.cycles == p.cycles && p'.issued == p.issued
    ensures CyclesInv(cfg, p')
  {
  }

  /** Adding or removing a row that no live claim needs keeps every lease. */
  lemma RowSetKeepsLeases(cfg: Config, p: Pool, p': Pool)
    requires ValidConfig(cfg) && LeaseInv(cfg, p) && p'.cycles == p.cycles && p'.issued == p.issued
    requires p'.completions == p.completions && p'.now == p.now
    requires forall e :: e in p.table && p.table[e].token.Some? ==> e in p'.table && p'.table[e] == p.table[e]
    ensures LeaseInv(cfg, p')
  {
    hide IsDone, TruncatedLease;
    SameDone(p, p');
  }

  lemma InsertKeepsInv(cfg: Config, p: Pool, id: int, row: Row)
    requires ValidConfig(cfg) && Inv(cfg, p) && Enabled(cfg, p, Insert(id, row))
    ensures Inv(cfg, Apply(cfg, p, Insert(id, row)))
  {
    hide IsDone, RetryCount, RowSound, TokenIssued, RetriesPaid, CyclesInv, LeaseInv, TruncatedLease;
    var p' := Apply(cfg, p, Insert(id, row));
    RowSetKeepsRest(cfg, p, p');
    RowSetKeepsLeases(cfg, p, p');
    assert RetryCount(p.completions, id) == 0;
    forall e | e in p'.table ensures e in p'.known && RowSound(p'.table[e]) && TokenIssued(cfg, p', e) && RetriesPaid(p', e) {
      if e == id {
        NewRowIsSound(cfg, p', id);
      } else {
        SameRowIsSound(cfg, p, p', e);
      }
    }
  }

  lemma NewRowIsSound(cfg: Config, p: Pool, id: int)
    requires ValidConfig(cfg) && id in p.table && NewRow(p.table[id]) && RetryCount(p.completions, id) == 0
    ensures RowSound(p.table[id]) && TokenIssued(cfg, p, id) && RetriesPaid(p, id)
  {
    hide RetryCount, IsDone;
  }

  lemma SameRowIsSound(cfg: Config, p: Pool, p': Pool, id: int)
    requires ValidConfig(cfg) && id in p.table && id in p'.table && p'.table[id] == p.table[id]
    requires p'.completions == p.completions && p'.issued == p.issued
    requires RowSound(p.table[id]) && TokenIssued(cfg, p, id) && RetriesPaid(p, id)
    ensures RowSound(p'.table[id]) && TokenIssued(cfg, p', id) && RetriesPaid(p', id)
  {
    hide RetryCount, IsDone, RowSound;
    SameDone(p, p');
  }

  lemma CleanupKeepsInv(cfg: Config, p: Pool, id: int)
    requires ValidConfig(cfg) && Inv(cfg, p) && Enabled(cfg, p, Cleanup(id))
    ensures Inv(cfg, Apply(cfg, p, Cleanup(id)))
  {
    hide IsDone, RetryCount, RowSound, TokenIssued, RetriesPaid, CyclesInv, LeaseInv, TruncatedLease;
    var p' := Apply(cfg, p, Cleanup(id));
    RowSetKeepsRest(cfg, p, p');
    PublishedHasNoToken(p.table[id]);
    RowSetKeepsLeases(cfg, p, p');
    forall e | e in p'.table ensures RowSound(p'.table[e]) && TokenIssued(cfg, p', e) && RetriesPaid(p', e) {
      SameRowIsSound(cfg, p, p', e);
    }
  }

  lemma PublishedHasNoToken(r: Row)
    requires RowSound(r) && r.publishedAt.Some?
    ensures r.token.None?
  {
  }

  /** Steps that touch neither the table nor the tokens: time passes, cycles begin or stop publishing. */
  ghost predicate Framed(cfg: Config, p: Pool, p': Pool) {
    && p'.table == p.table && p'.issued == p.issued && p'.completions == p.completions
    && p'.known == p.known && p'.nextToken == p.nextToken && p'.now >= p.now
    && (forall w | w in p.cycles ::
          && w in p'.cycles
          && p'.cycles[w].claims == p.cycles[w].claims && p'.cycles[w].deadline == p.cycles[w].deadline
          && (p'.cycles[w].phase == p.cycles[w].phase || (p.cycles[w].phase == Publishing && p'.cycles[w].phase == Completing)))
    && (forall w :: w in p'.cycles && w !in p.cycles ==> p'.cycles[w] == Cycle(Claiming, p'.now + cfg.attemptTimeout, map[]))
  }

  lemma FramedKeepsTable(cfg: Config, p: Pool, p': Pool)
    requires ValidConfig(cfg) && TableInv(cfg, p) && CompletionsInv(cfg, p) && AttemptsInv(p) && Framed(cfg, p, p')
    ensures TableInv(cfg, p') && CompletionsInv(cfg, p') && AttemptsInv(p')
  {
    hide IsDone, RetryCount, RowSound;
    SameDone(p, p');
    forall id | id in p'.table ensures RowSound(p'.table[id]) && TokenIssued(cfg, p', id) && RetriesPaid(p', id) {
      assert RowSound(p.table[id]) && TokenIssued(cfg, p, id) && RetriesPaid(p, id);
    }
  }

  lemma SameDone(p: Pool, p': Pool)
    requires p'.completions == p.completions
    ensures forall k :: IsDone(p', k) == IsDone(p, k)
  {
  }

  lemma FramedKeepsLeases(cfg: Config, p: Pool, p': Pool)
    requires ValidConfig(cfg) && CyclesInv(cfg, p) && LeaseInv(cfg, p) && Framed(cfg, p, p')
    requires forall k :: k in p.issued ==> p.issued[k].cycle in p.cycles
    ensures CyclesInv(cfg, p') && LeaseInv(cfg, p')
  {
    assert forall k :: IsDone(p', k) == IsDone(p, k);
  }

  lemma FramedKeepsInv(cfg: Config, p: Pool, p': Pool)
    requires ValidConfig(cfg) && Inv(cfg, p) && Framed(cfg, p, p')
    ensures Inv(cfg, p')
  {
    assert forall k :: k in p.issued ==> p.issued[k].cycle in p.cycles;
    hide TableInv, CyclesInv, LeaseInv, CompletionsInv, AttemptsInv, Framed;
    FramedKeepsTable(cfg, p, p');
    FramedKeepsLeases(cfg, p, p');
  }

  lemma StepKeepsInv(cfg: Config, p: Pool, s: Step)
    requires ValidConfig(cfg) && Inv(cfg, p) && Enabled(cfg, p, s)
    ensures Inv(cfg, Apply(cfg, p, s))
  {
    hide Inv;
    match s
    case Claim(w, picks) => ClaimKeepsInv(cfg, p, w, picks);
    case CompleteSingle(w, id, o) => CompleteSingleKeepsInv(cfg, p, w, id, o);
    case PublishBatch(w, cs) => BatchKeepsInv(cfg, p, w, cs);
    case Insert(id, row) => InsertKeepsInv(cfg, p, id, row);
    case Cleanup(id) => CleanupKeepsInv(cfg, p, id);
    case _ => FramedKeepsInv(cfg, p, Apply(cfg, p, s));
  }

  lemma {:induction false} RunKeepsInv(cfg: Config, ps: seq<Pool>, i: nat)
    requires ValidConfig(cfg) && IsRun(cfg, ps) && i < |ps|
    ensures Inv(cfg, ps[i])
  {
    hide Inv, Apply, Enabled;
    if i == 0 {
      InitialInv(cfg, ps[0]);
    } else {
      RunKeepsInv(cfg, ps, i - 1);
      assert Next(cfg, ps[i - 1], ps[i - 1 + 1]);
      var s :| Enabled(cfg, ps[i - 1], s) && ps[i] == Apply(cfg, ps[i - 1], s);
      StepKeepsInv(cfg, ps[i - 1], s);
    }
  }

  // ---------------------------------------------------------------- theorems over whole runs

  /** A token completes at most once; once it has, or once a later claim was made, it owns nothing. */
  lemma TokensCompleteAtMostOnce(cfg: Config, ps: seq<Pool>, i: nat)
    requires ValidConfig(cfg) && IsRun(cfg, ps) && i < |ps|
    ensures forall a, b :: 0 <= a < b < |ps[i].completions| ==> ps[i].completions[a].claim.token != ps[i].completions[b].claim.token
    ensures forall c: Claimed | IsDone(ps[i], c.token) :: !Owned(ps[i].table, c)
    ensures forall j, k | j in ps[i].issued && k in ps[i].issued && j < k && ps[i].issued[j].eventId == ps[i].issued[k].eventId ::
      !Owned(ps[i].table, Claimed(ps[i].issued[j].eventId, ps[i].issued[j].attempt, j))
  {
    RunKeepsInv(cfg, ps, i);
    var p := ps[i];
    forall c: Claimed | IsDone(p, c.token) ensures !Owned(p.table, c) {
      if c.eventId in p.table { assert TokenIssued(cfg, p, c.eventId); }
    }
    forall j, k | j in p.issued && k in p.issued && j < k && p.issued[j].eventId == p.issued[k].eventId
      ensures !Owned(p.table, Claimed(p.issued[j].eventId, p.issued[j].attempt, j))
    {
      if p.issued[j].eventId in p.table { assert TokenIssued(cfg, p, p.issued[j].eventId); }
    }
  }

  /** The claim was completed before, or its event was claimed again since. */
  ghost predicate Stale(p: Pool, c: Claimed) {
    || IsDone(p, c.token)
    || (c.token in p.issued && p.issued[c.token] == Issue(c.eventId, c.attempt, p.issued[c.token].at, p.issued[c.token].cycle)
        && exists k :: k in p.issued && c.token < k && p.issued[k].eventId == c.eventId)
  }

  /**
   * In every state of every run, completing a stale claim with any verdict changes no row and reports the lost lease,
   * and adding it to a batch changes neither what the batch publishes nor what it matches.
   */
  lemma StaleTokensChangeNothing(cfg: Config, ps: seq<Pool>, i: nat, c: Claimed, v: Verdict, now: int, cs: seq<Claimed>)
    requires ValidConfig(cfg) && IsRun(cfg, ps) && i < |ps| && Stale(ps[i], c)
    ensures Complete(ps[i].table, c, v, now) == (ps[i].table, false)
    ensures PublishMatching(ps[i].table, cs + [c], now) == PublishMatching(ps[i].table, cs, now)
    ensures MatchedIds(ps[i].table, cs + [c]) == MatchedIds(ps[i].table, cs)
  {
    TokensCompleteAtMostOnce(cfg, ps, i);
    hide IsRun, IsDone;
    var t := ps[i].table;
    assert !Owned(t, c);
    var all := cs + [c];
    assert forall k :: 0 <= k < |cs| ==> all[k] == cs[k];
    assert all[|cs|] == c;
  }

  /** Nobody can claim event `id` before the database's clock reads `due`. */
  predicate Waits(p: Pool, id: int, due: int) {
    && id in p.known
    && (DbClock(p.now) >= due || (id in p.table ==> p.table[id].token.None? && p.table[id].nextAttemptAt >= due))
  }

  lemma ClockMovesOn(a: int, b: int)
    requires a <= b
    ensures DbClock(a) <= DbClock(b)
  {
  }

  lemma StepKeepsWaiting(cfg: Config, p: Pool, s: Step, id: int, due: int)
    requires ValidConfig(cfg) && TableInv(cfg, p) && Enabled(cfg, p, s) && Waits(p, id, due)
    ensures var p' := Apply(cfg, p, s);
      Waits(p', id, due) && forall k :: k in p'.issued && k !in p.issued && p'.issued[k].eventId == id ==> p'.issued[k].at >= due
  {
    hide TruncatedLease, TokenIssued, DbClock, ClaimRows, ClaimsOf, IssuesOf, RowSound;
    var p' := Apply(cfg, p, s);
    if s.Claim? {
      ClaimWaits(cfg, p, s.cycle, s.picks, id, due);
    } else if s.Tick? {
      ClockMovesOn(p.now, p'.now);
    }
  }

  lemma ClaimWaits(cfg: Config, p: Pool, w: int, picks: seq<int>, id: int, due: int)
    requires ValidConfig(cfg) && TableInv(cfg, p) && Enabled(cfg, p, Claim(w, picks)) && Waits(p, id, due)
    ensures var p' := Apply(cfg, p, Claim(w, picks));
      Waits(p', id, due) && forall k :: k in p'.issued && k !in p.issued && p'.issued[k].eventId == id ==> p'.issued[k].at >= due
  {
    ClaimHasEffect(cfg, p, w, picks);
    var p' := Apply(cfg, p, Claim(w, picks));
    hide Apply, Enabled, TableInv, TruncatedLease, DbClock;
    if id in p.table && p'.table[id] != p.table[id] {
      assert HandedSome(cfg, p, p', w, id);
    }
    forall k | k in p'.issued && k !in p.issued && p'.issued[k].eventId == id ensures p'.issued[k].at >= due {
      assert Handed(cfg, p, p', w, id, k);
    }
  }

  lemma {:induction false} RunKeepsWaiting(cfg: Config, ps: seq<Pool>, i: nat, j: nat, id: int, due: int)
    requires ValidConfig(cfg) && IsRun(cfg, ps) && i <= j < |ps| && Waits(ps[i], id, due)
    ensures Waits(ps[j], id, due)
    ensures forall k :: k in ps[j].issued && k !in ps[i].issued && ps[j].issued[k].eventId == id ==> ps[j].issued[k].at >= due
    decreases j - i
  {
    hide Inv, Apply, Enabled, Waits;
    if i < j {
      RunKeepsWaiting(cfg, ps, i, j - 1, id, due);
      RunKeepsInv(cfg, ps, j - 1);
      assert Next(cfg, ps[j - 1], ps[j - 1 + 1]);
      var s :| Enabled(cfg, ps[j - 1], s) && ps[j] == Apply(cfg, ps[j - 1], s);
      InvHasTable(cfg, ps[j - 1]);
      StepKeepsWaiting(cfg, ps[j - 1], s, id, due);
      IssuesStay(cfg, ps[j - 1], s);
    }
  }

  lemma InvHasTable(cfg: Config, p: Pool)
    requires cfg.leaseDuration > 0 && Inv(cfg, p)
    ensures TableInv(cfg, p)
  {
  }

  lemma IssuesStay(cfg: Config, p: Pool, s: Step)
    requires ValidConfig(cfg) && TableInv(cfg, p) && Enabled(cfg, p, s)
    ensures forall k :: k in p.issued ==> k in Apply(cfg, p, s).issued && Apply(cfg, p, s).issued[k] == p.issued[k]
  {
    hide TokenIssued, RowSound, ClaimRows, ClaimsOf, IssuesOf, TruncatedLease, DbClock;
    if s.Claim? {
      IssuesOfFacts(p.table, s.picks, p.nextToken, DbClock(p.now), s.cycle);
    }
  }

  /**
   * An event that failed temporarily is not handed out again before its delay is over: if a completion reschedules it,
   * every later claim of it, in any run, is made `delayMillis` milliseconds after the completion at the earliest.
   */
  lemma RetriesWait(cfg: Config, ps: seq<Pool>, i: nat, j: nat, w: int, o: Outcome, k: int)
    requires ValidConfig(cfg) && IsRun(cfg, ps) && i < j < |ps|
    requires Enabled(cfg, ps[i], CompleteSingle(w, o.claim.eventId, o))
             && ps[i + 1] == Apply(cfg, ps[i], CompleteSingle(w, o.claim.eventId, o))
    requires Owned(ps[i].table, o.claim) && VerdictOf(o, cfg).Retry?
    requires k in ps[j].issued && k !in ps[i].issued && ps[j].issued[k].eventId == o.claim.eventId
    ensures ps[j].issued[k].at >= DbClock(ps[i].now) + VerdictOf(o, cfg).delayMillis * NANOS_PER_MILLI
  {
    RunKeepsInv(cfg, ps, i);
    InvHasTable(cfg, ps[i]);
    var id, due := o.claim.eventId, DbClock(ps[i].now) + VerdictOf(o, cfg).delayMillis * NANOS_PER_MILLI;
    RescheduledWaits(cfg, ps[i], w, o, due);
    hide Inv, Apply, Enabled, Waits, VerdictOf;
    RunKeepsWaiting(cfg, ps, i + 1, j, id, due);
  }

  lemma RescheduledWaits(cfg: Config, p: Pool, w: int, o: Outcome, due: int)
    requires ValidConfig(cfg) && TableInv(cfg, p) && Enabled(cfg, p, CompleteSingle(w, o.claim.eventId, o))
    requires Owned(p.table, o.claim) && VerdictOf(o, cfg).Retry?
    requires due == DbClock(p.now) + VerdictOf(o, cfg).delayMillis * NANOS_PER_MILLI
    ensures var p' := Apply(cfg, p, CompleteSingle(w, o.claim.eventId, o));
      Waits(p', o.claim.eventId, due) && p'.issued == p.issued
  {
    hide VerdictOf, DbClock, TokenIssued, RowSound;
  }

  /** Only events of the worker's own types are ever handed out. */
  lemma {:induction false} OnlyOwnTypesAreClaimed(cfg: Config, ps: seq<Pool>, i: nat, k: int)
    requires ValidConfig(cfg) && IsRun(cfg, ps) && i < |ps| && k in ps[i].issued && ps[i].issued[k].eventId in ps[i].table
    ensures ps[i].table[ps[i].issued[k].eventId].eventType in cfg.eventTypes
  {
    hide Inv, Apply, Enabled;
    if i > 0 {
      RunKeepsInv(cfg, ps, i - 1);
      assert Next(cfg, ps[i - 1], ps[i - 1 + 1]);
      var s :| Enabled(cfg, ps[i - 1], s) && ps[i] == Apply(cfg, ps[i - 1], s);
      InvHasTable(cfg, ps[i - 1]);
      IssuesStay(cfg, ps[i - 1], s);
      StepKeepsTypes(cfg, ps[i - 1], s, k);
      if k in ps[i - 1].issued {
        OnlyOwnTypesAreClaimed(cfg, ps, i - 1, k);
      }
    }
  }

  lemma StepKeepsTypes(cfg: Config, p: Pool, s: Step, k: int)
    requires ValidConfig(cfg) && TableInv(cfg, p) && Enabled(cfg, p, s)
    requires k in Apply(cfg, p, s).issued && Apply(cfg, p, s).issued[k].eventId in Apply(cfg, p, s).table
    ensures var p', id := Apply(cfg, p, s), Apply(cfg, p, s).issued[k].eventId;
      if k in p.issued then id in p.table && p'.table[id].eventType == p.table[id].eventType
      else p'.table[id].eventType in cfg.eventTypes
  {
    hide TokenIssued, RowSound, ClaimRows, ClaimsOf, IssuesOf, TruncatedLease, DbClock, VerdictOf;
    if s.Claim? {
      ClaimHasEffect(cfg, p, s.cycle, s.picks);
      var p' := Apply(cfg, p, s);
      hide Apply, Enabled;
      var id := p'.issued[k].eventId;
      if k !in p.issued {
        assert Handed(cfg, p, p', s.cycle, id, k);
      } else if p'.table[id] != p.table[id] {
        assert HandedSome(cfg, p, p', s.cycle, id);
      }
    }
  }

  /** No event is rescheduled more than MaxAttempts - 1 times, however often its workers died. */
  lemma RetriesAreBounded(cfg: Config, ps: seq<Pool>, i: nat, id: int)
    requires ValidConfig(cfg) && IsRun(cfg, ps) && i < |ps|
    ensures RetryCount(ps[i].completions, id) <= cfg.maxAttempts - 1
  {
    RunKeepsInv(cfg, ps, i);
  }

  lemma RowIsSound(cfg: Config, p: Pool, id: int)
    requires cfg.leaseDuration > 0 && Inv(cfg, p) && id in p.table
    ensures RowSound(p.table[id]) && id in p.known
  {
  }

  lemma TerminalRowFrozen(cfg: Config, p: Pool, s: Step, id: int)
    requires ValidConfig(cfg) && Enabled(cfg, p, s) && id in p.table && id in p.known && !Pending(p.table[id]) && RowSound(p.table[id])
    ensures id in Apply(cfg, p, s).table ==> Apply(cfg, p, s).table[id] == p.table[id]
    ensures p.table[id].deadAt.Some? ==> id in Apply(cfg, p, s).table
    ensures id in Apply(cfg, p, s).known
  {
    hide ClaimRows, ClaimsOf, IssuesOf;
    if s.Claim? {
      ClaimRowsFacts(p.table, s.picks, DbClock(p.now) + TruncatedLease(cfg), p.nextToken);
    }
  }

  lemma GoneStaysGone(cfg: Config, p: Pool, s: Step, id: int)
    requires ValidConfig(cfg) && Enabled(cfg, p, s) && id in p.known && id !in p.table
    ensures id in Apply(cfg, p, s).known && id !in Apply(cfg, p, s).table
  {
    if s.Claim? {
      ClaimRowsFacts(p.table, s.picks, DbClock(p.now) + TruncatedLease(cfg), p.nextToken);
    }
  }

  /** Published and dead exclude each other and are final: the row never changes again, and only cleanup of a published row removes it. */
  lemma {:induction false} TerminalStatesAreFinal(cfg: Config, ps: seq<Pool>, i: nat, j: nat, id: int)
    requires ValidConfig(cfg) && IsRun(cfg, ps) && i <= j < |ps|
    requires id in ps[i].table && !Pending(ps[i].table[id])
    ensures ps[i].table[id].publishedAt.Some? != ps[i].table[id].deadAt.Some?
    ensures id in ps[j].table ==> ps[j].table[id] == ps[i].table[id]
    ensures id !in ps[j].table ==> ps[i].table[id].publishedAt.Some?
    ensures id in ps[j].known
    decreases j - i
  {
    hide Inv, Apply, Enabled;
    RunKeepsInv(cfg, ps, i);
    RowIsSound(cfg, ps[i], id);
    if i < j {
      TerminalStatesAreFinal(cfg, ps, i, j - 1, id);
      assert Next(cfg, ps[j - 1], ps[j - 1 + 1]);
      var s :| Enabled(cfg, ps[j - 1], s) && ps[j] == Apply(cfg, ps[j - 1], s);
      if id in ps[j - 1].table {
        TerminalRowFrozen(cfg, ps[j - 1], s, id);
      } else {
        GoneStaysGone(cfg, ps[j - 1], s, id);
      }
    }
  }

  // ---------------------------------------------------------------- when publications begin

  /** In every run every publication begins while its token is the row's current token. */
  ghost predicate StartsAreOwned(cfg: Config)
    requires cfg.leaseDuration > 0
  {
    forall ps: seq<Pool>, i, k :: IsRun(cfg, ps) && 0 <= i < |ps| && 0 <= k < |ps[i].starts| ==> ps[i].starts[k].current
  }

  /** The attempt is over by the time the stored lease is, wherever in its microsecond the claim was made. */
  predicate AttemptFits(cfg: Config)
    requires cfg.leaseDuration > 0
  {
    cfg.attemptTimeout + (NANOS_PER_MICRO - 1) <= TruncatedLease(cfg)
  }

  lemma StartIsCurrent(cfg: Config, p: Pool, w: int, id: int)
    requires ValidConfig(cfg) && Inv(cfg, p) && AttemptFits(cfg)
    requires Enabled(cfg, p, StartPublish(w, id))
    ensures id in p.table && p.table[id].token == Some(p.cycles[w].claims[id].token) && p.cycles[w].claims[id].eventId == id
  {
    var k := p.cycles[w].claims[id].token;
    assert k in p.issued && p.issued[k].cycle == w;
  }

  /** A step keeps the starts on record, and one that it adds is current. */
  lemma StepStarts(cfg: Config, p: Pool, s: Step, k: nat)
    requires ValidConfig(cfg) && Inv(cfg, p) && AttemptFits(cfg) && Enabled(cfg, p, s)
    requires k < |Apply(cfg, p, s).starts|
    ensures if k < |p.starts| then Apply(cfg, p, s).starts[k] == p.starts[k] else Apply(cfg, p, s).starts[k].current
  {
    hide Inv, TruncatedLease, ClaimRows, ClaimsOf, IssuesOf;
    if s.StartPublish? {
      StartIsCurrent(cfg, p, s.cycle, s.eventId);
    }
  }

  lemma {:induction false} ShortAttemptsStartOwned(cfg: Config, ps: seq<Pool>, i: nat, k: nat)
    requires ValidConfig(cfg) && AttemptFits(cfg)
    requires IsRun(cfg, ps) && i < |ps| && k < |ps[i].starts|
    ensures ps[i].starts[k].current
  {
    hide Inv, TruncatedLease, Enabled, Apply;
    if i > 0 {
      RunKeepsInv(cfg, ps, i - 1);
      assert Next(cfg, ps[i - 1], ps[i - 1 + 1]);
      var s :| Enabled(cfg, ps[i - 1], s) && ps[i] == Apply(cfg, ps[i - 1], s);
      StepStarts(cfg, ps[i - 1], s, k);
      if k < |ps[i - 1].starts| {
        ShortAttemptsStartOwned(cfg, ps, i - 1, k);
      }
    }
  }

  /** The last nanosecond of the database's microsecond 0. */
  const LATE := NANOS_PER_MICRO - 1

  /** One row, claimed by cycle 1 at time `LATE`, which the database reads as 0, under token 0. */
  function ClaimedOnce(cfg: Config, kind: string): Pool
    requires cfg.leaseDuration > 0
  {
    Pool(map[1 := Row(kind, 1, 0, Some(TruncatedLease(cfg)), Some(0), None, None)], LATE, 1, {1},
         map[1 := Cycle(Publishing, LATE + cfg.attemptTimeout, map[1 := Claimed(1, 1, 0)])], map[0 := Issue(1, 1, 0, 1)], [], [])
  }

  /** The new row, before and after cycle 1 begins. */
  function Inserted(kind: string, cycles: map<int, Cycle>): Pool {
    Pool(map[1 := Row(kind, 0, 0, None, None, None, None)], LATE, 0, {1}, cycles, map[], [], [])
  }

  /** Cycle 1 has begun and not claimed yet. */
  function Begun(cfg: Config, kind: string): Pool {
    Inserted(kind, map[1 := Cycle(Claiming, LATE + cfg.attemptTimeout, map[])])
  }

  lemma FirstClaim(cfg: Config, kind: string)
    requires ValidConfig(cfg) && kind in cfg.eventTypes
    ensures Next(cfg, Begun(cfg, kind), ClaimedOnce(cfg, kind))
  {
    hide TruncatedLease;
    var row := Row(kind, 0, 0, None, None, None, None);
    var p := Begun(cfg, kind);
    var t := TruncatedLease(cfg);
    assert DbClock(LATE) == 0;
    assert [1][1..] == [];
    assert ClaimRows(p.table, [1], t, 0) == map[1 := ClaimRow(row, t, 0)];
    assert ClaimsOf(p.table, [1], 0) == map[1 := Claimed(1, 1, 0)];
    assert p.issued + IssuesOf(p.table, [1], 0, 0, 1) == map[0 := Issue(1, 1, 0, 1)];
    assert Enabled(cfg, p, Claim(1, [1]));
    assert Apply(cfg, p, Claim(1, [1])) == ClaimedOnce(cfg, kind);
  }

  lemma RunToFirstClaim(cfg: Config, kind: string) returns (ps: seq<Pool>)
    requires ValidConfig(cfg) && kind in cfg.eventTypes
    ensures IsRun(cfg, ps) && |ps| == 4 && ps[3] == ClaimedOnce(cfg, kind)
  {
    hide ClaimedOnce, TruncatedLease, ClaimRows, ClaimsOf, IssuesOf;
    var p0 := Pool(map[], LATE, 0, {}, map[], map[], [], []);
    var p1, p2 := Inserted(kind, map[]), Begun(cfg, kind);
    assert Next(cfg, p0, p1) by {
      var s := Insert(1, Row(kind, 0, 0, None, None, None, None));
      assert Enabled(cfg, p0, s) && Apply(cfg, p0, s) == p1;
    }
    assert Next(cfg, p1, p2) by {
      assert Enabled(cfg, p1, Begin(1)) && Apply(cfg, p1, Begin(1)) == p2;
    }
    FirstClaim(cfg, kind);
    ps := [p0, p1, p2, ClaimedOnce(cfg, kind)];
  }

  /** When the stored lease is over; a lease below one millisecond is stored as none. */
  function LeaseOver(cfg: Config): int
    requires cfg.leaseDuration > 0
  {
    Max(TruncatedLease(cfg), LATE)
  }

  lemma LeaseIsOver(cfg: Config)
    requires cfg.leaseDuration > 0
    ensures TruncatedLease(cfg) <= DbClock(LeaseOver(cfg)) && 0 <= DbClock(LeaseOver(cfg))
  {
  }

  /** The second claim, when the stored lease is over. */
  lemma SecondClaim(cfg: Config, kind: string, p: Pool) returns (p': Pool)
    requires ValidConfig(cfg) && kind in cfg.eventTypes
    requires p == ClaimedOnce(cfg, kind).(
      now := LeaseOver(cfg),
      cycles := ClaimedOnce(cfg, kind).cycles[2 := Cycle(Claiming, LeaseOver(cfg) + cfg.attemptTimeout, map[])])
    ensures Next(cfg, p, p') && p'.now == p.now && p'.cycles.Keys == {1, 2} && p'.cycles[1] == p.cycles[1] && p'.starts == []
    ensures 1 in p'.table && p'.table[1].token == Some(1)
  {
    hide TruncatedLease, LeaseOver, DbClock;
    LeaseIsOver(cfg);
    assert [1][1..] == [];
    assert Enabled(cfg, p, Claim(2, [1]));
    p' := Apply(cfg, p, Claim(2, [1]));
    assert ClaimRows(p.table, [1], DbClock(p.now) + TruncatedLease(cfg), 1)[1].token == Some(1);
  }

  /** From there, a second cycle reclaims when the stored lease is over, and the first one begins to publish. */
  lemma ReclaimThenStart(cfg: Config, kind: string, p3: Pool) returns (tail: seq<Pool>)
    requires ValidConfig(cfg) && kind in cfg.eventTypes && !AttemptFits(cfg) && p3 == ClaimedOnce(cfg, kind)
    ensures |tail| == 4 && Next(cfg, p3, tail[0]) && Next(cfg, tail[0], tail[1]) && Next(cfg, tail[1], tail[2]) && Next(cfg, tail[2], tail[3])
    ensures |tail[3].starts| == 1 && !tail[3].starts[0].current
  {
    hide ClaimRows, ClaimsOf, IssuesOf, DbClock;
    var over := LeaseOver(cfg);
    var p4 := p3.(now := over);
    assert Enabled(cfg, p3, Tick(over - LATE)) && Apply(cfg, p3, Tick(over - LATE)) == p4;
    var p5 := p4.(cycles := p3.cycles[2 := Cycle(Claiming, over + cfg.attemptTimeout, map[])]);
    assert Enabled(cfg, p4, Begin(2)) && Apply(cfg, p4, Begin(2)) == p5;
    var p6 := SecondClaim(cfg, kind, p5);
    assert Enabled(cfg, p6, StartPublish(1, 1));
    var p7 := Apply(cfg, p6, StartPublish(1, 1));
    tail := [p4, p5, p6, p7];
  }

  /** A run in which cycle 1 begins to publish after cycle 2 reclaimed the row. */
  lemma LongAttemptsLoseTheRow(cfg: Config) returns (ps: seq<Pool>)
    requires ValidConfig(cfg) && !AttemptFits(cfg)
    ensures IsRun(cfg, ps) && |ps| == 8 && |ps[7].starts| == 1 && !ps[7].starts[0].current
  {
    hide Next, Initial, AttemptFits;
    var kind :| kind in cfg.eventTypes;
    var head := RunToFirstClaim(cfg, kind);
    var tail := ReclaimThenStart(cfg, kind, head[3]);
    ps := head + tail;
    forall i | 0 <= i < |ps| - 1 ensures Next(cfg, ps[i], ps[i + 1]) {
      if i < 3 { assert Next(cfg, head[i], head[i + 1]); }
    }
  }

  /**
   * Publications always begin under a current token if and only if the attempt timeout fits in the lease as the
   * database stores it, less the rest of the microsecond in which it reads its clock. The start-up check compares
   * the configured lease instead.
   */
  lemma StartsAreOwnedExactlyWhenTheAttemptFits(cfg: Config)
    requires ValidConfig(cfg)
    ensures StartsAreOwned(cfg) <==> cfg.attemptTimeout + (NANOS_PER_MICRO - 1) <= TruncatedLease(cfg)
  {
    if AttemptFits(cfg) {
      forall ps: seq<Pool>, i, k | IsRun(cfg, ps) && 0 <= i < |ps| && 0 <= k < |ps[i].starts| ensures ps[i].starts[k].current {
        ShortAttemptsStartOwned(cfg, ps, i, k);
      }
    } else {
      var ps := LongAttemptsLoseTheRow(cfg);
      assert !ps[7].starts[0].current;
    }
  }

  /**
   * An accepted configuration with a whole-millisecond lease meets the condition exactly when the timeout is not
   * within the lease's last microsecond, and so always when the timeout is in whole microseconds.
   */
  lemma WholeMillisecondLeasesFit(cfg: Config)
    requires ValidConfig(cfg) && cfg.leaseDuration % NANOS_PER_MILLI == 0
    ensures StartsAreOwned(cfg) <==> cfg.leaseDuration - cfg.attemptTimeout >= NANOS_PER_MICRO - 1
    ensures cfg.attemptTimeout % NANOS_PER_MICRO == 0 ==> StartsAreOwned(cfg)
  {
    StartsAreOwnedExactlyWhenTheAttemptFits(cfg);
    WholeMicroseconds(cfg.leaseDuration, cfg.attemptTimeout);
  }

  lemma WholeMicroseconds(lease: int, timeout: int)
    requires timeout < lease && lease % NANOS_PER_MILLI == 0
    ensures timeout % NANOS_PER_MICRO == 0 ==> timeout + NANOS_PER_MICRO <= lease
  {
    if timeout % NANOS_PER_MICRO == 0 {
      NextMultiple(lease / NANOS_PER_MILLI * 1_000, timeout / NANOS_PER_MICRO);
    }
  }

  lemma NextMultiple(a: int, b: int)
    requires b * NANOS_PER_MICRO < a * NANOS_PER_MICRO
    ensures b * NANOS_PER_MICRO + NANOS_PER_MICRO <= a * NANOS_PER_MICRO
  {
  }

  /** An accepted configuration that does not: 10.4 ms attempts under a 10.9 ms lease stored as 10 ms. */
  lemma FractionalLeaseFails(cfg: Config)
    requires cfg == Config({"message.created"}, 64, 16, 10_900_000, 10_400_000, 500_000_000, 10, 1_000_000_000, 300_000_000_000)
    ensures ValidConfig(cfg) && !StartsAreOwned(cfg)
  {
    StartsAreOwnedExactlyWhenTheAttemptFits(cfg);
  }

  /** Nor does a 30 s lease with a timeout one nanosecond shorter. */
  lemma LastMicrosecondFails(cfg: Config)
    requires cfg == Config({"message.created"}, 64, 16, 30_000_000_000, 29_999_999_999, 500_000_000, 10, 1_000_000_000, 300_000_000_000)
    ensures ValidConfig(cfg) && !StartsAreOwned(cfg)
  {
    StartsAreOwnedExactlyWhenTheAttemptFits(cfg);
  }

  // ---------------------------------------------------------------- completion after the lease

  /** The row that cycle 1 claimed, some time later. */
  function LaterOn(cfg: Config, kind: string, now: int, phase: Phase): Pool
    requires cfg.leaseDuration > 0
  {
    var p := ClaimedOnce(cfg, kind);
    p.(now := now, cycles := map[1 := p.cycles[1].(phase := phase)])
  }

  lemma LateCompletion(cfg: Config, kind: string, now: int) returns (end: Pool)
    requires ValidConfig(cfg)
    ensures Next(cfg, LaterOn(cfg, kind, now, Completing), end)
    ensures end.completions == [Completion(Claimed(1, 1, 0), Published)]
    ensures 1 in end.table && end.table[1].publishedAt == Some(DbClock(now))
  {
    hide DbClock, TruncatedLease;
    var p, s := LaterOn(cfg, kind, now, Completing), CompleteSingle(1, 1, Delivered(Claimed(1, 1, 0)));
    assert Enabled(cfg, p, s);
    end := Apply(cfg, p, s);
  }

  /**
   * A run in which a lease runs out, so that the row may be claimed again, nobody does, and its owner still completes:
   * the completion statements ask for the token and not for the time.
   */
  lemma ExpiredOwnerCompletes(cfg: Config) returns (ps: seq<Pool>)
    requires ValidConfig(cfg)
    ensures IsRun(cfg, ps) && |ps| == 7
    ensures var p := ps[5]; 1 in p.table && Claimable(p.table[1], cfg.eventTypes, DbClock(p.now)) && p.table[1].token == Some(0)
    ensures ps[6].completions == [Completion(Claimed(1, 1, 0), Published)] && 1 in ps[6].table && ps[6].table[1].publishedAt.Some?
  {
    var kind :| kind in cfg.eventTypes;
    var head := RunToFirstClaim(cfg, kind);
    var over := LeaseOver(cfg);
    var p4, p5 := LaterOn(cfg, kind, over, Publishing), LaterOn(cfg, kind, over, Completing);
    LeaseIsOver(cfg);
    hide LeaseOver, DbClock, TruncatedLease;
    assert Claimable(p5.table[1], cfg.eventTypes, DbClock(p5.now)) && p5.table[1].token == Some(0);
    ExpiredSteps(cfg, kind);
    var p6 := LateCompletion(cfg, kind, over);
    hide Next, Initial, LaterOn, ClaimedOnce;
    ps := head + [p4, p5, p6];
    forall i | 0 <= i < |ps| - 1 ensures Next(cfg, ps[i], ps[i + 1]) {
      if i < 3 { assert Next(cfg, head[i], head[i + 1]); }
    }
  }

  lemma ExpiredSteps(cfg: Config, kind: string)
    requires ValidConfig(cfg)
    ensures Next(cfg, ClaimedOnce(cfg, kind), LaterOn(cfg, kind, LeaseOver(cfg), Publishing))
    ensures Next(cfg, LaterOn(cfg, kind, LeaseOver(cfg), Publishing), LaterOn(cfg, kind, LeaseOver(cfg), Completing))
  {
    hide DbClock, TruncatedLease;
    var p3, p4 := ClaimedOnce(cfg, kind), LaterOn(cfg, kind, LeaseOver(cfg), Publishing);
    assert Enabled(cfg, p3, Tick(LeaseOver(cfg) - LATE)) && Apply(cfg, p3, Tick(LeaseOver(cfg) - LATE)) == p4;
    assert Enabled(cfg, p4, StopPublishing(1));
    assert Apply(cfg, p4, StopPublishing(1)) == LaterOn(cfg, kind, LeaseOver(cfg), Completing);
  }
}
