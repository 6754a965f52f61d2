/** The outbox table: claiming with fresh lock tokens, and completion in single and batch form. */
module Outbox {
  import opened Common
  import Backoff

  const NANOS_PER_MILLI := 1_000_000

  datatype Row = Row(
    eventType: string,
    attempts: nat,
    nextAttemptAt: int,
    lockedUntil: Option<int>,
    token: Option<int>,
    publishedAt: Option<int>,
    deadAt: Option<int>)

  type Table = map<int, Row>

  /** What a worker remembers of a claimed row. */
  datatype Claimed = Claimed(eventId: int, attempt: nat, token: int)

  datatype Config = Config(
    eventTypes: set<string>, batchSize: int, concurrency: int,
    leaseDuration: int, attemptTimeout: int, pollInterval: int,
    maxAttempts: int, baseBackoff: int, maxBackoff: int)

  predicate ValidConfig(c: Config) {
    && c.eventTypes != {}
    && c.batchSize > 0 && c.concurrency > 0 && c.maxAttempts > 0
    && c.leaseDuration > 0 && c.attemptTimeout > 0 && c.pollInterval > 0 && c.baseBackoff > 0 && c.maxBackoff > 0
    && c.attemptTimeout < c.leaseDuration
    && c.baseBackoff <= c.maxBackoff
  }

  /** No more events than the batch holds, and no more than can be published at once. */
  function ClaimLimit(c: Config): (n: int)
    ensures n <= c.batchSize && n <= c.concurrency && (n == c.batchSize || n == c.concurrency)
  {
    Min(c.batchSize, c.concurrency)
  }

  /** The lease as the database receives it: whole milliseconds. */
  function TruncatedLease(c: Config): int
    requires c.leaseDuration > 0
  {
    c.leaseDuration / NANOS_PER_MILLI * NANOS_PER_MILLI
  }

  // ---------------------------------------------------------------- statements

  predicate Pending(r: Row) { r.publishedAt.None? && r.deadAt.None? }

  predicate Claimable(r: Row, types: set<string>, now: int) {
    && Pending(r) && r.eventType in types && r.nextAttemptAt <= now
    && (r.lockedUntil.None? || r.lockedUntil.value <= now)
  }

  function ClaimRow(r: Row, until: int, token: int): Row {
    r.(attempts := r.attempts + 1, lockedUntil := Some(until), token := Some(token))
  }

  /** The rows `picks` are claimed; row number i gets the token first + i. */
  function ClaimRows(t: Table, picks: seq<int>, until: int, first: int): Table
    requires forall i :: 0 <= i < |picks| ==> picks[i] in t
    decreases |picks|
  {
    if picks == [] then t
    else ClaimRows(t[picks[0] := ClaimRow(t[picks[0]], until, first)], picks[1..], until, first + 1)
  }

  lemma {:induction false} ClaimRowsFacts(t: Table, picks: seq<int>, until: int, first: int)
    requires Distinct(picks) && forall i :: 0 <= i < |picks| ==> picks[i] in t
    ensures ClaimRows(t, picks, until, first).Keys == t.Keys
    ensures forall i :: 0 <= i < |picks| ==> ClaimRows(t, picks, until, first)[picks[i]] == ClaimRow(t[picks[i]], until, first + i)
    ensures forall id :: id in t && id !in picks ==> ClaimRows(t, picks, until, first)[id] == t[id]
    decreases |picks|
  {
    if picks != [] {
      var t1 := t[picks[0] := ClaimRow(t[picks[0]], until, first)];
      ClaimRowsFacts(t1, picks[1..], until, first + 1);
      forall i | 0 <= i < |picks| ensures ClaimRows(t, picks, until, first)[picks[i]] == ClaimRow(t[picks[i]], until, first + i) {
        if i > 0 { assert picks[i] == picks[1..][i - 1]; }
      }
    }
  }

  /** The completion statements' WHERE clause: the token decides, the lease time does not. */
  predicate Owned(t: Table, c: Claimed) {
    c.eventId in t && t[c.eventId].token == Some(c.token) && Pending(t[c.eventId])
  }

  datatype Verdict =
    | Published
    | Dead
    | Retry(delayMillis: int)

  /** The row after its completion statement, at time `now`. */
  function Completed(r: Row, v: Verdict, now: int): Row {
    match v
    case Published => r.(publishedAt := Some(now), lockedUntil := None, token := None)
    case Dead => r.(deadAt := Some(now), lockedUntil := None, token := None)
    case Retry(d) => r.(nextAttemptAt := now + d * NANOS_PER_MILLI, lockedUntil := None, token := None)
  }

  /** One completion statement; the flag is false when it reports a lost lease. */
  function Complete(t: Table, c: Claimed, v: Verdict, now: int): (Table, bool) {
    if Owned(t, c) then (t[c.eventId := Completed(t[c.eventId], v, now)], true) else (t, false)
  }

  /** The row is unpublished, not dead, and still has the event's token. */
  predicate HasToken(t: Table, e: Claimed) {
    && e.eventId in t && t[e.eventId].token == Some(e.token)
    && t[e.eventId].publishedAt.None? && t[e.eventId].deadAt.None?
  }

  /** The single statement UPDATE ... FROM unnest(ids, tokens). */
  function PublishMatching(t: Table, cs: seq<Claimed>, now: int): Table {
    map id | id in t :: if exists i :: 0 <= i < |cs| && cs[i].eventId == id && Owned(t, cs[i])
                        then Completed(t[id], Published, now) else t[id]
  }

  function MatchedIds(t: Table, cs: seq<Claimed>): set<int> {
    set i | 0 <= i < |cs| && Owned(t, cs[i]) :: cs[i].eventId
  }

  // ---------------------------------------------------------------- outcomes of a delivered batch

  datatype Outcome =
    | Delivered(claim: Claimed)
    | Failed(claim: Claimed, permanent: bool, retryAfter: int, draw: int)

  /** What markFailed decides: dead when permanent or out of attempts, otherwise a jittered retry. */
  function VerdictOf(o: Outcome, c: Config): Verdict {
    match o
    case Delivered(_) => Published
    case Failed(claim, permanent, retryAfter, draw) =>
      if permanent || claim.attempt >= c.maxAttempts then Dead
      else
        var scheduled := Backoff.Scheduled(c.baseBackoff, c.maxBackoff, claim.attempt);
        var delay := if scheduled / 2 <= 0 then scheduled else scheduled / 2 + draw;
        Retry(Max(retryAfter, delay) / NANOS_PER_MILLI)
  }

  /** The base delay, doubled for every attempt after the first, up to the cap. */
  function FullDelay(c: Config, attempt: int): int {
    if attempt <= 1 then c.baseBackoff
    else
      var doubled := c.baseBackoff * Backoff.Pow2(attempt - 1);
      if doubled <= c.maxBackoff then doubled else c.maxBackoff
  }

  lemma FullDelayIsScheduled(c: Config, attempt: int)
    ensures FullDelay(c, attempt) == Backoff.Scheduled(c.baseBackoff, c.maxBackoff, attempt)
    ensures 0 < c.baseBackoff <= c.maxBackoff ==> FullDelay(c, attempt) >= 1
  {
    if 0 < c.baseBackoff <= c.maxBackoff && attempt > 1 {
      Backoff.ScheduleIsMonotone(c.baseBackoff, c.maxBackoff, 1, attempt);
    }
  }

  function EventIds(os: seq<Outcome>): seq<int> {
    seq(|os|, i requires 0 <= i < |os| => os[i].claim.eventId)
  }

  /** Completing outcome by outcome with the single statements; the flag says that no lease was lost. */
  function CompleteEach(t: Table, os: seq<Outcome>, c: Config, now: int): (Table, bool)
    decreases |os|
  {
    if os == [] then (t, true)
    else
      var (t1, ok) := Complete(t, os[0].claim, VerdictOf(os[0], c), now);
      var (t2, rest) := CompleteEach(t1, os[1..], c, now);
      (t2, ok && rest)
  }

  /** Completing the first outcome decides nothing about the others. */
  lemma FirstLeavesOthers(t: Table, os: seq<Outcome>, v: Verdict, now: int)
    requires os != [] && Distinct(EventIds(os))
    ensures var t1 := Complete(t, os[0].claim, v, now).0;
      && Distinct(EventIds(os[1..]))
      && t1.Keys == t.Keys
      && (forall id :: id in t && id != os[0].claim.eventId ==> t1[id] == t[id])
      && (forall i {:trigger os[1..][i]} :: 0 <= i < |os| - 1 ==>
            os[1..][i] == os[i + 1] && os[i + 1].claim.eventId != os[0].claim.eventId
            && (Owned(t1, os[i + 1].claim) <==> Owned(t, os[i + 1].claim)))
  {
    var tail := os[1..];
    forall i | 0 <= i < |tail| ensures EventIds(tail)[i] == EventIds(os)[i + 1] && os[i + 1].claim.eventId != os[0].claim.eventId {
      assert EventIds(os)[0] != EventIds(os)[i + 1];
    }
    forall i, j | 0 <= i < j < |tail| ensures EventIds(tail)[i] != EventIds(tail)[j] {
      assert EventIds(os)[i + 1] != EventIds(os)[j + 1];
    }
    forall i {:trigger os[1..][i]} | 0 <= i < |os| - 1
      ensures os[1..][i] == os[i + 1] && os[i + 1].claim.eventId != os[0].claim.eventId
    {
      assert EventIds(os)[0] != EventIds(os)[i + 1];
    }
  }

  lemma {:induction false} CompleteEachElsewhere(t: Table, os: seq<Outcome>, c: Config, now: int, id: int)
    requires Distinct(EventIds(os)) && forall i :: 0 <= i < |os| ==> os[i].claim.eventId != id
    ensures CompleteEach(t, os, c, now).0.Keys == t.Keys
    ensures id in t ==> CompleteEach(t, os, c, now).0[id] == t[id]
    decreases |os|
  {
    if os != [] {
      hide VerdictOf;
      FirstLeavesOthers(t, os, VerdictOf(os[0], c), now);
      CompleteEachElsewhere(Complete(t, os[0].claim, VerdictOf(os[0], c), now).0, os[1..], c, now, id);
    }
  }

  lemma {:induction false} CompleteEachAt(t: Table, os: seq<Outcome>, c: Config, now: int, i: nat)
    requires Distinct(EventIds(os)) && i < |os| && os[i].claim.eventId in t
    ensures CompleteEach(t, os, c, now).0.Keys == t.Keys
    ensures CompleteEach(t, os, c, now).0[os[i].claim.eventId] ==
              if Owned(t, os[i].claim) then Completed(t[os[i].claim.eventId], VerdictOf(os[i], c), now) else t[os[i].claim.eventId]
    decreases |os|
  {
    hide VerdictOf, Distinct;
    FirstLeavesOthers(t, os, VerdictOf(os[0], c), now);
    var t1 := Complete(t, os[0].claim, VerdictOf(os[0], c), now).0;
    if i > 0 {
      assert os[1..][i - 1] == os[i];
      CompleteEachAt(t1, os[1..], c, now, i - 1);
    } else {
      forall k | 0 <= k < |os[1..]| ensures os[1..][k].claim.eventId != os[0].claim.eventId {}
      CompleteEachElsewhere(t1, os[1..], c, now, os[0].claim.eventId);
    }
  }

  lemma {:induction false} CompleteEachFlag(t: Table, os: seq<Outcome>, c: Config, now: int)
    requires Distinct(EventIds(os))
    ensures CompleteEach(t, os, c, now).1 <==> forall i :: 0 <= i < |os| ==> Owned(t, os[i].claim)
    decreases |os|
  {
    if os != [] {
      hide VerdictOf, Distinct, Owned;
      FirstLeavesOthers(t, os, VerdictOf(os[0], c), now);
      var t1, tail := Complete(t, os[0].claim, VerdictOf(os[0], c), now).0, os[1..];
      CompleteEachFlag(t1, tail, c, now);
      assert (forall i :: 0 <= i < |os| ==> Owned(t, os[i].claim)) <==>
             Owned(t, os[0].claim) && forall i :: 0 <= i < |tail| ==> Owned(t1, tail[i].claim) by {
        forall i | 0 < i < |os| ensures tail[i - 1] == os[i] {}
      }
    }
  }

  /** The table after completing each outcome, row by row, when no event occurs twice. */
  lemma CompleteEachByRow(t: Table, os: seq<Outcome>, c: Config, now: int)
    requires Distinct(EventIds(os))
    ensures var (n, ok) := CompleteEach(t, os, c, now);
      && n.Keys == t.Keys
      && (forall id, i | id in t && 0 <= i < |os| && os[i].claim.eventId == id ::
            n[id] == if Owned(t, os[i].claim) then Completed(t[id], VerdictOf(os[i], c), now) else t[id])
      && (forall id | id in t && (forall i :: 0 <= i < |os| ==> os[i].claim.eventId != id) :: n[id] == t[id])
      && (ok <==> forall i :: 0 <= i < |os| ==> Owned(t, os[i].claim))
  {
    hide CompleteEach, Distinct, VerdictOf, Owned;
    CompleteEachFlag(t, os, c, now);
    var n := CompleteEach(t, os, c, now).0;
    forall id, i | id in t && 0 <= i < |os| && os[i].claim.eventId == id
      ensures id in n && n[id] == if Owned(t, os[i].claim) then Completed(t[id], VerdictOf(os[i], c), now) else t[id]
    {
      CompleteEachAt(t, os, c, now, i);
    }
    forall id | id in t && (forall i :: 0 <= i < |os| ==> os[i].claim.eventId != id) ensures id in n && n[id] == t[id] {
      CompleteEachElsewhere(t, os, c, now, id);
    }
    KeysKept(t, os, c, now);
  }

  lemma {:induction false} KeysKept(t: Table, os: seq<Outcome>, c: Config, now: int)
    ensures CompleteEach(t, os, c, now).0.Keys == t.Keys
    decreases |os|
  {
    if os != [] {
      hide VerdictOf;
      KeysKept(Complete(t, os[0].claim, VerdictOf(os[0], c), now).0, os[1..], c, now);
    }
  }

  function AllDelivered(cs: seq<Claimed>): seq<Outcome> {
    seq(|cs|, i requires 0 <= i < |cs| => Delivered(cs[i]))
  }

  lemma {:induction false} CardinalityOfImage(cs: seq<Claimed>, keep: set<int>)
    requires forall i, j :: 0 <= i < j < |cs| ==> cs[i].eventId != cs[j].eventId
    requires forall id :: id in keep ==> exists i :: 0 <= i < |cs| && cs[i].eventId == id
    ensures |keep| <= |cs|
    ensures |keep| == |cs| <==> forall i :: 0 <= i < |cs| ==> cs[i].eventId in keep
    decreases |cs|
  {
    if cs == [] {
      assert keep == {};
    } else {
      var n := |cs| - 1;
      var id, rest := cs[n].eventId, keep - {cs[n].eventId};
      forall x | x in rest ensures exists i :: 0 <= i < n && cs[..n][i].eventId == x {
        var i :| 0 <= i < |cs| && cs[i].eventId == x;
        assert cs[..n][i].eventId == x;
      }
      CardinalityOfImage(cs[..n], rest);
      if id in keep { assert keep == rest + {id}; } else { assert keep == rest; }
      if |keep| == |cs| {
        forall i | 0 <= i < |cs| ensures cs[i].eventId in keep {
          if i < n { assert cs[..n][i] in cs[..n] && cs[..n][i].eventId in rest; }
        }
      }
      if forall i :: 0 <= i < |cs| ==> cs[i].eventId in keep {
        forall i | 0 <= i < n ensures cs[..n][i].eventId in rest { assert cs[..n][i] == cs[i]; }
        assert id in keep;
      }
    }
  }

  lemma MatchedCount(t: Table, cs: seq<Claimed>)
    requires forall i, j :: 0 <= i < j < |cs| ==> cs[i].eventId != cs[j].eventId
    ensures |MatchedIds(t, cs)| == |cs| <==> forall i :: 0 <= i < |cs| ==> Owned(t, cs[i])
  {
    CardinalityOfImage(cs, MatchedIds(t, cs));
    forall i | 0 <= i < |cs| ensures cs[i].eventId in MatchedIds(t, cs) <==> Owned(t, cs[i]) {
    }
  }

  /**
   * For distinct events the batch statement leaves the table that the single statements leave one
   * after another, and its row count falls short exactly when one of them would have lost its lease.
   */
  lemma BatchEqualsSingles(t: Table, cs: seq<Claimed>, c: Config, now: int)
    requires forall i, j :: 0 <= i < j < |cs| ==> cs[i].eventId != cs[j].eventId
    ensures PublishMatching(t, cs, now) == CompleteEach(t, AllDelivered(cs), c, now).0
    ensures |MatchedIds(t, cs)| == |cs| <==> CompleteEach(t, AllDelivered(cs), c, now).1
  {
    hide MatchedIds, CompleteEach;
    var os := AllDelivered(cs);
    CompleteEachByRow(t, os, c, now);
    MatchedCount(t, cs);
    var n, b := CompleteEach(t, os, c, now).0, PublishMatching(t, cs, now);
    forall id | id in t ensures b[id] == n[id] {
      if i :| 0 <= i < |cs| && cs[i].eventId == id {
        assert os[i].claim == cs[i];
      }
    }
    assert (forall i :: 0 <= i < |cs| ==> Owned(t, cs[i])) <==> (forall i :: 0 <= i < |os| ==> Owned(t, os[i].claim)) by {
      forall i | 0 <= i < |cs| ensures os[i].claim == cs[i] {}
    }
  }

  /** Each picked row got its own token, the lease's end and one more attempt; nothing else changed. */
  ghost predicate HandedOut(o: Table, n: Table, picks: seq<int>, first: int, until: int) {
    && n.Keys == o.Keys && (forall id :: id in n && id !in picks ==> n[id] == o[id])
    && (forall i :: 0 <= i < |picks| ==>
          picks[i] in o && picks[i] in n
          && n[picks[i]] == o[picks[i]].(attempts := o[picks[i]].attempts + 1, token := Some(first + i), lockedUntil := Some(until)))
  }

  lemma ClaimedAreHandedOut(t: Table, picks: seq<int>, until: int, first: int)
    requires Distinct(picks) && forall i :: 0 <= i < |picks| ==> picks[i] in t
    ensures HandedOut(t, ClaimRows(t, picks, until, first), picks, first, until)
  {
    ClaimRowsFacts(t, picks, until, first);
  }

  lemma FirstOfRest(t: Table, picks: seq<int>, until: int, first: int, i: nat)
    requires i < |picks| && forall k :: i <= k < |picks| ==> picks[k] in t
    ensures ClaimRows(t, picks[i..], until, first + i)
         == ClaimRows(t[picks[i] := ClaimRow(t[picks[i]], until, first + i)], picks[i + 1..], until, first + i + 1)
  {
    assert picks[i..][0] == picks[i] && picks[i..][1..] == picks[i + 1..];
  }

  lemma NoneLeft(t: Table, picks: seq<int>, until: int, first: int)
    ensures ClaimRows(t, picks[|picks|..], until, first) == t
  {
  }

  lemma StoredLease(c: Config)
    requires c.leaseDuration > 0
    ensures TruncatedLease(c) == c.leaseDuration / 1_000_000 * 1_000_000
  {
  }

  /** Every row that the claim statement took is owned under its fresh token. */
  lemma ClaimedAreOwned(c: Config, t: Table, picks: seq<int>, until: int, first: int, now: int)
    requires Distinct(picks)
    requires forall i :: 0 <= i < |picks| ==> picks[i] in t && Claimable(t[picks[i]], c.eventTypes, now)
    ensures forall i :: 0 <= i < |picks| ==>
      Owned(ClaimRows(t, picks, until, first), Claimed(picks[i], t[picks[i]].attempts + 1, first + i))
  {
    hide ClaimRows, Distinct;
    ClaimRowsFacts(t, picks, until, first);
  }

  // ---------------------------------------------------------------- the table as an object

  /** The table and the database's clock, which every statement reads as CURRENT_TIMESTAMP. */
  class OutboxTable {
    var rows: Table
    var now: int
    var nextToken: int

    constructor ()
      ensures rows == map[] && now == 0 && nextToken == 0
    {
      rows, now, nextToken := map[], 0, 0;
    }

    method Tick(d: nat)
      modifies this`now
      ensures now == old(now) + d
    {
      now := now + d;
    }

    /** Claims the rows that the candidate query selected and locked, and returns what it handed out. */
    method Claim(c: Config, picks: seq<int>) returns (events: seq<Claimed>)
      requires c.leaseDuration > 0 && Distinct(picks) && |picks| <= ClaimLimit(c)
      requires forall i :: 0 <= i < |picks| ==> picks[i] in rows && Claimable(rows[picks[i]], c.eventTypes, now)
      modifies this`rows, this`nextToken
      ensures rows == ClaimRows(old(rows), picks, now + TruncatedLease(c), old(nextToken))
      ensures nextToken == old(nextToken) + |picks|
      ensures |events| == |picks|
      ensures forall i :: 0 <= i < |picks| ==>
        events[i] == Claimed(picks[i], old(rows)[picks[i]].attempts + 1, old(nextToken) + i) && Owned(rows, events[i])
      ensures HandedOut(old(rows), rows, picks, old(nextToken), now + c.leaseDuration / 1_000_000 * 1_000_000)
    {
      hide Claimable, Pending, Owned, TruncatedLease, ClaimLimit, HandedOut, ClaimRows;
      events := [];
      ghost var before, first, until := rows, nextToken, now + TruncatedLease(c);
      for i := 0 to |picks|
        invariant nextToken == first + i && |events| == i && rows.Keys == before.Keys
        invariant ClaimRows(before, picks, until, first) == ClaimRows(rows, picks[i..], until, first + i)
        invariant forall k :: i <= k < |picks| ==> rows[picks[k]] == before[picks[k]]
        invariant forall k :: 0 <= k < i ==> events[k] == Claimed(picks[k], before[picks[k]].attempts + 1, first + k)
      {
        var id := picks[i];
        FirstOfRest(rows, picks, until, first, i);
        rows := rows[id := ClaimRow(rows[id], now + TruncatedLease(c), nextToken)];
        events := events + [Claimed(id, rows[id].attempts, nextToken)];
        nextToken := nextToken + 1;
      }
      NoneLeft(rows, picks, until, first + |picks|);
      ClaimedAreOwned(c, before, picks, until, first, now);
      ClaimedAreHandedOut(before, picks, until, first);
      StoredLease(c);
    }

    method MarkPublished(e: Claimed) returns (ok: bool)
      modifies this`rows
      ensures (rows, ok) == Complete(old(rows), e, Published, now)
      ensures ok <==>
        && e.eventId in old(rows) && old(rows)[e.eventId].token == Some(e.token)
        && old(rows)[e.eventId].publishedAt.None? && old(rows)[e.eventId].deadAt.None?
      ensures rows == if ok then old(rows)[e.eventId := old(rows)[e.eventId].(publishedAt := Some(now), lockedUntil := None, token := None)]
                      else old(rows)
    {
      ok := e.eventId in rows && rows[e.eventId].token == Some(e.token) && Pending(rows[e.eventId]);
      if ok {
        var r := rows[e.eventId];
        rows := rows[e.eventId := r.(publishedAt := Some(now), lockedUntil := None, token := None)];
      }
    }

    method MarkPublishedBatch(events: seq<Claimed>) returns (ok: bool)
      requires forall i, j :: 0 <= i < j < |events| ==> events[i].eventId != events[j].eventId
      modifies this`rows
      ensures rows == PublishMatching(old(rows), events, now)
      ensures ok <==> |MatchedIds(old(rows), events)| == |events|
      ensures ok <==> forall i :: 0 <= i < |events| ==> HasToken(old(rows), events[i])
      ensures rows.Keys == old(rows).Keys
      ensures forall i :: 0 <= i < |events| && HasToken(old(rows), events[i]) ==>
        rows[events[i].eventId] == old(rows)[events[i].eventId].(publishedAt := Some(now), lockedUntil := None, token := None)
      ensures forall id :: id in rows && (forall i :: 0 <= i < |events| && HasToken(old(rows), events[i]) ==> events[i].eventId != id) ==>
        rows[id] == old(rows)[id]
    {
      MatchedCount(rows, events);
      if |events| == 0 {
        assert rows == PublishMatching(rows, events, now);
        return true;
      }
      var affected := |MatchedIds(rows, events)|;
      rows := PublishMatching(rows, events, now);
      return affected == |events|;
    }

    /**
     * Only the row with the token changes. It becomes dead on a permanent failure or at the last attempt; otherwise it
     * is pending again and due after the jittered delay of its attempt, or later if the failure asks for that.
     */
    method MarkFailed(c: Config, o: Outcome) returns (ok: bool)
      requires o.Failed?
      modifies this`rows
      ensures (rows, ok) == Complete(old(rows), o.claim, VerdictOf(o, c), now)
      ensures ok <==> HasToken(old(rows), o.claim)
      ensures !ok ==> rows == old(rows)
      ensures ok ==>
        var id, full := o.claim.eventId, FullDelay(c, o.claim.attempt);
        var r, delay := old(rows)[id], if full < 2 then full else full / 2 + o.draw;
        && id in rows && rows == old(rows)[id := rows[id]]
        && (rows[id].deadAt.Some? <==> o.permanent || o.claim.attempt >= c.maxAttempts)
        && (rows[id].deadAt.Some? ==> rows[id] == r.(deadAt := Some(now), lockedUntil := None, token := None))
        && (rows[id].deadAt.None? ==>
              rows[id] == r.(lockedUntil := None, token := None,
                             nextAttemptAt := now + (if o.retryAfter > delay then o.retryAfter else delay) / 1_000_000 * 1_000_000))
        && (0 < c.baseBackoff <= c.maxBackoff && 0 <= o.draw <= full / 2 ==> full / 2 <= delay <= full)
    {
      FullDelayIsScheduled(c, o.claim.attempt);
      var e := o.claim;
      ok := e.eventId in rows && rows[e.eventId].token == Some(e.token) && Pending(rows[e.eventId]);
      var verdict := VerdictOf(o, c);
      if ok {
        var r := rows[e.eventId];
        if verdict.Dead? {
          rows := rows[e.eventId := r.(deadAt := Some(now), lockedUntil := None, token := None)];
        } else {
          rows := rows[e.eventId := r.(nextAttemptAt := now + verdict.delayMillis * NANOS_PER_MILLI, lockedUntil := None, token := None)];
        }
      }
    }

    /** The loop over the failed outcomes, after the successes were published. */
    method MarkFailures(c: Config, outcomes: seq<Outcome>, ghost t: Table) returns (ok: bool)
      requires Distinct(EventIds(outcomes)) && Settled(t, rows, outcomes, 0, c, now)
      modifies this`rows
      ensures Settled(t, rows, outcomes, |outcomes|, c, now)
      ensures ok <==> forall k :: 0 <= k < |outcomes| && outcomes[k].Failed? ==> Owned(t, outcomes[k].claim)
    {
      ok := true;
      for i := 0 to |outcomes|
        invariant Settled(t, rows, outcomes, i, c, now)
        invariant ok <==> forall k :: 0 <= k < i && outcomes[k].Failed? ==> Owned(t, outcomes[k].claim)
      {
        SettledStep(t, rows, outcomes, i, c, now);
        if outcomes[i].Failed? {
          var stateOk := MarkFailed(c, outcomes[i]);
          ok := ok && stateOk;
        }
      }
    }

    /**
     * The worker's completion of a delivered batch: one batch statement for the successes, then a
     * statement per failure. The result is that of completing each outcome in order.
     */
    method CompleteDeliveryBatch(c: Config, outcomes: seq<Outcome>) returns (ok: bool)
      requires Distinct(EventIds(outcomes))
      modifies this`rows
      ensures (rows, ok) == CompleteEach(old(rows), outcomes, c, now)
    {
      ghost var t := rows;
      var successful: seq<Claimed> := [];
      ghost var from: seq<int> := [];
      for i := 0 to |outcomes|
        invariant |from| == |successful| && rows == t
        invariant forall k :: 0 <= k < |from| ==> 0 <= from[k] < i && outcomes[from[k]] == Delivered(successful[k])
        invariant forall k, l :: 0 <= k < l < |from| ==> from[k] < from[l]
        invariant forall k :: 0 <= k < i && outcomes[k].Delivered? ==> k in from
      {
        if outcomes[i].Delivered? {
          successful := successful + [outcomes[i].claim];
          from := from + [i];
        }
      }
      DeliveredRows(t, outcomes, successful, from, c, now);
      ok := true;
      if |successful| > 0 {
        ok := MarkPublishedBatch(successful);
      } else {
        assert PublishMatching(t, successful, now) == t;
      }
      var failuresOk := MarkFailures(c, outcomes, t);
      ok := ok && failuresOk;
      SettledIsEach(t, rows, outcomes, c, now);
    }
  }

  /** All deliveries and the first `n` failures are written, nothing else is. */
  ghost predicate Settled(t: Table, rows: Table, os: seq<Outcome>, n: int, c: Config, now: int) {
    && rows.Keys == t.Keys
    && (forall k {:trigger os[k]} | 0 <= k < |os| && os[k].claim.eventId in t ::
          rows[os[k].claim.eventId] ==
            if Owned(t, os[k].claim) && (os[k].Delivered? || k < n)
            then Completed(t[os[k].claim.eventId], VerdictOf(os[k], c), now) else t[os[k].claim.eventId])
    && (forall id | id in t && (forall k :: 0 <= k < |os| ==> os[k].claim.eventId != id) :: rows[id] == t[id])
  }

  lemma SettledStep(t: Table, rows: Table, os: seq<Outcome>, n: nat, c: Config, now: int)
    requires Distinct(EventIds(os)) && n < |os| && Settled(t, rows, os, n, c, now)
    ensures os[n].Delivered? ==> Settled(t, rows, os, n + 1, c, now)
    ensures os[n].Failed? ==>
      && (Owned(rows, os[n].claim) <==> Owned(t, os[n].claim))
      && Settled(t, Complete(rows, os[n].claim, VerdictOf(os[n], c), now).0, os, n + 1, c, now)
  {
    var rows' := if os[n].Failed? then Complete(rows, os[n].claim, VerdictOf(os[n], c), now).0 else rows;
    forall k {:trigger os[k]} | 0 <= k < |os| && os[k].claim.eventId in t
      ensures rows'[os[k].claim.eventId] ==
            if Owned(t, os[k].claim) && (os[k].Delivered? || k < n + 1)
            then Completed(t[os[k].claim.eventId], VerdictOf(os[k], c), now) else t[os[k].claim.eventId]
    {
      if k != n { assert EventIds(os)[k] != EventIds(os)[n]; }
    }
  }

  lemma SettledIsEach(t: Table, rows: Table, os: seq<Outcome>, c: Config, now: int)
    requires Distinct(EventIds(os)) && Settled(t, rows, os, |os|, c, now)
    ensures rows == CompleteEach(t, os, c, now).0
    ensures CompleteEach(t, os, c, now).1 <==> forall i :: 0 <= i < |os| ==> Owned(t, os[i].claim)
  {
    CompleteEachByRow(t, os, c, now);
    var n := CompleteEach(t, os, c, now).0;
    forall id | id in t ensures rows[id] == n[id] {
      if k :| 0 <= k < |os| && os[k].claim.eventId == id {
        assert os[k].claim.eventId in t;
      }
    }
  }

  /** The deliveries of a batch, in order: `from` says which outcome each came from. */
  ghost predicate Picked(os: seq<Outcome>, cs: seq<Claimed>, from: seq<int>) {
    && |from| == |cs|
    && (forall k :: 0 <= k < |from| ==> 0 <= from[k] < |os| && os[from[k]] == Delivered(cs[k]))
    && (forall k, l :: 0 <= k < l < |from| ==> from[k] < from[l])
    && (forall k :: 0 <= k < |os| && os[k].Delivered? ==> k in from)
  }

  lemma PickedAreDistinct(os: seq<Outcome>, cs: seq<Claimed>, from: seq<int>)
    requires Distinct(EventIds(os)) && Picked(os, cs, from)
    ensures forall i, j :: 0 <= i < j < |cs| ==> cs[i].eventId != cs[j].eventId
    ensures forall i, k :: 0 <= i < |cs| && 0 <= k < |os| && cs[i].eventId == os[k].claim.eventId ==> from[i] == k
  {
    var ids := EventIds(os);
    forall k, l | 0 <= k < l < |cs| ensures cs[k].eventId != cs[l].eventId {
      assert ids[from[k]] != ids[from[l]];
    }
    forall i, k | 0 <= i < |cs| && 0 <= k < |os| && cs[i].eventId == os[k].claim.eventId ensures from[i] == k {
      assert ids[from[i]] == ids[k];
    }
  }

  /** Row by row, the batch statement writes exactly the deliveries. */
  lemma DeliveredRow(t: Table, os: seq<Outcome>, cs: seq<Claimed>, from: seq<int>, c: Config, now: int, k: nat)
    requires Distinct(EventIds(os)) && Picked(os, cs, from) && k < |os| && os[k].claim.eventId in t
    ensures PublishMatching(t, cs, now)[os[k].claim.eventId] ==
            if Owned(t, os[k].claim) && os[k].Delivered?
            then Completed(t[os[k].claim.eventId], VerdictOf(os[k], c), now) else t[os[k].claim.eventId]
  {
    hide Owned, Completed;
    PickedAreDistinct(os, cs, from);
    if os[k].Delivered? {
      var i :| 0 <= i < |from| && from[i] == k;
      assert cs[i] == os[k].claim;
    }
  }

  lemma DeliveredRows(t: Table, os: seq<Outcome>, cs: seq<Claimed>, from: seq<int>, c: Config, now: int)
    requires Distinct(EventIds(os)) && Picked(os, cs, from)
    ensures forall i, j :: 0 <= i < j < |cs| ==> cs[i].eventId != cs[j].eventId
    ensures Settled(t, PublishMatching(t, cs, now), os, 0, c, now)
    ensures |MatchedIds(t, cs)| == |cs| <==> forall k :: 0 <= k < |os| && os[k].Delivered? ==> Owned(t, os[k].claim)
  {
    hide Owned, Completed, VerdictOf, Distinct;
    PickedAreDistinct(os, cs, from);
    forall k {:trigger os[k]} | 0 <= k < |os| && os[k].claim.eventId in t
      ensures PublishMatching(t, cs, now)[os[k].claim.eventId] ==
            if Owned(t, os[k].claim) && os[k].Delivered?
            then Completed(t[os[k].claim.eventId], VerdictOf(os[k], c), now) else t[os[k].claim.eventId]
    {
      DeliveredRow(t, os, cs, from, c, now, k);
    }
    MatchedCount(t, cs);
    forall k | 0 <= k < |os| && os[k].Delivered? ensures exists i :: 0 <= i < |cs| && from[i] == k && cs[i] == os[k].claim {
      var i :| 0 <= i < |from| && from[i] == k;
    }
  }
}
