/** The headless client's operations on its durable file, and its loop over the pages of one conversation. */
module HeadlessClient {
  import opened Common
  import opened DeviceSync

  datatype SyncResult = Synced | BadRequest | RequestFailed | NotFound | Refused | BadPage | ApplyFailed | DidNotAdvance

  /** The committed messages of one conversation, now and later: number k is `at(k)`. */
  ghost predicate Numbered(c: int, at: nat -> Message) {
    forall k: nat :: k > 0 ==> at(k).conversationId == c && at(k).conversationSeq == k && at(k).id > 0
  }

  function Committed(at: nat -> Message, n: nat): seq<Message> {
    seq(n, i requires 0 <= i < n => at(i + 1))
  }

  /** Applying the next message of the stream extends the stored prefix by it. */
  lemma ApplyNext(conversations: ClientState, s: seq<Message>, m: Message)
    requires HoldsPrefix(s, Local(conversations, m.conversationId)) && m.conversationId > 0
    requires Local(conversations, m.conversationId).appliedCursor < |s|
    requires m == s[Local(conversations, m.conversationId).appliedCursor] && m.id > 0
    requires m.conversationSeq == Local(conversations, m.conversationId).appliedCursor + 1
    ensures var (r, after) := ApplyMessage(conversations, m);
      && r == Applied && after == conversations[m.conversationId := after[m.conversationId]]
      && HoldsPrefix(s, after[m.conversationId])
      && after[m.conversationId].appliedCursor == Local(conversations, m.conversationId).appliedCursor + 1
      && after[m.conversationId].ackedCursor == Local(conversations, m.conversationId).ackedCursor
  {
  }

  lemma CommittedIsNumbered(c: int, at: nat -> Message, n: nat)
    requires Numbered(c, at)
    ensures var s := Committed(at, n);
      |s| == n && forall k :: 0 <= k < n ==> s[k].conversationId == c && s[k].conversationSeq == k + 1 && s[k].id > 0
  {
  }

  /** What the server answers from, once `n` messages are committed. */
  function Served(at: nat -> Message, n: nat): Option<seq<Message>> {
    if n > 0 then Some(Committed(at, n)) else None
  }

  /** Under the snapshot `m`, a later stream answers with the same page; without a message there is no conversation. */
  lemma ServedFromSnapshot(c: int, at: nat -> Message, m: nat, n: nat, after: nat, limit: nat, snapshot: Option<int>)
    requires after <= m <= n && 0 < limit
    requires (snapshot == Some(m) && 0 < m) || (snapshot.None? && m == n)
    ensures var r := Serve(c, Served(at, n), after, limit, snapshot);
            if m == 0 then r == Err(ConversationNotFound)
            else r.Ok? && 0 < r.value.nextCursor == Min(after + limit, m)
                 && r.value.messages == Committed(at, m)[after..r.value.nextCursor] && r.value.snapshotCursor == m
  {
    if m > 0 {
      var end := Min(after + limit, m);
      assert Committed(at, n)[after..end] == Committed(at, m)[after..end];
    }
  }

  class Client {
    var conversations: ClientState

    constructor ()
      ensures conversations == map[]
    {
      conversations := map[];
    }

    /** The update closure of applyMessage, branch by branch. */
    method Apply(m: Message) returns (r: ApplyResult)
      modifies this
      ensures (r, conversations) == ApplyMessage(old(conversations), m)
      ensures r == Malformed <==> m.id <= 0 || m.conversationId <= 0 || m.conversationSeq <= 0
      ensures r != Malformed ==>
        var x := old(Local(conversations, m.conversationId));
        && (r == Applied <==> m.conversationSeq > x.appliedCursor && m.conversationSeq == x.appliedCursor + 1)
        && (r == MessageGap <==> m.conversationSeq > x.appliedCursor + 1)
        && (r == Duplicate <==> m.conversationSeq <= x.appliedCursor && m.conversationSeq in x.messages
                                && x.messages[m.conversationSeq].id == m.id)
        && (r == Conflict <==> m.conversationSeq <= x.appliedCursor
                               && (m.conversationSeq !in x.messages || x.messages[m.conversationSeq].id != m.id))
      ensures r != Applied ==> conversations == old(conversations)
      ensures r == Applied ==>
        var c, x := m.conversationId, old(Local(conversations, m.conversationId));
        && c in conversations && conversations == old(conversations)[c := conversations[c]]
        && conversations[c].appliedCursor == m.conversationSeq
        && conversations[c].messages == x.messages[m.conversationSeq := m]
        && conversations[c].ackedCursor == x.ackedCursor
        && conversations[c].pendingAck == if m.conversationSeq > x.pendingAck then m.conversationSeq else x.pendingAck
    {
      if m.id <= 0 || m.conversationId <= 0 || m.conversationSeq <= 0 {
        return Malformed;
      }
      var x := ConversationState(0, 0, 0, map[]);
      if m.conversationId in conversations {
        x := conversations[m.conversationId];
      }
      if m.conversationSeq <= x.appliedCursor {
        if m.conversationSeq !in x.messages || x.messages[m.conversationSeq].id != m.id {
          return Conflict;
        }
        return Duplicate;
      }
      if m.conversationSeq != x.appliedCursor + 1 {
        return MessageGap;
      }
      x := x.(messages := x.messages[m.conversationSeq := m]);
      x := x.(appliedCursor := m.conversationSeq);
      if x.appliedCursor > x.pendingAck {
        x := x.(pendingAck := x.appliedCursor);
      }
      conversations := conversations[m.conversationId := x];
      return Applied;
    }

    /** A pushed envelope is refused unless it is a message event whose cursor is its message's; then it is applied. */
    method ApplyRealtimeEnvelope(e: Envelope) returns (r: ApplyResult)
      modifies this
      ensures (r, conversations) == ApplyRealtime(old(conversations), e)
      ensures e.kind != "message.created" || e.conversationId <= 0 || e.message.conversationId != e.conversationId
              || e.message.conversationSeq != e.conversationSeq
              ==> r == Malformed && conversations == old(conversations)
      ensures e.kind == "message.created" && e.conversationId > 0 && e.message.conversationId == e.conversationId
              && e.message.conversationSeq == e.conversationSeq
              ==> (r, conversations) == ApplyMessage(old(conversations), e.message)
    {
      if e.kind != "message.created" || e.conversationId <= 0 {
        return Malformed;
      }
      if e.message.conversationId != e.conversationId || e.message.conversationSeq != e.conversationSeq {
        return Malformed;
      }
      r := Apply(e.message);
    }

    /** The first half of FlushACK: what is to be acknowledged, if it is ahead of what was. */
    method StartAck(c: int) returns (pending: Option<int>)
      ensures pending.Some? <==> c in conversations && conversations[c].pendingAck > conversations[c].ackedCursor
      ensures pending.Some? ==> pending.value == conversations[c].pendingAck
    {
      if c !in conversations || conversations[c].pendingAck <= conversations[c].ackedCursor {
        return None;
      }
      return Some(conversations[c].pendingAck);
    }

    /**
     * The second half of FlushACK: `pending` was sent, the server answered `applied`. An answer below the request
     * changes nothing; another one raises the acknowledged cursor and settles what it covers, and nothing else.
     */
    method FinishAck(c: int, pending: int, applied: int) returns (ok: bool)
      modifies this
      ensures ok <==> applied >= pending && c in old(conversations)
      ensures conversations == if ok then CommitAck(old(conversations), c, applied) else old(conversations)
      ensures ok ==>
        var x := old(conversations)[c];
        && conversations.Keys == old(conversations).Keys
        && (forall d :: d in conversations && d != c ==> conversations[d] == old(conversations)[d])
        && conversations[c].ackedCursor == (if applied > x.ackedCursor then applied else x.ackedCursor)
        && conversations[c].pendingAck == (if x.pendingAck <= applied then 0 else x.pendingAck)
        && conversations[c].appliedCursor == x.appliedCursor && conversations[c].messages == x.messages
    {
      if applied < pending || c !in conversations {
        return false;
      }
      var x := conversations[c];
      if applied > x.ackedCursor {
        x := x.(ackedCursor := applied);
      }
      if x.pendingAck <= applied {
        x := x.(pendingAck := 0);
      }
      conversations := conversations[c := x];
      return true;
    }

    /** Applies the messages of one page in order. */
    method ApplyPage(c: int, page: seq<Message>, ghost s: seq<Message>) returns (ok: bool)
      requires forall k :: 0 <= k < |s| ==> s[k].conversationId == c && s[k].conversationSeq == k + 1 && s[k].id > 0
      requires c > 0 && HoldsPrefix(s, Local(conversations, c))
      requires Local(conversations, c).appliedCursor + |page| <= |s|
      requires page == s[Local(conversations, c).appliedCursor..Local(conversations, c).appliedCursor + |page|]
      modifies this
      ensures ok
      ensures HoldsPrefix(s, Local(conversations, c))
      ensures Local(conversations, c).appliedCursor == old(Local(conversations, c).appliedCursor) + |page|
      ensures Local(conversations, c).ackedCursor == old(Local(conversations, c).ackedCursor)
      ensures c in conversations <==> old(c in conversations) || |page| > 0
      ensures |page| == 0 ==> conversations == old(conversations)
      ensures forall d :: d != c ==> (d in conversations <==> d in old(conversations)) && Local(conversations, d) == old(Local(conversations, d))
    {
      ghost var before := conversations;
      ghost var from := Local(conversations, c).appliedCursor;
      assert from >= 0;
      hide ApplyMessage, HoldsPrefix;
      for i := 0 to |page|
        invariant HoldsPrefix(s, Local(conversations, c))
        invariant Local(conversations, c).appliedCursor == from + i
        invariant Local(conversations, c).ackedCursor == Local(before, c).ackedCursor
        invariant c in conversations <==> c in before || i > 0
        invariant i == 0 ==> conversations == before
        invariant forall d :: d != c ==> (d in conversations <==> d in before) && Local(conversations, d) == Local(before, d)
      {
        assert page[i] == s[from + i];
        ApplyNext(conversations, s, page[i]);
        var r := Apply(page[i]);
        if r != Applied && r != Duplicate {
          return false;
        }
      }
      return true;
    }

    /** The checks on one page, and its messages: the page that follows the stored prefix extends it up to its end. */
    method TakePage(c: int, page: Page, after: int, snapshot: int, ghost s: seq<Message>) returns (r: SyncResult, fixed: int)
      requires forall k :: 0 <= k < |s| ==> s[k].conversationId == c && s[k].conversationSeq == k + 1 && s[k].id > 0
      requires c > 0 && HoldsPrefix(s, Local(conversations, c)) && after == Local(conversations, c).appliedCursor
      requires page.conversationId == c && page.snapshotCursor == |s| && (snapshot == 0 || snapshot == |s|)
      requires 0 <= after <= page.nextCursor <= |s| && 0 < page.nextCursor && page.messages == s[after..page.nextCursor]
      modifies this
      ensures r == Synced && fixed == |s|
      ensures c in conversations && HoldsPrefix(s, conversations[c]) && conversations[c].appliedCursor == page.nextCursor
      ensures conversations[c].ackedCursor == old(Local(conversations, c).ackedCursor)
      ensures forall d :: d != c ==> Local(conversations, d) == old(Local(conversations, d))
    {
      hide HoldsPrefix;
      fixed := snapshot;
      if page.conversationId != c || page.nextCursor < after {
        return BadPage, fixed;
      }
      if fixed == 0 {
        fixed := page.snapshotCursor;
      } else if page.snapshotCursor != fixed {
        return BadPage, fixed;
      }
      var ok := ApplyPage(c, page.messages, s);
      if !ok {
        return ApplyFailed, fixed;
      }
      if c !in conversations || conversations[c].appliedCursor != page.nextCursor {
        return DidNotAdvance, fixed;
      }
      return Synced, fixed;
    }

    /**
     * Page by page under the first response's snapshot, while `arrivals(i)` messages are committed when request
     * number i is served; a conversation without a committed message does not exist. Request number i fails before
     * it is answered if `fails(i)`. With no other local update in between, the loop ends, what is stored is always a
     * prefix of the stream up to the first snapshot, and it reaches that snapshot exactly when the conversation
     * exists and none of the requests that the page limit makes necessary fails.
     */
    method SyncConversation(c: int, limit: nat, at: nat -> Message, arrivals: nat -> nat, fails: nat -> bool) returns (r: SyncResult)
      requires Numbered(c, at) && forall i: nat, j: nat :: i <= j ==> arrivals(i) <= arrivals(j)
      requires HoldsPrefix(Committed(at, arrivals(0)), Local(conversations, c))
      requires c in conversations ==> conversations[c].appliedCursor > 0
      modifies this
      ensures c <= 0 || !(0 < limit <= MAX_PAGE_LIMIT) <==> r == BadRequest
      ensures r in {Synced, BadRequest, RequestFailed, NotFound}
      ensures r == NotFound <==> r != BadRequest && !fails(0) && arrivals(0) == 0
      ensures r == Synced <==>
        r != BadRequest && arrivals(0) > 0
        && forall i: nat :: Needed(old(Local(conversations, c).appliedCursor), limit, arrivals(0), i) ==> !fails(i)
      ensures r == BadRequest || r == NotFound ==> conversations == old(conversations)
      ensures r == Synced ==> c in conversations && conversations[c].appliedCursor == arrivals(0)
      ensures HoldsPrefix(Committed(at, arrivals(0)), Local(conversations, c))
      ensures Local(conversations, c).appliedCursor >= old(Local(conversations, c).appliedCursor)
      ensures Local(conversations, c).ackedCursor == old(Local(conversations, c).ackedCursor)
      ensures forall d :: d != c ==> Local(conversations, d) == old(Local(conversations, d))
    {
      if c <= 0 || limit <= 0 || limit > MAX_PAGE_LIMIT {
        return BadRequest;
      }
      ghost var s := Committed(at, arrivals(0));
      ghost var from := Local(conversations, c).appliedCursor;
      assert 0 <= from <= |s|;
      FirstNeeded(from, limit, |s|);
      CommittedIsNumbered(c, at, arrivals(0));
      hide HoldsPrefix, Needed, Reached, Committed, Numbered, Serve, Served, Min;
      var snapshot := 0;
      var request := 0;
      var more := true;
      while more
        invariant HoldsPrefix(s, Local(conversations, c))
        invariant c in conversations ==> conversations[c].appliedCursor > 0
        invariant request > 0 ==> snapshot == |s| > 0
        invariant request == 0 ==> snapshot == 0 && conversations == old(conversations)
        invariant !more ==> request > 0 && c in conversations && conversations[c].appliedCursor == |s| > 0
        invariant more && request > 0 ==> Local(conversations, c).appliedCursor < |s|
        invariant Local(conversations, c).appliedCursor == Reached(from, limit, |s|, request)
        invariant more <==> Needed(from, limit, |s|, request)
        invariant forall i: nat :: i < request ==> !fails(i)
        invariant Local(conversations, c).ackedCursor == old(Local(conversations, c).ackedCursor)
        invariant forall d :: d != c ==> Local(conversations, d) == old(Local(conversations, d))
        decreases if more then 1 else 0, |s| - Local(conversations, c).appliedCursor, if request == 0 then 1 else 0
      {
        var after := 0;
        if c in conversations {
          after := conversations[c].appliedCursor;
        }
        if fails(request) {
          return RequestFailed;
        }
        var under := if snapshot > 0 then Some(snapshot) else None;
        ServedFromSnapshot(c, at, |s|, arrivals(request), after, limit, under);
        var response := Serve(c, Served(at, arrivals(request)), after, limit, under);
        if response.Err? {
          return if response.error == ConversationNotFound then NotFound else Refused;
        }
        var page := response.value;
        OneMoreRequest(from, limit, |s|, request);
        var taken;
        taken, snapshot := TakePage(c, page, after, snapshot, s);
        if taken != Synced {
          return taken;
        }
        more := page.hasMore;
        request := request + 1;
      }
      NoMoreNeeded(from, limit, |s|, request);
      return Synced;
    }
  }

  /** Request number `i` is made: the first one always, a later one when the pages before it fall short of `n`. */
  predicate Needed(from: int, limit: nat, n: nat, i: nat) {
    i == 0 || from + i * limit < n
  }

  /** Where the client stands after `i` answered requests. */
  function Reached(from: int, limit: nat, n: nat, i: nat): int {
    Min(from + i * limit, n)
  }

  lemma FirstNeeded(from: int, limit: nat, n: nat)
    requires 0 <= from <= n
    ensures Needed(from, limit, n, 0) && Reached(from, limit, n, 0) == from
  {
  }

  lemma OneMoreRequest(from: int, limit: nat, n: nat, request: nat)
    requires 0 <= from <= n
    ensures var reached := Reached(from, limit, n, request + 1);
      && reached == Min(Reached(from, limit, n, request) + limit, n)
      && (Needed(from, limit, n, request + 1) <==> reached < n)
  {
    assert (request + 1) * limit == request * limit + limit;
  }

  lemma NoMoreNeeded(from: int, limit: nat, n: nat, request: nat)
    requires request > 0 && !Needed(from, limit, n, request)
    ensures forall i: nat :: Needed(from, limit, n, i) ==> i < request
  {
    forall i: nat | i >= request ensures !Needed(from, limit, n, i) {
      assert i * limit >= request * limit;
    }
  }
}
