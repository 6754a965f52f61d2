/**
 * Migration 016 as a transformation of the tables: messages that an old writer left without a conversation cursor
 * are appended to their conversations, and pending events of older payload versions are rebuilt as version 4.
 *
 * Conversations are keyed by their pair of users, which a unique index enforces. The identities that the
 * conversations sequence hands out are the parameter `ids`, and `now` is the transaction's time.
 */
module ContractMigration {
  import opened Common
  import opened EventRouting

  type Pair = (int, int)

  /** A messages row; both halves of the cursor are null for rows of an old writer. */
  datatype Row = Row(
    clientMessageId: string, senderId: int, receiverId: int, content: string, createdAt: int,
    conversationId: Option<int>, conversationSeq: Option<nat>)

  datatype Conversation = Conversation(id: int, lastSeq: nat)

  datatype OutboxRow = OutboxRow(
    eventType: EventType, messageId: int, payloadVersion: int, payload: Option<Payload>,
    terminal: bool, readyAt: Option<int>, lockToken: Option<int>)

  datatype Tables = Tables(
    messages: map<int, Row>,
    conversations: map<Pair, Conversation>,
    members: set<(int, int)>,
    events: map<int, OutboxRow>)

  datatype MigrationError = PartialCursor | UnsupportedPayload | PendingNotReady | LegacyMissing

  function PairOf(r: Row): Pair {
    (Min(r.senderId, r.receiverId), Max(r.senderId, r.receiverId))
  }

  predicate Pending(e: OutboxRow) {
    e.eventType == MessageCreated && !e.terminal
  }

  // ---------------------------------------------------------------- the statements

  predicate HasPartialCursor(t: Tables) {
    exists id :: id in t.messages && t.messages[id].conversationId.None? != t.messages[id].conversationSeq.None?
  }

  predicate HasUnsupported(t: Tables) {
    exists e :: e in t.events && Pending(t.events[e]) && !(1 <= t.events[e].payloadVersion <= 4)
  }

  /** The constraint that the migration adds at its end. */
  predicate HasUnready(events: map<int, OutboxRow>) {
    exists e :: e in events && Pending(events[e]) && !(events[e].payloadVersion == 4 && events[e].readyAt.Some?)
  }

  /** Messages of this pair without a cursor. */
  function Loose(messages: map<int, Row>, pair: Pair): set<int> {
    set id | id in messages && messages[id].conversationId.None? && PairOf(messages[id]) == pair
  }

  function LoosePairs(messages: map<int, Row>): set<Pair> {
    set id | id in messages && messages[id].conversationId.None? :: PairOf(messages[id])
  }

  /** The order of the window function. */
  predicate Before(messages: map<int, Row>, a: int, b: int)
    requires a in messages && b in messages
  {
    messages[a].createdAt < messages[b].createdAt || (messages[a].createdAt == messages[b].createdAt && a < b)
  }

  function Earlier(messages: map<int, Row>, s: set<int>, b: int): set<int>
    requires s <= messages.Keys && b in messages
  {
    set a | a in s && Before(messages, a, b)
  }

  /** row_number() over the rows `s`, in creation order. */
  function RowNumber(messages: map<int, Row>, s: set<int>, id: int): nat
    requires s <= messages.Keys && id in messages
  {
    |Earlier(messages, s, id)| + 1
  }

  /** Identities for the pairs that have no conversation yet. */
  predicate FreshIds(t: Tables, ids: map<Pair, int>) {
    && (forall p :: p in LoosePairs(t.messages) && p !in t.conversations ==>
          p in ids && ids[p] > 0 && forall q :: q in t.conversations ==> t.conversations[q].id != ids[p])
    && (forall p, q :: p in ids && q in ids && ids[p] == ids[q] ==> p == q)
  }

  /** INSERT INTO conversations ... ON CONFLICT DO NOTHING. */
  function WithConversations(t: Tables, ids: map<Pair, int>): map<Pair, Conversation>
    requires FreshIds(t, ids)
  {
    t.conversations + map p | p in LoosePairs(t.messages) - t.conversations.Keys :: Conversation(ids[p], 0)
  }

  /** INSERT INTO conversation_members ... ON CONFLICT DO NOTHING. */
  function WithMembers(t: Tables, conversations: map<Pair, Conversation>): set<(int, int)>
    requires LoosePairs(t.messages) <= conversations.Keys
  {
    var loose := set id | id in t.messages && t.messages[id].conversationId.None?;
    t.members
    + (set id | id in loose :: (conversations[PairOf(t.messages[id])].id, t.messages[id].senderId))
    + (set id | id in loose :: (conversations[PairOf(t.messages[id])].id, t.messages[id].receiverId))
  }

  /** UPDATE messages from the ranked rows: after the numbers that the conversation has given out already. */
  function Numbered(messages: map<int, Row>, conversations: map<Pair, Conversation>): map<int, Row>
    requires LoosePairs(messages) <= conversations.Keys
  {
    map id | id in messages :: NumberedRow(messages, conversations, id)
  }

  function NumberedRow(messages: map<int, Row>, conversations: map<Pair, Conversation>, id: int): Row
    requires id in messages && LoosePairs(messages) <= conversations.Keys
  {
    var r := messages[id];
    if r.conversationId.Some? then r
    else
      assert PairOf(r) in LoosePairs(messages);
      var c := conversations[PairOf(r)];
      r.(conversationId := Some(c.id),
         conversationSeq := Some(c.lastSeq + RowNumber(messages, Loose(messages, PairOf(r)), id)))
  }

  /** The numbers that messages of conversation `c` carry. */
  function Numbers(messages: map<int, Row>, c: int): set<nat> {
    set id | id in messages && messages[id].conversationId == Some(c) && messages[id].conversationSeq.Some? ::
      messages[id].conversationSeq.value
  }

  lemma {:induction false} HasGreatest(s: set<nat>)
    requires s != {}
    ensures exists m :: m in s && forall x :: x in s ==> x <= m
    decreases |s|
  {
    var y :| y in s;
    var rest := s - {y};
    assert forall x :: x in s ==> x == y || x in rest;
    if rest == {} {
      assert y in s && forall x :: x in s ==> x <= y;
    } else {
      HasGreatest(rest);
      var m :| m in rest && forall x :: x in rest ==> x <= m;
      if m < y {
        assert y in s && forall x :: x in s ==> x <= y;
      } else {
        assert m in s && forall x :: x in s ==> x <= m;
      }
    }
  }

  function Greatest(s: set<nat>): (m: nat)
    requires s != {}
    ensures m in s && forall x :: x in s ==> x <= m
  {
    HasGreatest(s);
    var m :| m in s && forall x :: x in s ==> x <= m;
    m
  }

  /** UPDATE conversations SET last_seq = GREATEST(last_seq, max(conversation_seq)). */
  function WithLastSeq(messages: map<int, Row>, conversations: map<Pair, Conversation>): map<Pair, Conversation> {
    map p | p in conversations ::
      var c, numbers := conversations[p], Numbers(messages, conversations[p].id);
      if numbers == {} then c else c.(lastSeq := Max(c.lastSeq, Greatest(numbers)))
  }

  function MessageOf(id: int, r: Row): Message
    requires r.conversationId.Some? && r.conversationSeq.Some?
  {
    Message(id, r.conversationId.value, r.conversationSeq.value, r.clientMessageId, r.senderId, r.receiverId, r.content, r.createdAt)
  }

  function RecipientsOf(r: Row): seq<Recipient> {
    if r.senderId == r.receiverId then [Recipient(r.senderId, 0)]
    else [Recipient(r.senderId, 0), Recipient(r.receiverId, 0)]
  }

  /** UPDATE outbox_events: pending events of versions 1 to 3 are rebuilt from their message. */
  function Rebuilt(messages: map<int, Row>, events: map<int, OutboxRow>, now: int): map<int, OutboxRow> {
    map e | e in events :: RebuiltRow(messages, events[e], now)
  }

  function RebuiltRow(messages: map<int, Row>, e: OutboxRow, now: int): OutboxRow {
    if Pending(e) && 1 <= e.payloadVersion <= 3 && e.messageId in messages
       && messages[e.messageId].conversationId.Some? && messages[e.messageId].conversationSeq.Some?
    then
      var r := messages[e.messageId];
      e.(payloadVersion := 4,
         payload := Some(Payload(MessageOf(e.messageId, r), RecipientsOf(r))),
         readyAt := if e.readyAt.Some? then e.readyAt else Some(now),
         lockToken := None)
    else e
  }

  /** The statements on rows: any failing check rolls everything back. */
  function Migrate(t: Tables, ids: map<Pair, int>, now: int): Result<Tables, MigrationError>
    requires FreshIds(t, ids)
  {
    if HasPartialCursor(t) then Err(PartialCursor)
    else if HasUnsupported(t) then Err(UnsupportedPayload)
    else
      var conversations := WithConversations(t, ids);
      var members := WithMembers(t, conversations);
      var messages := Numbered(t.messages, conversations);
      var events := Rebuilt(messages, t.events, now);
      if HasUnready(events) then Err(PendingNotReady)
      else Ok(Tables(messages, WithLastSeq(messages, conversations), members, events))
  }

  /** The tables, indexes and statistics that the last statements drop. */
  const LEGACY := {
    "outbox_recipients", "message_projection_jobs", "device_sync_states", "user_message_events", "user_sync_counters",
    "outbox_unready_message_projection_idx", "messages_missing_conversation_cursor_idx",
    "messages_direction_history_idx", "messages_sender_receiver_stats"}

  /** DROP TABLE, INDEX and STATISTICS: one that does not exist fails. */
  function WithoutLegacy(catalogue: set<string>): Option<set<string>> {
    if LEGACY <= catalogue then Some(catalogue - LEGACY) else None
  }

  /** The whole transaction with the catalogue, whose statements come last. */
  function Contracted(t: Tables, catalogue: set<string>, ids: map<Pair, int>, now: int): Result<(Tables, set<string>), MigrationError>
    requires FreshIds(t, ids)
  {
    match Migrate(t, ids, now)
    case Err(e) => Err(e)
    case Ok(t') => if WithoutLegacy(catalogue).Some? then Ok((t', WithoutLegacy(catalogue).value)) else Err(LegacyMissing)
  }

  // ---------------------------------------------------------------- what migration 015 left behind

  /** Each conversation's messages carry the numbers 1 to last_seq, each once. */
  ghost predicate StreamExact(messages: map<int, Row>, c: Conversation) {
    && Numbers(messages, c.id) == Interval(c.lastSeq)
    && (forall i, j | i in messages && j in messages && messages[i].conversationId == Some(c.id) == messages[j].conversationId
          && messages[i].conversationSeq == messages[j].conversationSeq :: i == j)
  }

  ghost predicate Sound(t: Tables) {
    && (forall id :: id in t.messages ==> id > 0 && t.messages[id].senderId > 0 && t.messages[id].receiverId > 0)
    && (forall id :: id in t.messages && t.messages[id].conversationId.Some? ==>
          PairOf(t.messages[id]) in t.conversations
          && t.messages[id].conversationId == Some(t.conversations[PairOf(t.messages[id])].id))
    && (forall p :: p in t.conversations ==> t.conversations[p].id > 0 && StreamExact(t.messages, t.conversations[p]))
    && (forall p, q :: p in t.conversations && q in t.conversations && t.conversations[p].id == t.conversations[q].id ==> p == q)
    && (forall e :: e in t.events && t.events[e].eventType == MessageCreated ==> t.events[e].messageId in t.messages)
  }

  // ---------------------------------------------------------------- row numbers

  function Ranks(messages: map<int, Row>, s: set<int>): set<nat>
    requires s <= messages.Keys
  {
    set id | id in s :: RowNumber(messages, s, id)
  }

  lemma EarlierIsStrict(messages: map<int, Row>, s: set<int>, a: int, b: int)
    requires s <= messages.Keys && a in s && b in s && Before(messages, a, b)
    ensures RowNumber(messages, s, a) < RowNumber(messages, s, b)
  {
    assert Earlier(messages, s, a) < Earlier(messages, s, b) by {
      assert a in Earlier(messages, s, b) && a !in Earlier(messages, s, a);
    }
    SmallerSet(Earlier(messages, s, a), Earlier(messages, s, b));
  }

  lemma RankInRange(messages: map<int, Row>, s: set<int>, a: int)
    requires s <= messages.Keys && a in s
    ensures 1 <= RowNumber(messages, s, a) <= |s|
  {
    assert a !in Earlier(messages, s, a) && Earlier(messages, s, a) <= s;
    SmallerSet(Earlier(messages, s, a), s);
  }

  /** An injective function's image is as large as its domain. */
  lemma {:induction false} RanksOfPart(messages: map<int, Row>, s: set<int>, part: set<int>)
    requires s <= messages.Keys && part <= s
    ensures |set id | id in part :: RowNumber(messages, s, id)| == |part|
    decreases |part|
  {
    if part != {} {
      NonEmpty(part);
      var x :| x in part;
      var rest := part - {x};
      RanksOfPart(messages, s, rest);
      var image := set id | id in rest :: RowNumber(messages, s, id);
      assert (set id | id in part :: RowNumber(messages, s, id)) == image + {RowNumber(messages, s, x)};
      forall id | id in rest ensures RowNumber(messages, s, id) != RowNumber(messages, s, x) {
        if Before(messages, id, x) {
          EarlierIsStrict(messages, s, id, x);
        } else {
          EarlierIsStrict(messages, s, x, id);
        }
      }
    }
  }

  /** Row numbers are exactly 1 to the number of rows, each once, in creation order. */
  lemma RowNumbersAreExact(messages: map<int, Row>, s: set<int>)
    requires s <= messages.Keys
    ensures Ranks(messages, s) == Interval(|s|)
    ensures forall a, b :: a in s && b in s ==>
      (Before(messages, a, b) <==> RowNumber(messages, s, a) < RowNumber(messages, s, b))
  {
    RanksOfPart(messages, s, s);
    forall a | a in s ensures 1 <= RowNumber(messages, s, a) <= |s| {
      RankInRange(messages, s, a);
    }
    assert Ranks(messages, s) <= Interval(|s|);
    SameSizeSubset(Ranks(messages, s), Interval(|s|));
    forall a, b | a in s && b in s
      ensures Before(messages, a, b) <==> RowNumber(messages, s, a) < RowNumber(messages, s, b)
    {
      if Before(messages, a, b) {
        EarlierIsStrict(messages, s, a, b);
      } else if a != b {
        EarlierIsStrict(messages, s, b, a);
      }
    }
  }

  // ---------------------------------------------------------------- the repaired tables

  /** Existing conversations stay; each loose pair has one; no identity is used twice. */
  lemma ConversationsAfter(t: Tables, ids: map<Pair, int>)
    requires Sound(t) && FreshIds(t, ids)
    ensures var all := WithConversations(t, ids);
            && LoosePairs(t.messages) <= all.Keys && t.conversations.Keys <= all.Keys
            && (forall p :: p in all ==>
                  all[p] == if p in t.conversations then t.conversations[p] else Conversation(all[p].id, 0))
            && (forall p, q :: p in all && q in all && all[p].id == all[q].id ==> p == q)
            && (forall id :: id in t.messages ==> PairOf(t.messages[id]) in all)
  {
    hide StreamExact;
    var all := WithConversations(t, ids);
    forall id | id in t.messages ensures PairOf(t.messages[id]) in all {
      assert t.messages[id].conversationId.None? ==> PairOf(t.messages[id]) in LoosePairs(t.messages);
    }
  }

  /** A message belongs to its pair's conversation, and a loose one carries the number after the last by rank. */
  lemma NumberedBelongs(t: Tables, ids: map<Pair, int>, id: int)
    requires Sound(t) && FreshIds(t, ids) && !HasPartialCursor(t) && id in t.messages
    ensures var all, p := WithConversations(t, ids), PairOf(t.messages[id]);
            && LoosePairs(t.messages) <= all.Keys && p in all
            && var row := NumberedRow(t.messages, all, id);
               && row.conversationId == Some(all[p].id) && row.conversationSeq.Some?
               && row == t.messages[id].(conversationId := row.conversationId, conversationSeq := row.conversationSeq)
               && (t.messages[id].conversationId.Some? ==> row == t.messages[id])
               && (t.messages[id].conversationId.None? ==>
                     id in Loose(t.messages, p)
                     && row.conversationSeq.value == all[p].lastSeq + RowNumber(t.messages, Loose(t.messages, p), id))
  {
    hide StreamExact, RowNumber;
    ConversationsAfter(t, ids);
  }

  /** What is in the stream of pair `p` after the repair. */
  lemma InStream(t: Tables, ids: map<Pair, int>, p: Pair, id: int)
    requires Sound(t) && FreshIds(t, ids) && !HasPartialCursor(t) && id in t.messages
    requires p in WithConversations(t, ids)
    ensures LoosePairs(t.messages) <= WithConversations(t, ids).Keys
    ensures var c := WithConversations(t, ids)[p];
            NumberedRow(t.messages, WithConversations(t, ids), id).conversationId == Some(c.id) <==> PairOf(t.messages[id]) == p
  {
    hide StreamExact, RowNumber, NumberedRow, Sound;
    ConversationsAfter(t, ids);
    NumberedBelongs(t, ids, id);
  }

  /** A message that had a cursor carries a number up to the conversation's last one. */
  lemma OldNumber(t: Tables, p: Pair, id: int)
    requires Sound(t) && !HasPartialCursor(t) && id in t.messages && t.messages[id].conversationId.Some? && PairOf(t.messages[id]) == p
    ensures p in t.conversations && t.messages[id].conversationSeq.Some?
    ensures t.messages[id].conversationId == Some(t.conversations[p].id)
    ensures 1 <= t.messages[id].conversationSeq.value <= t.conversations[p].lastSeq
  {
    assert StreamExact(t.messages, t.conversations[p]);
    assert t.messages[id].conversationSeq.value in Numbers(t.messages, t.conversations[p].id);
  }

  lemma NumbersInRange(t: Tables, ids: map<Pair, int>, p: Pair, id: int)
    requires Sound(t) && FreshIds(t, ids) && !HasPartialCursor(t) && id in t.messages
    requires p in WithConversations(t, ids) && PairOf(t.messages[id]) == p
    ensures LoosePairs(t.messages) <= WithConversations(t, ids).Keys
    ensures var c, row := WithConversations(t, ids)[p], NumberedRow(t.messages, WithConversations(t, ids), id);
            && row.conversationSeq.Some?
            && 1 <= row.conversationSeq.value <= c.lastSeq + |Loose(t.messages, p)|
            && (t.messages[id].conversationId.Some? <==> row.conversationSeq.value <= c.lastSeq)
  {
    hide StreamExact, RowNumber, NumberedRow, Sound, HasPartialCursor;
    ConversationsAfter(t, ids);
    NumberedBelongs(t, ids, id);
    if t.messages[id].conversationId.Some? {
      OldNumber(t, p, id);
    } else {
      RankInRange(t.messages, Loose(t.messages, p), id);
    }
  }

  lemma OldNumberTaken(t: Tables, p: Pair, k: nat) returns (id: int)
    requires Sound(t) && p in t.conversations && 1 <= k <= t.conversations[p].lastSeq
    ensures id in t.messages && PairOf(t.messages[id]) == p
    ensures t.messages[id].conversationId.Some? && t.messages[id].conversationSeq == Some(k)
  {
    var c := t.conversations[p];
    assert StreamExact(t.messages, c);
    assert k in Numbers(t.messages, c.id);
    id :| id in t.messages && t.messages[id].conversationId == Some(c.id) && t.messages[id].conversationSeq == Some(k);
  }

  lemma RankTaken(messages: map<int, Row>, s: set<int>, k: nat) returns (id: int)
    requires s <= messages.Keys && 1 <= k <= |s|
    ensures id in s && RowNumber(messages, s, id) == k
  {
    hide RowNumber;
    RowNumbersAreExact(messages, s);
    assert k in Ranks(messages, s);
    id :| id in s && RowNumber(messages, s, id) == k;
  }

  lemma NumberIsTaken(t: Tables, ids: map<Pair, int>, p: Pair, k: nat) returns (id: int)
    requires Sound(t) && FreshIds(t, ids) && !HasPartialCursor(t) && p in WithConversations(t, ids)
    requires 1 <= k <= WithConversations(t, ids)[p].lastSeq + |Loose(t.messages, p)|
    ensures LoosePairs(t.messages) <= WithConversations(t, ids).Keys
    ensures id in t.messages && PairOf(t.messages[id]) == p
    ensures NumberedRow(t.messages, WithConversations(t, ids), id).conversationSeq == Some(k)
  {
    hide RowNumber, NumberedRow, WithConversations, Sound, HasPartialCursor, FreshIds;
    ConversationsAfter(t, ids);
    var c := WithConversations(t, ids)[p];
    if k <= c.lastSeq {
      id := OldNumberTaken(t, p, k);
    } else {
      id := RankTaken(t.messages, Loose(t.messages, p), k - c.lastSeq);
    }
    NumberedBelongs(t, ids, id);
  }

  lemma NumbersDiffer(t: Tables, ids: map<Pair, int>, p: Pair, i: int, j: int)
    requires Sound(t) && FreshIds(t, ids) && !HasPartialCursor(t) && p in WithConversations(t, ids)
    requires i in t.messages && j in t.messages && PairOf(t.messages[i]) == p == PairOf(t.messages[j])
    requires LoosePairs(t.messages) <= WithConversations(t, ids).Keys
    requires NumberedRow(t.messages, WithConversations(t, ids), i).conversationSeq
          == NumberedRow(t.messages, WithConversations(t, ids), j).conversationSeq
    ensures i == j
  {
    hide RowNumber, NumberedRow, WithConversations;
    NumbersInRange(t, ids, p, i);
    NumbersInRange(t, ids, p, j);
    NumberedBelongs(t, ids, i);
    NumberedBelongs(t, ids, j);
    if t.messages[i].conversationId.Some? {
      OldNumber(t, p, i);
      OldNumber(t, p, j);
      assert StreamExact(t.messages, t.conversations[p]);
    } else {
      RowNumbersAreExact(t.messages, Loose(t.messages, p));
      assert i != j ==> Before(t.messages, i, j) || Before(t.messages, j, i);
    }
  }

  lemma NumbersAfter(t: Tables, ids: map<Pair, int>, p: Pair)
    requires Sound(t) && FreshIds(t, ids) && !HasPartialCursor(t) && p in WithConversations(t, ids)
    ensures LoosePairs(t.messages) <= WithConversations(t, ids).Keys
    ensures var c, messages := WithConversations(t, ids)[p], Numbered(t.messages, WithConversations(t, ids));
            StreamExact(messages, c.(lastSeq := c.lastSeq + |Loose(t.messages, p)|))
  {
    hide Sound, NumberedRow, WithConversations, HasPartialCursor, FreshIds, Interval;
    ConversationsAfter(t, ids);
    var all := WithConversations(t, ids);
    var c, messages := all[p], Numbered(t.messages, all);
    var n := c.lastSeq + |Loose(t.messages, p)|;
    forall id | id in messages
      ensures messages[id].conversationId == Some(c.id) <==> PairOf(t.messages[id]) == p
      ensures PairOf(t.messages[id]) == p ==> messages[id].conversationSeq.Some? && 1 <= messages[id].conversationSeq.value <= n
    {
      InStream(t, ids, p, id);
      if PairOf(t.messages[id]) == p {
        NumbersInRange(t, ids, p, id);
      }
    }
    forall k: nat | 1 <= k <= n ensures k in Numbers(messages, c.id) {
      var id := NumberIsTaken(t, ids, p, k);
      assert messages[id].conversationId == Some(c.id) && messages[id].conversationSeq == Some(k);
    }
    assert Numbers(messages, c.id) == Interval(n);
    forall i, j | i in messages && j in messages && messages[i].conversationId == Some(c.id) == messages[j].conversationId
      && messages[i].conversationSeq == messages[j].conversationSeq
      ensures i == j
    {
      NumbersDiffer(t, ids, p, i, j);
    }
  }

  // ---------------------------------------------------------------- theorems

  lemma LastSeqKeepsIds(messages: map<int, Row>, conversations: map<Pair, Conversation>)
    ensures var c' := WithLastSeq(messages, conversations);
            c'.Keys == conversations.Keys && forall p :: p in c' ==> c'[p].id == conversations[p].id
  {
  }

  lemma MigratedShape(t: Tables, ids: map<Pair, int>, now: int)
    requires Sound(t) && FreshIds(t, ids) && Migrate(t, ids, now).Ok?
    ensures var all := WithConversations(t, ids);
            && LoosePairs(t.messages) <= all.Keys && !HasPartialCursor(t) && !HasUnsupported(t)
            && var messages := Numbered(t.messages, all);
               Migrate(t, ids, now).value
               == Tables(messages, WithLastSeq(messages, all), WithMembers(t, all), Rebuilt(messages, t.events, now))
  {
    hide HasPartialCursor, HasUnsupported, HasUnready, Sound, WithMembers, Rebuilt, WithLastSeq;
    ConversationsAfter(t, ids);
  }

  /**
   * The repair renumbers nothing: a message that had a cursor keeps it, and the loose messages of a pair get the
   * numbers after the conversation's last one, in creation order.
   */
  lemma RepairAppends(t: Tables, ids: map<Pair, int>, now: int, id: int)
    requires Sound(t) && FreshIds(t, ids) && Migrate(t, ids, now).Ok? && id in t.messages
    ensures var t' := Migrate(t, ids, now).value;
            var row, p := t.messages[id], PairOf(t.messages[id]);
            && t'.messages.Keys == t.messages.Keys && p in t'.conversations
            && t'.messages[id].conversationId == Some(t'.conversations[p].id)
            && (row.conversationId.Some? ==> t'.messages[id] == row)
            && t'.messages[id] == row.(conversationId := t'.messages[id].conversationId, conversationSeq := t'.messages[id].conversationSeq)
            && (row.conversationId.None? ==>
                  var last := if p in t.conversations then t.conversations[p].lastSeq else 0;
                  t'.messages[id].conversationSeq == Some(last + RowNumber(t.messages, Loose(t.messages, p), id)))
  {
    hide HasPartialCursor, HasUnsupported, Sound, FreshIds, Migrate, NumberedRow, WithConversations, WithMembers, Rebuilt,
      RowNumber, WithLastSeq, Loose, LoosePairs;
    MigratedShape(t, ids, now);
    ConversationsAfter(t, ids);
    NumberedBelongs(t, ids, id);
    var all := WithConversations(t, ids);
    LastSeqKeepsIds(Numbered(t.messages, all), all);
  }

  /**
   * Within a conversation the repaired messages follow all older cursors, and among themselves they stand in the order
   * of their creation times, and of their identities where those are equal.
   */
  lemma RepairKeepsCreationOrder(t: Tables, ids: map<Pair, int>, now: int, a: int, b: int)
    requires Sound(t) && FreshIds(t, ids) && Migrate(t, ids, now).Ok?
    requires a in t.messages && b in t.messages && PairOf(t.messages[a]) == PairOf(t.messages[b]) && t.messages[b].conversationId.None?
    requires t.messages[a].conversationId.Some? || t.messages[a].createdAt < t.messages[b].createdAt
             || (t.messages[a].createdAt == t.messages[b].createdAt && a < b)
    ensures var t' := Migrate(t, ids, now).value;
            && a in t'.messages && b in t'.messages
            && t'.messages[a].conversationSeq.Some? && t'.messages[b].conversationSeq.Some?
            && t'.messages[a].conversationSeq.value < t'.messages[b].conversationSeq.value
  {
    RepairAppends(t, ids, now, a);
    RepairAppends(t, ids, now, b);
    MigratedShape(t, ids, now);
    hide Migrate, FreshIds, WithConversations, WithMembers, Rebuilt, WithLastSeq, Numbered, Sound, RowNumber;
    var p := PairOf(t.messages[a]);
    if t.messages[a].conversationId.Some? {
      OldNumber(t, p, a);
    } else {
      RowNumbersAreExact(t.messages, Loose(t.messages, p));
      assert Before(t.messages, a, b);
    }
  }

  /** After the repair each conversation's messages carry 1 to last_seq, each exactly once. */
  lemma RepairKeepsStreamsExact(t: Tables, ids: map<Pair, int>, now: int, p: Pair)
    requires Sound(t) && FreshIds(t, ids) && Migrate(t, ids, now).Ok? && p in Migrate(t, ids, now).value.conversations
    ensures var t' := Migrate(t, ids, now).value;
            && StreamExact(t'.messages, t'.conversations[p])
            && t'.conversations[p].lastSeq == (if p in t.conversations then t.conversations[p].lastSeq else 0) + |Loose(t.messages, p)|
  {
    hide HasPartialCursor, HasUnsupported, Sound, Migrate, Numbered, WithConversations, WithMembers, Rebuilt, Loose, Interval;
    MigratedShape(t, ids, now);
    ConversationsAfter(t, ids);
    NumbersAfter(t, ids, p);
    var all := WithConversations(t, ids);
    var n, numbers := all[p].lastSeq + |Loose(t.messages, p)|, Numbers(Numbered(t.messages, all), all[p].id);
    assert numbers == Interval(n);
    if n > 0 {
      assert n in numbers && Greatest(numbers) == n;
    } else {
      assert numbers == {};
    }
  }

  /** Every participant of a message that had no cursor is afterwards a member of its conversation. */
  lemma RepairAddsMembers(t: Tables, ids: map<Pair, int>, now: int, id: int)
    requires Sound(t) && FreshIds(t, ids) && Migrate(t, ids, now).Ok?
    requires id in t.messages && t.messages[id].conversationId.None?
    ensures var t' := Migrate(t, ids, now).value;
            && id in t'.messages && t'.messages[id].conversationId.Some? && t.members <= t'.members
            && (t'.messages[id].conversationId.value, t.messages[id].senderId) in t'.members
            && (t'.messages[id].conversationId.value, t.messages[id].receiverId) in t'.members
  {
    hide HasPartialCursor, HasUnsupported, Sound, Migrate, WithConversations, Rebuilt, RowNumber, WithLastSeq;
    MigratedShape(t, ids, now);
    ConversationsAfter(t, ids);
    NumberedBelongs(t, ids, id);
  }

  /**
   * The repair creates conversations for the pairs of messages without a cursor and for no others, keeps the identities
   * of the existing ones, and adds no member but the participants of such messages.
   */
  lemma RepairAddsNothingElse(t: Tables, ids: map<Pair, int>, now: int)
    requires Sound(t) && FreshIds(t, ids) && Migrate(t, ids, now).Ok?
    ensures var t' := Migrate(t, ids, now).value;
            && (forall p :: p in t'.conversations <==>
                  p in t.conversations || exists id :: id in t.messages && t.messages[id].conversationId.None? && PairOf(t.messages[id]) == p)
            && (forall p :: p in t.conversations ==> p in t'.conversations && t'.conversations[p].id == t.conversations[p].id)
            && (forall c, u :: (c, u) in t'.members ==>
                  (c, u) in t.members
                  || exists id :: id in t.messages && t.messages[id].conversationId.None?
                                  && id in t'.messages && t'.messages[id].conversationId == Some(c)
                                  && (u == t.messages[id].senderId || u == t.messages[id].receiverId))
  {
    hide HasPartialCursor, HasUnsupported, Sound, FreshIds, Migrate, Rebuilt, RowNumber, WithLastSeq, NumberedRow, WithConversations;
    MigratedShape(t, ids, now);
    ConversationsAfter(t, ids);
    ConversationsOnlyFor(t, ids);
    var all := WithConversations(t, ids);
    var messages := Numbered(t.messages, all);
    LastSeqKeepsIds(messages, all);
    var t' := Migrate(t, ids, now).value;
    forall c, u | (c, u) in t'.members && (c, u) !in t.members
      ensures exists id :: id in t.messages && t.messages[id].conversationId.None? && id in t'.messages
                           && t'.messages[id].conversationId == Some(c) && (u == t.messages[id].senderId || u == t.messages[id].receiverId)
    {
      var id :| id in t.messages && t.messages[id].conversationId.None? && c == all[PairOf(t.messages[id])].id
                && (u == t.messages[id].senderId || u == t.messages[id].receiverId);
      NumberedBelongs(t, ids, id);
    }
  }

  lemma ConversationsOnlyFor(t: Tables, ids: map<Pair, int>)
    requires FreshIds(t, ids)
    ensures forall p :: p in WithConversations(t, ids) <==> p in t.conversations || p in LoosePairs(t.messages)
  {
  }

  /** The row as the publisher reads it. */
  function AsEvent(e: OutboxRow): Event {
    Event(e.eventType, e.messageId, e.payloadVersion, e.payload)
  }

  /**
   * A pending event of version 1 to 3 becomes one that the publisher accepts, carrying its message's row and its
   * distinct participants; every other event is unchanged.
   */
  lemma PendingEventsAreRebuilt(t: Tables, ids: map<Pair, int>, now: int, e: int)
    requires Sound(t) && FreshIds(t, ids) && Migrate(t, ids, now).Ok? && e in t.events
    ensures var t' := Migrate(t, ids, now).value;
            && t'.events.Keys == t.events.Keys
            && (if Pending(t.events[e]) && t.events[e].payloadVersion <= 3 then
                  && Acceptable(AsEvent(t'.events[e])) && t'.events[e].lockToken.None?
                  && t'.events[e].eventType == t.events[e].eventType && t'.events[e].messageId == t.events[e].messageId
                  && t'.events[e].readyAt == (if t.events[e].readyAt.Some? then t.events[e].readyAt else Some(now))
                  && !t'.events[e].terminal
                  && t.events[e].messageId in t'.messages
                  && var row := t'.messages[t.events[e].messageId];
                     row.conversationId.Some? && row.conversationSeq.Some?
                     && t'.events[e].payload == Some(Payload(MessageOf(t.events[e].messageId, row), RecipientsOf(row)))
                else t'.events[e] == t.events[e])
            && (Pending(t'.events[e]) ==> t'.events[e].payloadVersion == 4 && t'.events[e].readyAt.Some?)
  {
    hide Migrate, WithConversations, RowNumber, WithLastSeq, WithMembers, NumberedRow, StreamExact, Acceptable;
    var event := t.events[e];
    MigratedShape(t, ids, now);
    NothingUnready(t, ids, now);
    if Pending(event) {
      var id := event.messageId;
      assert 1 <= event.payloadVersion <= 4;
      NumberedBelongs(t, ids, id);
      var all := WithConversations(t, ids);
      ConversationsAfter(t, ids);
      NumbersInRange(t, ids, PairOf(t.messages[id]), id);
      ConversationIdsPositive(t, ids, PairOf(t.messages[id]));
      var row := Numbered(t.messages, all)[id];
      RowKeepsPeople(t.messages, all, id);
      if event.payloadVersion <= 3 {
        RebuiltIsAcceptable(id, row, RebuiltRow(Numbered(t.messages, all), event, now));
      }
    }
  }

  lemma RowKeepsPeople(messages: map<int, Row>, conversations: map<Pair, Conversation>, id: int)
    requires id in messages && LoosePairs(messages) <= conversations.Keys
    ensures var row := NumberedRow(messages, conversations, id);
            row.senderId == messages[id].senderId && row.receiverId == messages[id].receiverId
  {
  }

  lemma ConversationIdsPositive(t: Tables, ids: map<Pair, int>, p: Pair)
    requires Sound(t) && FreshIds(t, ids) && p in WithConversations(t, ids)
    ensures WithConversations(t, ids)[p].id > 0
  {
    hide StreamExact;
  }

  lemma NothingUnready(t: Tables, ids: map<Pair, int>, now: int)
    requires FreshIds(t, ids) && Migrate(t, ids, now).Ok?
    ensures !HasUnready(Migrate(t, ids, now).value.events)
  {
    hide WithConversations, WithMembers, WithLastSeq, Rebuilt, Numbered;
  }

  lemma RebuiltIsAcceptable(id: int, row: Row, e: OutboxRow)
    requires id > 0 && row.senderId > 0 && row.receiverId > 0
    requires row.conversationId.Some? && row.conversationId.value > 0
    requires row.conversationSeq.Some? && row.conversationSeq.value > 0
    requires e.eventType == MessageCreated && e.messageId == id && e.payloadVersion == 4
    requires e.payload == Some(Payload(MessageOf(id, row), RecipientsOf(row)))
    ensures Acceptable(AsEvent(e))
  {
    var ids := UserIds(RecipientsOf(row));
    assert ids == if row.senderId == row.receiverId then [row.senderId] else [row.senderId, row.receiverId];
    assert Elements(ids) == {row.senderId, row.receiverId};
  }

  lemma RowsMigrateExactly(t: Tables, ids: map<Pair, int>, now: int)
    requires Sound(t) && FreshIds(t, ids)
    ensures Migrate(t, ids, now).Ok? <==>
              && (forall id :: id in t.messages ==> (t.messages[id].conversationId.Some? <==> t.messages[id].conversationSeq.Some?))
              && (forall e :: e in t.events && Pending(t.events[e]) ==>
                    1 <= t.events[e].payloadVersion <= 4 && (t.events[e].payloadVersion == 4 ==> t.events[e].readyAt.Some?))
  {
    hide WithConversations, RowNumber, WithLastSeq, WithMembers, NumberedRow, StreamExact, Acceptable;
    ConversationsAfter(t, ids);
    if !HasPartialCursor(t) && !HasUnsupported(t) {
      var messages := Numbered(t.messages, WithConversations(t, ids));
      var events := Rebuilt(messages, t.events, now);
      forall e | e in t.events && Pending(t.events[e])
        ensures events[e].payloadVersion == 4
        ensures events[e].readyAt.Some? <==> t.events[e].payloadVersion != 4 || t.events[e].readyAt.Some?
      {
        NumberedBelongs(t, ids, t.events[e].messageId);
      }
    }
  }

  /**
   * The migration goes through exactly on tables without half cursors, unknown versions, or unready version 4 events,
   * in a database that still has all the objects to be dropped.
   */
  lemma MigrationSucceedsExactly(t: Tables, catalogue: set<string>, ids: map<Pair, int>, now: int)
    requires Sound(t) && FreshIds(t, ids)
    ensures Contracted(t, catalogue, ids, now).Ok? <==>
              && (forall id :: id in t.messages ==> (t.messages[id].conversationId.Some? <==> t.messages[id].conversationSeq.Some?))
              && (forall e :: e in t.events && Pending(t.events[e]) ==>
                    1 <= t.events[e].payloadVersion <= 4 && (t.events[e].payloadVersion == 4 ==> t.events[e].readyAt.Some?))
              && LEGACY <= catalogue
  {
    hide Migrate, Sound, FreshIds;
    RowsMigrateExactly(t, ids, now);
  }

  // ---------------------------------------------------------------- the transaction as it runs

  /** The tables, rewritten statement by statement and restored when a later statement fails. */
  class Database {
    var messages: map<int, Row>
    var conversations: map<Pair, Conversation>
    var members: set<(int, int)>
    var events: map<int, OutboxRow>
    var catalogue: set<string>

    function View(): Tables
      reads this
    {
      Tables(messages, conversations, members, events)
    }

    constructor (t: Tables, catalogue: set<string>)
      ensures View() == t && this.catalogue == catalogue
    {
      this.catalogue := catalogue;
      messages, conversations, members, events := t.messages, t.conversations, t.members, t.events;
    }

    method Contract(ids: map<Pair, int>, now: int) returns (error: Option<MigrationError>)
      requires FreshIds(View(), ids) && Sound(View())
      modifies this
      ensures match Contracted(old(View()), old(catalogue), ids, now) {
        case Ok((t, left)) => error.None? && View() == t && catalogue == left
        case Err(e) => error == Some(e) && View() == old(View()) && catalogue == old(catalogue)
      }
    {
      hide Sound, WithConversations, WithMembers, Numbered, WithLastSeq, Rebuilt, WithoutLegacy,
        HasPartialCursor, HasUnsupported, HasUnready;
      var saved := View();
      ConversationsAfter(saved, ids);
      if HasPartialCursor(saved) {
        return Some(PartialCursor);
      }
      if HasUnsupported(saved) {
        return Some(UnsupportedPayload);
      }
      conversations := WithConversations(saved, ids);
      members := WithMembers(saved, conversations);
      messages := Numbered(messages, conversations);
      conversations := WithLastSeq(messages, conversations);
      events := Rebuilt(messages, events, now);
      if HasUnready(events) {
        messages, conversations, members, events := saved.messages, saved.conversations, saved.members, saved.events;
        return Some(PendingNotReady);
      }
      var remaining := WithoutLegacy(catalogue);
      if remaining.None? {
        messages, conversations, members, events := saved.messages, saved.conversations, saved.members, saved.events;
        return Some(LegacyMissing);
      }
      catalogue := remaining.value;
      error := None;
    }
  }
}
