/**
 * Idempotent sending: committed tables, open READ COMMITTED transactions, and every
 * interleaving of their statements.
 *
 * A transaction's writes stay in its own record until it commits. Row locks and unique-index
 * waits are the enabling conditions of the statements that wait in PostgreSQL.
 */
module MessageStore {
  import opened Common

  // ---------------------------------------------------------------- tables

  datatype Conversation = Conversation(lowUserId: int, highUserId: int, lastSeq: nat, updatedAt: int)

  datatype OutboxEvent = OutboxEvent(
    messageId: int, payloadVersion: int, message: Message, recipients: seq<int>, readyAt: int)

  datatype Tables = Tables(
    users: set<int>,
    conversations: map<int, Conversation>,
    members: set<(int, int)>,
    messages: map<int, Message>,
    events: map<int, OutboxEvent>)

  datatype Command = Command(senderId: int, receiverId: int, clientMessageId: string, content: string)

  const MAX_CONTENT_RUNES := 4000

  predicate ValidCommand(c: Command) {
    16 <= |c.clientMessageId| <= 128 && c.receiverId > 0 && 1 <= |c.content| <= MAX_CONTENT_RUNES
  }

  function Low(c: Command): int { Min(c.senderId, c.receiverId) }
  function High(c: Command): int { Max(c.senderId, c.receiverId) }

  predicate SamePair(v: Conversation, c: Command) {
    v.lowUserId == Low(c) && v.highUserId == High(c)
  }

  predicate SameKey(m: Message, c: Command) {
    m.senderId == c.senderId && m.clientMessageId == c.clientMessageId
  }

  predicate SameRequest(m: Message, c: Command) {
    m.receiverId == c.receiverId && m.content == c.content
  }

  /** The distinct participants of a message, sender first. */
  function Participants(m: Message): seq<int> {
    if m.senderId == m.receiverId then [m.senderId] else [m.senderId, m.receiverId]
  }

  /** The outbox row that the insert statement derives from the message row. */
  function EventFor(m: Message): OutboxEvent {
    OutboxEvent(m.id, 4, m, Participants(m), m.createdAt)
  }

  // ---------------------------------------------------------------- transactions

  datatype Phase =
    | Lookup                                            // SELECT by (sender, client id)
    | Resolve                                           // SELECT the direct conversation
    | InsertConversation                                // INSERT ... ON CONFLICT DO NOTHING
    | Reselect                                          // SELECT again after a conflict
    | InsertMembers(conv: int)
    | Allocate(conv: int)                               // UPDATE last_seq, takes the row lock
    | InsertMessage(conv: int, seqNo: nat, at: int)     // row lock held, provisional number
    | Ready(conv: int, seqNo: nat, at: int, message: Message, eventId: int)
    | Lost(conv: int, seqNo: nat, at: int)              // insert suppressed by a committed retry
    | Reread                                            // rolled back, reading the winner

  /** `own` is the conversation row this transaction inserted and nobody else can see. */
  datatype Tx = Tx(command: Command, phase: Phase, own: Option<(int, Conversation)>)

  datatype Reply = Reply(command: Command, message: Message, created: bool)

  datatype World = World(
    tables: Tables,
    txs: map<int, Tx>,
    nextConversation: int,
    nextMessage: int,
    nextEvent: int,
    replies: seq<Reply>)

  predicate HoldsRow(x: Tx, c: int) {
    (x.phase.InsertMessage? || x.phase.Ready? || x.phase.Lost?) && x.phase.conv == c
  }

  /** The conversation row as this transaction sees it: its own insert, or the committed one. */
  predicate SeesRow(w: World, x: Tx, c: int) {
    (x.own.Some? && x.own.value.0 == c) || c in w.tables.conversations
  }

  function Row(w: World, x: Tx, c: int): Conversation
    requires SeesRow(w, x, c)
  {
    if x.own.Some? && x.own.value.0 == c then x.own.value.1 else w.tables.conversations[c]
  }

  predicate PairCommitted(t: Tables, c: Command) {
    exists id :: id in t.conversations && SamePair(t.conversations[id], c)
  }

  predicate KeyCommitted(t: Tables, c: Command) {
    exists id :: id in t.messages && SameKey(t.messages[id], c)
  }

  // ---------------------------------------------------------------- statements

  datatype Step =
    | AddUser(user: int)
    | Begin(tx: int, command: Command)
    | LookupHit(tx: int, id: int)
    | LookupMiss(tx: int)
    | SelectHit(tx: int, conv: int)
    | SelectMiss(tx: int)
    | ConversationConflict(tx: int)
    | ConversationInserted(tx: int, now: int)
    | ReceiverNotFound(tx: int)
    | MembersInserted(tx: int)
    | SeqAllocated(tx: int, now: int)
    | MessageInserted(tx: int)
    | MessageSuppressed(tx: int)
    | Commit(tx: int, delivered: bool)
    | Rollback(tx: int)
    | RereadHit(tx: int, id: int)
    | Abort(tx: int)

  predicate InPhase(w: World, t: int, p: Phase) {
    t in w.txs && w.txs[t].phase == p
  }

  /** No other open transaction has inserted the same direct pair: the unique index would wait. */
  predicate PairFree(w: World, t: int)
    requires t in w.txs
  {
    forall o :: o in w.txs && o != t && w.txs[o].own.Some? ==> !SamePair(w.txs[o].own.value.1, w.txs[t].command)
  }

  /** No other open transaction holds the row lock of this conversation. */
  predicate RowFree(w: World, t: int, c: int) {
    forall o :: o in w.txs && o != t ==> !HoldsRow(w.txs[o], c)
  }

  /** No other open transaction has inserted the same idempotency key. */
  predicate KeyFree(w: World, t: int)
    requires t in w.txs
  {
    forall o :: o in w.txs && o != t && w.txs[o].phase.Ready? ==> !SameKey(w.txs[o].phase.message, w.txs[t].command)
  }

  predicate UsersExist(t: Tables, c: Command) {
    c.senderId in t.users && c.receiverId in t.users
  }

  ghost predicate Enabled(w: World, s: Step) {
    match s
    case AddUser(u) => u > 0
    case Begin(t, c) => t !in w.txs && ValidCommand(c) && c.senderId in w.tables.users
    case LookupHit(t, id) => InPhase(w, t, Lookup) && id in w.tables.messages && SameKey(w.tables.messages[id], w.txs[t].command)
    case LookupMiss(t) => InPhase(w, t, Lookup) && !KeyCommitted(w.tables, w.txs[t].command)
    case SelectHit(t, c) =>
      (InPhase(w, t, Resolve) || InPhase(w, t, Reselect))
      && c in w.tables.conversations && SamePair(w.tables.conversations[c], w.txs[t].command)
    case SelectMiss(t) => InPhase(w, t, Resolve) && !PairCommitted(w.tables, w.txs[t].command)
    case ConversationConflict(t) =>
      InPhase(w, t, InsertConversation) && PairFree(w, t) && PairCommitted(w.tables, w.txs[t].command)
    case ConversationInserted(t, now) =>
      InPhase(w, t, InsertConversation) && PairFree(w, t) && !PairCommitted(w.tables, w.txs[t].command)
      && UsersExist(w.tables, w.txs[t].command)
    case ReceiverNotFound(t) =>
      InPhase(w, t, InsertConversation) && PairFree(w, t) && !PairCommitted(w.tables, w.txs[t].command)
      && !UsersExist(w.tables, w.txs[t].command)
    case MembersInserted(t) => t in w.txs && w.txs[t].phase.InsertMembers?
    case SeqAllocated(t, now) =>
      t in w.txs && w.txs[t].phase.Allocate? && RowFree(w, t, w.txs[t].phase.conv)
      && SeesRow(w, w.txs[t], w.txs[t].phase.conv)
    case MessageInserted(t) =>
      t in w.txs && w.txs[t].phase.InsertMessage? && KeyFree(w, t) && !KeyCommitted(w.tables, w.txs[t].command)
    case MessageSuppressed(t) =>
      t in w.txs && w.txs[t].phase.InsertMessage? && KeyFree(w, t) && KeyCommitted(w.tables, w.txs[t].command)
    case Commit(t, _) => t in w.txs && w.txs[t].phase.Ready? && SeesRow(w, w.txs[t], w.txs[t].phase.conv)
    case Rollback(t) => t in w.txs && w.txs[t].phase.Lost?
    case RereadHit(t, id) => InPhase(w, t, Reread) && id in w.tables.messages && SameKey(w.tables.messages[id], w.txs[t].command)
    case Abort(t) => t in w.txs
  }

  function SetPhase(w: World, t: int, p: Phase): World
    requires t in w.txs
  {
    w.(txs := w.txs[t := w.txs[t].(phase := p)])
  }

  /** Ends a transaction that found an earlier message: same request replies, another one conflicts. */
  function Answer(w: World, t: int, m: Message): World
    requires t in w.txs
  {
    var c := w.txs[t].command;
    w.(txs := w.txs - {t},
       replies := if SameRequest(m, c) then w.replies + [Reply(c, m, false)] else w.replies)
  }

  /** The message that the insert statement writes for this command. */
  function NewMessage(id: int, conv: int, seqNo: nat, at: int, c: Command): Message {
    Message(id, conv, seqNo, c.clientMessageId, c.senderId, c.receiverId, c.content, at)
  }

  /** The tables after a ready transaction publishes its private writes. */
  function Published(w: World, x: Tx): Tables
    requires x.phase.Ready? && SeesRow(w, x, x.phase.conv)
  {
    var c := x.phase.conv;
    var row := Row(w, x, c).(lastSeq := x.phase.seqNo, updatedAt := x.phase.at);
    w.tables.(
      conversations := w.tables.conversations[c := row],
      members := w.tables.members + (if x.own.Some? then {(c, row.lowUserId), (c, row.highUserId)} else {}),
      messages := w.tables.messages[x.phase.message.id := x.phase.message],
      events := w.tables.events[x.phase.eventId := EventFor(x.phase.message)])
  }

  ghost function Apply(w: World, s: Step): World
    requires Enabled(w, s)
  {
    match s
    case AddUser(u) => w.(tables := w.tables.(users := w.tables.users + {u}))
    case Begin(t, c) => w.(txs := w.txs[t := Tx(c, Lookup, None)])
    case LookupHit(t, id) => Answer(w, t, w.tables.messages[id])
    case LookupMiss(t) => SetPhase(w, t, Resolve)
    case SelectHit(t, c) => SetPhase(w, t, Allocate(c))
    case SelectMiss(t) => SetPhase(w, t, InsertConversation)
    case ConversationConflict(t) => SetPhase(w, t, Reselect)
    case ConversationInserted(t, now) =>
      var c := w.txs[t].command;
      var id := w.nextConversation;
      w.(txs := w.txs[t := Tx(c, InsertMembers(id), Some((id, Conversation(Low(c), High(c), 0, now))))],
         nextConversation := id + 1)
    case ReceiverNotFound(t) => w.(txs := w.txs - {t})
    case MembersInserted(t) => SetPhase(w, t, Allocate(w.txs[t].phase.conv))
    case SeqAllocated(t, now) =>
      var c := w.txs[t].phase.conv;
      var row := Row(w, w.txs[t], c);
      SetPhase(w, t, InsertMessage(c, row.lastSeq + 1, Max(row.updatedAt, now)))
    case MessageInserted(t) =>
      var p := w.txs[t].phase;
      var m := NewMessage(w.nextMessage, p.conv, p.seqNo, p.at, w.txs[t].command);
      SetPhase(w, t, Ready(p.conv, p.seqNo, p.at, m, w.nextEvent))
        .(nextMessage := w.nextMessage + 1, nextEvent := w.nextEvent + 1)
    case MessageSuppressed(t) =>
      var p := w.txs[t].phase;
      SetPhase(w, t, Lost(p.conv, p.seqNo, p.at))
    case Commit(t, delivered) =>
      var x := w.txs[t];
      w.(tables := Published(w, x),
         txs := w.txs - {t},
         replies := if delivered then w.replies + [Reply(x.command, x.phase.message, true)] else w.replies)
    case Rollback(t) => w.(txs := w.txs[t := Tx(w.txs[t].command, Reread, None)])
    case RereadHit(t, id) => Answer(w, t, w.tables.messages[id])
    case Abort(t) => w.(txs := w.txs - {t})
  }

  ghost predicate Initial(w: World) {
    w.tables == Tables({}, map[], {}, map[], map[]) && w.txs == map[] && w.replies == []
    && w.nextConversation == 1 && w.nextMessage == 1 && w.nextEvent == 1
  }

  ghost predicate Next(w: World, w': World) {
    exists s :: Enabled(w, s) && w' == Apply(w, s)
  }

  ghost predicate IsRun(ws: seq<World>) {
    |ws| > 0 && Initial(ws[0]) && forall i :: 0 <= i < |ws| - 1 ==> Next(ws[i], ws[i + 1])
  }

  // ---------------------------------------------------------------- what every committed state satisfies

  predicate At(t: Tables, c: int, k: int, id: int) {
    id in t.messages && t.messages[id].conversationId == c && t.messages[id].conversationSeq == k
  }

  ghost predicate Filled(t: Tables, c: int, k: int) {
    exists id :: At(t, c, k, id)
  }

  predicate EventOf(t: Tables, id: int, e: int) {
    e in t.events && t.events[e].messageId == id
  }

  /** Conversations: one per pair, both users exist, members are the pair, never empty. */
  ghost predicate ConversationsSound(t: Tables) {
    && (forall u :: u in t.users ==> u > 0)
    && (forall c :: c in t.conversations ==>
          c > 0 && t.conversations[c].lastSeq >= 1 && t.conversations[c].lowUserId <= t.conversations[c].highUserId
          && t.conversations[c].lowUserId in t.users && t.conversations[c].highUserId in t.users)
    && (forall c, d | c in t.conversations && d in t.conversations
          && t.conversations[c].lowUserId == t.conversations[d].lowUserId
          && t.conversations[c].highUserId == t.conversations[d].highUserId :: c == d)
    && (forall c, u :: (c, u) in t.members <==>
          c in t.conversations && (u == t.conversations[c].lowUserId || u == t.conversations[c].highUserId))
  }

  /** Every stored message belongs to its conversation and carries a number in 1..last_seq. */
  ghost predicate MessagesPlaced(t: Tables) {
    forall id :: id in t.messages ==>
      var m := t.messages[id];
      m.id == id && m.id > 0 && m.conversationId in t.conversations
      && 1 <= m.conversationSeq <= t.conversations[m.conversationId].lastSeq
      && t.conversations[m.conversationId].lowUserId == Min(m.senderId, m.receiverId)
      && t.conversations[m.conversationId].highUserId == Max(m.senderId, m.receiverId)
      && m.createdAt <= t.conversations[m.conversationId].updatedAt
  }

  /** No number is used twice, none is missing, and time never runs backwards along the numbers. */
  ghost predicate StreamsSound(t: Tables) {
    && (forall i, j | i in t.messages && j in t.messages && i != j
          && t.messages[i].conversationId == t.messages[j].conversationId ::
            t.messages[i].conversationSeq != t.messages[j].conversationSeq)
    && (forall c, k | c in t.conversations && 1 <= k <= t.conversations[c].lastSeq :: Filled(t, c, k))
    && (forall i, j | i in t.messages && j in t.messages
          && t.messages[i].conversationId == t.messages[j].conversationId
          && t.messages[i].conversationSeq < t.messages[j].conversationSeq ::
            t.messages[i].createdAt <= t.messages[j].createdAt)
  }

  /** One message per (sender, client id). */
  ghost predicate KeysUnique(t: Tables) {
    forall i, j | i in t.messages && j in t.messages
      && t.messages[i].senderId == t.messages[j].senderId
      && t.messages[i].clientMessageId == t.messages[j].clientMessageId :: i == j
  }

  /** Exactly one outbox event per message, and its payload is that message. */
  ghost predicate EventsSound(t: Tables) {
    && (forall e :: e in t.events ==>
          t.events[e].messageId in t.messages && t.events[e] == EventFor(t.messages[t.events[e].messageId]))
    && (forall id :: id in t.messages ==> exists e :: EventOf(t, id, e))
    && (forall e, f :: e in t.events && f in t.events && t.events[e].messageId == t.events[f].messageId ==> e == f)
  }

  ghost predicate TablesSound(t: Tables) {
    ConversationsSound(t) && MessagesPlaced(t) && StreamsSound(t) && KeysUnique(t) && EventsSound(t)
  }

  // ---------------------------------------------------------------- what every open transaction satisfies

  ghost predicate TxSound(w: World, x: Tx) {
    var c := x.command;
    && ValidCommand(c)
    && c.senderId in w.tables.users
    && (x.own.Some? ==>
          && x.own.value.0 !in w.tables.conversations
          && 0 < x.own.value.0 < w.nextConversation
          && SamePair(x.own.value.1, c)
          && x.own.value.1.lastSeq == 0
          && UsersExist(w.tables, c)
          && !PairCommitted(w.tables, c))
    && match x.phase
       case Lookup => x.own.None?
       case Resolve => x.own.None?
       case InsertConversation => x.own.None?
       case Reselect => x.own.None? && PairCommitted(w.tables, c)
       case InsertMembers(v) => x.own.Some? && x.own.value.0 == v
       case Allocate(v) => PlacedAt(w, x, v)
       case InsertMessage(v, k, at) => Numbered(w, x, v, k, at)
       case Lost(v, k, at) => Numbered(w, x, v, k, at) && KeyCommitted(w.tables, c)
       case Ready(v, k, at, m, e) =>
         && Numbered(w, x, v, k, at)
         && m == NewMessage(m.id, v, k, at, c)
         && 0 < m.id < w.nextMessage && m.id !in w.tables.messages
         && e < w.nextEvent && e !in w.tables.events
         && !KeyCommitted(w.tables, c)
       case Reread => x.own.None? && KeyCommitted(w.tables, c)
  }

  ghost predicate PlacedAt(w: World, x: Tx, v: int) {
    && SeesRow(w, x, v)
    && (x.own.Some? ==> x.own.value.0 == v)
    && SamePair(Row(w, x, v), x.command)
  }

  /** The provisional number follows the row it was taken from, which its lock keeps still. */
  ghost predicate Numbered(w: World, x: Tx, v: int, k: nat, at: int) {
    PlacedAt(w, x, v) && k == Row(w, x, v).lastSeq + 1 && at >= Row(w, x, v).updatedAt
  }

  /** Two open transactions never hold the same row, pair, key or identity. */
  ghost predicate Apart(x: Tx, y: Tx) {
    && (x.own.Some? && y.own.Some? ==>
          x.own.value.0 != y.own.value.0 && !SamePair(x.own.value.1, y.command) && !SamePair(y.own.value.1, x.command))
    && (forall c :: HoldsRow(x, c) ==> !HoldsRow(y, c))
    && (x.phase.Ready? && y.phase.Ready? ==>
          && x.phase.message.id != y.phase.message.id && x.phase.eventId != y.phase.eventId
          && !SameKey(x.phase.message, y.command))
  }

  ghost predicate TxsSound(w: World) {
    && (forall t :: t in w.txs ==> TxSound(w, w.txs[t]))
    && (forall t, u :: t in w.txs && u in w.txs && t != u ==> Apart(w.txs[t], w.txs[u]))
  }

  ghost predicate IdsFresh(w: World) {
    && w.nextConversation > 0 && w.nextMessage > 0
    && (forall c :: c in w.tables.conversations ==> c < w.nextConversation)
    && (forall i :: i in w.tables.messages ==> i < w.nextMessage)
    && (forall e :: e in w.tables.events ==> e < w.nextEvent)
  }

  /** Replies for one key name one committed message, and at most one of them says Created. */
  ghost predicate RepliesSound(w: World) {
    && (forall r :: r in w.replies ==> ReplyCommitted(w.tables, r))
    && (forall i, j :: 0 <= i < j < |w.replies| && SameKey(w.replies[i].message, w.replies[j].command) ==>
          !(w.replies[i].created && w.replies[j].created))
  }

  ghost predicate ReplyCommitted(t: Tables, r: Reply) {
    && SameKey(r.message, r.command) && SameRequest(r.message, r.command)
    && r.message.id in t.messages && t.messages[r.message.id] == r.message
  }

  ghost predicate Inv(w: World) {
    TablesSound(w.tables) && IdsFresh(w) && TxsSound(w) && RepliesSound(w)
  }

  // ---------------------------------------------------------------- preservation

  /** Steps that leave the tables alone keep every other transaction's facts. */
  lemma TxFramed(w: World, w': World, x: Tx)
    requires TxSound(w, x)
    requires w'.tables == w.tables
    requires w'.nextConversation >= w.nextConversation && w'.nextMessage >= w.nextMessage && w'.nextEvent >= w.nextEvent
    ensures TxSound(w', x)
  {
  }

  /** The published conversation is the transaction's own new one or the locked one, with its pair unchanged. */
  lemma PublishedRow(w: World, x: Tx)
    requires TxSound(w, x) && x.phase.Ready?
    ensures var v, n := x.phase.conv, Published(w, x);
      && n.conversations == w.tables.conversations[v := n.conversations[v]]
      && SamePair(n.conversations[v], x.command)
      && n.conversations[v].lastSeq == x.phase.seqNo >= 1
      && (x.own.None? ==> v in w.tables.conversations && SamePair(w.tables.conversations[v], x.command)
                          && n.members == w.tables.members)
      && (x.own.Some? ==> v !in w.tables.conversations && v > 0 && !PairCommitted(w.tables, x.command)
                          && UsersExist(w.tables, x.command)
                          && n.members == w.tables.members + {(v, Low(x.command)), (v, High(x.command))})
  {
  }

  lemma CommitKeepsConversations(w: World, x: Tx)
    requires ConversationsSound(w.tables) && TxSound(w, x) && x.phase.Ready?
    ensures ConversationsSound(Published(w, x))
  {
    PublishedRow(w, x);
    var o, n, v := w.tables, Published(w, x), x.phase.conv;
    assert n.users == o.users;
    hide TxSound, Published;
    assert x.own.Some? ==> forall d :: d in o.conversations ==> !SamePair(o.conversations[d], x.command);
  }

  lemma CommitKeepsMessages(w: World, x: Tx)
    requires MessagesPlaced(w.tables) && KeysUnique(w.tables) && TxSound(w, x) && x.phase.Ready?
    ensures MessagesPlaced(Published(w, x)) && KeysUnique(Published(w, x))
  {
    var o, n := w.tables, Published(w, x);
    forall i, j | i in n.messages && j in n.messages
      && n.messages[i].senderId == n.messages[j].senderId
      && n.messages[i].clientMessageId == n.messages[j].clientMessageId
      ensures i == j
    {
      if i != j {
        var other := if i == x.phase.message.id then j else i;
        if i == x.phase.message.id || j == x.phase.message.id {
          assert other in o.messages && SameKey(o.messages[other], x.command);
          assert false;
        }
      }
    }
  }

  /** The published message takes the number after the conversation's last one, at a time not before its last one. */
  lemma PublishedMessage(w: World, x: Tx)
    requires TxSound(w, x) && x.phase.Ready?
    ensures var p, v, o := x.phase, x.phase.conv, w.tables;
      && p.message.id !in o.messages && Published(w, x).messages == o.messages[p.message.id := p.message]
      && p.message.conversationId == v && p.message.conversationSeq == p.seqNo && p.message.createdAt == p.at
      && p.seqNo == 1 + (if v in o.conversations then o.conversations[v].lastSeq else 0)
      && (v in o.conversations ==> p.at >= o.conversations[v].updatedAt)
  {
  }

  lemma CommitFillsNext(w: World, x: Tx, c: int, k: nat)
    requires StreamsSound(w.tables) && TxSound(w, x) && x.phase.Ready?
    requires c in Published(w, x).conversations && 1 <= k <= Published(w, x).conversations[c].lastSeq
    ensures Filled(Published(w, x), c, k)
  {
    PublishedRow(w, x);
    PublishedMessage(w, x);
    hide TxSound, Published;
    var o, n := w.tables, Published(w, x);
    if c == x.phase.conv && k == x.phase.seqNo {
      assert At(n, c, k, x.phase.message.id);
    } else {
      assert Filled(o, c, k);
      var id :| At(o, c, k, id);
      assert At(n, c, k, id);
    }
  }

  lemma CommitKeepsStreams(w: World, x: Tx)
    requires MessagesPlaced(w.tables) && StreamsSound(w.tables) && TxSound(w, x) && x.phase.Ready?
    ensures StreamsSound(Published(w, x))
  {
    hide Published, Filled;
    var o, n := w.tables, Published(w, x);
    forall c, k | c in n.conversations && 1 <= k <= n.conversations[c].lastSeq ensures Filled(n, c, k) {
      CommitFillsNext(w, x, c, k);
    }
    PublishedMessage(w, x);
    hide TxSound;
    assert forall i :: i in o.messages && o.messages[i].conversationId == x.phase.conv ==>
        o.messages[i].conversationSeq < x.phase.seqNo && o.messages[i].createdAt <= x.phase.at;
  }

  lemma CommitKeepsEvents(w: World, x: Tx)
    requires EventsSound(w.tables) && TxSound(w, x) && x.phase.Ready?
    ensures EventsSound(Published(w, x))
  {
    var o, n := w.tables, Published(w, x);
    forall id | id in n.messages
      ensures exists e :: EventOf(n, id, e)
    {
      if id == x.phase.message.id {
        assert EventOf(n, id, x.phase.eventId);
      } else {
        var e :| EventOf(o, id, e);
        assert EventOf(n, id, e);
      }
    }
  }

  /** The answers a commit can change for another command: only those of its own pair and key. */
  lemma CommitChangesOwnAnswers(w: World, x: Tx, c: Command)
    requires x.phase.Ready? && SeesRow(w, x, x.phase.conv) && x.phase.message.id !in w.tables.messages
    requires x.own.Some? ==> x.own.value.0 == x.phase.conv && x.own.value.0 !in w.tables.conversations
    ensures var n := Published(w, x);
      && (PairCommitted(n, c) <==> PairCommitted(w.tables, c) || (x.own.Some? && SamePair(x.own.value.1, c)))
      && (KeyCommitted(n, c) <==> KeyCommitted(w.tables, c) || SameKey(x.phase.message, c))
  {
    var o, n := w.tables, Published(w, x);
    assert n.messages[x.phase.message.id] == x.phase.message;
    forall id | id in o.messages ensures id in n.messages && n.messages[id] == o.messages[id] {}
    forall id | id in o.conversations ensures id in n.conversations && SamePair(n.conversations[id], c) == SamePair(o.conversations[id], c) {}
    if x.own.Some? {
      assert SamePair(n.conversations[x.phase.conv], c) == SamePair(x.own.value.1, c);
    }
  }

  /** A commit changes no row, pair or key that another open transaction relies on. */
  lemma CommitKeepsOther(w: World, x: Tx, y: Tx, w': World)
    requires TxSound(w, x) && TxSound(w, y) && Apart(x, y) && Apart(y, x)
    requires x.phase.Ready? && w'.tables == Published(w, x)
    requires w'.nextConversation == w.nextConversation && w'.nextMessage == w.nextMessage && w'.nextEvent == w.nextEvent
    ensures TxSound(w', y)
  {
    assert HoldsRow(x, x.phase.conv);
    assert !HoldsRow(y, x.phase.conv);
    CommitChangesOwnAnswers(w, x, y.command);
  }

  lemma CommitKeepsReplies(w: World, t: int, w': World)
    requires RepliesSound(w) && t in w.txs && TxSound(w, w.txs[t]) && w.txs[t].phase.Ready?
    requires w'.tables == Published(w, w.txs[t])
    requires w'.replies == w.replies || w'.replies == w.replies + [Reply(w.txs[t].command, w.txs[t].phase.message, true)]
    ensures RepliesSound(w')
  {
    var x := w.txs[t];
    forall r | r in w.replies ensures ReplyCommitted(w'.tables, r) && !SameKey(r.message, x.command) {
      assert ReplyCommitted(w.tables, r);
    }
  }

  lemma CommitKeepsIds(w: World, x: Tx, w': World)
    requires IdsFresh(w) && TxSound(w, x) && x.phase.Ready? && w'.tables == Published(w, x)
    requires w'.nextConversation == w.nextConversation && w'.nextMessage == w.nextMessage && w'.nextEvent == w.nextEvent
    ensures IdsFresh(w')
  {
  }

  lemma CommitKeepsTables(w: World, x: Tx)
    requires TablesSound(w.tables) && TxSound(w, x) && x.phase.Ready?
    ensures TablesSound(Published(w, x))
  {
    hide TxSound, Published, ConversationsSound, MessagesPlaced, StreamsSound, KeysUnique, EventsSound;
    CommitKeepsConversations(w, x);
    CommitKeepsMessages(w, x);
    CommitKeepsStreams(w, x);
    CommitKeepsEvents(w, x);
  }

  lemma CommitKeepsTxs(w: World, t: int, w': World)
    requires TxsSound(w) && t in w.txs && w.txs[t].phase.Ready? && TxSound(w, w.txs[t])
    requires w'.txs == w.txs - {t} && w'.tables == Published(w, w.txs[t])
    requires w'.nextConversation == w.nextConversation && w'.nextMessage == w.nextMessage && w'.nextEvent == w.nextEvent
    ensures TxsSound(w')
  {
    hide TxSound, Apart, Published;
    forall u | u in w'.txs ensures TxSound(w', w'.txs[u]) {
      CommitKeepsOther(w, w.txs[t], w.txs[u], w');
    }
  }

  lemma CommitKeepsInv(w: World, t: int, delivered: bool)
    requires Inv(w) && Enabled(w, Commit(t, delivered))
    ensures Inv(Apply(w, Commit(t, delivered)))
  {
    var w' := Apply(w, Commit(t, delivered));
    hide TxSound, Apart, RepliesSound, TablesSound, IdsFresh, Published;
    assert TxSound(w, w.txs[t]);
    CommitKeepsTables(w, w.txs[t]);
    CommitKeepsReplies(w, t, w');
    CommitKeepsIds(w, w.txs[t], w');
    CommitKeepsTxs(w, t, w');
  }

  /** Finishing on an earlier message keeps the replies consistent. */
  lemma AnswerKeepsInv(w: World, t: int, id: int)
    requires Inv(w) && t in w.txs && id in w.tables.messages && SameKey(w.tables.messages[id], w.txs[t].command)
    ensures Inv(Answer(w, t, w.tables.messages[id]))
  {
    assert w.tables.messages[id].id == id;
    hide TxSound, Apart, TablesSound;
    var w' := Answer(w, t, w.tables.messages[id]);
    forall u | u in w'.txs ensures TxSound(w', w'.txs[u]) {
      TxFramed(w, w', w.txs[u]);
    }
  }

  /** A statement that only moves one transaction to another sound phase keeps the invariant. */
  lemma MoveKeepsInv(w: World, w': World, t: int)
    requires Inv(w) && t in w.txs && w'.tables == w.tables && w'.replies == w.replies
    requires w'.nextConversation >= w.nextConversation && w'.nextMessage >= w.nextMessage && w'.nextEvent >= w.nextEvent
    requires t in w'.txs && w'.txs == w.txs[t := w'.txs[t]] && TxSound(w', w'.txs[t])
    requires forall o :: o in w.txs && o != t ==> Apart(w'.txs[t], w.txs[o]) && Apart(w.txs[o], w'.txs[t])
    ensures Inv(w')
  {
    hide TxSound, Apart, TablesSound;
    forall u | u in w'.txs ensures TxSound(w', w'.txs[u]) {
      if u != t { TxFramed(w, w', w.txs[u]); }
    }
  }

  lemma ConversationInsertKeepsInv(w: World, t: int, now: int)
    requires Inv(w) && Enabled(w, ConversationInserted(t, now))
    ensures Inv(Apply(w, ConversationInserted(t, now)))
  {
    var w' := Apply(w, ConversationInserted(t, now));
    forall o | o in w.txs && o != t ensures Apart(w'.txs[t], w.txs[o]) && Apart(w.txs[o], w'.txs[t]) {
      assert TxSound(w, w.txs[o]);
    }
    MoveKeepsInv(w, w', t);
  }

  lemma AllocationKeepsInv(w: World, t: int, now: int)
    requires Inv(w) && Enabled(w, SeqAllocated(t, now))
    ensures Inv(Apply(w, SeqAllocated(t, now)))
  {
    var w' := Apply(w, SeqAllocated(t, now));
    assert TxSound(w, w.txs[t]);
    assert TxSound(w', w'.txs[t]);
    hide TxSound, TablesSound, RepliesSound, SamePair, SameKey;
    forall o | o in w.txs && o != t ensures Apart(w'.txs[t], w.txs[o]) && Apart(w.txs[o], w'.txs[t]) {
      assert Apart(w.txs[t], w.txs[o]) && Apart(w.txs[o], w.txs[t]);
    }
    MoveKeepsInv(w, w', t);
  }

  lemma ReadyStaysApart(w: World, x: Tx, y: Tx, x': Tx)
    requires Apart(x, y) && Apart(y, x) && TxSound(w, x) && TxSound(w, y) && x.phase.InsertMessage?
    requires x' == x.(phase := Ready(x.phase.conv, x.phase.seqNo, x.phase.at,
                                     NewMessage(w.nextMessage, x.phase.conv, x.phase.seqNo, x.phase.at, x.command), w.nextEvent))
    requires y.phase.Ready? ==> !SameKey(y.phase.message, x.command)
    ensures Apart(x', y) && Apart(y, x')
  {
    assert HoldsRow(x, x.phase.conv);
  }

  lemma ReadyIsSound(w: World, x: Tx, w': World, x': Tx)
    requires TxSound(w, x) && x.phase.InsertMessage? && !KeyCommitted(w.tables, x.command) && IdsFresh(w)
    requires x' == x.(phase := Ready(x.phase.conv, x.phase.seqNo, x.phase.at,
                                     NewMessage(w.nextMessage, x.phase.conv, x.phase.seqNo, x.phase.at, x.command), w.nextEvent))
    requires w'.tables == w.tables && w'.nextConversation == w.nextConversation
    requires w'.nextMessage == w.nextMessage + 1 && w'.nextEvent == w.nextEvent + 1
    ensures TxSound(w', x')
  {
  }

  lemma MessageInsertKeepsInv(w: World, t: int)
    requires Inv(w) && Enabled(w, MessageInserted(t))
    ensures Inv(Apply(w, MessageInserted(t)))
  {
    var w' := Apply(w, MessageInserted(t));
    var x, x' := w.txs[t], w'.txs[t];
    assert TxSound(w, x);
    ReadyIsSound(w, x, w', x');
    hide TablesSound, RepliesSound, TxSound, Apart;
    forall o | o in w.txs && o != t ensures Apart(x', w.txs[o]) && Apart(w.txs[o], x') {
      assert TxSound(w, w.txs[o]);
      assert Apart(x, w.txs[o]) && Apart(w.txs[o], x);
      ReadyStaysApart(w, x, w.txs[o], x');
    }
    MoveKeepsInv(w, w', t);
  }

  predicate IsQuiet(s: Step) {
    s.LookupMiss? || s.SelectHit? || s.SelectMiss? || s.ConversationConflict? || s.MembersInserted?
    || s.MessageSuppressed? || s.Rollback?
  }

  lemma QuietStaysApart(x: Tx, y: Tx, x': Tx)
    requires Apart(x, y) && Apart(y, x)
    requires x'.command == x.command && (x'.own == x.own || x'.own.None?) && !x'.phase.Ready?
    requires forall c :: HoldsRow(x', c) ==> HoldsRow(x, c)
    ensures Apart(x', y) && Apart(y, x')
  {
  }

  lemma QuietIsSound(w: World, s: Step)
    requires IsQuiet(s) && Enabled(w, s) && TxSound(w, w.txs[s.tx])
    ensures TxSound(Apply(w, s), Apply(w, s).txs[s.tx])
  {
    assert TxSound(w, Apply(w, s).txs[s.tx]);
  }

  lemma QuietShape(w: World, s: Step)
    requires Enabled(w, s) && IsQuiet(s)
    ensures var w' := Apply(w, s);
      && s.tx in w.txs && w' == w.(txs := w.txs[s.tx := w'.txs[s.tx]])
      && var x, x' := w.txs[s.tx], w'.txs[s.tx];
         && x'.command == x.command && (x'.own == x.own || x'.own.None?) && !x'.phase.Ready?
         && (forall c :: HoldsRow(x', c) ==> HoldsRow(x, c))
  {
  }

  /** Phase changes that take no lock. */
  lemma QuietMoveKeepsInv(w: World, s: Step)
    requires Inv(w) && Enabled(w, s) && IsQuiet(s)
    ensures Inv(Apply(w, s))
  {
    hide TxSound, Apart, TablesSound, RepliesSound, Apply, HoldsRow;
    QuietShape(w, s);
    QuietIsSound(w, s);
    hide Enabled;
    var w' := Apply(w, s);
    forall o | o in w.txs && o != s.tx ensures Apart(w'.txs[s.tx], w.txs[o]) && Apart(w.txs[o], w'.txs[s.tx]) {
      QuietStaysApart(w.txs[s.tx], w.txs[o], w'.txs[s.tx]);
    }
    hide Inv;
    MoveKeepsInv(w, w', s.tx);
  }

  lemma DropKeepsInv(w: World, t: int)
    requires Inv(w) && t in w.txs
    ensures Inv(w.(txs := w.txs - {t}))
  {
    hide TxSound, Apart, TablesSound;
    var w' := w.(txs := w.txs - {t});
    forall u | u in w'.txs ensures TxSound(w', w'.txs[u]) {
      TxFramed(w, w', w.txs[u]);
    }
  }

  lemma BeginKeepsInv(w: World, t: int, c: Command)
    requires Inv(w) && Enabled(w, Begin(t, c))
    ensures Inv(Apply(w, Begin(t, c)))
  {
    hide TablesSound;
    var w' := Apply(w, Begin(t, c));
    forall u | u in w'.txs ensures TxSound(w', w'.txs[u]) {
      if u != t { TxFramed(w, w', w.txs[u]); }
    }
  }

  lemma AddUserKeepsTables(t: Tables, u: int)
    requires TablesSound(t) && u > 0
    ensures TablesSound(t.(users := t.users + {u}))
  {
    var t' := t.(users := t.users + {u});
    forall c, k | c in t'.conversations && 1 <= k <= t'.conversations[c].lastSeq ensures Filled(t', c, k) {
      assert Filled(t, c, k);
      var id :| At(t, c, k, id);
      assert At(t', c, k, id);
    }
    forall id | id in t'.messages ensures exists e :: EventOf(t', id, e) {
      var e :| EventOf(t, id, e);
      assert EventOf(t', id, e);
    }
  }

  lemma AddUserKeepsTx(w: World, u: int, x: Tx)
    requires TxSound(w, x)
    ensures TxSound(w.(tables := w.tables.(users := w.tables.users + {u})), x)
  {
    SameAnswers(w.tables, w.tables.(users := w.tables.users + {u}), x.command);
  }

  lemma AddUserKeepsInv(w: World, u: int)
    requires Inv(w) && u > 0
    ensures Inv(w.(tables := w.tables.(users := w.tables.users + {u})))
  {
    var w' := w.(tables := w.tables.(users := w.tables.users + {u}));
    hide TxSound, Apart, TablesSound;
    AddUserKeepsTables(w.tables, u);
    forall t | t in w'.txs ensures TxSound(w', w'.txs[t]) {
      AddUserKeepsTx(w, u, w.txs[t]);
    }
    forall r | r in w'.replies ensures ReplyCommitted(w'.tables, r) {
      assert ReplyCommitted(w.tables, r);
    }
  }

  lemma SameAnswers(t: Tables, t': Tables, c: Command)
    requires t'.conversations == t.conversations && t'.messages == t.messages
    ensures PairCommitted(t', c) == PairCommitted(t, c) && KeyCommitted(t', c) == KeyCommitted(t, c)
  {
  }

  lemma StepKeepsInv(w: World, s: Step)
    requires Inv(w) && Enabled(w, s)
    ensures Inv(Apply(w, s))
  {
    hide Inv;
    match s
    case AddUser(u) => AddUserKeepsInv(w, u);
    case Begin(t, c) => BeginKeepsInv(w, t, c);
    case LookupHit(t, id) => AnswerKeepsInv(w, t, id);
    case RereadHit(t, id) => AnswerKeepsInv(w, t, id);
    case ConversationInserted(t, now) => ConversationInsertKeepsInv(w, t, now);
    case ReceiverNotFound(t) => DropKeepsInv(w, t);
    case Abort(t) => DropKeepsInv(w, t);
    case SeqAllocated(t, now) => AllocationKeepsInv(w, t, now);
    case MessageInserted(t) => MessageInsertKeepsInv(w, t);
    case Commit(t, delivered) => CommitKeepsInv(w, t, delivered);
    case _ => QuietMoveKeepsInv(w, s);
  }

  lemma InitialKeepsInv(w: World)
    requires Initial(w)
    ensures Inv(w)
  {
  }

  lemma {:induction false} RunKeepsInv(ws: seq<World>, i: nat)
    requires IsRun(ws) && i < |ws|
    ensures Inv(ws[i])
  {
    if i == 0 {
      InitialKeepsInv(ws[0]);
    } else {
      RunKeepsInv(ws, i - 1);
      assert Next(ws[i - 1], ws[i - 1 + 1]);
      var s :| Enabled(ws[i - 1], s) && ws[i] == Apply(ws[i - 1], s);
      StepKeepsInv(ws[i - 1], s);
    }
  }

  // ---------------------------------------------------------------- theorems over whole runs

  /** In every state of every run each conversation uses the numbers 1..last_seq exactly once, in time order. */
  lemma SequenceNumbersAreExact(ws: seq<World>, i: nat, c: int)
    requires IsRun(ws) && i < |ws| && c in ws[i].tables.conversations
    ensures var t := ws[i].tables;
      && (forall k :: 1 <= k <= t.conversations[c].lastSeq <==> Filled(t, c, k))
      && (forall p, q | p in t.messages && q in t.messages && t.messages[p].conversationId == c && t.messages[q].conversationId == c ::
            && (t.messages[p].conversationSeq == t.messages[q].conversationSeq ==> p == q)
            && (t.messages[p].conversationSeq < t.messages[q].conversationSeq ==> t.messages[p].createdAt <= t.messages[q].createdAt))
  {
    RunKeepsInv(ws, i);
    var t := ws[i].tables;
    forall k | Filled(t, c, k) ensures 1 <= k <= t.conversations[c].lastSeq {
      var id :| At(t, c, k, id);
    }
  }

  /** In every state of every run messages and outbox events are in one-to-one correspondence. */
  lemma EveryMessageHasOneEvent(ws: seq<World>, i: nat, id: int)
    requires IsRun(ws) && i < |ws| && id in ws[i].tables.messages
    ensures var t := ws[i].tables;
      exists e :: EventOf(t, id, e) && t.events[e].message == t.messages[id]
               && forall f :: EventOf(t, id, f) ==> f == e
  {
    RunKeepsInv(ws, i);
    var t := ws[i].tables;
    var e :| EventOf(t, id, e);
  }

  /** Replies to one (sender, client id) agree on the message, and at most one of them created it. */
  lemma RepliesAgree(ws: seq<World>, i: nat, a: nat, b: nat)
    requires IsRun(ws) && i < |ws| && a < b < |ws[i].replies|
    requires ws[i].replies[a].command.senderId == ws[i].replies[b].command.senderId
    requires ws[i].replies[a].command.clientMessageId == ws[i].replies[b].command.clientMessageId
    ensures ws[i].replies[a].message == ws[i].replies[b].message
    ensures !(ws[i].replies[a].created && ws[i].replies[b].created)
    ensures SameRequest(ws[i].replies[a].message, ws[i].replies[b].command)
  {
    RunKeepsInv(ws, i);
    var w := ws[i];
    assert ReplyCommitted(w.tables, w.replies[a]) && ReplyCommitted(w.tables, w.replies[b]);
  }

  /** The re-select after a conversation conflict, and the re-read after losing the race, always find a row. */
  lemma SecondReadsNeverMiss(ws: seq<World>, i: nat, t: int)
    requires IsRun(ws) && i < |ws| && t in ws[i].txs
    ensures ws[i].txs[t].phase.Reselect? ==> exists c :: Enabled(ws[i], SelectHit(t, c))
    ensures ws[i].txs[t].phase.Reread? ==> exists id :: Enabled(ws[i], RereadHit(t, id))
  {
    RunKeepsInv(ws, i);
    var w := ws[i];
    assert TxSound(w, w.txs[t]);
    if w.txs[t].phase.Reselect? {
      var c :| c in w.tables.conversations && SamePair(w.tables.conversations[c], w.txs[t].command);
      assert Enabled(w, SelectHit(t, c));
    }
    if w.txs[t].phase.Reread? {
      var id :| id in w.tables.messages && SameKey(w.tables.messages[id], w.txs[t].command);
      assert Enabled(w, RereadHit(t, id));
    }
  }

  /** The statement a transaction performs next, if nothing makes it wait. */
  ghost predicate CanAdvance(w: World, t: int) {
    exists s :: Enabled(w, s) && !s.AddUser? && !s.Begin? && !s.Abort? && s.tx == t
  }

  lemma ReadsAdvance(w: World, t: int)
    requires t in w.txs && TxSound(w, w.txs[t])
    requires var p := w.txs[t].phase; p.Lookup? || p.Resolve? || p.Reselect? || p.Reread?
    ensures CanAdvance(w, t)
  {
    var x := w.txs[t];
    if x.phase.Lookup? || x.phase.Reread? {
      if id :| id in w.tables.messages && SameKey(w.tables.messages[id], x.command) {
        assert Enabled(w, if x.phase.Lookup? then LookupHit(t, id) else RereadHit(t, id));
      } else { assert Enabled(w, LookupMiss(t)); }
    } else {
      if c :| c in w.tables.conversations && SamePair(w.tables.conversations[c], x.command) {
        assert Enabled(w, SelectHit(t, c));
      } else { assert Enabled(w, SelectMiss(t)); }
    }
  }

  lemma WritesAdvance(w: World, t: int)
    requires t in w.txs && TxSound(w, w.txs[t])
    requires w.txs[t].phase.InsertConversation? ==> PairFree(w, t)
    requires w.txs[t].phase.Allocate? ==> RowFree(w, t, w.txs[t].phase.conv)
    requires w.txs[t].phase.InsertMessage? ==> KeyFree(w, t)
    ensures CanAdvance(w, t)
  {
    var p := w.txs[t].phase;
    if p.Lookup? || p.Resolve? || p.Reselect? || p.Reread? {
      ReadsAdvance(w, t);
    } else if p.InsertConversation? {
      assert Enabled(w, ConversationConflict(t)) || Enabled(w, ConversationInserted(t, 0)) || Enabled(w, ReceiverNotFound(t));
    } else if p.InsertMessage? {
      assert Enabled(w, MessageInserted(t)) || Enabled(w, MessageSuppressed(t));
    } else {
      var s := if p.InsertMembers? then MembersInserted(t) else if p.Allocate? then SeqAllocated(t, 0)
               else if p.Ready? then Commit(t, true) else Rollback(t);
      assert Enabled(w, s);
    }
  }

  /** Waits never form a cycle: while sends are open, one of them can take its next statement. */
  lemma SendsNeverDeadlock(ws: seq<World>, i: nat, t: int)
    requires IsRun(ws) && i < |ws| && t in ws[i].txs
    ensures exists u :: u in ws[i].txs && CanAdvance(ws[i], u)
  {
    RunKeepsInv(ws, i);
    var w := ws[i];
    var r := t;
    if o :| o in w.txs && w.txs[o].phase.Ready? {
      r := o;
    } else if o :| o in w.txs && (w.txs[o].phase.InsertMessage? || w.txs[o].phase.Lost?) {
      r := o;
    } else if o :| o in w.txs && (w.txs[o].phase.Allocate? || w.txs[o].phase.InsertMembers?) {
      r := o;
    } else {
      forall o | o in w.txs ensures w.txs[o].own.None? { assert TxSound(w, w.txs[o]); }
    }
    assert TxSound(w, w.txs[r]);
    WritesAdvance(w, r);
  }

  // ---------------------------------------------------------------- the stream of one conversation

  ghost function MessageAt(t: Tables, c: int, k: int): Message
    requires Filled(t, c, k)
  {
    var id :| At(t, c, k, id);
    t.messages[id]
  }

  /** The messages of a conversation in number order; empty for an unknown conversation. */
  ghost function Stream(t: Tables, c: int): seq<Message>
    requires TablesSound(t)
  {
    if c !in t.conversations then
      []
    else
      seq(t.conversations[c].lastSeq, i requires 0 <= i < t.conversations[c].lastSeq =>
        assert Filled(t, c, i + 1); MessageAt(t, c, i + 1))
  }

  lemma StreamAt(t: Tables, c: int, k: nat)
    requires TablesSound(t) && k < |Stream(t, c)|
    ensures Filled(t, c, k + 1) && Stream(t, c)[k] == MessageAt(t, c, k + 1)
    ensures var m := Stream(t, c)[k];
      m.conversationSeq == k + 1 && m.conversationId == c && m.id > 0 && m.id in t.messages && t.messages[m.id] == m
  {
    hide ConversationsSound, KeysUnique, EventsSound;
  }

  lemma StoredAt(t: Tables, id: int)
    requires TablesSound(t) && id in t.messages
    ensures var m := t.messages[id]; var s := Stream(t, m.conversationId);
      1 <= m.conversationSeq <= |s| && s[m.conversationSeq - 1] == m
  {
    hide ConversationsSound, KeysUnique, EventsSound;
    var m := t.messages[id];
    assert m.conversationId in t.conversations && 1 <= m.conversationSeq <= |Stream(t, m.conversationId)|;
    StreamAt(t, m.conversationId, m.conversationSeq - 1);
  }

  /** Position k of the stream holds the stored message numbered k + 1, and no stored message is left out. */
  lemma StreamIsTheTable(t: Tables, c: int)
    requires TablesSound(t)
    ensures forall k :: 0 <= k < |Stream(t, c)| ==>
      Stream(t, c)[k].conversationSeq == k + 1 && Stream(t, c)[k].conversationId == c && Stream(t, c)[k].id > 0
      && Stream(t, c)[k].id in t.messages && t.messages[Stream(t, c)[k].id] == Stream(t, c)[k]
    ensures forall id :: id in t.messages && t.messages[id].conversationId == c ==>
      1 <= t.messages[id].conversationSeq <= |Stream(t, c)| && Stream(t, c)[t.messages[id].conversationSeq - 1] == t.messages[id]
  {
    hide TablesSound, Stream;
    forall k | 0 <= k < |Stream(t, c)|
      ensures Stream(t, c)[k].conversationSeq == k + 1 && Stream(t, c)[k].conversationId == c && Stream(t, c)[k].id > 0
      ensures Stream(t, c)[k].id in t.messages && t.messages[Stream(t, c)[k].id] == Stream(t, c)[k]
    {
      StreamAt(t, c, k);
    }
    forall id | id in t.messages && t.messages[id].conversationId == c
      ensures 1 <= t.messages[id].conversationSeq <= |Stream(t, c)|
      ensures Stream(t, c)[t.messages[id].conversationSeq - 1] == t.messages[id]
    {
      StoredAt(t, id);
    }
  }

  lemma StoredMessagesStay(w: World, s: Step, id: int)
    requires TxsSound(w) && Enabled(w, s) && id in w.tables.messages
    ensures id in Apply(w, s).tables.messages && Apply(w, s).tables.messages[id] == w.tables.messages[id]
  {
    if s.Commit? { assert TxSound(w, w.txs[s.tx]); }
  }

  /** Statements only append to streams: what was committed keeps its place forever. */
  lemma StreamsOnlyGrow(w: World, s: Step, c: int)
    requires Inv(w) && Enabled(w, s) && Inv(Apply(w, s))
    ensures Stream(w.tables, c) <= Stream(Apply(w, s).tables, c)
  {
    forall id | id in w.tables.messages
      ensures id in Apply(w, s).tables.messages && Apply(w, s).tables.messages[id] == w.tables.messages[id]
    {
      StoredMessagesStay(w, s, id);
    }
    MoreMessagesLongerStream(w.tables, Apply(w, s).tables, c);
  }

  lemma MoreMessagesLongerStream(o: Tables, n: Tables, c: int)
    requires TablesSound(o) && TablesSound(n)
    requires forall id :: id in o.messages ==> id in n.messages && n.messages[id] == o.messages[id]
    ensures Stream(o, c) <= Stream(n, c)
  {
    hide TablesSound, Stream;
    StreamIsTheTable(o, c);
    StreamIsTheTable(n, c);
    var so, sn := Stream(o, c), Stream(n, c);
    forall k | 0 <= k < |so| ensures k < |sn| && sn[k] == so[k] {
      var m := so[k];
      assert m.id in o.messages && o.messages[m.id] == m;
    }
    if |so| > 0 {
      var last := so[|so| - 1];
      assert |so| - 1 < |sn|;
    }
  }

  // ---------------------------------------------------------------- one send with nothing else running

  datatype Outcome =
    | Sent(message: Message, created: bool)
    | InvalidMessage
    | ReceiverUnknown
    | IdempotencyConflict

  /** The tables after a send that is the only open transaction, in an existing or a new conversation. */
  function Extended(t: Tables, c: Command, conv: int, now: int, messageId: int, eventId: int): Tables {
    var base := if conv in t.conversations then t.conversations[conv] else Conversation(Low(c), High(c), 0, now);
    var row := base.(lastSeq := base.lastSeq + 1, updatedAt := Max(base.updatedAt, now));
    var m := NewMessage(messageId, conv, row.lastSeq, row.updatedAt, c);
    t.(conversations := t.conversations[conv := row],
       members := t.members + (if conv in t.conversations then {} else {(conv, Low(c)), (conv, High(c))}),
       messages := t.messages[messageId := m],
       events := t.events[eventId := EventFor(m)])
  }

  ghost predicate Solo(w: World, c: Command) {
    Inv(w) && w.txs == map[] && ValidCommand(c) && c.senderId in w.tables.users && !KeyCommitted(w.tables, c)
  }

  /** The steps can be taken one after the other from `w`, ending in `end`. */
  ghost predicate Leads(w: World, steps: seq<Step>, end: World)
    decreases |steps|
  {
    if steps == [] then w == end else Enabled(w, steps[0]) && Leads(Apply(w, steps[0]), steps[1..], end)
  }

  lemma LeadsFrom(w: World, s: Step, rest: seq<Step>, end: World)
    requires Enabled(w, s) && Leads(Apply(w, s), rest, end)
    ensures Leads(w, [s] + rest, end)
  {
    hide Enabled, Apply;
    assert ([s] + rest)[1..] == rest;
  }

  /** The statements of a creating send in program order, in an existing or a new conversation. */
  function SendSteps(c: Command, conv: int, isNew: bool, now: int): seq<Step> {
    [Begin(0, c)] + ([LookupMiss(0)] + if isNew then ConversationSteps(now) else [SelectHit(0, conv)] + FinishSteps(now))
  }

  function ConversationSteps(now: int): seq<Step> {
    [SelectMiss(0)] + ([ConversationInserted(0, now)] + ([MembersInserted(0)] + FinishSteps(now)))
  }

  function FinishSteps(now: int): seq<Step> {
    [SeqAllocated(0, now)] + ([MessageInserted(0)] + ([Commit(0, true)] + []))
  }

  /** The idle state after a creating send and its reply. */
  function AfterSend(w: World, c: Command, conv: int, now: int, nextConversation: int): World {
    var n := Extended(w.tables, c, conv, now, w.nextMessage, w.nextEvent);
    World(n, map[], nextConversation, w.nextMessage + 1, w.nextEvent + 1,
          w.replies + [Reply(c, n.messages[w.nextMessage], true)])
  }

  lemma SoloNumbered(w: World, c: Command, conv: int, own: Option<(int, Conversation)>, now: int) returns (f: World)
    requires Inv(w) && w.txs == map[0 := Tx(c, Allocate(conv), own)] && SeesRow(w, w.txs[0], conv)
    ensures Inv(f) && f.tables == w.tables && f.replies == w.replies
    ensures Enabled(w, SeqAllocated(0, now)) && f == Apply(w, SeqAllocated(0, now))
    ensures var row := Row(w, w.txs[0], conv);
      f == w.(txs := map[0 := Tx(c, InsertMessage(conv, row.lastSeq + 1, Max(row.updatedAt, now)), own)])
  {
    hide Inv;
    StepKeepsInv(w, SeqAllocated(0, now));
    f := Apply(w, SeqAllocated(0, now));
  }

  lemma SoloInserted(w: World, c: Command, conv: int, k: nat, at: int, own: Option<(int, Conversation)>) returns (f: World)
    requires Inv(w) && w.txs == map[0 := Tx(c, InsertMessage(conv, k, at), own)] && !KeyCommitted(w.tables, c)
    ensures Inv(f) && Enabled(w, MessageInserted(0)) && f == Apply(w, MessageInserted(0))
    ensures f == w.(txs := map[0 := Tx(c, Ready(conv, k, at, NewMessage(w.nextMessage, conv, k, at, c), w.nextEvent), own)],
                    nextMessage := w.nextMessage + 1, nextEvent := w.nextEvent + 1)
  {
    hide Inv;
    StepKeepsInv(w, MessageInserted(0));
    f := Apply(w, MessageInserted(0));
  }

  /** From an allocated conversation the remaining statements run to the commit. */
  lemma SoloFinish(w: World, c: Command, conv: int, own: Option<(int, Conversation)>, now: int)
    requires Inv(w) && w.txs == map[0 := Tx(c, Allocate(conv), own)] && !KeyCommitted(w.tables, c)
    requires own.Some? ==> own.value == (conv, Conversation(Low(c), High(c), 0, now)) && conv !in w.tables.conversations
    requires own.None? ==> conv in w.tables.conversations
    ensures Inv(AfterSend(w, c, conv, now, w.nextConversation))
    ensures Leads(w, FinishSteps(now), AfterSend(w, c, conv, now, w.nextConversation))
  {
    hide Inv, Leads;
    var a := SoloNumbered(w, c, conv, own, now);
    var row := Row(w, w.txs[0], conv);
    var b := SoloInserted(a, c, conv, row.lastSeq + 1, Max(row.updatedAt, now), own);
    StepKeepsInv(b, Commit(0, true));
    var f := Apply(b, Commit(0, true));
    assert f == AfterSend(w, c, conv, now, w.nextConversation);
    assert Leads(f, [], f) by { NoSteps(f); }
    hide Apply, Enabled;
    LeadsFrom(b, Commit(0, true), [], f);
    LeadsFrom(a, MessageInserted(0), [Commit(0, true)] + [], f);
    LeadsFrom(w, SeqAllocated(0, now), [MessageInserted(0)] + ([Commit(0, true)] + []), f);
  }

  lemma NoSteps(w: World)
    ensures Leads(w, [], w)
  {
  }

  lemma SoloBegin(w: World, c: Command) returns (f: World)
    requires Solo(w, c)
    ensures Inv(f) && f == w.(txs := map[0 := Tx(c, Resolve, None)])
    ensures Enabled(w, Begin(0, c)) && Enabled(Apply(w, Begin(0, c)), LookupMiss(0))
    ensures f == Apply(Apply(w, Begin(0, c)), LookupMiss(0))
  {
    hide Inv;
    StepKeepsInv(w, Begin(0, c));
    var a := Apply(w, Begin(0, c));
    StepKeepsInv(a, LookupMiss(0));
    f := Apply(a, LookupMiss(0));
  }

  lemma SoloExisting(w: World, c: Command, conv: int, now: int)
    requires Solo(w, c) && conv in w.tables.conversations && SamePair(w.tables.conversations[conv], c)
    ensures Inv(AfterSend(w, c, conv, now, w.nextConversation))
    ensures Leads(w, SendSteps(c, conv, false, now), AfterSend(w, c, conv, now, w.nextConversation))
  {
    hide Inv, Leads, FinishSteps;
    var a := SoloBegin(w, c);
    StepKeepsInv(a, SelectHit(0, conv));
    var b := Apply(a, SelectHit(0, conv));
    SoloFinish(b, c, conv, None, now);
    var end := AfterSend(w, c, conv, now, w.nextConversation);
    hide Apply, Enabled, AfterSend;
    LeadsFrom(a, SelectHit(0, conv), FinishSteps(now), end);
    LeadsFrom(Apply(w, Begin(0, c)), LookupMiss(0), [SelectHit(0, conv)] + FinishSteps(now), end);
    LeadsFrom(w, Begin(0, c), [LookupMiss(0)] + ([SelectHit(0, conv)] + FinishSteps(now)), end);
  }

  lemma SoloConversation(w: World, a: World, c: Command, now: int, end: World)
    requires Inv(w) && w.txs == map[0 := Tx(c, Resolve, None)] && !PairCommitted(w.tables, c) && UsersExist(w.tables, c)
    requires a == w.(
      txs := map[0 := Tx(c, Allocate(w.nextConversation), Some((w.nextConversation, Conversation(Low(c), High(c), 0, now))))],
      nextConversation := w.nextConversation + 1)
    ensures Inv(a)
    ensures Leads(a, FinishSteps(now), end) ==> Leads(w, ConversationSteps(now), end)
  {
    hide Inv, Leads, FinishSteps;
    StepKeepsInv(w, SelectMiss(0));
    var b := Apply(w, SelectMiss(0));
    StepKeepsInv(b, ConversationInserted(0, now));
    var d := Apply(b, ConversationInserted(0, now));
    StepKeepsInv(d, MembersInserted(0));
    assert a == Apply(d, MembersInserted(0));
    if Leads(a, FinishSteps(now), end) {
      hide Apply, Enabled;
      LeadsFrom(d, MembersInserted(0), FinishSteps(now), end);
      LeadsFrom(b, ConversationInserted(0, now), [MembersInserted(0)] + FinishSteps(now), end);
      LeadsFrom(w, SelectMiss(0), [ConversationInserted(0, now)] + ([MembersInserted(0)] + FinishSteps(now)), end);
    }
  }

  lemma FreshConversation(w: World)
    requires Inv(w)
    ensures w.nextConversation !in w.tables.conversations
  {
    hide TablesSound, TxsSound, RepliesSound;
  }

  lemma SoloNew(w: World, c: Command, now: int)
    requires Solo(w, c) && !PairCommitted(w.tables, c) && c.receiverId in w.tables.users
    ensures Inv(AfterSend(w, c, w.nextConversation, now, w.nextConversation + 1))
    ensures Leads(w, SendSteps(c, w.nextConversation, true, now), AfterSend(w, c, w.nextConversation, now, w.nextConversation + 1))
  {
    hide Inv, Leads, FinishSteps, ConversationSteps, Extended, PairCommitted, KeyCommitted, ValidCommand;
    FreshConversation(w);
    var b := SoloBegin(w, c);
    var conv := w.nextConversation;
    var a := b.(txs := map[0 := Tx(c, Allocate(conv), Some((conv, Conversation(Low(c), High(c), 0, now))))], nextConversation := conv + 1);
    var end := AfterSend(w, c, conv, now, conv + 1);
    SoloConversation(b, a, c, now, end);
    SoloFinish(a, c, conv, a.txs[0].own, now);
    hide Apply, Enabled;
    assert end == AfterSend(a, c, conv, now, conv + 1);
    hide AfterSend;
    LeadsFrom(Apply(w, Begin(0, c)), LookupMiss(0), ConversationSteps(now), end);
    LeadsFrom(w, Begin(0, c), [LookupMiss(0)] + ConversationSteps(now), end);
  }

  /** Message `m` is the only new message, it takes the next number of its conversation, and one event is added. */
  ghost predicate GrewByOne(o: Tables, n: Tables, m: Message)
    requires TablesSound(o) && TablesSound(n)
  {
    && m.id !in o.messages && n.messages == o.messages[m.id := m]
    && m.conversationSeq == 1 + |Stream(o, m.conversationId)| == |Stream(n, m.conversationId)|
    && (forall e :: e in o.events ==> e in n.events && n.events[e] == o.events[e])
    && |n.events| == |o.events| + 1
    && n.users == o.users
  }

  lemma StreamLengths(o: Tables, n: Tables, conv: int)
    requires TablesSound(o) && TablesSound(n)
    ensures |Stream(o, conv)| == if conv in o.conversations then o.conversations[conv].lastSeq else 0
    ensures |Stream(n, conv)| == if conv in n.conversations then n.conversations[conv].lastSeq else 0
  {
  }

  lemma OneMoreEvent(events: map<int, OutboxEvent>, id: int, e: OutboxEvent)
    requires id !in events
    ensures |events[id := e]| == |events| + 1
  {
    var more := events[id := e];
    assert more.Keys == events.Keys + {id};
    assert |more| == |more.Keys| && |events| == |events.Keys|;
  }

  lemma ExtendedTables(o: Tables, c: Command, conv: int, now: int, messageId: int, eventId: int)
    ensures var n := Extended(o, c, conv, now, messageId, eventId);
      && messageId in n.messages && eventId in n.events && conv in n.conversations
      && n.messages == o.messages[messageId := n.messages[messageId]]
      && n.events == o.events[eventId := n.events[eventId]]
      && n.users == o.users
      && n.conversations[conv].lastSeq == 1 + (if conv in o.conversations then o.conversations[conv].lastSeq else 0)
      && var m := n.messages[messageId];
         m.id == messageId && m.conversationId == conv && m.conversationSeq == n.conversations[conv].lastSeq
         && SameKey(m, c) && SameRequest(m, c)
  {
  }

  lemma ExtendedGrewByOne(o: Tables, c: Command, conv: int, now: int, messageId: int, eventId: int)
    requires TablesSound(o) && TablesSound(Extended(o, c, conv, now, messageId, eventId))
    requires messageId !in o.messages && eventId !in o.events
    ensures var n := Extended(o, c, conv, now, messageId, eventId);
      && messageId in n.messages && GrewByOne(o, n, n.messages[messageId])
      && n.messages[messageId].conversationId == conv
      && SameKey(n.messages[messageId], c) && SameRequest(n.messages[messageId], c)
  {
    hide TablesSound, Stream, Extended, SameKey, SameRequest;
    var n := Extended(o, c, conv, now, messageId, eventId);
    ExtendedTables(o, c, conv, now, messageId, eventId);
    StreamLengths(o, n, conv);
    OneMoreEvent(o.events, eventId, n.events[eventId]);
  }

  /**
   * Alone, the statements of a send lead from one idle state to the next: the message is the only new one, it takes
   * the next number of its conversation, one event is added, and the reply says created.
   */
  lemma SoloSend(w: World, c: Command, conv: int, now: int)
    requires Solo(w, c) && w.replies == []
    requires conv in w.tables.conversations ==> SamePair(w.tables.conversations[conv], c)
    requires conv !in w.tables.conversations ==>
               conv == w.nextConversation && !PairCommitted(w.tables, c) && c.receiverId in w.tables.users
    ensures var isNew := conv !in w.tables.conversations;
      var end := AfterSend(w, c, conv, now, if isNew then conv + 1 else w.nextConversation);
      && Leads(w, SendSteps(c, conv, isNew, now), end)
      && Inv(end.(replies := []))
      && w.nextMessage in end.tables.messages && TablesSound(w.tables)
      && var m := end.tables.messages[w.nextMessage];
         GrewByOne(w.tables, end.tables, m) && m.conversationId == conv && SameKey(m, c) && SameRequest(m, c)
         && end.replies == [Reply(c, m, true)]
  {
    assert w.nextMessage !in w.tables.messages && w.nextEvent !in w.tables.events;
    hide Inv, Extended, GrewByOne, Leads, SendSteps;
    var isNew := conv !in w.tables.conversations;
    var end := AfterSend(w, c, conv, now, if isNew then conv + 1 else w.nextConversation);
    if isNew {
      SoloNew(w, c, now);
    } else {
      SoloExisting(w, c, conv, now);
    }
    InvParts(w);
    InvParts(end);
    ExtendedGrewByOne(w.tables, c, conv, now, w.nextMessage, w.nextEvent);
  }

  /** The reply to a send whose key was stored before: that message, unless the request is another one. */
  function AnswerTo(c: Command, m: Message): seq<Reply> {
    if m.receiverId == c.receiverId && m.content == c.content then [Reply(c, m, false)] else []
  }

  /** A repeated send, run alone, ends after its lookup with the stored message and leaves the tables as they are. */
  lemma SoloRetry(w: World, c: Command, id: int)
    requires w.txs == map[] && ValidCommand(c) && c.senderId in w.tables.users && id in w.tables.messages
    requires w.tables.messages[id].senderId == c.senderId && w.tables.messages[id].clientMessageId == c.clientMessageId
    ensures Leads(w, [Begin(0, c), LookupHit(0, id)], w.(replies := w.replies + AnswerTo(c, w.tables.messages[id])))
  {
    hide Leads, ValidCommand;
    var w1 := Apply(w, Begin(0, c));
    var end := Apply(w1, LookupHit(0, id));
    assert end.txs == map[] && w.replies + [] == w.replies;
    assert end == w.(replies := w.replies + AnswerTo(c, w.tables.messages[id]));
    NoSteps(end);
    LeadsFrom(w1, LookupHit(0, id), [], end);
    LeadsFrom(w, Begin(0, c), [LookupHit(0, id)] + [], end);
    assert [Begin(0, c)] + ([LookupHit(0, id)] + []) == [Begin(0, c), LookupHit(0, id)];
  }

  lemma LoserSteps(w: World, t: int, id: int)
    requires t in w.txs && w.txs[t].phase.Lost? && id in w.tables.messages && SameKey(w.tables.messages[id], w.txs[t].command)
    ensures Enabled(w, Rollback(t)) && Enabled(Apply(w, Rollback(t)), RereadHit(t, id))
    ensures Apply(Apply(w, Rollback(t)), RereadHit(t, id))
         == w.(txs := w.txs - {t}, replies := w.replies + AnswerTo(w.txs[t].command, w.tables.messages[id]))
  {
    var w1 := Apply(w, Rollback(t));
    assert w1.txs - {t} == w.txs - {t} && w.replies + [] == w.replies;
  }

  lemma LoserFinds(w: World, t: int) returns (id: int)
    requires Inv(w) && t in w.txs && w.txs[t].phase.Lost?
    ensures id in w.tables.messages && SameKey(w.tables.messages[id], w.txs[t].command)
  {
    assert TxSound(w, w.txs[t]);
    id :| id in w.tables.messages && SameKey(w.tables.messages[id], w.txs[t].command);
  }

  /** A send that lost the race for its key rolls back, reads the winner and answers with it; the tables stay. */
  lemma LoserIsAnswered(w: World, t: int) returns (id: int)
    requires Inv(w) && t in w.txs && w.txs[t].phase.Lost?
    ensures id in w.tables.messages
    ensures var c, m := w.txs[t].command, w.tables.messages[id];
      && m.senderId == c.senderId && m.clientMessageId == c.clientMessageId
      && Leads(w, [Rollback(t), RereadHit(t, id)], w.(txs := w.txs - {t}, replies := w.replies + AnswerTo(c, m)))
  {
    hide Inv, Leads, Apply, Enabled, AnswerTo;
    id := LoserFinds(w, t);
    LoserSteps(w, t, id);
    var w1 := Apply(w, Rollback(t));
    var end := Apply(w1, RereadHit(t, id));
    NoSteps(end);
    LeadsFrom(w1, RereadHit(t, id), [], end);
    LeadsFrom(w, Rollback(t), [RereadHit(t, id)] + [], end);
    assert [Rollback(t)] + ([RereadHit(t, id)] + []) == [Rollback(t), RereadHit(t, id)];
  }

  lemma InvParts(w: World)
    requires Inv(w)
    ensures TablesSound(w.tables)
    ensures w.txs == map[] ==> Inv(w.(replies := []))
  {
  }

  /**
   * The rows that a send writes for message `m` at time `now`: its conversation, created with the pair and its members
   * or only moved on; the message with the conversation's time; and one event for the distinct participants, ready then.
   */
  ghost predicate WrittenAt(o: Tables, n: Tables, m: Message, now: int) {
    var c := m.conversationId;
    && c in n.conversations && n.conversations == o.conversations[c := n.conversations[c]]
    && n.conversations[c].lastSeq == m.conversationSeq && n.conversations[c].updatedAt == m.createdAt
    && (if c in o.conversations then
          && m.createdAt == (if now > o.conversations[c].updatedAt then now else o.conversations[c].updatedAt)
          && n.conversations[c].lowUserId == o.conversations[c].lowUserId
          && n.conversations[c].highUserId == o.conversations[c].highUserId && n.members == o.members
        else
          && m.createdAt == now && n.members == o.members + {(c, m.senderId), (c, m.receiverId)}
          && n.conversations[c].lowUserId <= n.conversations[c].highUserId
          && {n.conversations[c].lowUserId, n.conversations[c].highUserId} == {m.senderId, m.receiverId})
    && exists e :: e in n.events && e !in o.events && n.events[e].messageId == m.id && n.events[e].message == m
         && n.events[e].payloadVersion == 4 && n.events[e].readyAt == m.createdAt
         && n.events[e].recipients == if m.senderId == m.receiverId then [m.senderId] else [m.senderId, m.receiverId]
  }

  lemma ExtendedIsWritten(t: Tables, c: Command, conv: int, now: int, messageId: int, eventId: int)
    requires eventId !in t.events
    requires conv in t.conversations ==> SamePair(t.conversations[conv], c)
    ensures var n := Extended(t, c, conv, now, messageId, eventId);
      messageId in n.messages && WrittenAt(t, n, n.messages[messageId], now)
  {
    var n := Extended(t, c, conv, now, messageId, eventId);
    assert eventId in n.events && n.events[eventId] == EventFor(n.messages[messageId]);
  }

  lemma PairsHaveUsers(w: World, c: Command)
    requires Inv(w)
    ensures forall id :: id in w.tables.conversations && SamePair(w.tables.conversations[id], c) ==> c.receiverId in w.tables.users
  {
    hide MessagesPlaced, StreamsSound, KeysUnique, EventsSound, TxsSound, RepliesSound;
  }

  lemma FreshEvent(w: World)
    requires Inv(w)
    ensures w.nextEvent !in w.tables.events
  {
    hide TablesSound, TxsSound, RepliesSound;
  }

  /** The service with its store: the statements of one send in program order, early exits included. */
  class Service {
    var tables: Tables
    var nextConversation: int
    var nextMessage: int
    var nextEvent: int

    ghost function Idle(): World
      reads this
    {
      World(tables, map[], nextConversation, nextMessage, nextEvent, [])
    }

    ghost predicate Valid()
      reads this
    {
      Inv(Idle())
    }

    constructor ()
      ensures Valid() && tables == Tables({}, map[], {}, map[], map[])
    {
      tables := Tables({}, map[], {}, map[], map[]);
      nextConversation, nextMessage, nextEvent := 1, 1, 1;
      new;
      hide Inv;
      InitialKeepsInv(Idle());
    }

    /**
     * The allocation, the message row and its event: one statement, committed with the conversation. The conversation's
     * time moves to the clock unless it is already later, and message and event carry that time.
     */
    method InsertMessageAndOutbox(c: Command, conv: int, now: int) returns (m: Message)
      requires Valid() && Solo(Idle(), c)
      requires conv in tables.conversations ==> SamePair(tables.conversations[conv], c)
      requires conv !in tables.conversations ==>
                 conv == nextConversation && !PairCommitted(tables, c) && c.receiverId in tables.users
      modifies this
      ensures Valid() && GrewByOne(old(tables), tables, m)
      ensures m.conversationId == conv && m.senderId == c.senderId && m.receiverId == c.receiverId
      ensures m.clientMessageId == c.clientMessageId && m.content == c.content
      ensures WrittenAt(old(tables), tables, m, now)
    {
      hide Inv, TablesSound, Extended, GrewByOne, Solo, PairCommitted, KeyCommitted, WrittenAt;
      SoloSend(Idle(), c, conv, now);
      FreshEvent(Idle());
      ExtendedIsWritten(tables, c, conv, now, nextMessage, nextEvent);
      var isNew := conv !in tables.conversations;
      tables := Extended(tables, c, conv, now, nextMessage, nextEvent);
      m := tables.messages[nextMessage];
      nextConversation := if isNew then nextConversation + 1 else nextConversation;
      nextMessage, nextEvent := nextMessage + 1, nextEvent + 1;
    }

    /**
     * A repeated request returns the first message and changes nothing; a reused key with another
     * request conflicts; an unknown receiver is reported; otherwise exactly one message, numbered
     * right after the conversation's last one, and exactly one event are added.
     */
    method Send(c: Command, now: int) returns (r: Outcome)
      requires Valid() && c.senderId in tables.users
      modifies this
      ensures Valid()
      ensures r.InvalidMessage? <==>
        !(16 <= |c.clientMessageId| <= 128 && c.receiverId > 0 && 1 <= |c.content| <= 4000)
      ensures r.Sent? ==>
        && r.message.senderId == c.senderId && r.message.clientMessageId == c.clientMessageId
        && r.message.receiverId == c.receiverId && r.message.content == c.content
        && r.message.id in tables.messages && tables.messages[r.message.id] == r.message
      ensures (r.Sent? && !r.created) || r.IdempotencyConflict? <==>
        !r.InvalidMessage? && exists id :: id in old(tables).messages && old(tables).messages[id].senderId == c.senderId
                                           && old(tables).messages[id].clientMessageId == c.clientMessageId
      ensures r.IdempotencyConflict? ==>
        exists id :: id in tables.messages && tables.messages[id].senderId == c.senderId
                     && tables.messages[id].clientMessageId == c.clientMessageId
                     && (tables.messages[id].receiverId != c.receiverId || tables.messages[id].content != c.content)
      ensures r.ReceiverUnknown? <==>
        && c.receiverId !in tables.users && !r.InvalidMessage? && !r.IdempotencyConflict? && !(r.Sent? && !r.created)
      ensures !(r.Sent? && r.created) ==> tables == old(tables)
      ensures r.Sent? && r.created ==> GrewByOne(old(tables), tables, r.message) && WrittenAt(old(tables), tables, r.message, now)
    {
      if !ValidCommand(c) { return InvalidMessage; }
      if id :| id in tables.messages && SameKey(tables.messages[id], c) {
        var m := tables.messages[id];
        return if SameRequest(m, c) then Sent(m, false) else IdempotencyConflict;
      }
      hide Inv, TablesSound, Stream, WrittenAt, GrewByOne;
      FreshConversation(Idle());
      PairsHaveUsers(Idle(), c);
      var conv := nextConversation;
      if id :| id in tables.conversations && SamePair(tables.conversations[id], c) {
        conv := id;
      } else if c.receiverId !in tables.users {
        return ReceiverUnknown;
      }
      var m := InsertMessageAndOutbox(c, conv, now);
      return Sent(m, true);
    }
  }
}
