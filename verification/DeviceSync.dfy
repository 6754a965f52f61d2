/**
 * Snapshot pagination of conversation streams, the headless client's durable state, and the
 * cumulative per-device ACK, over a network that loses, repeats and reorders.
 *
 * A `View` maps every existing conversation to its stream; position k holds the message numbered k + 1.
 */
module DeviceSync {
  import opened Common

  type View = map<int, seq<Message>>

  ghost predicate ViewSound(v: View) {
    forall c, k {:trigger v[c][k]} :: c in v && 0 <= k < |v[c]| ==>
      v[c][k].conversationId == c && v[c][k].conversationSeq == k + 1 && v[c][k].id > 0 && c > 0
  }

  /** Conversations appear and streams grow at the end; nothing committed moves. */
  ghost predicate Grows(v: View, v': View) {
    forall c :: c in v ==> c in v' && v[c] <= v'[c]
  }

  /** The message sits in its conversation's stream at its own number. */
  ghost predicate InStream(v: View, m: Message) {
    m.conversationId in v && 1 <= m.conversationSeq <= |v[m.conversationId]| && v[m.conversationId][m.conversationSeq - 1] == m
  }

  // ---------------------------------------------------------------- server: one page

  const MAX_PAGE_LIMIT := 200

  datatype Page = Page(conversationId: int, messages: seq<Message>, nextCursor: int, snapshotCursor: int, hasMore: bool)

  datatype SyncError = ConversationNotFound | CursorAhead | SnapshotBeforeAfter | SnapshotAhead

  /** The snapshot a request is served under: the given one, or the current end of the stream. */
  function ResolveSnapshot(current: int, after: int, snapshot: Option<int>): Result<int, SyncError> {
    if after > current then Err(CursorAhead)
    else if snapshot.None? then Ok(current)
    else if snapshot.value < after then Err(SnapshotBeforeAfter)
    else if snapshot.value > current then Err(SnapshotAhead)
    else Ok(snapshot.value)
  }

  /** What a page must be: the next slice of (after, snapshot], cut at the limit. */
  function PageOf(c: int, s: seq<Message>, after: nat, limit: nat, snapshot: nat): Page
    requires after <= snapshot <= |s|
  {
    var end := Min(after + limit, snapshot);
    Page(c, s[after..end], end, snapshot, end < snapshot)
  }

  /** The handler's row loop: it reads up to limit + 1 rows and turns the extra row into hasMore. */
  method SyncPage(c: int, s: seq<Message>, after: nat, limit: nat, snapshot: nat) returns (page: Page)
    requires after <= snapshot <= |s| && limit > 0
    requires forall k :: 0 <= k < |s| ==> s[k].conversationSeq == k + 1
    ensures page == PageOf(c, s, after, limit, snapshot)
  {
    var rows := s[after..Min(after + limit + 1, snapshot)];
    var messages: seq<Message> := [];
    var hasMore := false;
    for i := 0 to |rows|
      invariant messages == rows[..i] && i <= limit && !hasMore
    {
      if |messages| == limit {
        hasMore := true;
        break;
      }
      messages := messages + [rows[i]];
    }
    assert messages == s[after..Min(after + limit, snapshot)];
    var next := after;
    if |messages| > 0 {
      next := messages[|messages| - 1].conversationSeq;
    }
    page := Page(c, messages, next, snapshot, hasMore);
  }

  /**
   * The whole endpoint: a conversation that the user has no part in, or that does not exist, is `None`; then the
   * cursor checks; then the messages numbered after + 1 up to the snapshot or the limit.
   */
  function Serve(c: int, stream: Option<seq<Message>>, after: nat, limit: nat, snapshot: Option<int>): (r: Result<Page, SyncError>)
    ensures r == Err(ConversationNotFound) <==> stream.None?
    ensures stream.Some? ==>
      && (r == Err(CursorAhead) <==> after > |stream.value|)
      && (r == Err(SnapshotBeforeAfter) <==> after <= |stream.value| && snapshot.Some? && snapshot.value < after)
      && (r == Err(SnapshotAhead) <==>
            after <= |stream.value| && snapshot.Some? && snapshot.value >= after && snapshot.value > |stream.value|)
    ensures r.Ok? ==> var p := r.value;
      && p.conversationId == c && p.snapshotCursor == (if snapshot.Some? then snapshot.value else |stream.value|)
      && after <= p.nextCursor <= p.snapshotCursor <= |stream.value|
      && p.messages == stream.value[after..p.nextCursor] && |p.messages| <= limit
      && (p.hasMore <==> p.nextCursor < p.snapshotCursor) && (p.hasMore ==> |p.messages| == limit)
  {
    if stream.None? then Err(ConversationNotFound)
    else
      match ResolveSnapshot(|stream.value|, after, snapshot)
      case Err(e) => Err(e)
      case Ok(n) => Ok(PageOf(c, stream.value, after, limit, n))
  }

  function Concat(pages: seq<Page>): seq<Message> {
    if pages == [] then [] else pages[0].messages + Concat(pages[1..])
  }

  /** A client paging through one snapshot: request number i meets the stream as `streams[i]`. */
  function Fetch(c: int, after: nat, limit: nat, snapshot: Option<int>, streams: seq<seq<Message>>): Result<seq<Page>, SyncError>
    decreases |streams|
  {
    if streams == [] then
      Ok([])
    else
      match Serve(c, Some(streams[0]), after, limit, snapshot)
      case Err(e) => Err(e)
      case Ok(p) =>
        if !p.hasMore then
          Ok([p])
        else
          match Fetch(c, p.nextCursor, limit, Some(p.snapshotCursor), streams[1..])
          case Err(e) => Err(e)
          case Ok(rest) => Ok([p] + rest)
  }

  /** Every later stream extends the one that the snapshot was taken from. */
  ghost predicate Extend(base: seq<Message>, streams: seq<seq<Message>>) {
    forall i :: 0 <= i < |streams| ==> base <= streams[i]
  }

  /** How far `n` requests of `limit` messages reach. */
  function Reach(after: nat, limit: nat, n: nat): nat
    decreases n
  {
    if n == 0 then after else Reach(after + limit, limit, n - 1)
  }

  lemma {:induction false} ReachIsLinear(after: nat, limit: nat, n: nat)
    ensures Reach(after, limit, n) == after + n * limit
    decreases n
  {
    if n > 0 {
      ReachIsLinear(after + limit, limit, n - 1);
      assert n * limit == (n - 1) * limit + limit;
    }
  }

  lemma FetchOnce(c: int, after: nat, limit: nat, base: seq<Message>, streams: seq<seq<Message>>)
    requires limit > 0 && after <= |base| && Extend(base, streams) && streams != []
    ensures var end := Min(after + limit, |base|);
      var p := Page(c, base[after..end], end, |base|, end < |base|);
      var r := Fetch(c, after, limit, Some(|base|), streams);
      && after <= end <= |base| && Extend(base, streams[1..])
      && (end == |base| ==> r == Ok([p]))
      && (end < |base| ==>
            var rest := Fetch(c, end, limit, Some(|base|), streams[1..]);
            r == if rest.Ok? then Ok([p] + rest.value) else rest)
  {
    assert base <= streams[0];
    var end := Min(after + limit, |base|);
    assert streams[0][after..end] == base[after..end];
  }

  lemma ReachIsFurther(after: nat, limit: nat, n: nat)
    ensures Reach(after, limit, n) >= after
  {
    ReachIsLinear(after, limit, n);
  }

  lemma ConcatStep(p: Page, rest: seq<Page>)
    ensures Concat([p]) == p.messages && Concat([p] + rest) == p.messages + Concat(rest)
  {
    assert ([p] + rest)[1..] == rest;
    assert Concat([p]) == p.messages + Concat([]);
  }

  /** The pages share the snapshot `base`, carry exactly its messages after the cursor up to `reach`, and end with it. */
  ghost predicate Follow(pages: seq<Page>, after: nat, base: seq<Message>, reach: nat)
    requires after <= |base|
  {
    && Concat(pages) == base[after..Max(after, Min(reach, |base|))]
    && (forall p :: p in pages ==> p.snapshotCursor == |base|)
    && (reach >= |base| && pages != [] ==> !pages[|pages| - 1].hasMore)
  }

  lemma PrependPage(p: Page, rest: seq<Page>, after: nat, end: nat, base: seq<Message>, reach: nat)
    requires after <= end <= |base| && end <= reach && Follow(rest, end, base, reach)
    requires p == Page(p.conversationId, base[after..end], end, |base|, end < |base|)
    requires rest == [] ==> end == |base| || reach < |base|
    ensures Follow([p] + rest, after, base, reach)
  {
    ConcatStep(p, rest);
    hide Concat;
    var last := Min(reach, |base|);
    assert base[after..end] + base[end..last] == base[after..last];
  }

  lemma {:induction false} FetchContinues(c: int, after: nat, limit: nat, base: seq<Message>, streams: seq<seq<Message>>)
    requires limit > 0 && after <= |base| && Extend(base, streams)
    ensures var r, reach := Fetch(c, after, limit, Some(|base|), streams), Reach(after, limit, |streams|);
      && r.Ok? && Follow(r.value, after, base, reach)
      && (r.value == [] ==> streams == [])
    decreases |streams|
  {
    if streams != [] {
      FetchOnce(c, after, limit, base, streams);
      assert Reach(after, limit, |streams|) == Reach(after + limit, limit, |streams| - 1);
      ReachIsFurther(after + limit, limit, |streams| - 1);
      var end, reach := Min(after + limit, |base|), Reach(after, limit, |streams|);
      var p := Page(c, base[after..end], end, |base|, end < |base|);
      if end < |base| {
        FetchContinues(c, end, limit, base, streams[1..]);
        var rest := Fetch(c, end, limit, Some(|base|), streams[1..]).value;
        hide Fetch, Extend, Concat, Follow;
        PrependPage(p, rest, after, end, base, reach);
      } else {
        hide Fetch, Extend;
        PrependPage(p, [], after, end, base, reach);
        assert [p] + [] == [p];
      }
    }
  }

  /**
   * While the stream keeps growing, paging from a cursor inside it is never refused, the pages share
   * the snapshot of the first request, and with enough requests they concatenate to exactly the
   * messages after the cursor that existed at the first request.
   */
  lemma PagesCoverTheSnapshot(c: int, after: nat, limit: nat, streams: seq<seq<Message>>)
    requires limit > 0 && streams != [] && after <= |streams[0]| && Extend(streams[0], streams)
    requires after + |streams| * limit >= |streams[0]|
    ensures var r := Fetch(c, after, limit, None, streams);
      && r.Ok? && r.value != []
      && Concat(r.value) == streams[0][after..]
      && (forall p :: p in r.value ==> p.snapshotCursor == |streams[0]|)
      && !r.value[|r.value| - 1].hasMore
  {
    ReachIsLinear(after, limit, |streams|);
    FetchContinues(c, after, limit, streams[0], streams);
    hide Concat, Reach;
    assert Fetch(c, after, limit, None, streams) == Fetch(c, after, limit, Some(|streams[0]|), streams);
  }

  // ---------------------------------------------------------------- client: durable state

  datatype ConversationState = ConversationState(
    appliedCursor: int, ackedCursor: int, pendingAck: int, messages: map<int, Message>)

  type ClientState = map<int, ConversationState>

  datatype ApplyResult = Applied | Duplicate | MessageGap | Conflict | Malformed

  function Local(s: ClientState, c: int): ConversationState {
    if c in s then s[c] else ConversationState(0, 0, 0, map[])
  }

  /** One durable update: contiguous messages extend the state, everything else leaves the file alone. */
  function ApplyMessage(s: ClientState, m: Message): (ApplyResult, ClientState) {
    if m.id <= 0 || m.conversationId <= 0 || m.conversationSeq <= 0 then
      (Malformed, s)
    else
      var x := Local(s, m.conversationId);
      if m.conversationSeq <= x.appliedCursor then
        if m.conversationSeq !in x.messages || x.messages[m.conversationSeq].id != m.id then (Conflict, s)
        else (Duplicate, s)
      else if m.conversationSeq != x.appliedCursor + 1 then
        (MessageGap, s)
      else
        (Applied, s[m.conversationId := x.(
          messages := x.messages[m.conversationSeq := m],
          appliedCursor := m.conversationSeq,
          pendingAck := Max(m.conversationSeq, x.pendingAck))])
  }

  datatype Envelope = Envelope(kind: string, conversationId: int, conversationSeq: int, message: Message)

  /** The envelope that the realtime publisher builds around a message. */
  function EnvelopeOf(m: Message): Envelope {
    Envelope("message.created", m.conversationId, m.conversationSeq, m)
  }

  function ApplyRealtime(s: ClientState, e: Envelope): (ApplyResult, ClientState) {
    if e.kind != "message.created" || e.conversationId <= 0 then (Malformed, s)
    else if e.message.conversationId != e.conversationId || e.message.conversationSeq != e.conversationSeq then (Malformed, s)
    else ApplyMessage(s, e.message)
  }

  /** The update after an ACK response: acked only rises, pending clears once it is covered. */
  function CommitAck(s: ClientState, c: int, applied: int): ClientState
    requires c in s
  {
    var x := s[c];
    s[c := x.(
      ackedCursor := Max(applied, x.ackedCursor),
      pendingAck := if x.pendingAck <= applied then 0 else x.pendingAck)]
  }

  // ---------------------------------------------------------------- one device and its network

  datatype Query = Query(conversationId: int, after: nat, limit: nat, snapshot: nat)
  datatype AckResponse = AckResponse(conversationId: int, cursor: int, applied: int)

  /**
   * `client` is the file on disk; `applied` is the server's row for this device. Everything that was
   * ever sent stays in the network sets, so delivery may repeat, reorder, or never happen, and a
   * crash of the client is simply the absence of further steps on its behalf.
   */
  datatype Device = Device(
    client: ClientState,
    applied: map<int, int>,
    wire: set<Message>,
    queries: set<Query>,
    pages: set<Page>,
    ackRequests: set<(int, int)>,
    ackChecked: set<(int, int)>,
    ackResponses: set<AckResponse>,
    cursorAhead: bool)

  function ServerApplied(d: Device, c: int): int {
    if c in d.applied then d.applied[c] else 0
  }

  datatype DeviceStep =
    | Publish(message: Message)                                            // realtime push of a committed message
    | ReadCursor(conversationId: int, after: nat, limit: nat, snapshot: Option<int>)  // first statement of a page request
    | ReadRows(query: Query)                                               // second statement
    | DeliverRealtime(message: Message)
    | ApplyFromPage(page: Page, index: nat)
    | SendAck(conversationId: int)
    | CheckAck(conversationId: int, cursor: int)                           // last_seq comparison
    | StoreAck(conversationId: int, cursor: int)                           // GREATEST upsert
    | ReceiveAck(response: AckResponse)

  ghost predicate DeviceEnabled(v: View, d: Device, s: DeviceStep) {
    match s
    case Publish(m) => InStream(v, m)
    case ReadCursor(c, after, limit, snapshot) =>
      c in v && 0 < limit <= MAX_PAGE_LIMIT && ResolveSnapshot(|v[c]|, after, snapshot).Ok?
      && ResolveSnapshot(|v[c]|, after, snapshot).value >= 0
    case ReadRows(q) => q in d.queries && q.conversationId in v && q.after <= q.snapshot <= |v[q.conversationId]|
    case DeliverRealtime(m) => m in d.wire
    case ApplyFromPage(p, i) => p in d.pages && i < |p.messages|
    case SendAck(c) => c in d.client && d.client[c].pendingAck > d.client[c].ackedCursor
    case CheckAck(c, k) => (c, k) in d.ackRequests && c in v
    case StoreAck(c, k) => (c, k) in d.ackChecked
    case ReceiveAck(r) => r in d.ackResponses && r.applied >= r.cursor && r.conversationId in d.client
  }

  ghost function DeviceApply(v: View, d: Device, s: DeviceStep): Device
    requires DeviceEnabled(v, d, s)
  {
    match s
    case Publish(m) => d.(wire := d.wire + {m})
    case ReadCursor(c, after, limit, snapshot) =>
      d.(queries := d.queries + {Query(c, after, limit, ResolveSnapshot(|v[c]|, after, snapshot).value)})
    case ReadRows(q) => d.(pages := d.pages + {PageOf(q.conversationId, v[q.conversationId], q.after, q.limit, q.snapshot)})
    case DeliverRealtime(m) => d.(client := ApplyRealtime(d.client, EnvelopeOf(m)).1)
    case ApplyFromPage(p, i) => d.(client := ApplyMessage(d.client, p.messages[i]).1)
    case SendAck(c) => d.(ackRequests := d.ackRequests + {(c, d.client[c].pendingAck)})
    case CheckAck(c, k) =>
      if k > |v[c]| then d.(cursorAhead := true) else d.(ackChecked := d.ackChecked + {(c, k)})
    case StoreAck(c, k) =>
      var stored := Max(ServerApplied(d, c), k);
      d.(applied := d.applied[c := stored], ackResponses := d.ackResponses + {AckResponse(c, k, stored)})
    case ReceiveAck(r) => d.(client := CommitAck(d.client, r.conversationId, r.applied))
  }

  const NewDevice := Device(map[], map[], {}, {}, {}, {}, {}, {}, false)

  /** The stored messages are exactly the first `appliedCursor` messages of the stream. */
  ghost predicate HoldsPrefix(s: seq<Message>, x: ConversationState) {
    && 0 <= x.appliedCursor <= |s|
    && (forall k :: k in x.messages <==> 1 <= k <= x.appliedCursor)
    && (forall k :: 1 <= k <= x.appliedCursor ==> x.messages[k] == s[k - 1])
  }

  ghost predicate CursorsSound(d: Device, c: int) {
    var x := Local(d.client, c);
    && 0 <= x.ackedCursor <= ServerApplied(d, c) <= x.appliedCursor
    && (x.pendingAck == 0 || x.pendingAck == x.appliedCursor)
    && (x.pendingAck == 0 ==> x.ackedCursor == x.appliedCursor)
  }

  ghost predicate NetworkSound(v: View, d: Device) {
    && (forall m :: m in d.wire ==> InStream(v, m))
    && (forall q :: q in d.queries ==> q.conversationId in v && q.after <= q.snapshot <= |v[q.conversationId]|)
    && (forall p, i {:trigger p.messages[i]} :: p in d.pages && 0 <= i < |p.messages| ==> InStream(v, p.messages[i]))
    && (forall a {:trigger a in d.ackRequests} :: a in d.ackRequests ==> 0 < a.1 <= Local(d.client, a.0).appliedCursor)
    && (forall a {:trigger a in d.ackChecked} :: a in d.ackChecked ==> a in d.ackRequests)
    && (forall r :: r in d.ackResponses ==>
          0 < r.cursor <= r.applied <= ServerApplied(d, r.conversationId) && r.conversationId in d.client)
    && !d.cursorAhead
  }

  ghost predicate DeviceInv(v: View, d: Device) {
    && ViewSound(v)
    && (forall c :: c in d.client ==> c in v && HoldsPrefix(v[c], d.client[c]) && d.client[c].appliedCursor > 0)
    && (forall c :: CursorsSound(d, c))
    && NetworkSound(v, d)
  }

  lemma NewDeviceSound(v: View)
    requires ViewSound(v)
    ensures DeviceInv(v, NewDevice)
  {
  }

  /** Growth of the streams keeps everything the device relies on. */
  lemma GrowthKeepsDevice(v: View, v': View, d: Device)
    requires DeviceInv(v, d) && ViewSound(v') && Grows(v, v')
    ensures DeviceInv(v', d)
  {
    forall m | InStream(v, m) ensures InStream(v', m) {}
    forall c | c in d.client ensures HoldsPrefix(v'[c], d.client[c]) {}
    forall p, i {:trigger p.messages[i]} | p in d.pages && 0 <= i < |p.messages| ensures InStream(v', p.messages[i]) {
      assert InStream(v, p.messages[i]);
    }
  }

  /** A committed message extends the stored prefix by itself, or changes nothing; it never conflicts with durable state. */
  lemma CommittedNeverConflicts(v: View, d: Device, m: Message)
    requires DeviceInv(v, d) && InStream(v, m)
    ensures var (r, client) := ApplyMessage(d.client, m);
      var applied := Local(d.client, m.conversationId).appliedCursor;
      && r == (if m.conversationSeq <= applied then Duplicate else if m.conversationSeq == applied + 1 then Applied else MessageGap)
      && (r != Applied ==> client == d.client)
      && (r == Applied ==> client.Keys == d.client.Keys + {m.conversationId}
                           && Local(client, m.conversationId).appliedCursor == applied + 1)
      && (forall c :: c in client ==> c in v && HoldsPrefix(v[c], client[c]))
  {
    var c := m.conversationId;
    assert v[c][m.conversationSeq - 1].id > 0;
    hide NetworkSound, CursorsSound;
    if c in d.client { assert HoldsPrefix(v[c], d.client[c]); }
  }

  /** The cursors that applying a message moves: its own, by one, and what is still to be acknowledged. */
  lemma ApplyFrame(s: ClientState, m: Message)
    ensures var (r, s') := ApplyMessage(s, m);
      && (r != Applied ==> s' == s)
      && (r == Applied ==>
            var x, x' := Local(s, m.conversationId), Local(s', m.conversationId);
            && s' == s[m.conversationId := x']
            && x'.appliedCursor == x.appliedCursor + 1 > 0 && x'.ackedCursor == x.ackedCursor
            && x'.pendingAck == Max(x'.appliedCursor, x.pendingAck))
  {
  }

  /** What is on the network stays sound when no applied cursor falls. */
  lemma ClientKeepsNetwork(v: View, d: Device, client: ClientState)
    requires NetworkSound(v, d) && d.client.Keys <= client.Keys
    requires forall c :: Local(client, c).appliedCursor >= Local(d.client, c).appliedCursor
    ensures NetworkSound(v, d.(client := client))
  {
    hide InStream;
    var d' := d.(client := client);
    assert forall a {:trigger a in d'.ackRequests} :: a in d'.ackRequests ==> a in d.ackRequests;
  }

  lemma ApplyKeepsDevice(v: View, d: Device, m: Message)
    requires DeviceInv(v, d) && InStream(v, m)
    ensures DeviceInv(v, d.(client := ApplyMessage(d.client, m).1))
  {
    var d' := d.(client := ApplyMessage(d.client, m).1);
    CommittedNeverConflicts(v, d, m);
    ApplyFrame(d.client, m);
    hide ApplyMessage, HoldsPrefix, InStream, ViewSound, NetworkSound;
    forall e ensures CursorsSound(d', e) { assert CursorsSound(d, e); }
    ClientKeepsNetwork(v, d, d'.client);
  }

  lemma AckRequestKeepsDevice(v: View, d: Device, s: DeviceStep)
    requires DeviceInv(v, d) && DeviceEnabled(v, d, s) && (s.SendAck? || s.CheckAck?)
    ensures DeviceInv(v, DeviceApply(v, d, s))
  {
    var d' := DeviceApply(v, d, s);
    assert CursorsSound(d, s.conversationId);
    if s.CheckAck? {
      assert (s.conversationId, s.cursor) in d.ackRequests;
      assert Local(d.client, s.conversationId).appliedCursor <= |v[s.conversationId]|;
    }
    forall e ensures CursorsSound(d', e) { assert CursorsSound(d, e); }
  }

  lemma StoreAckKeepsDevice(v: View, d: Device, c: int, k: int)
    requires DeviceInv(v, d) && DeviceEnabled(v, d, StoreAck(c, k))
    ensures DeviceInv(v, DeviceApply(v, d, StoreAck(c, k)))
  {
    var d' := DeviceApply(v, d, StoreAck(c, k));
    hide HoldsPrefix, InStream, ViewSound;
    assert (c, k) in d.ackRequests;
    assert CursorsSound(d, c);
    forall e ensures CursorsSound(d', e) { assert CursorsSound(d, e); }
  }

  lemma SamePrefix(s: seq<Message>, x: ConversationState, y: ConversationState)
    requires HoldsPrefix(s, x) && y.appliedCursor == x.appliedCursor && y.messages == x.messages
    ensures HoldsPrefix(s, y)
  {
  }

  lemma ReceiveAckKeepsDevice(v: View, d: Device, r: AckResponse)
    requires DeviceInv(v, d) && DeviceEnabled(v, d, ReceiveAck(r))
    ensures DeviceInv(v, DeviceApply(v, d, ReceiveAck(r)))
  {
    var d' := DeviceApply(v, d, ReceiveAck(r));
    var c := r.conversationId;
    hide HoldsPrefix, InStream, ViewSound;
    assert CursorsSound(d, c);
    SamePrefix(v[c], d.client[c], d'.client[c]);
    forall e ensures CursorsSound(d', e) { assert CursorsSound(d, e); }
    ClientKeepsNetwork(v, d, d'.client);
  }

  lemma PageKeepsDevice(v: View, d: Device, q: Query)
    requires DeviceInv(v, d) && DeviceEnabled(v, d, ReadRows(q))
    ensures DeviceInv(v, DeviceApply(v, d, ReadRows(q)))
  {
    var d' := DeviceApply(v, d, ReadRows(q));
    var s := v[q.conversationId];
    var p := PageOf(q.conversationId, s, q.after, q.limit, q.snapshot);
    forall i | 0 <= i < |p.messages| ensures InStream(v, p.messages[i]) {
      assert p.messages[i] == s[q.after + i];
    }
    forall e ensures CursorsSound(d', e) { assert CursorsSound(d, e); }
  }

  lemma PublishKeepsDevice(v: View, d: Device, m: Message)
    requires DeviceInv(v, d) && InStream(v, m)
    ensures DeviceInv(v, d.(wire := d.wire + {m}))
  {
    hide HoldsPrefix, InStream, ViewSound;
    forall e ensures CursorsSound(d.(wire := d.wire + {m}), e) { assert CursorsSound(d, e); }
  }

  lemma ReadCursorKeepsDevice(v: View, d: Device, s: DeviceStep)
    requires DeviceInv(v, d) && DeviceEnabled(v, d, s) && s.ReadCursor?
    ensures DeviceInv(v, DeviceApply(v, d, s))
  {
    hide HoldsPrefix, InStream, ViewSound;
    forall e ensures CursorsSound(DeviceApply(v, d, s), e) { assert CursorsSound(d, e); }
  }

  lemma PageMessagesAreCommitted(v: View, d: Device, p: Page, i: nat)
    requires NetworkSound(v, d) && p in d.pages && i < |p.messages|
    ensures InStream(v, p.messages[i])
  {
  }

  lemma DeviceStepKeepsInv(v: View, d: Device, s: DeviceStep)
    requires DeviceInv(v, d) && DeviceEnabled(v, d, s)
    ensures DeviceInv(v, DeviceApply(v, d, s))
  {
    hide InStream, CursorsSound, HoldsPrefix, ViewSound, ApplyMessage;
    match s
    case ApplyFromPage(p, i) =>
      PageMessagesAreCommitted(v, d, p, i);
      ApplyKeepsDevice(v, d, p.messages[i]);
    case DeliverRealtime(m) =>
      assert InStream(v, m);
      ApplyKeepsDevice(v, d, m);
    case ReadRows(q) => PageKeepsDevice(v, d, q);
    case Publish(m) => PublishKeepsDevice(v, d, m);
    case ReadCursor(_, _, _, _) => ReadCursorKeepsDevice(v, d, s);
    case StoreAck(c, k) => StoreAckKeepsDevice(v, d, c, k);
    case ReceiveAck(r) => ReceiveAckKeepsDevice(v, d, r);
    case _ => AckRequestKeepsDevice(v, d, s);
  }

  // ---------------------------------------------------------------- the ACK endpoint as it runs

  datatype AckError = InvalidAck | NoConversation | AckAhead

  /** The cursors that each device has acknowledged, per conversation. */
  class AckTable {
    var applied: map<(int, int), int>

    constructor ()
      ensures applied == map[]
    {
      applied := map[];
    }

    /**
     * A cursor beyond the conversation's end is refused; another one is stored unless a greater one is, and the answer
     * is what is stored then. `lastSeq` is `None` for a conversation that the user has no part in.
     */
    method Acknowledge(device: int, c: int, lastSeq: Option<nat>, cursor: int) returns (r: Result<int, AckError>)
      modifies this
      ensures r == Err(InvalidAck) <==> cursor < 0
      ensures r == Err(NoConversation) <==> cursor >= 0 && lastSeq.None?
      ensures r == Err(AckAhead) <==> cursor >= 0 && lastSeq.Some? && cursor > lastSeq.value
      ensures r.Err? ==> applied == old(applied)
      ensures r.Ok? ==>
        && r.value == (if (device, c) in old(applied) && old(applied)[(device, c)] > cursor then old(applied)[(device, c)] else cursor)
        && applied == old(applied)[(device, c) := r.value]
    {
      if cursor < 0 {
        return Err(InvalidAck);
      }
      if lastSeq.None? {
        return Err(NoConversation);
      }
      if cursor > lastSeq.value {
        return Err(AckAhead);
      }
      var stored := cursor;
      if (device, c) in applied && applied[(device, c)] > stored {
        stored := applied[(device, c)];
      }
      applied := applied[(device, c) := stored];
      r := Ok(stored);
    }
  }

  /** The endpoint's two statements in the machine: the same refusal, the same stored cursor, the same answer. */
  lemma AckStatementsAgree(v: View, d: Device, c: int, k: int)
    requires DeviceEnabled(v, d, CheckAck(c, k)) && k >= 0
    ensures var d1 := DeviceApply(v, d, CheckAck(c, k));
      && (k > |v[c]| ==> d1 == d.(cursorAhead := true))
      && (k <= |v[c]| ==>
            && DeviceEnabled(v, d1, StoreAck(c, k))
            && var d2 := DeviceApply(v, d1, StoreAck(c, k));
               var stored := if c in d.applied && d.applied[c] > k then d.applied[c] else k;
               d2.applied == d.applied[c := stored] && d2.ackResponses == d.ackResponses + {AckResponse(c, k, stored)}
               && d2.client == d.client)
  {
  }

  // ---------------------------------------------------------------- what the steps achieve

  /**
   * An ACK answer is recorded: the acknowledged cursor reaches it, and an answer that covers everything applied leaves
   * nothing pending and nothing to send. Messages, applied cursors and other conversations stay.
   */
  lemma AnswersAreRecorded(v: View, d: Device, r: AckResponse)
    requires DeviceInv(v, d) && DeviceEnabled(v, d, ReceiveAck(r))
    ensures var c, d' := r.conversationId, DeviceApply(v, d, ReceiveAck(r));
      && c in d'.client && d'.client[c].ackedCursor >= r.applied && d'.client[c].ackedCursor >= d.client[c].ackedCursor
      && (r.applied >= d.client[c].appliedCursor ==> d'.client[c].pendingAck == 0 && !DeviceEnabled(v, d', SendAck(c)))
      && d'.client[c].messages == d.client[c].messages && d'.client[c].appliedCursor == d.client[c].appliedCursor
      && d'.client.Keys == d.client.Keys && (forall e :: e in d.client && e != c ==> d'.client[e] == d.client[e])
  {
    hide ViewSound, HoldsPrefix, InStream;
    assert CursorsSound(d, r.conversationId);
  }

  /** From any reachable device state, an undisturbed ACK acknowledges everything applied, on both sides. */
  lemma AckSettles(v: View, d: Device, c: int) returns (d1: Device, d2: Device, d3: Device, d4: Device)
    requires DeviceInv(v, d) && c in d.client && d.client[c].pendingAck > d.client[c].ackedCursor
    ensures DeviceEnabled(v, d, SendAck(c)) && d1 == DeviceApply(v, d, SendAck(c))
    ensures var k := d.client[c].appliedCursor;
      && DeviceEnabled(v, d1, CheckAck(c, k)) && d2 == DeviceApply(v, d1, CheckAck(c, k))
      && DeviceEnabled(v, d2, StoreAck(c, k)) && d3 == DeviceApply(v, d2, StoreAck(c, k))
      && DeviceEnabled(v, d3, ReceiveAck(AckResponse(c, k, k))) && d4 == DeviceApply(v, d3, ReceiveAck(AckResponse(c, k, k)))
      && d4.client == d.client[c := d.client[c].(ackedCursor := k, pendingAck := 0)] && ServerApplied(d4, c) == k
  {
    hide ViewSound, InStream;
    assert CursorsSound(d, c) && HoldsPrefix(v[c], d.client[c]);
    hide HoldsPrefix;
    var k := d.client[c].appliedCursor;
    d1 := DeviceApply(v, d, SendAck(c));
    d2 := DeviceApply(v, d1, CheckAck(c, k));
    d3 := DeviceApply(v, d2, StoreAck(c, k));
    d4 := DeviceApply(v, d3, ReceiveAck(AckResponse(c, k, k)));
  }

  /** A pushed message that is next in its stream is stored as soon as it is delivered. */
  lemma PushedMessageIsApplied(v: View, d: Device, m: Message)
    requires DeviceInv(v, d) && InStream(v, m) && m.conversationSeq == Local(d.client, m.conversationId).appliedCursor + 1
    ensures DeviceEnabled(v, d, Publish(m))
    ensures var d1 := DeviceApply(v, d, Publish(m));
      && DeviceEnabled(v, d1, DeliverRealtime(m))
      && var d2 := DeviceApply(v, d1, DeliverRealtime(m));
         && m.conversationId in d2.client && d2.client[m.conversationId].appliedCursor == m.conversationSeq
         && m.conversationSeq in d2.client[m.conversationId].messages
         && d2.client[m.conversationId].messages[m.conversationSeq] == m
  {
    var c := m.conversationId;
    assert v[c][m.conversationSeq - 1].id > 0;
  }

  /** Applying the first `n` messages of a page, one delivery each. */
  ghost function ApplyFirst(v: View, d: Device, p: Page, n: nat): Device
    requires n <= |p.messages| && p in d.pages
    ensures ApplyFirst(v, d, p, n).pages == d.pages
    decreases n
  {
    if n == 0 then d else DeviceApply(v, ApplyFirst(v, d, p, n - 1), ApplyFromPage(p, n - 1))
  }

  lemma NextOfPage(v: View, d: Device, c: int, p: Page, i: nat)
    requires DeviceInv(v, d) && p in d.pages && i < |p.messages| && c in v
    requires Local(d.client, c).appliedCursor < |v[c]| && p.messages[i] == v[c][Local(d.client, c).appliedCursor]
    ensures var d' := DeviceApply(v, d, ApplyFromPage(p, i));
      DeviceInv(v, d') && Local(d'.client, c).appliedCursor == Local(d.client, c).appliedCursor + 1
  {
    assert CursorsSound(d, c);
    assert InStream(v, p.messages[i]) && p.messages[i].conversationId == c;
    assert p.messages[i].conversationSeq == Local(d.client, c).appliedCursor + 1;
    hide InStream, ViewSound, HoldsPrefix, ApplyMessage, NetworkSound;
    CommittedNeverConflicts(v, d, p.messages[i]);
    ApplyKeepsDevice(v, d, p.messages[i]);
  }

  lemma {:induction false} PageExtends(v: View, d: Device, c: int, p: Page, after: nat, n: nat)
    requires DeviceInv(v, d) && p in d.pages && n <= |p.messages|
    requires c in v && after + |p.messages| <= |v[c]| && p.messages == v[c][after..after + |p.messages|]
    requires after == Local(d.client, c).appliedCursor
    ensures DeviceInv(v, ApplyFirst(v, d, p, n)) && Local(ApplyFirst(v, d, p, n).client, c).appliedCursor == after + n
    decreases n
  {
    hide DeviceInv, DeviceApply;
    if n > 0 {
      PageExtends(v, d, c, p, after, n - 1);
      assert p.messages[n - 1] == v[c][after + n - 1];
      NextOfPage(v, ApplyFirst(v, d, p, n - 1), c, p, n - 1);
    }
  }

  /**
   * From any reachable device state a page fetched from the client's cursor, and delivered message by message, moves
   * the cursor by the page limit or to the end of the stream.
   */
  lemma PagesCatchUp(v: View, d: Device, c: int, limit: nat)
    requires DeviceInv(v, d) && c in v && 0 < limit <= MAX_PAGE_LIMIT
    ensures var after, end := Local(d.client, c).appliedCursor, |v[c]|;
      && 0 <= after <= end && DeviceEnabled(v, d, ReadCursor(c, after, limit, None))
      && var q, d1 := Query(c, after, limit, end), DeviceApply(v, d, ReadCursor(c, after, limit, None));
      && DeviceEnabled(v, d1, ReadRows(q))
      && var d2, p := DeviceApply(v, d1, ReadRows(q)), PageOf(c, v[c], after, limit, end);
      && p in d2.pages && Local(ApplyFirst(v, d2, p, |p.messages|).client, c).appliedCursor == Min(after + limit, end)
  {
    assert CursorsSound(d, c);
    assert c in d.client ==> HoldsPrefix(v[c], d.client[c]);
    var after, end := Local(d.client, c).appliedCursor, |v[c]|;
    var d1 := DeviceApply(v, d, ReadCursor(c, after, limit, None));
    var d2, p := DeviceApply(v, d1, ReadRows(Query(c, after, limit, end))), PageOf(c, v[c], after, limit, end);
    hide DeviceInv, ViewSound, HoldsPrefix;
    DeviceStepKeepsInv(v, d, ReadCursor(c, after, limit, None));
    DeviceStepKeepsInv(v, d1, ReadRows(Query(c, after, limit, end)));
    PageExtends(v, d2, c, p, after, |p.messages|);
  }
}
