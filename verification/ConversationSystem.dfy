/** The message store and one device together: every interleaving of sends, pushes, pages, ACKs and crashes. */
module ConversationSystem {
  import opened Common
  import opened MessageStore
  import opened DeviceSync

  datatype System = System(server: World, device: Device)

  datatype SystemStep = OnServer(server: Step) | OnDevice(device: DeviceStep)

  ghost function Streams(w: World): View
    requires TablesSound(w.tables)
  {
    map c | c in w.tables.conversations :: Stream(w.tables, c)
  }

  /** A push carries the message of some outbox event; page and ACK statements read the committed tables. */
  ghost predicate SystemEnabled(s: System, step: SystemStep) {
    match step
    case OnServer(a) => Enabled(s.server, a)
    case OnDevice(d) =>
      if d.Publish? then
        exists e :: e in s.server.tables.events && s.server.tables.events[e].message == d.message
      else
        TablesSound(s.server.tables) && DeviceEnabled(Streams(s.server), s.device, d)
  }

  ghost predicate SystemNext(s: System, s': System) {
    exists step :: SystemEnabled(s, step) &&
      match step
      case OnServer(a) => s' == s.(server := Apply(s.server, a))
      case OnDevice(d) =>
        if d.Publish? then s' == s.(device := s.device.(wire := s.device.wire + {d.message}))
        else s' == s.(device := DeviceApply(Streams(s.server), s.device, d))
  }

  ghost predicate IsSystemRun(ss: seq<System>) {
    |ss| > 0 && Initial(ss[0].server) && ss[0].device == NewDevice
    && forall i :: 0 <= i < |ss| - 1 ==> SystemNext(ss[i], ss[i + 1])
  }

  ghost predicate SystemInv(s: System) {
    Inv(s.server) && DeviceInv(Streams(s.server), s.device)
  }

  lemma StreamsSoundView(w: World)
    requires Inv(w)
    ensures TablesSound(w.tables) && ViewSound(Streams(w))
  {
    assert forall c :: c in w.tables.conversations ==> c > 0;
    forall c | c in w.tables.conversations
      ensures forall k :: 0 <= k < |Stream(w.tables, c)| ==>
        Stream(w.tables, c)[k].conversationId == c && Stream(w.tables, c)[k].conversationSeq == k + 1 && Stream(w.tables, c)[k].id > 0
    {
      StreamIsTheTable(w.tables, c);
    }
    hide TablesSound, Inv, Stream;
  }

  lemma ServerStepGrows(w: World, a: Step)
    requires Inv(w) && Enabled(w, a)
    ensures Inv(Apply(w, a)) && TablesSound(w.tables) && TablesSound(Apply(w, a).tables)
    ensures Grows(Streams(w), Streams(Apply(w, a)))
  {
    hide Inv, Stream, Enabled, TablesSound, Apply;
    StepKeepsInv(w, a);
    InvParts(w);
    InvParts(Apply(w, a));
    forall c | c in w.tables.conversations
      ensures c in Apply(w, a).tables.conversations && Stream(w.tables, c) <= Stream(Apply(w, a).tables, c)
    {
      ConversationsStay(w, a, c);
      StreamsOnlyGrow(w, a, c);
    }
  }

  lemma ConversationsStay(w: World, a: Step, c: int)
    requires Enabled(w, a) && c in w.tables.conversations
    ensures c in Apply(w, a).tables.conversations
  {
  }

  /** What a push delivers is a committed message at its place in its stream. */
  lemma EventMessagesAreCommitted(w: World, e: int)
    requires Inv(w) && e in w.tables.events
    ensures TablesSound(w.tables) && InStream(Streams(w), w.tables.events[e].message)
  {
    var m := w.tables.events[e].message;
    assert m.id in w.tables.messages && w.tables.messages[m.id] == m && m.conversationId in w.tables.conversations;
    StreamIsTheTable(w.tables, m.conversationId);
  }

  lemma SystemStepKeepsInv(s: System, s': System)
    requires SystemInv(s) && SystemNext(s, s')
    ensures SystemInv(s')
  {
    hide Inv, TablesSound, Stream, DeviceInv, DeviceEnabled, DeviceApply, Enabled, Apply;
    var step :| SystemEnabled(s, step) &&
      match step
      case OnServer(a) => s' == s.(server := Apply(s.server, a))
      case OnDevice(d) =>
        if d.Publish? then s' == s.(device := s.device.(wire := s.device.wire + {d.message}))
        else s' == s.(device := DeviceApply(Streams(s.server), s.device, d));
    match step
    case OnServer(a) =>
      ServerStepGrows(s.server, a);
      StreamsSoundView(s'.server);
      GrowthKeepsDevice(Streams(s.server), Streams(s'.server), s.device);
    case OnDevice(d) =>
      if d.Publish? {
        var e :| e in s.server.tables.events && s.server.tables.events[e].message == d.message;
        EventMessagesAreCommitted(s.server, e);
        PublishKeepsDevice(Streams(s.server), s.device, d.message);
      } else {
        DeviceStepKeepsInv(Streams(s.server), s.device, d);
      }
  }

  lemma {:induction false} SystemRunKeepsInv(ss: seq<System>, i: nat)
    requires IsSystemRun(ss) && i < |ss|
    ensures SystemInv(ss[i])
  {
    hide Inv, SystemNext, DeviceInv, Initial;
    if i == 0 {
      InitialKeepsInv(ss[0].server);
      StreamsSoundView(ss[0].server);
      NewDeviceSound(Streams(ss[0].server));
    } else {
      SystemRunKeepsInv(ss, i - 1);
      assert SystemNext(ss[i - 1], ss[i - 1 + 1]);
      SystemStepKeepsInv(ss[i - 1], ss[i]);
    }
  }

  // ---------------------------------------------------------------- theorems over whole runs

  /** The client's stored messages are always the committed messages numbered 1..AppliedCursor, nothing else. */
  lemma ClientHoldsCommittedPrefix(ss: seq<System>, i: nat, c: int)
    requires IsSystemRun(ss) && i < |ss| && c in ss[i].device.client
    ensures var t, x := ss[i].server.tables, ss[i].device.client[c];
      && c in t.conversations && 0 < x.appliedCursor <= t.conversations[c].lastSeq
      && x.messages.Keys == (set m | m in x.messages.Keys && 1 <= m <= x.appliedCursor)
      && (forall k :: 1 <= k <= x.appliedCursor ==>
            k in x.messages && x.messages[k].conversationId == c && x.messages[k].conversationSeq == k
            && x.messages[k].id in t.messages && t.messages[x.messages[k].id] == x.messages[k])
  {
    hide Inv, TablesSound, Stream, IsSystemRun, CursorsSound, NetworkSound, ViewSound;
    SystemRunKeepsInv(ss, i);
    var s := ss[i];
    InvParts(s.server);
    var x, stream := s.device.client[c], Stream(s.server.tables, c);
    assert c in Streams(s.server) && Streams(s.server)[c] == stream && HoldsPrefix(stream, x);
    StreamIsTheTable(s.server.tables, c);
    StreamLengths(s.server.tables, s.server.tables, c);
    hide DeviceInv;
    forall k | 1 <= k <= x.appliedCursor
      ensures k in x.messages && x.messages[k] == stream[k - 1] && stream[k - 1].conversationSeq == k
    {
    }
  }

  /** acked <= the server's cursor <= applied <= last_seq, and nothing pending means everything is acked. */
  lemma CursorsStayOrdered(ss: seq<System>, i: nat, c: int)
    requires IsSystemRun(ss) && i < |ss|
    ensures var t, d := ss[i].server.tables, ss[i].device;
      var x := Local(d.client, c);
      && 0 <= x.ackedCursor <= ServerApplied(d, c) <= x.appliedCursor
      && x.appliedCursor <= (if c in t.conversations then t.conversations[c].lastSeq else 0)
      && (x.pendingAck == 0 ==> x.ackedCursor == x.appliedCursor)
  {
    SystemRunKeepsInv(ss, i);
    var s := ss[i];
    hide Inv, TablesSound;
    assert CursorsSound(s.device, c);
    if c in s.device.client { assert HoldsPrefix(Streams(s.server)[c], s.device.client[c]); }
  }

  /** No ACK of this client is ever answered CURSOR_AHEAD, and no response is older than its request. */
  lemma AcksAreNeverAhead(ss: seq<System>, i: nat)
    requires IsSystemRun(ss) && i < |ss|
    ensures !ss[i].device.cursorAhead
    ensures forall r :: r in ss[i].device.ackResponses ==> r.cursor <= r.applied
  {
    hide Inv;
    SystemRunKeepsInv(ss, i);
  }

  /** Neither a pushed message nor a page message ever conflicts with the durable state. */
  lemma DeliveriesNeverConflict(ss: seq<System>, i: nat, m: Message)
    requires IsSystemRun(ss) && i < |ss|
    requires m in ss[i].device.wire || exists p, k :: p in ss[i].device.pages && 0 <= k < |p.messages| && p.messages[k] == m
    ensures ApplyMessage(ss[i].device.client, m).0 in {Applied, Duplicate, MessageGap}
    ensures ApplyRealtime(ss[i].device.client, EnvelopeOf(m)) == ApplyMessage(ss[i].device.client, m)
  {
    SystemRunKeepsInv(ss, i);
    var s := ss[i];
    hide Inv;
    assert InStream(Streams(s.server), m);
    assert ViewSound(Streams(s.server));
    assert Streams(s.server)[m.conversationId][m.conversationSeq - 1].id > 0;
    CommittedNeverConflicts(Streams(s.server), s.device, m);
  }

  /** Every committed conversation has a message, so a first page never has an empty snapshot. */
  lemma SnapshotsAreNeverEmpty(ss: seq<System>, i: nat, c: int)
    requires IsSystemRun(ss) && i < |ss| && c in ss[i].server.tables.conversations
    ensures TablesSound(ss[i].server.tables)
    ensures ResolveSnapshot(|Stream(ss[i].server.tables, c)|, 0, None).value >= 1
  {
    SystemRunKeepsInv(ss, i);
  }

  /** Paging from the durable cursor is never refused as ahead of the stream. */
  lemma ClientCursorsAreServable(ss: seq<System>, i: nat, c: int, limit: nat)
    requires IsSystemRun(ss) && i < |ss| && c in ss[i].server.tables.conversations && limit > 0
    ensures TablesSound(ss[i].server.tables)
    ensures var after := Local(ss[i].device.client, c).appliedCursor;
      after >= 0 && Serve(c, Some(Stream(ss[i].server.tables, c)), after, limit, None).Ok?
  {
    hide Inv, TablesSound, Stream, DeviceInv, IsSystemRun, Streams;
    SystemRunKeepsInv(ss, i);
    CursorsStayOrdered(ss, i, c);
    InvParts(ss[i].server);
    StreamLengths(ss[i].server.tables, ss[i].server.tables, c);
  }
}
