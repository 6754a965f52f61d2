/**
 * From an outbox event to the instances that hold a recipient's sockets: decoding, the presence lookup for one
 * user or a whole batch, and publishing to the remote instances.
 *
 * A payload that is not the expected JSON is `None`. Redis answers are parameters: the presence index and records,
 * the instances whose PUBLISH fails, and how many subscribers each PUBLISH reached.
 */
module EventRouting {
  import opened Common
  import MessageStore

  // ---------------------------------------------------------------- decoding

  datatype Recipient = Recipient(userId: int, cursor: int)
  datatype Payload = Payload(message: Message, recipients: seq<Recipient>)
  datatype EventType = MessageCreated | OtherType
  /** `messageId` is 0 when the row's column is null. */
  datatype Event = Event(eventType: EventType, messageId: int, payloadVersion: int, payload: Option<Payload>)

  datatype DecodeError =
    | UnsupportedVersion | NotJson | Incomplete | InvalidRecipient | NotParticipant | DuplicateRecipient
    | RecipientsIncomplete | NoConversation | HasCursor

  function UserIds(recipients: seq<Recipient>): seq<int> {
    seq(|recipients|, i requires 0 <= i < |recipients| => recipients[i].userId)
  }

  function Elements(s: seq<int>): set<int> {
    set x | x in s
  }

  /** The event names an existing message and lists each of its participants exactly once, without a cursor. */
  predicate Acceptable(e: Event) {
    && e.payloadVersion == 4 && e.payload.Some?
    && var p := e.payload.value;
       && p.message.id > 0 && p.message.senderId > 0 && p.message.receiverId > 0
       && p.message.conversationId > 0 && p.message.conversationSeq > 0
       && (e.messageId > 0 ==> p.message.id == e.messageId)
       && Distinct(UserIds(p.recipients))
       && Elements(UserIds(p.recipients)) == {p.message.senderId, p.message.receiverId}
       && forall i :: 0 <= i < |p.recipients| ==> p.recipients[i].cursor == 0
  }

  /** The loop over the recipients: each expected user exactly once. */
  method CheckParticipants(recipients: seq<Recipient>, expected: set<int>) returns (failure: Option<DecodeError>)
    requires forall u :: u in expected ==> u > 0
    ensures failure.None? <==> Distinct(UserIds(recipients)) && Elements(UserIds(recipients)) == expected
  {
    ghost var ids := UserIds(recipients);
    var seen: set<int> := {};
    var i := 0;
    while i < |recipients|
      invariant 0 <= i <= |recipients|
      invariant seen == Elements(ids[..i]) && seen <= expected && Distinct(ids[..i])
    {
      var userId := recipients[i].userId;
      assert ids[i] == userId && userId in Elements(ids);
      assert ids[..i + 1] == ids[..i] + [userId];
      if userId <= 0 {
        return Some(InvalidRecipient);
      }
      if userId !in expected {
        return Some(NotParticipant);
      }
      if userId in seen {
        assert userId in ids[..i];
        return Some(DuplicateRecipient);
      }
      seen := seen + {userId};
      i := i + 1;
    }
    assert ids[..i] == ids;
    if |seen| != |expected| {
      return Some(RecipientsIncomplete);
    }
    SameSizeSubset(seen, expected);
    failure := None;
  }

  method DecodeMessageCreatedEvent(event: Event) returns (r: Result<Payload, DecodeError>)
    ensures r.Ok? <==> Acceptable(event)
    ensures r.Ok? ==> event.payload == Some(r.value)
    ensures r.Ok? <==>
      && event.payloadVersion == 4 && event.payload.Some?
      && var m, recipients := event.payload.value.message, event.payload.value.recipients;
         && m.id > 0 && m.senderId > 0 && m.receiverId > 0 && m.conversationId > 0 && m.conversationSeq > 0
         && (event.messageId > 0 ==> m.id == event.messageId)
         && (forall i, j :: 0 <= i < j < |recipients| ==> recipients[i].userId != recipients[j].userId)
         && (forall i :: 0 <= i < |recipients| ==> recipients[i].userId in {m.senderId, m.receiverId} && recipients[i].cursor == 0)
         && (exists i :: 0 <= i < |recipients| && recipients[i].userId == m.senderId)
         && (exists i :: 0 <= i < |recipients| && recipients[i].userId == m.receiverId)
  {
    AcceptableInFields(event);
    hide Distinct, Elements;
    if event.payloadVersion != 4 {
      return Err(UnsupportedVersion);
    }
    if event.payload.None? {
      return Err(NotJson);
    }
    var payload := event.payload.value;
    var message, recipients := payload.message, payload.recipients;
    if message.id <= 0 || message.senderId <= 0 || message.receiverId <= 0
      || (event.messageId > 0 && message.id != event.messageId) || |recipients| == 0
    {
      NoRecipients(recipients, message.senderId);
      return Err(Incomplete);
    }
    var failure := CheckParticipants(recipients, {message.senderId, message.receiverId});
    if failure.Some? {
      return Err(failure.value);
    }
    if message.conversationId <= 0 || message.conversationSeq <= 0 {
      return Err(NoConversation);
    }
    var i := 0;
    while i < |recipients|
      invariant 0 <= i <= |recipients|
      invariant forall k :: 0 <= k < i ==> recipients[k].cursor == 0
    {
      if recipients[i].cursor != 0 {
        return Err(HasCursor);
      }
      i := i + 1;
    }
    r := Ok(payload);
  }

  lemma AcceptableInFields(e: Event)
    ensures Acceptable(e) <==>
      && e.payloadVersion == 4 && e.payload.Some?
      && var m, recipients := e.payload.value.message, e.payload.value.recipients;
         && m.id > 0 && m.senderId > 0 && m.receiverId > 0 && m.conversationId > 0 && m.conversationSeq > 0
         && (e.messageId > 0 ==> m.id == e.messageId)
         && (forall i, j :: 0 <= i < j < |recipients| ==> recipients[i].userId != recipients[j].userId)
         && (forall i :: 0 <= i < |recipients| ==> recipients[i].userId in {m.senderId, m.receiverId} && recipients[i].cursor == 0)
         && (exists i :: 0 <= i < |recipients| && recipients[i].userId == m.senderId)
         && (exists i :: 0 <= i < |recipients| && recipients[i].userId == m.receiverId)
  {
    if e.payload.Some? {
      DistinctUsers(e.payload.value.recipients);
      ElementsAre(e.payload.value.recipients, e.payload.value.message.senderId, e.payload.value.message.receiverId);
    }
  }

  lemma DistinctUsers(recipients: seq<Recipient>)
    ensures Distinct(UserIds(recipients))
       <==> forall i, j :: 0 <= i < j < |recipients| ==> recipients[i].userId != recipients[j].userId
  {
    var ids := UserIds(recipients);
    forall i, j | 0 <= i < j < |recipients| ensures ids[i] == recipients[i].userId && ids[j] == recipients[j].userId {
    }
  }

  lemma ElementsAre(recipients: seq<Recipient>, a: int, b: int)
    ensures Elements(UserIds(recipients)) == {a, b}
       <==> && (forall i :: 0 <= i < |recipients| ==> recipients[i].userId in {a, b})
            && (exists i :: 0 <= i < |recipients| && recipients[i].userId == a)
            && (exists i :: 0 <= i < |recipients| && recipients[i].userId == b)
  {
    var ids := UserIds(recipients);
    forall i | 0 <= i < |recipients| ensures recipients[i].userId in Elements(ids) {
      assert ids[i] == recipients[i].userId;
    }
    forall x | x in Elements(ids) ensures exists i :: 0 <= i < |recipients| && recipients[i].userId == x {
      var i :| 0 <= i < |ids| && ids[i] == x;
    }
    if Elements(ids) == {a, b} {
      assert a in Elements(ids) && b in Elements(ids);
    }
  }

  lemma NoRecipients(recipients: seq<Recipient>, u: int)
    ensures recipients == [] ==> u !in Elements(UserIds(recipients))
  {
  }

  /** The row that a send wrote, as the publisher reads it. */
  function FromOutbox(e: MessageStore.OutboxEvent): Event {
    Event(MessageCreated, e.messageId, e.payloadVersion,
          Some(Payload(e.message, seq(|e.recipients|, i requires 0 <= i < |e.recipients| => Recipient(e.recipients[i], 0)))))
  }

  /** Every event that any interleaving of sends writes is accepted, with the distinct participants as recipients. */
  lemma SentEventsAreAccepted(ws: seq<MessageStore.World>, i: nat, e: int)
    requires MessageStore.IsRun(ws) && i < |ws| && e in ws[i].tables.events
    ensures var event := FromOutbox(ws[i].tables.events[e]);
            Acceptable(event) && UserIds(event.payload.value.recipients) == MessageStore.Participants(event.payload.value.message)
  {
    MessageStore.RunKeepsInv(ws, i);
    MessageStore.InvParts(ws[i]);
    var t := ws[i].tables;
    var m := t.messages[t.events[e].messageId];
    assert t.events[e] == MessageStore.EventFor(m);
    assert m.conversationId in t.conversations;
    var ids := UserIds(FromOutbox(t.events[e]).payload.value.recipients);
    assert ids == MessageStore.Participants(m);
    assert Elements(ids) == {m.senderId, m.receiverId};
  }

  // ---------------------------------------------------------------- presence

  datatype Record = Record(userId: int, sessionId: int, connectionId: string, instanceId: string)

  /** A member of a user's session index: text that is no number, or a number. */
  datatype Member = Junk | Id(sessionId: int)

  /** What Redis holds: per user the index members as SMEMBERS lists them, and the records that decode. */
  datatype Snapshot = Snapshot(members: map<int, seq<Member>>, stored: map<(int, int), Record>)

  predicate ValidRecord(r: Record) {
    r.userId > 0 && r.sessionId > 0 && r.connectionId != "" && r.instanceId != ""
  }

  predicate Usable(stored: map<(int, int), Record>, u: int, m: Member) {
    && m.Id? && m.sessionId > 0 && (u, m.sessionId) in stored
    && var r := stored[(u, m.sessionId)];
       ValidRecord(r) && r.userId == u && r.sessionId == m.sessionId
  }

  /** The records of the usable members, in their order. */
  function RecordsIn(stored: map<(int, int), Record>, u: int, members: seq<Member>): seq<Record>
    decreases |members|
  {
    if members == [] then []
    else
      var last := members[|members| - 1];
      RecordsIn(stored, u, members[..|members| - 1]) + (if Usable(stored, u, last) then [stored[(u, last.sessionId)]] else [])
  }

  /** The members that stay when the stale ones are removed. */
  function Kept(stored: map<(int, int), Record>, u: int, members: seq<Member>): seq<Member>
    decreases |members|
  {
    if members == [] then []
    else
      var last := members[|members| - 1];
      Kept(stored, u, members[..|members| - 1]) + (if Usable(stored, u, last) then [last] else [])
  }

  lemma {:induction false} KeptKeepsRecords(stored: map<(int, int), Record>, u: int, members: seq<Member>)
    ensures RecordsIn(stored, u, Kept(stored, u, members)) == RecordsIn(stored, u, members)
    decreases |members|
  {
    if members != [] {
      var front, last := members[..|members| - 1], members[|members| - 1];
      KeptKeepsRecords(stored, u, front);
      var kept := Kept(stored, u, front);
      assert Usable(stored, u, last) ==> (kept + [last])[..|kept|] == kept;
      assert kept + [] == kept;
    }
  }

  lemma {:induction false} KeptAreUsable(stored: map<(int, int), Record>, u: int, members: seq<Member>)
    ensures forall m :: m in Kept(stored, u, members) <==> m in members && Usable(stored, u, m)
    ensures var keep, records := Kept(stored, u, members), RecordsIn(stored, u, members);
      |records| == |keep| && forall i :: 0 <= i < |keep| ==>
        keep[i].Id? && (u, keep[i].sessionId) in stored && records[i] == stored[(u, keep[i].sessionId)]
    decreases |members|
  {
    if members != [] {
      var front, last := members[..|members| - 1], members[|members| - 1];
      KeptAreUsable(stored, u, front);
      assert members == front + [last];
      hide Usable;
      if Usable(stored, u, last) {
        UsableIsStored(stored, u, last);
      }
    }
  }

  lemma UsableIsStored(stored: map<(int, int), Record>, u: int, m: Member)
    requires Usable(stored, u, m)
    ensures m.Id? && (u, m.sessionId) in stored
  {
  }

  function MembersOf(members: map<int, seq<Member>>, u: int): seq<Member> {
    if u in members then members[u] else []
  }

  function RecordsAt(p: Snapshot, u: int): seq<Record> {
    RecordsIn(p.stored, u, MembersOf(p.members, u))
  }

  datatype RouteError = InvalidUser | RedisDown | NotPrepared | PublishFailed | HubFailed

  method Deduplicate(userIds: seq<int>) returns (r: Result<seq<int>, RouteError>)
    ensures r.Err? <==> exists u :: u in userIds && u <= 0
    ensures r.Ok? ==> Distinct(r.value) && Elements(r.value) == Elements(userIds)
    ensures r.Err? ==> r.error == InvalidUser
  {
    var unique: seq<int> := [];
    var seen: set<int> := {};
    var i := 0;
    while i < |userIds|
      invariant 0 <= i <= |userIds|
      invariant seen == Elements(unique) == Elements(userIds[..i]) && Distinct(unique)
      invariant forall u :: u in seen ==> u > 0
    {
      var userId := userIds[i];
      assert userIds[..i + 1] == userIds[..i] + [userId];
      if userId <= 0 {
        assert userIds[i] in userIds;
        return Err(InvalidUser);
      }
      if userId !in seen {
        seen := seen + {userId};
        unique := unique + [userId];
      }
      i := i + 1;
    }
    assert userIds[..i] == userIds;
    assert forall u :: u in userIds ==> u in seen;
    r := Ok(unique);
  }

  /** The records of one user, and the members found stale. */
  method ReadRecords(stored: map<(int, int), Record>, userId: int, values: seq<Member>)
    returns (records: seq<Record>, keep: seq<Member>)
    ensures records == RecordsIn(stored, userId, values) && keep == Kept(stored, userId, values)
    ensures forall m :: m in keep <==>
      && m in values && m.Id? && m.sessionId > 0 && (userId, m.sessionId) in stored
      && var r := stored[(userId, m.sessionId)];
         r.userId == userId > 0 && r.sessionId == m.sessionId && r.connectionId != "" && r.instanceId != ""
    ensures |records| == |keep| && forall i :: 0 <= i < |keep| ==>
      keep[i].Id? && (userId, keep[i].sessionId) in stored && records[i] == stored[(userId, keep[i].sessionId)]
  {
    KeptAreUsable(stored, userId, values);
    records, keep := [], [];
    var i := 0;
    while i < |values|
      invariant 0 <= i <= |values|
      invariant records == RecordsIn(stored, userId, values[..i]) && keep == Kept(stored, userId, values[..i])
    {
      var value := values[i];
      assert values[..i + 1][..i] == values[..i];
      if value.Id? && value.sessionId > 0 && (userId, value.sessionId) in stored {
        var record := stored[(userId, value.sessionId)];
        if ValidRecord(record) && record.userId == userId && record.sessionId == value.sessionId {
          records := records + [record];
          keep := keep + [value];
        }
      }
      i := i + 1;
    }
    assert values[..i] == values;
  }

  /** The Redis presence index; a lookup removes the stale members it finds. */
  class Presence {
    var members: map<int, seq<Member>>
    var stored: map<(int, int), Record>

    ghost function View(): Snapshot
      reads this
    {
      Snapshot(members, stored)
    }

    constructor (members: map<int, seq<Member>>, stored: map<(int, int), Record>)
      ensures View() == Snapshot(members, stored)
    {
      this.members, this.stored := members, stored;
    }

    /** Each user is resolved once; removing stale members changes nobody's records. */
    method LookupUsers(userIds: seq<int>, reachable: bool) returns (r: Result<map<int, seq<Record>>, RouteError>)
      modifies this`members
      ensures r.Ok? <==> (forall u :: u in userIds ==> u > 0) && (reachable || userIds == [])
      ensures r.Err? ==> r.error == if exists u :: u in userIds && u <= 0 then InvalidUser else RedisDown
      ensures r.Ok? ==> r.value.Keys == Elements(userIds) && forall u :: u in r.value ==> r.value[u] == RecordsAt(old(View()), u)
      ensures forall u :: RecordsAt(View(), u) == RecordsAt(old(View()), u)
    {
      hide RecordsIn, Kept, Usable;
      var deduplicated := Deduplicate(userIds);
      if deduplicated.Err? {
        return Err(InvalidUser);
      }
      var unique := deduplicated.value;
      SameElements(unique, userIds);
      if |unique| == 0 {
        return Ok(map[]);
      }
      if !reachable {
        return Err(RedisDown);
      }
      var recordsByUser: map<int, seq<Record>> := map[];
      var i := 0;
      while i < |unique|
        invariant 0 <= i <= |unique| && stored == old(stored)
        invariant recordsByUser.Keys == Elements(unique[..i])
        invariant forall u :: u in recordsByUser ==> recordsByUser[u] == RecordsAt(old(View()), u)
        invariant forall u :: RecordsAt(View(), u) == RecordsAt(old(View()), u)
      {
        var userId := unique[i];
        assert unique[..i + 1] == unique[..i] + [userId];
        var values := MembersOf(members, userId);
        var records, keep := ReadRecords(stored, userId, values);
        KeptKeepsRecords(stored, userId, values);
        recordsByUser := recordsByUser[userId := records];
        members := members[userId := keep];
        i := i + 1;
      }
      assert unique[..i] == unique;
      r := Ok(recordsByUser);
    }
  }

  lemma SameElements(a: seq<int>, b: seq<int>)
    requires Elements(a) == Elements(b)
    ensures forall u :: u in a <==> u in b
    ensures a == [] <==> b == []
  {
    assert forall u :: u in a <==> u in Elements(a);
    assert forall u :: u in b <==> u in Elements(b);
    assert a != [] ==> a[0] in a;
    assert b != [] ==> b[0] in b;
  }

  // ---------------------------------------------------------------- publishing

  /** The other instances that hold one of the records. */
  function RemoteInstances(records: seq<Record>, self: string): set<string> {
    set i | 0 <= i < |records| && records[i].instanceId != self :: records[i].instanceId
  }

  ghost function SumOf(s: set<string>, reached: string -> nat): nat
    decreases |s|
  {
    if s == {} then 0 else
      var x :| x in s;
      reached(x) + SumOf(s - {x}, reached)
  }

  /** The sum does not depend on the order in which the instances are taken. */
  lemma {:induction false} SumOfTaking(s: set<string>, reached: string -> nat, y: string)
    requires y in s
    ensures SumOf(s, reached) == reached(y) + SumOf(s - {y}, reached)
    decreases |s|
  {
    var x :| x in s && SumOf(s, reached) == reached(x) + SumOf(s - {x}, reached);
    if x != y {
      SumOfTaking(s - {x}, reached, y);
      SumOfTaking(s - {y}, reached, x);
      assert s - {x} - {y} == s - {y} - {x};
    }
  }

  /** `channels` are the instances that the command was published to. */
  datatype Routed = Routed(delivered: nat, channels: set<string>, error: Option<RouteError>)

  /** The environment of one publish: this instance, what PUBLISH reaches, and where it fails. */
  datatype Bus = Bus(self: string, reached: string -> nat, down: set<string>)

  /** Every other instance gets the command once, unless PUBLISH fails for one of them. */
  ghost predicate RoutedTo(r: Routed, records: seq<Record>, bus: Bus, local: nat) {
    var remote := RemoteInstances(records, bus.self);
    && r.channels <= remote - bus.down
    && r.delivered == local + SumOf(r.channels, bus.reached)
    && (remote !! bus.down ==> r.error.None? && r.channels == remote)
    && (!(remote !! bus.down) ==> r.error == Some(PublishFailed))
  }

  method CollectInstances(records: seq<Record>, self: string) returns (remoteInstances: set<string>)
    ensures remoteInstances == RemoteInstances(records, self)
  {
    hide RemoteInstances;
    remoteInstances := {};
    var i := 0;
    NoInstances(self);
    while i < |records|
      invariant 0 <= i <= |records|
      invariant remoteInstances == RemoteInstances(records[..i], self)
    {
      assert records[..i + 1] == records[..i] + [records[i]];
      OneMoreInstance(records[..i], records[i], self);
      if records[i].instanceId != self {
        remoteInstances := remoteInstances + {records[i].instanceId};
      }
      i := i + 1;
    }
    assert records[..i] == records;
  }

  lemma NoInstances(self: string)
    ensures RemoteInstances([], self) == {}
  {
  }

  method PublishRemote(records: seq<Record>, bus: Bus, local: nat) returns (r: Routed)
    ensures RoutedTo(r, records, bus, local)
    ensures GoesToInstances(r, records, bus, local)
  {
    RoutedGoesToInstances(records, bus, local);
    hide RemoteInstances, SumOf, GoesToInstances;
    var remoteInstances := CollectInstances(records, bus.self);
    var left: set<string>, channels: set<string>, delivered := remoteInstances, {}, local;
    assert SumOf({}, bus.reached) == 0 by { SumOfNothing(bus.reached); }
    while left != {}
      invariant left + channels == remoteInstances && left !! channels && channels !! bus.down
      invariant delivered == local + SumOf(channels, bus.reached)
      decreases |left|
    {
      var instanceId :| instanceId in left;
      left := left - {instanceId};
      if instanceId in bus.down {
        assert instanceId in remoteInstances;
        return Routed(delivered, channels, Some(PublishFailed));
      }
      SumOfTaking(channels + {instanceId}, bus.reached, instanceId);
      assert channels + {instanceId} - {instanceId} == channels;
      channels := channels + {instanceId};
      delivered := delivered + bus.reached(instanceId);
    }
    assert channels == remoteInstances;
    r := Routed(delivered, channels, None);
  }

  /**
   * The publish fails exactly if another instance that holds a record is down; otherwise the command went to the other
   * instances that hold one, and to no others; and each one reached adds its count.
   */
  ghost predicate GoesToInstances(r: Routed, records: seq<Record>, bus: Bus, local: nat) {
    && r.error == (if exists i :: 0 <= i < |records| && records[i].instanceId != bus.self && records[i].instanceId in bus.down
                   then Some(PublishFailed) else None)
    && (r.error.None? ==> forall x :: x in r.channels <==>
          x != bus.self && exists i :: 0 <= i < |records| && records[i].instanceId == x)
    && r.delivered == local + SumOf(r.channels, bus.reached)
  }

  lemma RoutedGoesToInstances(records: seq<Record>, bus: Bus, local: nat)
    ensures forall r: Routed :: RoutedTo(r, records, bus, local) ==> GoesToInstances(r, records, bus, local)
  {
    forall i | 0 <= i < |records| && records[i].instanceId != bus.self
      ensures records[i].instanceId in RemoteInstances(records, bus.self)
    {
    }
  }

  lemma SumOfNothing(reached: string -> nat)
    ensures SumOf({}, reached) == 0
  {
  }

  lemma OneMoreInstance(records: seq<Record>, last: Record, self: string)
    ensures RemoteInstances(records + [last], self)
         == RemoteInstances(records, self) + (if last.instanceId != self then {last.instanceId} else {})
  {
    var all := records + [last];
    assert forall i :: 0 <= i < |records| ==> all[i] == records[i];
    assert all[|records|] == last;
  }

  /** The local hub: how many sockets queue a user's payload, and the users whose call to it fails. */
  datatype Hub = Hub(queued: map<int, nat>, failing: set<int>)

  function Local(hub: Hub, u: int): nat {
    if u in hub.queued then hub.queued[u] else 0
  }

  /** What a publish that never reaches Redis returns. */
  function OnlyLocal(hub: Hub, u: int, e: RouteError): Routed {
    if u in hub.failing then Routed(0, {}, Some(HubFailed)) else Routed(Local(hub, u), {}, Some(e))
  }

  /** A failing hub ends the publish at once; otherwise the user is routed by these records. */
  ghost predicate PublishedTo(r: Routed, records: seq<Record>, bus: Bus, hub: Hub, u: int) {
    if u in hub.failing then r == Routed(0, {}, Some(HubFailed)) else RoutedTo(r, records, bus, Local(hub, u))
  }

  /** Publishing to one user with a fresh lookup. */
  method PublishDirect(presence: Presence, bus: Bus, hub: Hub, receiverId: int, reachable: bool) returns (r: Routed)
    modifies presence`members
    ensures receiverId > 0 && reachable ==> PublishedTo(r, RecordsAt(old(presence.View()), receiverId), bus, hub, receiverId)
    ensures receiverId <= 0 || !reachable ==> r == OnlyLocal(hub, receiverId, if receiverId <= 0 then InvalidUser else RedisDown)
    ensures forall u :: RecordsAt(presence.View(), u) == RecordsAt(old(presence.View()), u)
    ensures receiverId in hub.failing ==> r == Routed(0, {}, Some(HubFailed))
    ensures receiverId !in hub.failing && receiverId <= 0 ==> r.error == Some(InvalidUser) && r.channels == {}
    ensures receiverId !in hub.failing && receiverId > 0 && !reachable ==> r.error == Some(RedisDown) && r.channels == {}
    ensures receiverId !in hub.failing && (receiverId <= 0 || !reachable) ==>
      r.delivered == if receiverId in hub.queued then hub.queued[receiverId] else 0
    ensures receiverId !in hub.failing && receiverId > 0 && reachable ==>
      RoutedTo(r, RecordsAt(old(presence.View()), receiverId), bus, if receiverId in hub.queued then hub.queued[receiverId] else 0)
  {
    hide RecordsIn, RoutedTo;
    if receiverId in hub.failing {
      return Routed(0, {}, Some(HubFailed));
    }
    var delivered := Local(hub, receiverId);
    if receiverId <= 0 {
      return Routed(delivered, {}, Some(InvalidUser));
    }
    var lookup := presence.LookupUsers([receiverId], reachable);
    if lookup.Err? {
      return Routed(delivered, {}, Some(lookup.error));
    }
    assert receiverId in Elements([receiverId]);
    r := PublishRemote(lookup.value[receiverId], bus, delivered);
  }

  /** One immutable presence snapshot, for one batch. */
  datatype Batch = Batch(recordsByUser: map<int, seq<Record>>, lookupFailed: bool)

  method PublishPrepared(batch: Batch, bus: Bus, hub: Hub, receiverId: int) returns (r: Routed)
    ensures !batch.lookupFailed && receiverId in batch.recordsByUser ==>
      PublishedTo(r, batch.recordsByUser[receiverId], bus, hub, receiverId)
    ensures !batch.lookupFailed && receiverId !in batch.recordsByUser ==> r == OnlyLocal(hub, receiverId, NotPrepared)
    ensures batch.lookupFailed ==> r == OnlyLocal(hub, receiverId, RedisDown)
    ensures receiverId in hub.failing ==> r == Routed(0, {}, Some(HubFailed))
    ensures receiverId !in hub.failing && (batch.lookupFailed || receiverId !in batch.recordsByUser) ==>
      && r.error == Some(if batch.lookupFailed then RedisDown else NotPrepared) && r.channels == {}
      && r.delivered == if receiverId in hub.queued then hub.queued[receiverId] else 0
    ensures receiverId !in hub.failing && !batch.lookupFailed && receiverId in batch.recordsByUser ==>
      RoutedTo(r, batch.recordsByUser[receiverId], bus, if receiverId in hub.queued then hub.queued[receiverId] else 0)
  {
    if receiverId in hub.failing {
      return Routed(0, {}, Some(HubFailed));
    }
    var delivered := Local(hub, receiverId);
    if batch.lookupFailed {
      return Routed(delivered, {}, Some(RedisDown));
    }
    if receiverId !in batch.recordsByUser {
      return Routed(delivered, {}, Some(NotPrepared));
    }
    r := PublishRemote(batch.recordsByUser[receiverId], bus, delivered);
  }

  /** The user is a recipient of one of the events that decode. */
  ghost predicate Addressed(events: seq<Event>, u: int) {
    exists i :: 0 <= i < |events| && IsRecipient(events[i], u)
  }

  predicate IsRecipient(e: Event, u: int) {
    e.eventType == MessageCreated && Acceptable(e) && u in UserIds(e.payload.value.recipients)
  }

  lemma RecipientsArePositive(e: Event, u: int)
    requires IsRecipient(e, u)
    ensures u > 0
  {
    assert u in Elements(UserIds(e.payload.value.recipients));
  }

  method CollectRecipients(events: seq<Event>) returns (userIds: seq<int>)
    ensures forall u :: u in userIds <==> Addressed(events, u)
    ensures Distinct(userIds)
  {
    hide Acceptable;
    userIds := [];
    var seen: set<int> := {};
    var i := 0;
    while i < |events|
      invariant 0 <= i <= |events|
      invariant seen == Elements(userIds) && Distinct(userIds)
      invariant forall u :: u in userIds <==> exists k :: 0 <= k < i && IsRecipient(events[k], u)
    {
      if events[i].eventType == MessageCreated {
        var payload := DecodeMessageCreatedEvent(events[i]);
        if payload.Ok? {
          ghost var before := userIds;
          ghost var ids := UserIds(payload.value.recipients);
          var k := 0;
          while k < |payload.value.recipients|
            invariant 0 <= k <= |payload.value.recipients|
            invariant seen == Elements(userIds) && Distinct(userIds)
            invariant forall u :: u in userIds <==> u in before || u in ids[..k]
          {
            var userId := payload.value.recipients[k].userId;
            assert ids[..k + 1] == ids[..k] + [userId];
            if userId !in seen {
              seen := seen + {userId};
              userIds := userIds + [userId];
            }
            k := k + 1;
          }
          assert ids[..k] == ids;
          assert forall u :: u in ids <==> IsRecipient(events[i], u);
        }
      }
      i := i + 1;
    }
  }

  /** The snapshot of a batch covers exactly the recipients of its well-formed events. */
  method PreparePublishBatch(presence: Presence, events: seq<Event>, reachable: bool) returns (batch: Batch)
    modifies presence`members
    ensures !batch.lookupFailed ==> forall u :: u in batch.recordsByUser <==> Addressed(events, u)
    ensures forall u :: u in batch.recordsByUser ==> batch.recordsByUser[u] == RecordsAt(old(presence.View()), u)
    ensures batch.lookupFailed <==> !reachable && exists u :: Addressed(events, u)
    ensures forall u :: RecordsAt(presence.View(), u) == RecordsAt(old(presence.View()), u)
  {
    hide RecordsIn, Acceptable, IsRecipient, RecordsAt;
    var userIds := CollectRecipients(events);
    forall u | u in userIds ensures u > 0 {
      var i :| 0 <= i < |events| && IsRecipient(events[i], u);
      RecipientsArePositive(events[i], u);
    }
    assert userIds != [] ==> userIds[0] in userIds && Addressed(events, userIds[0]);
    assert (exists u :: Addressed(events, u)) ==> userIds != [];
    var lookup := presence.LookupUsers(userIds, reachable);
    batch := if lookup.Ok? then Batch(lookup.value, false) else Batch(map[], true);
    assert forall u :: u in Elements(userIds) <==> u in userIds;
  }

  /** The user's hub call succeeds and no instance that holds one of the records refuses the command. */
  predicate Routable(batch: Batch, bus: Bus, hub: Hub, u: int) {
    u !in hub.failing && u in batch.recordsByUser && RemoteInstances(batch.recordsByUser[u], bus.self) !! bus.down
  }

  lemma RoutableExactly(r: Routed, batch: Batch, bus: Bus, hub: Hub, u: int)
    requires u in batch.recordsByUser && PublishedTo(r, batch.recordsByUser[u], bus, hub, u)
    ensures r.error == if u in hub.failing then Some(HubFailed)
                       else if Routable(batch, bus, hub, u) then None else Some(PublishFailed)
  {
  }

  datatype PublishResult = Published(routes: seq<Routed>) | Permanent | Retry(error: RouteError)

  /**
   * Publishing an event of a prepared batch: a malformed event fails for good, and no recipient is ever missing
   * from the snapshot; each is routed by the records found when the batch was prepared.
   */
  method PublishEvent(batch: Batch, bus: Bus, hub: Hub, ghost events: seq<Event>, event: Event)
    returns (r: PublishResult)
    requires event in events
    requires !batch.lookupFailed ==> forall u :: u in batch.recordsByUser <==> Addressed(events, u)
    ensures r.Permanent? <==> event.eventType != MessageCreated || !Acceptable(event)
    ensures r.Retry? ==> r.error == HubFailed || r.error == if batch.lookupFailed then RedisDown else PublishFailed
    ensures r == Retry(HubFailed) ==> exists k :: 0 <= k < |event.payload.value.recipients|
                                          && event.payload.value.recipients[k].userId in hub.failing
    ensures !r.Permanent? && !batch.lookupFailed ==>
      (r.Published? <==> forall k :: 0 <= k < |event.payload.value.recipients| ==>
                           Routable(batch, bus, hub, event.payload.value.recipients[k].userId))
    ensures r.Published? ==> !batch.lookupFailed && var recipients := event.payload.value.recipients;
            |r.routes| == |recipients|
            && forall i :: 0 <= i < |recipients| ==>
                 recipients[i].userId in batch.recordsByUser && r.routes[i].error.None?
                 && PublishedTo(r.routes[i], batch.recordsByUser[recipients[i].userId], bus, hub, recipients[i].userId)
  {
    hide PublishedTo, Acceptable, Routable;
    if event.eventType != MessageCreated {
      return Permanent;
    }
    var payload := DecodeMessageCreatedEvent(event);
    if payload.Err? {
      return Permanent;
    }
    var recipients := payload.value.recipients;
    AcceptableHasRecipients(event);
    var routes: seq<Routed> := [];
    var i := 0;
    while i < |recipients|
      invariant 0 <= i <= |recipients| && |routes| == i
      invariant i > 0 ==> !batch.lookupFailed
      invariant forall k :: 0 <= k < i ==>
        recipients[k].userId in batch.recordsByUser && routes[k].error.None?
        && PublishedTo(routes[k], batch.recordsByUser[recipients[k].userId], bus, hub, recipients[k].userId)
      invariant forall k :: 0 <= k < i ==> Routable(batch, bus, hub, recipients[k].userId)
    {
      var userId := recipients[i].userId;
      assert UserIds(recipients)[i] == userId && IsRecipient(event, userId);
      assert Addressed(events, userId);
      var route := PublishPrepared(batch, bus, hub, userId);
      if !batch.lookupFailed {
        RoutableExactly(route, batch, bus, hub, userId);
        FailingIsNotRoutable(batch, bus, hub, userId);
      }
      if route.error.Some? {
        HubFailureHasReason(route, batch, bus, hub, userId);
        return Retry(route.error.value);
      }
      routes := routes + [route];
      i := i + 1;
    }
    r := Published(routes);
  }

  lemma HubFailureHasReason(r: Routed, batch: Batch, bus: Bus, hub: Hub, u: int)
    requires r.error == Some(HubFailed)
             ==> (u in batch.recordsByUser && PublishedTo(r, batch.recordsByUser[u], bus, hub, u)) || r == OnlyLocal(hub, u, RedisDown)
    ensures r.error == Some(HubFailed) ==> u in hub.failing
  {
  }

  lemma FailingIsNotRoutable(batch: Batch, bus: Bus, hub: Hub, u: int)
    ensures u in hub.failing ==> !Routable(batch, bus, hub, u)
  {
  }

  lemma AcceptableHasRecipients(e: Event)
    requires Acceptable(e)
    ensures e.payload.value.recipients != []
  {
    NoRecipients(e.payload.value.recipients, e.payload.value.message.senderId);
  }

  // ---------------------------------------------------------------- batch against direct routing

  /** Two publishes by the same records agree on failure, and on success in what was reached and where. */
  lemma SameRecordsSameRoute(a: Routed, b: Routed, records: seq<Record>, bus: Bus, hub: Hub, u: int)
    requires PublishedTo(a, records, bus, hub, u) && PublishedTo(b, records, bus, hub, u)
    ensures a.error == b.error
    ensures a.error.None? ==> a == b
  {
    hide RemoteInstances, SumOf;
    if u !in hub.failing {
      if RemoteInstances(records, bus.self) !! bus.down {
        assert a.channels == b.channels;
      } else {
        assert a.error == Some(PublishFailed) == b.error;
      }
    }
  }

  /**
   * One user published to both ways while presence is unchanged: through a batch prepared for `events`, and
   * directly. For a user whom the batch addresses the two agree on failure and, on success, on the channels and the
   * count, and they are equal when Redis cannot be reached. A user nobody addresses is refused by the batch alone.
   */
  method RouteBothWays(presence: Presence, bus: Bus, hub: Hub, events: seq<Event>, u: int, reachable: bool)
    returns (batched: Routed, direct: Routed)
    modifies presence`members
    ensures Addressed(events, u) ==> batched.error == direct.error
    ensures Addressed(events, u) && (!reachable || direct.error.None?) ==> batched == direct
    ensures u > 0 && reachable ==> PublishedTo(direct, RecordsAt(old(presence.View()), u), bus, hub, u)
    ensures !Addressed(events, u) ==>
      batched == OnlyLocal(hub, u, if !reachable && (exists v :: Addressed(events, v)) then RedisDown else NotPrepared)
    ensures forall v :: RecordsAt(presence.View(), v) == RecordsAt(old(presence.View()), v)
  {
    hide RecordsAt, PublishedTo, IsRecipient;
    var batch := PreparePublishBatch(presence, events, reachable);
    batched := PublishPrepared(batch, bus, hub, u);
    direct := PublishDirect(presence, bus, hub, u, reachable);
    if Addressed(events, u) {
      var i :| 0 <= i < |events| && IsRecipient(events[i], u);
      RecipientsArePositive(events[i], u);
      if reachable {
        SameRecordsSameRoute(batched, direct, batch.recordsByUser[u], bus, hub, u);
      }
    }
  }
}
