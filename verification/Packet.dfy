/**
 * The packet experiment: an amount split into shares, claimed under a row lock, delivered from an outbox by two
 * separate statements that may be repeated and interrupted.
 */
module Packet {
  import opened Common

  type Key = (string, string)

  datatype Slot = Slot(amount: int, claimedBy: Option<string>)
  datatype Credit = Credit(slot: nat, amount: int)
  datatype Receipt = Receipt(packet: string, user: string, slot: nat, amount: int)

  /** The committed tables. */
  datatype Tables = Tables(
    totals: map<string, int>,
    slots: map<string, seq<Slot>>,
    credits: map<Key, Credit>,
    outbox: set<Key>,
    received: map<Key, int>)

  // ---------------------------------------------------------------- splitting the amount

  predicate ValidAllocation(id: string, total: int, shares: int) {
    id != "" && 1 <= shares <= 10000 && total >= shares
  }

  function Share(total: int, shares: int, n: int): int
    requires shares >= 1
  {
    total / shares + (if n < total % shares then 1 else 0)
  }

  /** The rows that the series of slot numbers produces. */
  function NewSlots(total: int, shares: int): seq<Slot>
    requires shares >= 1
  {
    seq(shares, n requires 0 <= n < shares => Slot(Share(total, shares, n), None))
  }

  function Sum(slots: seq<Slot>): int
    decreases |slots|
  {
    if slots == [] then 0 else Sum(slots[..|slots| - 1]) + slots[|slots| - 1].amount
  }

  lemma {:induction false} SumOfFirstShares(total: int, shares: int, k: nat)
    requires shares >= 1 && k <= shares
    ensures Sum(NewSlots(total, shares)[..k]) == k * (total / shares) + Min(k, total % shares)
  {
    var slots := NewSlots(total, shares);
    if k > 0 {
      SumOfFirstShares(total, shares, k - 1);
      assert slots[..k][..k - 1] == slots[..k - 1];
      assert slots[..k][k - 1].amount == Share(total, shares, k - 1);
      assert k * (total / shares) == (k - 1) * (total / shares) + total / shares;
    }
  }

  /** The shares add up to the total, none is empty, and no two differ by more than one. */
  lemma SharesAreFair(id: string, total: int, shares: int)
    requires ValidAllocation(id, total, shares)
    ensures Sum(NewSlots(total, shares)) == total
    ensures forall n :: 0 <= n < shares ==> NewSlots(total, shares)[n].amount >= 1
    ensures forall m, n :: 0 <= m < n < shares ==>
      0 <= NewSlots(total, shares)[m].amount - NewSlots(total, shares)[n].amount <= 1
  {
    SumOfFirstShares(total, shares, shares);
    assert NewSlots(total, shares)[..shares] == NewSlots(total, shares);
    QuotientIsPositive(total, shares);
  }

  lemma QuotientIsPositive(total: int, shares: int)
    requires total >= shares >= 1
    ensures total / shares >= 1
    ensures shares * (total / shares) + total % shares == total
  {
  }

  // ---------------------------------------------------------------- claims and deliveries as transactions

  datatype ClaimPhase = Waiting | Locked | Taken(slot: nat)
  datatype Claim = Claim(packet: string, user: string, phase: ClaimPhase)

  /** `ready` says whether the credit was committed when the first statement ran. */
  datatype DeliverPhase = Insert | Delete(ready: bool)
  datatype Deliver = Deliver(packet: string, user: string, phase: DeliverPhase)

  /** `receipts` are the receipts ever returned. */
  datatype World = World(
    db: Tables,
    claims: map<int, Claim>,
    deliveries: map<int, Deliver>,
    receipts: set<Receipt>)

  datatype Step =
    | Create(packet: string, total: int, shares: int)
    | BeginClaim(tx: int, packet: string, user: string)
    | LockPacket(tx: int)
    | ReturnReceipt(tx: int)
    | TakeSlot(tx: int)
    | Exhausted(tx: int)
    | CommitClaim(tx: int)
    | AbortClaim(tx: int)
    | BeginDeliver(call: int, packet: string, user: string)
    | InsertReceived(call: int)
    | DeleteIntent(call: int)
    | StopDeliver(call: int)

  predicate ValidUser(user: string) {
    1 <= |user| <= 128
  }

  predicate Holds(w: World, tx: int, packet: string) {
    tx in w.claims && w.claims[tx].packet == packet && !w.claims[tx].phase.Waiting?
  }

  /** The lowest unclaimed slot, or the number of slots when all are taken. */
  function FirstFree(slots: seq<Slot>): (n: nat)
    ensures n <= |slots| && (n < |slots| ==> slots[n].claimedBy.None?)
    ensures forall i :: 0 <= i < n ==> slots[i].claimedBy.Some?
    decreases |slots|
  {
    if slots == [] || slots[0].claimedBy.None? then 0 else
      var n := FirstFree(slots[1..]);
      assert forall i :: 0 < i < n + 1 ==> slots[i] == slots[1..][i - 1];
      n + 1
  }

  predicate InPhase(w: World, tx: int, p: ClaimPhase) {
    tx in w.claims && w.claims[tx].phase == p && w.claims[tx].packet in w.db.slots
  }

  function KeyOf(w: World, tx: int): Key
    requires tx in w.claims
  {
    (w.claims[tx].packet, w.claims[tx].user)
  }

  function FreeSlot(w: World, tx: int): nat
    requires tx in w.claims && w.claims[tx].packet in w.db.slots
  {
    FirstFree(w.db.slots[w.claims[tx].packet])
  }

  predicate SlotLeft(w: World, tx: int)
    requires tx in w.claims && w.claims[tx].packet in w.db.slots
  {
    FreeSlot(w, tx) < |w.db.slots[w.claims[tx].packet]|
  }

  predicate TakenSlotExists(w: World, tx: int) {
    && tx in w.claims && w.claims[tx].phase.Taken? && w.claims[tx].packet in w.db.slots
    && w.claims[tx].phase.slot < |w.db.slots[w.claims[tx].packet]|
  }

  ghost predicate Enabled(w: World, s: Step) {
    match s
    case Create(id, total, shares) => ValidAllocation(id, total, shares) && id !in w.db.totals
    case BeginClaim(t, _, u) => t !in w.claims && ValidUser(u)
    case LockPacket(t) => t in w.claims && w.claims[t].phase == Waiting && w.claims[t].packet in w.db.totals
                          && forall o: int :: !Holds(w, o, w.claims[t].packet)
    case ReturnReceipt(t) => InPhase(w, t, Locked) && KeyOf(w, t) in w.db.credits
    case TakeSlot(t) => InPhase(w, t, Locked) && KeyOf(w, t) !in w.db.credits && SlotLeft(w, t)
    case Exhausted(t) => InPhase(w, t, Locked) && KeyOf(w, t) !in w.db.credits && !SlotLeft(w, t)
    case CommitClaim(t) => TakenSlotExists(w, t)
    case AbortClaim(t) => t in w.claims
    case BeginDeliver(d, _, _) => d !in w.deliveries
    case InsertReceived(d) => d in w.deliveries && w.deliveries[d].phase == Insert
    case DeleteIntent(d) => d in w.deliveries && w.deliveries[d].phase.Delete?
    case StopDeliver(d) => d in w.deliveries
  }

  /** What a claim publishes: the slot is taken, the credit exists, and so does the intent to deliver it. */
  function Claimed(db: Tables, packet: string, user: string, slot: nat): Tables
    requires packet in db.slots && slot < |db.slots[packet]|
  {
    var amount := db.slots[packet][slot].amount;
    db.(slots := db.slots[packet := db.slots[packet][slot := Slot(amount, Some(user))]],
        credits := db.credits[(packet, user) := Credit(slot, amount)],
        outbox := db.outbox + {(packet, user)})
  }

  /** INSERT ... SELECT from the credit joined with its intent, doing nothing on conflict. */
  function Received(db: Tables, key: Key): Tables {
    if key in db.outbox && key in db.credits && key !in db.received then
      db.(received := db.received[key := db.credits[key].amount])
    else db
  }

  ghost function Apply(w: World, s: Step): World
    requires Enabled(w, s)
  {
    match s
    case Create(id, total, shares) =>
      w.(db := w.db.(totals := w.db.totals[id := total], slots := w.db.slots[id := NewSlots(total, shares)]))
    case BeginClaim(t, p, u) => w.(claims := w.claims[t := Claim(p, u, Waiting)])
    case LockPacket(t) => w.(claims := w.claims[t := w.claims[t].(phase := Locked)])
    case ReturnReceipt(t) =>
      var c := w.db.credits[KeyOf(w, t)];
      w.(claims := w.claims - {t},
         receipts := w.receipts + {Receipt(w.claims[t].packet, w.claims[t].user, c.slot, c.amount)})
    case TakeSlot(t) => w.(claims := w.claims[t := w.claims[t].(phase := Taken(FreeSlot(w, t)))])
    case Exhausted(t) => w.(claims := w.claims - {t})
    case CommitClaim(t) =>
      var c, slot := w.claims[t], w.claims[t].phase.slot;
      w.(db := Claimed(w.db, c.packet, c.user, slot),
         claims := w.claims - {t},
         receipts := w.receipts + {Receipt(c.packet, c.user, slot, w.db.slots[c.packet][slot].amount)})
    case AbortClaim(t) => w.(claims := w.claims - {t})
    case BeginDeliver(d, p, u) => w.(deliveries := w.deliveries[d := Deliver(p, u, Insert)])
    case InsertReceived(d) =>
      var key := (w.deliveries[d].packet, w.deliveries[d].user);
      w.(db := Received(w.db, key),
         deliveries := w.deliveries[d := w.deliveries[d].(phase := Delete(key in w.db.credits))])
    case DeleteIntent(d) =>
      w.(db := w.db.(outbox := w.db.outbox - {(w.deliveries[d].packet, w.deliveries[d].user)}),
         deliveries := w.deliveries - {d})
    case StopDeliver(d) => w.(deliveries := w.deliveries - {d})
  }

  predicate Initial(w: World) {
    w == World(Tables(map[], map[], map[], {}, map[]), map[], map[], {})
  }

  ghost predicate Next(w: World, s: Step, w': World) {
    Enabled(w, s) && w' == Apply(w, s)
  }

  ghost predicate IsRun(ws: seq<World>, steps: seq<Step>) {
    |ws| == |steps| + 1 && Initial(ws[0]) && forall i :: 0 <= i < |steps| ==> Next(ws[i], steps[i], ws[i + 1])
  }

  // ---------------------------------------------------------------- invariant

  /** The claimed slots of a packet are its first ones. */
  ghost predicate ClaimedFirst(slots: seq<Slot>) {
    forall i, j :: 0 <= i < j < |slots| && slots[j].claimedBy.Some? ==> slots[i].claimedBy.Some?
  }

  ghost predicate SlotsSound(db: Tables) {
    && db.totals.Keys == db.slots.Keys
    && forall p :: p in db.slots ==> ClaimedFirst(db.slots[p]) && Sum(db.slots[p]) == db.totals[p]
  }

  /** Slots and credits correspond one to one. */
  ghost predicate CreditsSound(db: Tables) {
    && (forall k :: k in db.credits ==>
          k.0 in db.slots && db.credits[k].slot < |db.slots[k.0]|
          && db.slots[k.0][db.credits[k].slot] == Slot(db.credits[k].amount, Some(k.1)))
    && (forall p, i :: p in db.slots && 0 <= i < |db.slots[p]| && db.slots[p][i].claimedBy.Some? ==>
          (p, db.slots[p][i].claimedBy.value) in db.credits
          && db.credits[(p, db.slots[p][i].claimedBy.value)] == Credit(i, db.slots[p][i].amount))
  }

  /** One claim at a time holds a packet, and one that took a slot took the first free one for a new user. */
  ghost predicate ClaimsSound(w: World) {
    && (forall t, o: int :: t in w.claims && !w.claims[t].phase.Waiting? && Holds(w, o, w.claims[t].packet) ==> t == o)
    && (forall t :: t in w.claims && !w.claims[t].phase.Waiting? ==> w.claims[t].packet in w.db.slots)
    && (forall t :: t in w.claims && w.claims[t].phase.Taken? ==>
          w.claims[t].packet in w.db.slots && w.claims[t].phase.slot == FreeSlot(w, t) && SlotLeft(w, t)
          && KeyOf(w, t) !in w.db.credits)
  }

  ghost predicate ReceiptsSound(w: World) {
    forall r :: r in w.receipts ==>
      (r.packet, r.user) in w.db.credits && w.db.credits[(r.packet, r.user)] == Credit(r.slot, r.amount)
  }

  ghost predicate DeliveriesSound(db: Tables) {
    && (forall k :: k in db.outbox ==> k in db.credits)
    && (forall k :: k in db.received ==> k in db.credits && db.received[k] == db.credits[k].amount)
  }

  ghost predicate Inv(w: World) {
    SlotsSound(w.db) && CreditsSound(w.db) && ClaimsSound(w) && ReceiptsSound(w) && DeliveriesSound(w.db)
  }

  lemma {:induction false} SumIgnoresClaims(slots: seq<Slot>, slots': seq<Slot>)
    requires |slots| == |slots'| && forall i :: 0 <= i < |slots| ==> slots[i].amount == slots'[i].amount
    ensures Sum(slots) == Sum(slots')
    decreases |slots|
  {
    if slots != [] {
      var n := |slots| - 1;
      assert forall i :: 0 <= i < n ==> slots[..n][i] == slots[i] && slots'[..n][i] == slots'[i];
      SumIgnoresClaims(slots[..n], slots'[..n]);
    }
  }

  lemma ClaimedKeepsTables(db: Tables, p: string, u: string, slot: nat)
    requires SlotsSound(db) && CreditsSound(db) && DeliveriesSound(db)
    requires p in db.slots && slot == FirstFree(db.slots[p]) < |db.slots[p]| && (p, u) !in db.credits
    ensures var db' := Claimed(db, p, u, slot); SlotsSound(db') && CreditsSound(db') && DeliveriesSound(db')
  {
    hide SlotsSound, CreditsSound, DeliveriesSound, FirstFree;
    ClaimedKeepsSlots(db, p, u, slot);
    ClaimedKeepsCredits(db, p, u, slot);
    ClaimedKeepsDeliveries(db, p, u, slot);
  }

  lemma ClaimedKeepsDeliveries(db: Tables, p: string, u: string, slot: nat)
    requires DeliveriesSound(db) && p in db.slots && slot < |db.slots[p]| && (p, u) !in db.credits
    ensures DeliveriesSound(Claimed(db, p, u, slot))
  {
    assert (p, u) !in db.received;
  }

  lemma ClaimedKeepsSlots(db: Tables, p: string, u: string, slot: nat)
    requires SlotsSound(db) && p in db.slots && slot == FirstFree(db.slots[p]) < |db.slots[p]|
    ensures SlotsSound(Claimed(db, p, u, slot))
  {
    var slots, slots' := db.slots[p], Claimed(db, p, u, slot).slots[p];
    assert ClaimedFirst(slots);
    SumIgnoresClaims(slots, slots');
    assert Claimed(db, p, u, slot).slots.Keys == db.slots.Keys;
  }

  lemma ClaimedKeepsCredits(db: Tables, p: string, u: string, slot: nat)
    requires CreditsSound(db) && p in db.slots && slot == FirstFree(db.slots[p]) < |db.slots[p]| && (p, u) !in db.credits
    ensures CreditsSound(Claimed(db, p, u, slot))
  {
    hide FirstFree;
    var db' := Claimed(db, p, u, slot);
    assert forall i :: 0 <= i < |db.slots[p]| && i != slot ==> db'.slots[p][i] == db.slots[p][i];
  }

  lemma CreateKeepsTables(db: Tables, id: string, total: int, shares: int)
    requires SlotsSound(db) && CreditsSound(db) && DeliveriesSound(db)
    requires ValidAllocation(id, total, shares) && id !in db.totals
    ensures var db' := db.(totals := db.totals[id := total], slots := db.slots[id := NewSlots(total, shares)]);
            SlotsSound(db') && CreditsSound(db') && DeliveriesSound(db')
  {
    SharesAreFair(id, total, shares);
  }

  lemma ClaimStepKeepsInv(w: World, s: Step)
    requires Inv(w) && Enabled(w, s)
    requires s.BeginClaim? || s.LockPacket? || s.TakeSlot? || s.Exhausted? || s.AbortClaim? || s.ReturnReceipt?
    ensures Inv(Apply(w, s))
  {
    hide SlotsSound, CreditsSound, DeliveriesSound, ClaimsSound;
    SameKeys(w.db);
    ClaimStepKeepsClaims(w, s);
  }

  lemma ClaimStepKeepsClaims(w: World, s: Step)
    requires ClaimsSound(w) && w.db.totals.Keys == w.db.slots.Keys && Enabled(w, s)
    requires s.BeginClaim? || s.LockPacket? || s.TakeSlot? || s.Exhausted? || s.AbortClaim? || s.ReturnReceipt?
    ensures ClaimsSound(Apply(w, s))
  {
    if s.Exhausted? || s.AbortClaim? || s.ReturnReceipt? {
      hide ClaimsSound;
      EndedKeepsClaims(w, s.tx, Apply(w, s));
    } else {
      OpenKeepsClaims(w, s);
    }
  }

  lemma EndedKeepsClaims(w: World, t: int, w': World)
    requires ClaimsSound(w) && w'.claims == w.claims - {t} && w'.db == w.db
    ensures ClaimsSound(w')
  {
    hide FirstFree;
    forall o: int, p: string | Holds(w', o, p) ensures Holds(w, o, p) {
    }
  }

  lemma OpenKeepsClaims(w: World, s: Step)
    requires ClaimsSound(w) && w.db.totals.Keys == w.db.slots.Keys && Enabled(w, s)
    requires s.BeginClaim? || s.LockPacket? || s.TakeSlot?
    ensures ClaimsSound(Apply(w, s))
  {
    hide FirstFree;
    var w' := Apply(w, s);
    forall t: int, p: string | Holds(w', t, p) ensures Holds(w, t, p) || (s == LockPacket(t) && w.claims[t].packet == p) {
    }
    forall t: int | t in w.claims && !w.claims[t].phase.Waiting? ensures Holds(w, t, w.claims[t].packet) {
    }
  }

  lemma SameKeys(db: Tables)
    requires SlotsSound(db)
    ensures db.totals.Keys == db.slots.Keys
  {
  }

  lemma CommitKeepsInv(w: World, t: int)
    requires Inv(w) && Enabled(w, CommitClaim(t))
    ensures Inv(Apply(w, CommitClaim(t)))
  {
    hide FirstFree, SlotsSound, CreditsSound, DeliveriesSound, ClaimedFirst;
    var w', c := Apply(w, CommitClaim(t)), w.claims[t];
    ClaimedKeepsTables(w.db, c.packet, c.user, c.phase.slot);
    assert Holds(w, t, c.packet);
    forall o: int | o in w'.claims && !w'.claims[o].phase.Waiting? ensures w.claims[o].packet != c.packet {
      assert o in w.claims && o != t && w'.claims[o] == w.claims[o];
    }
    forall o: int, p: string | Holds(w', o, p) ensures Holds(w, o, p) {
    }
  }

  lemma CreateKeepsInv(w: World, id: string, total: int, shares: int)
    requires Inv(w) && Enabled(w, Create(id, total, shares))
    ensures Inv(Apply(w, Create(id, total, shares)))
  {
    hide FirstFree, SlotsSound, CreditsSound, DeliveriesSound, ClaimedFirst;
    SameKeys(w.db);
    CreateKeepsTables(w.db, id, total, shares);
    var w' := Apply(w, Create(id, total, shares));
    forall o: int, p: string | Holds(w', o, p) ensures Holds(w, o, p) {
    }
  }

  /** Deliveries leave slots, credits, claims and receipts alone, remove intents and add received credits. */
  lemma DeliverFrame(w: World, s: Step)
    requires Enabled(w, s) && (s.BeginDeliver? || s.InsertReceived? || s.DeleteIntent? || s.StopDeliver?)
    ensures var w' := Apply(w, s);
            && w'.claims == w.claims && w'.receipts == w.receipts
            && w'.db.slots == w.db.slots && w'.db.totals == w.db.totals && w'.db.credits == w.db.credits
            && w'.db.outbox <= w.db.outbox
            && (forall k :: k in w'.db.received ==>
                  if k in w.db.received then w'.db.received[k] == w.db.received[k]
                  else k in w.db.credits && w'.db.received[k] == w.db.credits[k].amount)
  {
  }

  lemma SameSlotsKeepSound(w: World, w': World)
    requires SlotsSound(w.db) && CreditsSound(w.db) && ClaimsSound(w)
    requires w'.claims == w.claims && w'.db.slots == w.db.slots && w'.db.totals == w.db.totals && w'.db.credits == w.db.credits
    ensures SlotsSound(w'.db) && CreditsSound(w'.db) && ClaimsSound(w')
  {
    hide FirstFree, ClaimedFirst;
    forall o: int, p: string ensures Holds(w', o, p) <==> Holds(w, o, p) {
    }
  }

  lemma DeliverStepKeepsInv(w: World, s: Step)
    requires Inv(w) && Enabled(w, s)
    requires s.BeginDeliver? || s.InsertReceived? || s.DeleteIntent? || s.StopDeliver?
    ensures Inv(Apply(w, s))
  {
    hide SlotsSound, CreditsSound, ClaimsSound, Apply;
    DeliverFrame(w, s);
    hide Enabled;
    SameSlotsKeepSound(w, Apply(w, s));
  }

  lemma StepKeepsInv(w: World, s: Step)
    requires Inv(w) && Enabled(w, s)
    ensures Inv(Apply(w, s))
  {
    hide Inv;
    match s
    case Create(id, total, shares) => CreateKeepsInv(w, id, total, shares);
    case CommitClaim(t) => CommitKeepsInv(w, t);
    case BeginDeliver(_, _, _) => DeliverStepKeepsInv(w, s);
    case InsertReceived(_) => DeliverStepKeepsInv(w, s);
    case DeleteIntent(_) => DeliverStepKeepsInv(w, s);
    case StopDeliver(_) => DeliverStepKeepsInv(w, s);
    case _ => ClaimStepKeepsInv(w, s);
  }

  lemma {:induction false} RunKeepsInv(ws: seq<World>, steps: seq<Step>)
    requires IsRun(ws, steps)
    ensures forall i :: 0 <= i < |ws| ==> Inv(ws[i])
    decreases |steps|
  {
    hide Enabled, Apply, Inv;
    var n := |steps|;
    if n == 0 {
      InitialInv(ws[0]);
    } else {
      RunKeepsInv(ws[..n], steps[..n - 1]);
      assert ws[..n][n - 1] == ws[n - 1];
      assert Next(ws[n - 1], steps[n - 1], ws[n]);
      StepKeepsInv(ws[n - 1], steps[n - 1]);
      forall i | 0 <= i < |ws| ensures Inv(ws[i]) {
        if i < n {
          assert ws[i] == ws[..n][i];
        }
      }
    }
  }

  lemma InitialInv(w: World)
    requires Initial(w)
    ensures Inv(w)
  {
  }

  // ---------------------------------------------------------------- theorems about claims

  /**
   * In every run, the claimed slots of a packet are a prefix, slots and credits correspond one to one, and the
   * amounts still add up to the packet's total.
   */
  lemma ClaimsAreAPrefix(ws: seq<World>, steps: seq<Step>, i: nat, p: string)
    requires IsRun(ws, steps) && i < |ws| && p in ws[i].db.slots
    ensures CreditsSound(ws[i].db) && p in ws[i].db.totals
    ensures var slots := ws[i].db.slots[p];
            && (forall k :: 0 <= k < |slots| ==> (slots[k].claimedBy.Some? <==> k < FirstFree(slots)))
            && (forall k, l :: 0 <= k < l < |slots| && slots[l].claimedBy.Some? ==> slots[k].claimedBy != slots[l].claimedBy)
            && Sum(slots) == ws[i].db.totals[p]
  {
    RunKeepsInv(ws, steps);
    assert Inv(ws[i]);
    var db, slots := ws[i].db, ws[i].db.slots[p];
    assert ClaimedFirst(slots);
    forall k, l | 0 <= k < l < |slots| && slots[l].claimedBy.Some? ensures slots[k].claimedBy != slots[l].claimedBy {
      assert slots[k].claimedBy.Some?;
      assert db.credits[(p, slots[k].claimedBy.value)] == Credit(k, slots[k].amount);
      assert db.credits[(p, slots[l].claimedBy.value)] == Credit(l, slots[l].amount);
    }
  }

  /** Every receipt ever given to a user for a packet is the same, and no two users hold receipts for one slot. */
  lemma ReceiptsNeverDiffer(ws: seq<World>, steps: seq<Step>, r: Receipt, r': Receipt)
    requires IsRun(ws, steps) && r in ws[|steps|].receipts && r' in ws[|steps|].receipts && r.packet == r'.packet
    ensures r.user == r'.user <==> r.slot == r'.slot
    ensures r.user == r'.user ==> r == r'
  {
    hide SlotsSound, ClaimsSound, DeliveriesSound;
    RunKeepsInv(ws, steps);
    assert Inv(ws[|steps|]);
  }

  /** A claimer without a credit is told that the packet is exhausted exactly when every slot is taken. */
  lemma ExhaustedExactlyWhenFull(ws: seq<World>, steps: seq<Step>, i: nat, t: int)
    requires IsRun(ws, steps) && i < |ws| && InPhase(ws[i], t, Locked)
    ensures var w := ws[i];
            var slots := w.db.slots[w.claims[t].packet];
            && (Enabled(w, Exhausted(t)) <==>
                  forall k :: 0 <= k < |slots| ==> slots[k].claimedBy.Some? && slots[k].claimedBy != Some(w.claims[t].user))
            && (Enabled(w, ReturnReceipt(t)) <==> exists k :: 0 <= k < |slots| && slots[k].claimedBy == Some(w.claims[t].user))
  {
    hide SlotsSound, ClaimsSound, DeliveriesSound, ReceiptsSound;
    RunKeepsInv(ws, steps);
    assert Inv(ws[i]);
    var w := ws[i];
    var slots := w.db.slots[w.claims[t].packet];
    if KeyOf(w, t) in w.db.credits {
      assert slots[w.db.credits[KeyOf(w, t)].slot].claimedBy == Some(w.claims[t].user);
    }
  }

  // ---------------------------------------------------------------- theorems about delivery

  /** No credit is lost: it is still to be delivered or has been. */
  ghost predicate Conserved(db: Tables) {
    forall k :: k in db.credits ==> k in db.outbox || k in db.received
  }

  /** A call whose first statement came before the claim's commit deletes an intent that nobody has delivered. */
  predicate LosesCredit(w: World, s: Step) {
    s.DeleteIntent? && s.call in w.deliveries && w.deliveries[s.call].phase == Delete(false)
    && var key := (w.deliveries[s.call].packet, w.deliveries[s.call].user);
       key in w.db.outbox && key !in w.db.received
  }

  /** A call that saw the credit committed has had it received before it deletes the intent. */
  ghost predicate ReadyCallsDelivered(w: World) {
    Conserved(w.db) ==>
      forall d :: d in w.deliveries && w.deliveries[d].phase == Delete(true) ==>
        (w.deliveries[d].packet, w.deliveries[d].user) in w.db.received
  }

  lemma StepLosesOnlySo(w: World, s: Step)
    requires Inv(w) && ReadyCallsDelivered(w) && Enabled(w, s)
    ensures ReadyCallsDelivered(Apply(w, s))
    ensures Conserved(Apply(w, s).db) <==> Conserved(w.db) && !LosesCredit(w, s)
  {
    hide SlotsSound, CreditsSound, ReceiptsSound, FirstFree;
    var w' := Apply(w, s);
    assert forall k :: k in w.db.credits ==> k in w'.db.credits;
    assert forall k :: k in w.db.received ==> k in w'.db.received;
    assert forall k :: k in w'.db.outbox && k in w.db.credits ==> k in w.db.outbox;
    assert forall k :: k in w'.db.received && k !in w.db.received ==> k in w.db.outbox;
  }

  /**
   * Over a whole run every committed credit stays in the outbox or is received, if and only if no delivery that
   * started before its claim committed deletes the fresh intent.
   */
  lemma {:induction false} CreditsAreConservedExactlyWhen(ws: seq<World>, steps: seq<Step>)
    requires IsRun(ws, steps)
    ensures ReadyCallsDelivered(ws[|steps|])
    ensures Conserved(ws[|steps|].db) <==> forall i :: 0 <= i < |steps| ==> !LosesCredit(ws[i], steps[i])
    decreases |steps|
  {
    hide Inv, Enabled, Apply, LosesCredit, ReadyCallsDelivered, Conserved;
    var n := |steps|;
    if n == 0 {
      NothingToLose(ws[0]);
    } else {
      var ws', steps' := ws[..n], steps[..n - 1];
      CreditsAreConservedExactlyWhen(ws', steps');
      RunKeepsInv(ws', steps');
      assert ws'[n - 1] == ws[n - 1];
      assert Next(ws[n - 1], steps[n - 1], ws[n]);
      StepLosesOnlySo(ws[n - 1], steps[n - 1]);
      assert forall i :: 0 <= i < n - 1 ==> ws'[i] == ws[i] && steps'[i] == steps[i];
    }
  }

  lemma NothingToLose(w: World)
    requires Initial(w)
    ensures Conserved(w.db) && ReadyCallsDelivered(w)
  {
  }

  /** If every delivery deletes only intents whose credit was committed before the call, nothing is ever lost. */
  lemma CommittedIntentsAreSafe(ws: seq<World>, steps: seq<Step>)
    requires IsRun(ws, steps)
    requires forall i :: 0 <= i < |steps| && steps[i].DeleteIntent? && steps[i].call in ws[i].deliveries ==>
      ws[i].deliveries[steps[i].call].phase == Delete(true)
    ensures Conserved(ws[|steps|].db)
  {
    hide Conserved;
    CreditsAreConservedExactlyWhen(ws, steps);
  }

  predicate Owed(db: Tables, p: string, slot: Slot) {
    slot.claimedBy.Some? && (p, slot.claimedBy.value) in db.outbox && (p, slot.claimedBy.value) !in db.received
  }

  predicate Paid(db: Tables, p: string, slot: Slot) {
    slot.claimedBy.Some? && (p, slot.claimedBy.value) in db.received
  }

  function SumWhere(slots: seq<Slot>, f: Slot -> bool): int
    decreases |slots|
  {
    if slots == [] then 0
    else SumWhere(slots[..|slots| - 1], f) + (if f(slots[|slots| - 1]) then slots[|slots| - 1].amount else 0)
  }

  lemma {:induction false} SumSplits(db: Tables, p: string, slots: seq<Slot>)
    requires forall i :: 0 <= i < |slots| && slots[i].claimedBy.Some? ==> Owed(db, p, slots[i]) || Paid(db, p, slots[i])
    ensures Sum(slots) == SumWhere(slots, (x: Slot) => Paid(db, p, x)) + SumWhere(slots, (x: Slot) => Owed(db, p, x))
                          + SumWhere(slots, (x: Slot) => x.claimedBy.None?)
    decreases |slots|
  {
    if slots != [] {
      var n := |slots| - 1;
      assert forall i :: 0 <= i < n ==> slots[..n][i] == slots[i];
      SumSplits(db, p, slots[..n]);
    }
  }

  /** The packet's total is what was received, plus what is still owed, plus what nobody has claimed. */
  lemma MoneyIsConserved(ws: seq<World>, steps: seq<Step>, p: string)
    requires IsRun(ws, steps) && Conserved(ws[|steps|].db) && p in ws[|steps|].db.totals
    ensures var db := ws[|steps|].db;
            p in db.slots && db.totals[p] == SumWhere(db.slots[p], (x: Slot) => Paid(db, p, x))
                                             + SumWhere(db.slots[p], (x: Slot) => Owed(db, p, x))
                                             + SumWhere(db.slots[p], (x: Slot) => x.claimedBy.None?)
  {
    hide ClaimsSound, ReceiptsSound;
    RunKeepsInv(ws, steps);
    assert Inv(ws[|steps|]);
    var db := ws[|steps|].db;
    SumSplits(db, p, db.slots[p]);
  }

  /** A one-share packet, with a delivery that found no credit and a claim in the given phase. */
  function BeforeClaim(p: string, u: string, phase: ClaimPhase): World {
    World(Tables(map[p := 1], map[p := [Slot(1, None)]], map[], {}, map[]),
          map[1 := Claim(p, u, phase)], map[1 := Deliver(p, u, Delete(false))], {})
  }

  lemma EarlyDeliveryStart(p: string, u: string) returns (ws: seq<World>, steps: seq<Step>)
    requires p != "" && ValidUser(u)
    ensures IsRun(ws, steps) && ws[|steps|] == BeforeClaim(p, u, Waiting)
  {
    var w0 := World(Tables(map[], map[], map[], {}, map[]), map[], map[], {});
    var w1 := Apply(w0, Create(p, 1, 1));
    var w2 := Apply(w1, BeginDeliver(1, p, u));
    var w3 := Apply(w2, InsertReceived(1));
    var w4 := Apply(w3, BeginClaim(1, p, u));
    ws, steps := [w0, w1, w2, w3, w4], [Create(p, 1, 1), BeginDeliver(1, p, u), InsertReceived(1), BeginClaim(1, p, u)];
    assert NewSlots(1, 1) == [Slot(1, None)];
  }

  /** A delivery that starts before the claim commits and finishes after it loses the credit. */
  lemma EarlyDeliveryExample(p: string, u: string) returns (ws: seq<World>, steps: seq<Step>)
    requires p != "" && ValidUser(u)
    ensures IsRun(ws, steps) && !Conserved(ws[|steps|].db)
  {
    hide Initial, NewSlots;
    var ws0, steps0 := EarlyDeliveryStart(p, u);
    var w4 := BeforeClaim(p, u, Waiting);
    assert forall o: int :: !Holds(w4, o, p);
    var w5 := BeforeClaim(p, u, Locked);
    assert Next(w4, LockPacket(1), w5);
    var w6 := BeforeClaim(p, u, Taken(0));
    assert Next(w5, TakeSlot(1), w6);
    var w7 := Apply(w6, CommitClaim(1));
    var w8 := Apply(w7, DeleteIntent(1));
    ws := ws0 + [w5, w6, w7, w8];
    steps := steps0 + [LockPacket(1), TakeSlot(1), CommitClaim(1), DeleteIntent(1)];
    assert (p, u) in w8.db.credits && (p, u) !in w8.db.outbox && (p, u) !in w8.db.received;
  }

  // ---------------------------------------------------------------- the calls as they run

  datatype ClaimError = InvalidUser | NoPacket | PacketExhausted

  /** What one undisturbed claim does. */
  function ServeClaim(db: Tables, p: string, u: string): (Tables, Result<Receipt, ClaimError>) {
    if !ValidUser(u) then (db, Err(InvalidUser))
    else if p !in db.slots then (db, Err(NoPacket))
    else if (p, u) in db.credits then (db, Ok(Receipt(p, u, db.credits[(p, u)].slot, db.credits[(p, u)].amount)))
    else
      var slot := FirstFree(db.slots[p]);
      if slot == |db.slots[p]| then (db, Err(PacketExhausted))
      else (Claimed(db, p, u, slot), Ok(Receipt(p, u, slot, db.slots[p][slot].amount)))
  }

  /** A repeated claim returns the first claim's receipt and changes nothing. */
  lemma RepeatedClaim(db: Tables, p: string, u: string)
    requires ServeClaim(db, p, u).1.Ok?
    ensures ServeClaim(ServeClaim(db, p, u).0, p, u) == ServeClaim(db, p, u)
  {
  }

  /** The state after the steps, if each can be taken. */
  ghost predicate Leads(w: World, steps: seq<Step>, end: World)
    decreases |steps|
  {
    if steps == [] then w == end else Enabled(w, steps[0]) && Leads(Apply(w, steps[0]), steps[1..], end)
  }

  lemma LeadsFrom(w: World, s: Step, w': World, rest: seq<Step>, end: World)
    requires Next(w, s, w') && Leads(w', rest, end)
    ensures Leads(w, [s] + rest, end)
  {
    hide Enabled, Apply;
    assert ([s] + rest)[1..] == rest;
  }

  /** The statements of a claim that has the packet's row lock, by what it finds. */
  function AfterLock(db: Tables, t: int, p: string, u: string): seq<Step> {
    if (p, u) in db.credits then [ReturnReceipt(t)]
    else if p in db.slots && FirstFree(db.slots[p]) < |db.slots[p]| then [TakeSlot(t)] + [CommitClaim(t)]
    else [Exhausted(t)]
  }

  /** The statements of one claim in program order. */
  function ClaimSteps(db: Tables, t: int, p: string, u: string): seq<Step> {
    [BeginClaim(t, p, u)] + ([LockPacket(t)] + AfterLock(db, t, p, u))
  }

  /** A claim's statements, run without interference, are a path of the machine with that outcome. */
  lemma SoloClaimIsAPath(w: World, t: int, p: string, u: string)
    requires Inv(w) && t !in w.claims && ValidUser(u) && p in w.db.totals && forall o: int :: !Holds(w, o, p)
    ensures exists end: World :: Leads(w, ClaimSteps(w.db, t, p, u), end) && Claims(w, end, p, u)
  {
    hide Leads, FirstFree, CreditsSound, ClaimsSound, ReceiptsSound, DeliveriesSound, Claims;
    SameKeys(w.db);
    var w1 := w.(claims := w.claims[t := Claim(p, u, Waiting)]);
    assert Next(w, BeginClaim(t, p, u), w1);
    assert forall o: int :: Holds(w1, o, p) ==> Holds(w, o, p);
    var w2 := w.(claims := w.claims[t := Claim(p, u, Locked)]);
    assert Next(w1, LockPacket(t), w2) by { assert w2.claims == w1.claims[t := w1.claims[t].(phase := Locked)]; }
    var end := LockedPath(w, w2, t);
    LeadsFrom(w1, LockPacket(t), w2, AfterLock(w.db, t, p, u), end);
    LeadsFrom(w, BeginClaim(t, p, u), w1, [LockPacket(t)] + AfterLock(w.db, t, p, u), end);
  }

  /** The tables as the call leaves them, the transaction over, and the receipt handed out. */
  predicate Claims(w: World, end: World, p: string, u: string) {
    && end.db == ServeClaim(w.db, p, u).0 && end.claims == w.claims && end.deliveries == w.deliveries
    && end.receipts == w.receipts + (if ServeClaim(w.db, p, u).1.Ok? then {ServeClaim(w.db, p, u).1.value} else {})
  }

  lemma LockedPath(w: World, w2: World, t: int) returns (end: World)
    requires InPhase(w2, t, Locked) && ValidUser(w2.claims[t].user) && t !in w.claims
    requires w2 == w.(claims := w.claims[t := w2.claims[t]])
    ensures var p, u := w2.claims[t].packet, w2.claims[t].user;
            Leads(w2, AfterLock(w.db, t, p, u), end) && Claims(w, end, p, u)
  {
    hide FirstFree;
    assert w2.claims - {t} == w.claims;
    if KeyOf(w2, t) in w2.db.credits {
      end := Apply(w2, ReturnReceipt(t));
      assert [ReturnReceipt(t)][1..] == [];
    } else if !SlotLeft(w2, t) {
      end := Apply(w2, Exhausted(t));
      assert [Exhausted(t)][1..] == [];
    } else {
      var w3 := Apply(w2, TakeSlot(t));
      end := Apply(w3, CommitClaim(t));
      assert w3.claims - {t} == w.claims;
      assert [CommitClaim(t)][1..] == [];
      LeadsFrom(w2, TakeSlot(t), w3, [CommitClaim(t)], end);
    }
  }

  class PacketStore {
    var totals: map<string, int>
    var slots: map<string, seq<Slot>>
    var credits: map<Key, Credit>
    var outbox: set<Key>
    var received: map<Key, int>

    ghost function Db(): Tables
      reads this
    {
      Tables(totals, slots, credits, outbox, received)
    }

    ghost predicate Valid()
      reads this
    {
      SlotsSound(Db()) && CreditsSound(Db()) && DeliveriesSound(Db())
    }

    constructor ()
      ensures Valid() && Db() == Tables(map[], map[], map[], {}, map[])
    {
      totals, slots, credits, outbox, received := map[], map[], map[], {}, map[];
    }

    method CreatePacket(id: string, total: int, shares: int) returns (ok: bool)
      requires Valid()
      modifies this`totals, this`slots
      ensures Valid() && (ok <==> id != "" && 1 <= shares <= 10000 && total >= shares && id !in old(totals))
      ensures if ok then totals == old(totals)[id := total] && slots == old(slots)[id := NewSlots(total, shares)]
              else totals == old(totals) && slots == old(slots)
      ensures ok ==> |slots[id]| == shares && Sum(slots[id]) == total && forall n :: 0 <= n < shares ==> slots[id][n].claimedBy.None?
    {
      if id == "" || shares < 1 || shares > 10000 || total < shares {
        return false;
      }
      if id in totals {
        return false;
      }
      CreateKeepsTables(Db(), id, total, shares);
      totals := totals[id := total];
      slots := slots[id := NewSlots(total, shares)];
      ok := true;
    }

    method ClaimSlot(packet: string, user: string) returns (r: Result<Receipt, ClaimError>)
      requires Valid()
      modifies this`slots, this`credits, this`outbox
      ensures Valid() && (Db(), r) == ServeClaim(old(Db()), packet, user)
      ensures r == Err(InvalidUser) <==> !(1 <= |user| <= 128)
      ensures r == Err(NoPacket) <==> 1 <= |user| <= 128 && packet !in old(slots)
      ensures r == Err(PacketExhausted) <==>
        && 1 <= |user| <= 128 && packet in old(slots) && (packet, user) !in old(credits)
        && forall i :: 0 <= i < |old(slots)[packet]| ==> old(slots)[packet][i].claimedBy.Some?
      ensures r.Ok? ==>
        && r.value.packet == packet && r.value.user == user && packet in old(slots)
        && (packet, user) in credits && credits[(packet, user)] == Credit(r.value.slot, r.value.amount)
      ensures r.Err? || (packet, user) in old(credits) ==> Db() == old(Db())
      ensures r.Ok? && (packet, user) !in old(credits) ==>
        var i := r.value.slot;
        && i < |old(slots)[packet]| && old(slots)[packet][i].claimedBy.None? && r.value.amount == old(slots)[packet][i].amount
        && (forall k :: 0 <= k < i ==> old(slots)[packet][k].claimedBy.Some?)
        && slots == old(slots)[packet := old(slots)[packet][i := Slot(r.value.amount, Some(user))]]
        && credits == old(credits)[(packet, user) := Credit(i, r.value.amount)] && outbox == old(outbox) + {(packet, user)}
    {
      hide SlotsSound, CreditsSound, DeliveriesSound;
      ghost var before := Db();
      if user == "" || |user| > 128 {
        return Err(InvalidUser);
      }
      if packet !in slots {
        return Err(NoPacket);
      }
      if (packet, user) in credits {
        var c := credits[(packet, user)];
        return Ok(Receipt(packet, user, c.slot, c.amount));
      }
      var slot := FirstFree(slots[packet]);
      if slot == |slots[packet]| {
        return Err(PacketExhausted);
      }
      ClaimedKeepsTables(before, packet, user, slot);
      var amount := slots[packet][slot].amount;
      slots := slots[packet := slots[packet][slot := Slot(amount, Some(user))]];
      credits := credits[(packet, user) := Credit(slot, amount)];
      outbox := outbox + {(packet, user)};
      r := Ok(Receipt(packet, user, slot, amount));
    }

    /** Both statements of a delivery; `stop` is a crash between them. */
    method DeliverCredit(packet: string, user: string, stop: bool)
      requires Valid()
      modifies this`received, this`outbox
      ensures Valid()
      ensures received == if (packet, user) in old(outbox) && (packet, user) in credits && (packet, user) !in old(received)
                          then old(received)[(packet, user) := credits[(packet, user)].amount] else old(received)
      ensures outbox == if stop then old(outbox) else old(outbox) - {(packet, user)}
    {
      hide FirstFree, ClaimedFirst, Sum;
      var key := (packet, user);
      if key in outbox && key in credits && key !in received {
        received := received[key := credits[key].amount];
      }
      if stop {
        return;
      }
      outbox := outbox - {key};
    }
  }
}
