/**
 * The cache experiment: values in SQL with a version, entries in Redis, and durable invalidation intents. Reads,
 * updates and invalidations interleave statement by statement; an entry may vanish at any time.
 *
 * Times are step numbers and exist only to say what happened before what.
 */
module CacheIntents {
  import opened Common

  datatype Key = Key(name: string)
  datatype Value = Value(text: string)

  /** A cached value; `version`, `loadedAt` and `setAt` say where it came from. */
  datatype Entry = Entry(value: Value, version: nat, loadedAt: nat, setAt: nat)

  datatype ReadPhase = Missed | Loaded(value: Value, version: nat, at: nat)
  datatype Read = Read(key: Key, phase: ReadPhase)

  datatype InvalidatePhase = Seen | Deleted(at: nat)
  datatype Invalidate = Invalidate(key: Key, version: nat, phase: InvalidatePhase)

  /**
   * `values` lists all versions of a key, newest last; `committedAt` is when the newest one was committed, and
   * `clearedAt` when the invalidation that was last acknowledged deleted the entry.
   */
  datatype World = World(
    values: map<Key, seq<Value>>,
    intents: map<Key, nat>,
    cache: map<Key, Entry>,
    readers: map<int, Read>,
    invalidations: map<int, Invalidate>,
    committedAt: map<Key, nat>,
    clearedAt: map<Key, nat>,
    now: nat)

  datatype Step =
    | Update(key: Key, value: Value)
    | Miss(read: int, key: Key)                       // GET found nothing, or failed
    | Load(read: int)
    | Store(read: int)
    | EndRead(read: int)
    | SeeIntent(call: int, key: Key)
    | DeleteEntry(call: int)
    | Acknowledge(call: int)
    | StopInvalidate(call: int)
    | Vanish(key: Key)

  predicate IsDeleted(w: World, c: int) {
    c in w.invalidations && w.invalidations[c].phase.Deleted?
  }

  predicate Enabled(w: World, s: Step) {
    match s
    case Update(_, _) => true
    case Miss(r, _) => r !in w.readers
    case Load(r) => r in w.readers && w.readers[r].phase == Missed && w.readers[r].key in w.values && |w.values[w.readers[r].key]| > 0
    case Store(r) => r in w.readers && w.readers[r].phase.Loaded?
    case EndRead(r) => r in w.readers
    case SeeIntent(c, key) => c !in w.invalidations && key in w.intents
    case DeleteEntry(c) => c in w.invalidations && w.invalidations[c].phase == Seen
    case Acknowledge(c) => IsDeleted(w, c)
    case StopInvalidate(c) => c in w.invalidations
    case Vanish(key) => key in w.cache
  }

  function Versions(w: World, key: Key): seq<Value> {
    if key in w.values then w.values[key] else []
  }

  /** The intent goes if it is still for the version that the call saw. */
  function Acknowledged(w: World, c: int, i: Invalidate): World
    requires i.phase.Deleted?
  {
    var mine := i.key in w.intents && w.intents[i.key] == i.version;
    World(w.values, if mine then w.intents - {i.key} else w.intents, w.cache, w.readers, w.invalidations - {c},
          w.committedAt, if mine then w.clearedAt[i.key := i.phase.at] else w.clearedAt, w.now)
  }

  /** The effect of a step; every step also moves time on. */
  function Effect(w: World, s: Step): World
    requires Enabled(w, s)
  {
    match s
    case Update(key, value) =>
      var versions := Versions(w, key) + [value];
      w.(values := w.values[key := versions], intents := w.intents[key := |versions|],
         committedAt := w.committedAt[key := w.now])
    case Miss(r, key) => w.(readers := w.readers[r := Read(key, Missed)])
    case Load(r) =>
      var versions := w.values[w.readers[r].key];
      w.(readers := w.readers[r := w.readers[r].(phase := Loaded(versions[|versions| - 1], |versions|, w.now))])
    case Store(r) =>
      var p := w.readers[r].phase;
      w.(cache := w.cache[w.readers[r].key := Entry(p.value, p.version, p.at, w.now)], readers := w.readers - {r})
    case EndRead(r) => w.(readers := w.readers - {r})
    case SeeIntent(c, key) => w.(invalidations := w.invalidations[c := Invalidate(key, w.intents[key], Seen)])
    case DeleteEntry(c) =>
      w.(cache := w.cache - {w.invalidations[c].key},
         invalidations := w.invalidations[c := w.invalidations[c].(phase := Deleted(w.now))])
    case Acknowledge(c) => Acknowledged(w, c, w.invalidations[c])
    case StopInvalidate(c) => w.(invalidations := w.invalidations - {c})
    case Vanish(key) => w.(cache := w.cache - {key})
  }

  function Apply(w: World, s: Step): World
    requires Enabled(w, s)
  {
    Effect(w, s).(now := w.now + 1)
  }

  predicate Initial(w: World) {
    w == World(map[], map[], map[], map[], map[], map[], map[], 0)
  }

  predicate Next(w: World, s: Step, w': World) {
    Enabled(w, s) && w' == Apply(w, s)
  }

  ghost predicate IsRun(ws: seq<World>, steps: seq<Step>) {
    |ws| == |steps| + 1 && Initial(ws[0]) && forall i :: 0 <= i < |steps| ==> Next(ws[i], steps[i], ws[i + 1])
  }

  // ---------------------------------------------------------------- invariant

  /** A value loaded at time `at` is that version of the key, and an old version was loaded before the newest committed. */
  ghost predicate LoadSound(w: World, key: Key, value: Value, version: nat, at: nat) {
    && key in w.values && 1 <= version <= |w.values[key]| && w.values[key][version - 1] == value
    && at < w.now && key in w.committedAt && (version < |w.values[key]| ==> at < w.committedAt[key])
  }

  ghost predicate ValuesSound(w: World) {
    && w.committedAt.Keys == w.values.Keys
    && (forall key :: key in w.values ==> |w.values[key]| > 0 && w.committedAt[key] < w.now)
    && (forall key :: key in w.intents ==> key in w.values && w.intents[key] == |w.values[key]|)
  }

  ghost predicate EntriesSound(w: World) {
    && (forall key :: key in w.cache ==> var e := w.cache[key]; LoadSound(w, key, e.value, e.version, e.loadedAt) && e.setAt < w.now)
    && (forall r :: r in w.readers && w.readers[r].phase.Loaded? ==>
          var p := w.readers[r].phase; LoadSound(w, w.readers[r].key, p.value, p.version, p.at))
  }

  /** After a delete, what is in the cache was set later; a delete for the newest version came after its commit. */
  ghost predicate CallsSound(w: World) {
    && (forall c :: c in w.invalidations ==>
          w.invalidations[c].key in w.values && w.invalidations[c].version <= |w.values[w.invalidations[c].key]|)
    && (forall c :: IsDeleted(w, c) ==>
          var i := w.invalidations[c];
          && (i.key in w.cache ==> i.phase.at < w.cache[i.key].setAt) && i.phase.at < w.now
          && (i.key in w.values && i.key in w.committedAt && i.version == |w.values[i.key]| ==> w.committedAt[i.key] < i.phase.at))
  }

  /** A key without an intent was cleared after its newest version was committed, and its entry was set later still. */
  ghost predicate ClearsSound(w: World) {
    forall key :: key in w.values && key !in w.intents ==>
      && key in w.clearedAt && key in w.committedAt && w.committedAt[key] < w.clearedAt[key] < w.now
      && (key in w.cache ==> w.clearedAt[key] < w.cache[key].setAt)
  }

  ghost predicate Inv(w: World) {
    ValuesSound(w) && EntriesSound(w) && CallsSound(w) && ClearsSound(w)
  }

  lemma LoadCarries(w: World, w': World, key: Key, value: Value, version: nat, at: nat)
    requires LoadSound(w, key, value, version, at) && w.now <= w'.now && key in w'.values && key in w'.committedAt
    requires (w'.values[key] == w.values[key] && w'.committedAt[key] == w.committedAt[key])
             || (w.values[key] < w'.values[key] && w'.committedAt[key] >= w.now)
    ensures LoadSound(w', key, value, version, at)
  {
  }

  lemma UpdateKeepsInv(w: World, key: Key, value: Value)
    requires Inv(w)
    ensures Inv(Apply(w, Update(key, value)))
  {
    hide LoadSound, Apply, ValuesSound, EntriesSound, CallsSound, ClearsSound;
    UpdateKeepsValues(w, key, value);
    UpdateKeepsEntries(w, key, value);
    UpdateKeepsCalls(w, key, value);
    UpdateKeepsClears(w, key, value);
  }

  lemma UpdateKeepsValues(w: World, key: Key, value: Value)
    requires ValuesSound(w)
    ensures ValuesSound(Apply(w, Update(key, value)))
  {
  }

  lemma UpdateKeepsEntries(w: World, key: Key, value: Value)
    requires ValuesSound(w) && EntriesSound(w)
    ensures EntriesSound(Apply(w, Update(key, value)))
  {
    hide LoadSound;
    var w' := Apply(w, Update(key, value));
    forall k: Key, v: Value, n: nat, at: nat | LoadSound(w, k, v, n, at) ensures LoadSound(w', k, v, n, at) {
      LoadHasKey(w, k, v, n, at);
      LoadCarries(w, w', k, v, n, at);
    }
  }

  lemma LoadHasKey(w: World, key: Key, value: Value, version: nat, at: nat)
    requires LoadSound(w, key, value, version, at)
    ensures key in w.values && key in w.committedAt
  {
  }

  lemma UpdateFrame(w: World, key: Key, value: Value)
    ensures var w' := Apply(w, Update(key, value));
            && w'.cache == w.cache && w'.invalidations == w.invalidations && w'.clearedAt == w.clearedAt && w'.now == w.now + 1
            && w'.values.Keys == w.values.Keys + {key} && w'.committedAt == w.committedAt[key := w.now]
            && w'.intents == w.intents[key := |w'.values[key]|]
            && (forall k: Key :: k in w.values ==> |w'.values[k]| == |w.values[k]| + if k == key then 1 else 0)
  {
  }

  lemma UpdateKeepsCalls(w: World, key: Key, value: Value)
    requires CallsSound(w)
    ensures CallsSound(Apply(w, Update(key, value)))
  {
    UpdateFrame(w, key, value);
    hide Apply;
    var w' := Apply(w, Update(key, value));
    assert forall c: int :: IsDeleted(w', c) <==> IsDeleted(w, c);
  }

  lemma UpdateKeepsClears(w: World, key: Key, value: Value)
    requires ClearsSound(w)
    ensures ClearsSound(Apply(w, Update(key, value)))
  {
    UpdateFrame(w, key, value);
    hide Apply;
  }

  /** Steps that commit nothing leave what was loaded as sound as it was. */
  lemma SameValuesKeepLoads(w: World, w': World)
    requires w'.values == w.values && w'.committedAt == w.committedAt && w.now <= w'.now
    ensures forall k: Key, v: Value, n: nat, at: nat :: LoadSound(w, k, v, n, at) ==> LoadSound(w', k, v, n, at)
  {
  }

  lemma InvalidateKeepsInv(w: World, s: Step)
    requires Inv(w) && Enabled(w, s) && (s.SeeIntent? || s.DeleteEntry? || s.Acknowledge? || s.StopInvalidate?)
    ensures Inv(Apply(w, s))
  {
    hide LoadSound, ValuesSound, EntriesSound, CallsSound, ClearsSound, Apply;
    InvalidateKeepsValues(w, s);
    InvalidateKeepsClears(w, s);
  }

  lemma InvalidateFrame(w: World, s: Step)
    requires Enabled(w, s) && (s.SeeIntent? || s.DeleteEntry? || s.Acknowledge? || s.StopInvalidate?)
    ensures var w' := Apply(w, s);
            && w'.values == w.values && w'.committedAt == w.committedAt && w'.readers == w.readers && w'.now == w.now + 1
            && (forall k: Key :: k in w'.cache ==> k in w.cache && w'.cache[k] == w.cache[k])
            && (forall k: Key :: k in w'.intents ==> k in w.intents && w'.intents[k] == w.intents[k])
  {
  }

  lemma InvalidateKeepsValues(w: World, s: Step)
    requires ValuesSound(w) && EntriesSound(w)
    requires Enabled(w, s) && (s.SeeIntent? || s.DeleteEntry? || s.Acknowledge? || s.StopInvalidate?)
    ensures ValuesSound(Apply(w, s)) && EntriesSound(Apply(w, s))
  {
    hide LoadSound, Apply, Enabled;
    InvalidateFrame(w, s);
    SameValuesKeepLoads(w, Apply(w, s));
  }

  lemma InvalidateKeepsClears(w: World, s: Step)
    requires ValuesSound(w) && CallsSound(w) && ClearsSound(w)
    requires Enabled(w, s) && (s.SeeIntent? || s.DeleteEntry? || s.Acknowledge? || s.StopInvalidate?)
    ensures CallsSound(Apply(w, s)) && ClearsSound(Apply(w, s))
  {
    InvalidateKeepsCalls(w, s);
    if s.Acknowledge? {
      AcknowledgeKeepsClears(w, s.call);
    }
  }

  lemma InvalidateKeepsCalls(w: World, s: Step)
    requires ValuesSound(w) && CallsSound(w)
    requires Enabled(w, s) && (s.SeeIntent? || s.DeleteEntry? || s.Acknowledge? || s.StopInvalidate?)
    ensures CallsSound(Apply(w, s))
  {
    hide ClearsSound, EntriesSound, Apply;
    InvalidateFrame(w, s);
    CallsFrame(w, s);
  }

  lemma CallsFrame(w: World, s: Step)
    requires Enabled(w, s) && (s.SeeIntent? || s.DeleteEntry? || s.Acknowledge? || s.StopInvalidate?)
    ensures var w' := Apply(w, s);
            forall c: int :: c in w'.invalidations ==>
              || (c in w.invalidations && w'.invalidations[c] == w.invalidations[c])
              || (w'.invalidations[c].phase == Seen && w'.invalidations[c].key in w.intents
                  && w'.invalidations[c].version == w.intents[w'.invalidations[c].key])
              || (c in w.invalidations && w'.invalidations[c] == w.invalidations[c].(phase := Deleted(w.now))
                  && w'.invalidations[c].key !in w'.cache)
  {
  }

  lemma AcknowledgeFrame(w: World, c: int)
    requires Enabled(w, Acknowledge(c))
    ensures var w', key := Apply(w, Acknowledge(c)), w.invalidations[c].key;
            && w'.cache == w.cache
            && if key in w.intents && w.intents[key] == w.invalidations[c].version
               then w'.intents == w.intents - {key} && w'.clearedAt == w.clearedAt[key := w.invalidations[c].phase.at]
               else w'.intents == w.intents && w'.clearedAt == w.clearedAt
  {
  }

  lemma AcknowledgeKeepsClears(w: World, c: int)
    requires ValuesSound(w) && CallsSound(w) && ClearsSound(w) && Enabled(w, Acknowledge(c))
    ensures ClearsSound(Apply(w, Acknowledge(c)))
  {
    hide Apply;
    InvalidateFrame(w, Acknowledge(c));
    AcknowledgeFrame(w, c);
    assert IsDeleted(w, c);
  }

  lemma ReadKeepsInv(w: World, s: Step)
    requires Inv(w) && Enabled(w, s) && (s.Miss? || s.Load? || s.Store? || s.EndRead? || s.Vanish?)
    ensures Inv(Apply(w, s))
  {
    hide LoadSound, CallsSound, ClearsSound;
    var w' := Apply(w, s);
    SameValuesKeepLoads(w, w');
    assert ValuesSound(w');
    assert EntriesSound(w') by { ReadKeepsEntries(w, s); }
    assert CallsSound(w') && ClearsSound(w') by { ReadKeepsClears(w, s); }
  }

  lemma ReadKeepsEntries(w: World, s: Step)
    requires ValuesSound(w) && EntriesSound(w)
    requires Enabled(w, s) && (s.Miss? || s.Load? || s.Store? || s.EndRead? || s.Vanish?)
    ensures EntriesSound(Apply(w, s))
  {
    hide LoadSound;
    var w' := Apply(w, s);
    SameValuesKeepLoads(w, w');
    if s.Load? {
      NewestLoad(w', w.readers[s.read].key, w.now);
    }
  }

  lemma NewestLoad(w: World, key: Key, at: nat)
    requires key in w.values && |w.values[key]| > 0 && key in w.committedAt && at < w.now
    ensures LoadSound(w, key, w.values[key][|w.values[key]| - 1], |w.values[key]|, at)
  {
  }

  lemma ReadFrame(w: World, s: Step)
    requires Enabled(w, s) && (s.Miss? || s.Load? || s.Store? || s.EndRead? || s.Vanish?)
    ensures var w' := Apply(w, s);
            && w'.values == w.values && w'.committedAt == w.committedAt && w'.now == w.now + 1
            && w'.intents == w.intents && w'.clearedAt == w.clearedAt && w'.invalidations == w.invalidations
            && (forall k: Key :: k in w'.cache ==> (k in w.cache && w'.cache[k] == w.cache[k]) || w'.cache[k].setAt == w.now)
  {
  }

  lemma ReadKeepsClears(w: World, s: Step)
    requires ValuesSound(w) && CallsSound(w) && ClearsSound(w)
    requires Enabled(w, s) && (s.Miss? || s.Load? || s.Store? || s.EndRead? || s.Vanish?)
    ensures CallsSound(Apply(w, s)) && ClearsSound(Apply(w, s))
  {
    ReadFrame(w, s);
    hide Apply, Enabled;
    var w' := Apply(w, s);
    assert forall c: int :: IsDeleted(w', c) <==> IsDeleted(w, c);
  }

  lemma StepKeepsInv(w: World, s: Step)
    requires Inv(w) && Enabled(w, s)
    ensures Inv(Apply(w, s))
  {
    hide Inv;
    match s
    case Update(key, value) => UpdateKeepsInv(w, key, value);
    case SeeIntent(_, _) => InvalidateKeepsInv(w, s);
    case DeleteEntry(_) => InvalidateKeepsInv(w, s);
    case Acknowledge(_) => InvalidateKeepsInv(w, s);
    case StopInvalidate(_) => InvalidateKeepsInv(w, s);
    case _ => ReadKeepsInv(w, s);
  }

  lemma {:induction false} RunKeepsInv(ws: seq<World>, steps: seq<Step>)
    requires IsRun(ws, steps)
    ensures forall i :: 0 <= i < |ws| ==> Inv(ws[i])
    decreases |steps|
  {
    hide Enabled, Apply, Inv;
    var n := |steps|;
    if n == 0 {
      InitialInv(ws[0]);
    } else {
      RunKeepsInv(ws[..n], steps[..n - 1]);
      assert ws[..n][n - 1] == ws[n - 1];
      assert Next(ws[n - 1], steps[n - 1], ws[n]);
      StepKeepsInv(ws[n - 1], steps[n - 1]);
      forall i | 0 <= i < |ws| ensures Inv(ws[i]) {
        if i < n {
          assert ws[i] == ws[..n][i];
        }
      }
    }
  }

  lemma InitialInv(w: World)
    requires Initial(w)
    ensures Inv(w)
  {
  }

  // ---------------------------------------------------------------- theorems

  function Newest(w: World, key: Key): Value
    requires key in w.values && |w.values[key]| > 0
  {
    w.values[key][|w.values[key]| - 1]
  }

  /**
   * In every run, a cached entry is the newest value, or its invalidation is still pending, or a read loaded it
   * before the newest version was committed and stored it after the delete that was acknowledged for that version.
   */
  lemma StaleEntriesAreLateRefills(ws: seq<World>, steps: seq<Step>, i: nat, key: Key)
    requires IsRun(ws, steps) && i < |ws| && key in ws[i].cache
    ensures var w, e := ws[i], ws[i].cache[key];
            && key in w.values && |w.values[key]| > 0 && key in w.committedAt
            && (e.value == Newest(w, key)
                || (key in w.intents && w.intents[key] == |w.values[key]|)
                || (key in w.clearedAt && e.loadedAt < w.committedAt[key] < w.clearedAt[key] < e.setAt))
  {
    RunKeepsInv(ws, steps);
    assert Inv(ws[i]);
  }

  /** One key with two versions, the first of which a read has loaded and not yet stored. */
  function Refilling(key: Key, first: Value, second: Value, intents: map<Key, nat>, calls: map<int, Invalidate>,
                     clearedAt: map<Key, nat>, now: nat): World
  {
    World(map[key := [first, second]], intents, map[], map[1 := Read(key, Loaded(first, 1, 2))], calls,
          map[key := 3], clearedAt, now)
  }

  lemma UpdateGives(w: World, key: Key, value: Value, w': World)
    requires w' == World(w.values[key := Versions(w, key) + [value]], w.intents[key := |Versions(w, key)| + 1], w.cache, w.readers,
                         w.invalidations, w.committedAt[key := w.now], w.clearedAt, w.now + 1)
    ensures Next(w, Update(key, value), w')
  {
  }

  lemma LoadedBeforeUpdate(key: Key, first: Value, second: Value) returns (ws: seq<World>, steps: seq<Step>)
    ensures IsRun(ws, steps) && ws[|steps|] == Refilling(key, first, second, map[key := 2], map[], map[], 4)
  {
    var w0 := World(map[], map[], map[], map[], map[], map[], map[], 0);
    var w1 := World(map[key := [first]], map[key := 1], map[], map[], map[], map[key := 0], map[], 1);
    assert Versions(w0, key) + [first] == [first];
    UpdateGives(w0, key, first, w1);
    var w2 := w1.(readers := map[1 := Read(key, Missed)], now := 2);
    var w3 := w1.(readers := map[1 := Read(key, Loaded(first, 1, 2))], now := 3);
    assert Next(w1, Miss(1, key), w2) && Next(w2, Load(1), w3);
    var w4 := Refilling(key, first, second, map[key := 2], map[], map[], 4);
    assert Versions(w3, key) + [second] == [first, second];
    UpdateGives(w3, key, second, w4);
    hide Enabled, Apply;
    ws := [w0, w1, w2, w3, w4];
    steps := [Update(key, first), Miss(1, key), Load(1), Update(key, second)];
  }

  /** The third case happens: a read loads version 1, version 2 is written and its intent acknowledged, the read stores. */
  lemma LateRefillExample(key: Key, first: Value, second: Value) returns (ws: seq<World>, steps: seq<Step>)
    requires first != second
    ensures IsRun(ws, steps)
    ensures var w := ws[|steps|];
            && key in w.cache && w.cache[key].value == first && key in w.values && w.values[key] == [first, second]
            && key !in w.intents
            && key in w.clearedAt && key in w.committedAt
            && w.cache[key].loadedAt < w.committedAt[key] < w.clearedAt[key] < w.cache[key].setAt
  {
    hide Initial;
    var ws0, steps0 := LoadedBeforeUpdate(key, first, second);
    var w4 := Refilling(key, first, second, map[key := 2], map[], map[], 4);
    var w5 := Refilling(key, first, second, map[key := 2], map[1 := Invalidate(key, 2, Seen)], map[], 5);
    assert Next(w4, SeeIntent(1, key), w5);
    var w6 := Refilling(key, first, second, map[key := 2], map[1 := Invalidate(key, 2, Deleted(5))], map[], 6);
    assert Next(w5, DeleteEntry(1), w6);
    var w7 := Refilling(key, first, second, map[], map[], map[key := 5], 7);
    assert Next(w6, Acknowledge(1), w7);
    var w8 := Apply(w7, Store(1));
    ws := ws0 + [w5, w6, w7, w8];
    steps := steps0 + [SeeIntent(1, key), DeleteEntry(1), Acknowledge(1), Store(1)];
  }

  /** Every entry that is not the newest version still has its invalidation pending. */
  ghost predicate Guarded(w: World) {
    forall key :: key in w.cache && key in w.values && w.cache[key].version < |w.values[key]| ==> key in w.intents
  }

  /** A read stores an old version after the acknowledgement, or the acknowledgement comes after such a store. */
  predicate RefillsLate(w: World, s: Step) {
    || (s.Store? && s.read in w.readers && w.readers[s.read].phase.Loaded? && w.readers[s.read].key in w.values
        && w.readers[s.read].phase.version < |w.values[w.readers[s.read].key]| && w.readers[s.read].key !in w.intents)
    || (s.Acknowledge? && s.call in w.invalidations
        && var i := w.invalidations[s.call];
           i.key in w.intents && w.intents[i.key] == i.version
           && i.key in w.cache && i.key in w.values && w.cache[i.key].version < |w.values[i.key]|)
  }

  lemma StoreGuarded(w: World, r: int)
    requires Enabled(w, Store(r)) && Guarded(w) && w.readers[r].key in w.values
    ensures Guarded(Apply(w, Store(r))) <==> !RefillsLate(w, Store(r))
  {
    assert w.readers[r].key in Apply(w, Store(r)).cache;
  }

  lemma AcknowledgeGuarded(w: World, c: int)
    requires Enabled(w, Acknowledge(c)) && Guarded(w)
    ensures Guarded(Apply(w, Acknowledge(c))) <==> !RefillsLate(w, Acknowledge(c))
  {
    hide Apply;
    InvalidateFrame(w, Acknowledge(c));
    AcknowledgeFrame(w, c);
  }

  lemma OtherStepGuarded(w: World, s: Step)
    requires Enabled(w, s) && !s.Store? && !s.Acknowledge? && Guarded(w)
    ensures Guarded(Apply(w, s))
  {
  }

  lemma StoreIsLoaded(w: World, r: int)
    requires Enabled(w, Store(r))
    ensures r in w.readers && w.readers[r].phase.Loaded?
  {
  }

  lemma LoadedKeysExist(w: World)
    requires Inv(w)
    ensures forall r :: r in w.readers && w.readers[r].phase.Loaded? ==> w.readers[r].key in w.values
  {
  }

  /** Guardedness is lost by late refills and by nothing else. */
  lemma OnlyLateRefillsGoUnguarded(ws: seq<World>, steps: seq<Step>, i: nat)
    requires IsRun(ws, steps) && i < |steps| && Guarded(ws[i])
    ensures Guarded(ws[i + 1]) <==> !RefillsLate(ws[i], steps[i])
  {
    hide Inv, Enabled, Apply, Guarded;
    RunKeepsInv(ws, steps);
    assert Next(ws[i], steps[i], ws[i + 1]);
    LoadedKeysExist(ws[i]);
    if steps[i].Store? {
      StoreIsLoaded(ws[i], steps[i].read);
      StoreGuarded(ws[i], steps[i].read);
    } else if steps[i].Acknowledge? {
      AcknowledgeGuarded(ws[i], steps[i].call);
    } else {
      OtherStepGuarded(ws[i], steps[i]);
    }
  }

  // ---------------------------------------------------------------- the calls as they run

  /** The tables and entries of the machine's state, without what only the proofs need. */
  predicate Shows(w: World, values: map<Key, (Value, nat)>, intents: map<Key, nat>, entries: map<Key, Value>) {
    && values.Keys == w.values.Keys && intents == w.intents && entries.Keys == w.cache.Keys
    && (forall k :: k in values ==> |w.values[k]| > 0 && values[k] == (Newest(w, k), |w.values[k]|))
    && (forall k :: k in entries ==> entries[k] == w.cache[k].value)
  }

  /** The state after the steps, if each can be taken. */
  predicate Leads(w: World, steps: seq<Step>, end: World)
    decreases |steps|
  {
    if steps == [] then w == end else Enabled(w, steps[0]) && Leads(Apply(w, steps[0]), steps[1..], end)
  }

  lemma ThreeSteps(w: World, a: Step, b: Step, c: Step, w1: World, w2: World, w3: World)
    requires Next(w, a, w1) && Next(w1, b, w2) && Next(w2, c, w3)
    ensures Leads(w, [a, b, c], w3)
  {
    hide Enabled, Apply;
    assert [a, b, c][1..] == [b, c] && [b, c][1..] == [c] && [c][1..] == [];
    assert Leads(w3, [], w3) && Leads(w2, [c], w3) && Leads(w1, [b, c], w3);
  }

  lemma ReadRuns(w: World, id: int, key: Key) returns (end: World)
    requires id !in w.readers && key in w.values && |w.values[key]| > 0
    ensures Leads(w, [Miss(id, key), Load(id), Store(id)], end)
    ensures end.values == w.values && end.intents == w.intents
    ensures key in end.cache && end.cache == w.cache[key := end.cache[key]] && end.cache[key].value == Newest(w, key)
  {
    hide Leads;
    var w1 := Apply(w, Miss(id, key));
    var w2 := Apply(w1, Load(id));
    end := Apply(w2, Store(id));
    ThreeSteps(w, Miss(id, key), Load(id), Store(id), w1, w2, end);
  }

  /** A read that misses or whose GET fails, run without interference, is a path of the machine with the outcome of the call below. */
  lemma SoloReadIsAPath(w: World, id: int, key: Key, values: map<Key, (Value, nat)>, intents: map<Key, nat>, entries: map<Key, Value>)
    requires Shows(w, values, intents, entries) && id !in w.readers && key in values
    ensures exists end: World ::
      Leads(w, [Miss(id, key), Load(id), Store(id)], end) && Shows(end, values, intents, entries[key := values[key].0])
  {
    hide Leads;
    var end := ReadRuns(w, id, key);
    assert Shows(end, values, intents, entries[key := values[key].0]);
  }

  lemma InvalidationRuns(w: World, id: int, key: Key) returns (end: World)
    requires id !in w.invalidations && key in w.intents
    ensures Leads(w, [SeeIntent(id, key), DeleteEntry(id), Acknowledge(id)], end)
    ensures end.values == w.values && end.intents == w.intents - {key} && end.cache == w.cache - {key}
  {
    hide Leads;
    var w1 := Apply(w, SeeIntent(id, key));
    var w2 := Apply(w1, DeleteEntry(id));
    end := Apply(w2, Acknowledge(id));
    ThreeSteps(w, SeeIntent(id, key), DeleteEntry(id), Acknowledge(id), w1, w2, end);
  }

  /** An invalidation, run without interference, likewise. */
  lemma SoloInvalidationIsAPath(w: World, id: int, key: Key, values: map<Key, (Value, nat)>, intents: map<Key, nat>, entries: map<Key, Value>)
    requires Shows(w, values, intents, entries) && id !in w.invalidations && key in intents
    ensures exists end: World ::
      Leads(w, [SeeIntent(id, key), DeleteEntry(id), Acknowledge(id)], end) && Shows(end, values, intents - {key}, entries - {key})
  {
    hide Leads;
    var end := InvalidationRuns(w, id, key);
    assert Shows(end, values, intents - {key}, entries - {key});
  }

  class Cache {
    var values: map<Key, (Value, nat)>
    var intents: map<Key, nat>
    var entries: map<Key, Value>

    constructor ()
      ensures values == map[] && intents == map[] && entries == map[]
    {
      values, intents, entries := map[], map[], map[];
    }

    /**
     * A hit returns the entry as it is; a miss or a failing GET returns the SQL value and caches it when entries live
     * at all, unless the SET fails.
     */
    method ReadValue(key: Key, ttl: int, getWorks: bool, setWorks: bool) returns (r: Option<Value>)
      modifies this`entries
      ensures getWorks && key in old(entries) ==> r == Some(old(entries)[key]) && entries == old(entries)
      ensures !(getWorks && key in old(entries)) && key in values ==>
        r == Some(values[key].0)
        && entries == if ttl > 0 && setWorks then old(entries)[key := values[key].0] else old(entries)
      ensures !(getWorks && key in old(entries)) && key !in values ==> r == None && entries == old(entries)
    {
      if getWorks && key in entries {
        return Some(entries[key]);
      }
      if key !in values {
        return None;
      }
      var value := values[key].0;
      if ttl > 0 && setWorks {
        entries := entries[key := value];
      }
      r := Some(value);
    }

    method UpdateValue(key: Key, value: Value)
      modifies this`values, this`intents
      ensures var version := if key in old(values) then old(values)[key].1 + 1 else 1;
              values == old(values)[key := (value, version)] && intents == old(intents)[key := version]
    {
      var version := if key in values then values[key].1 + 1 else 1;
      values := values[key := (value, version)];
      intents := intents[key := version];
    }

    /** Without interference the entry and the intent both go; without an intent, or when DEL fails, nothing changes. */
    method InvalidateEntry(key: Key, delWorks: bool) returns (ok: bool)
      modifies this`entries, this`intents
      ensures ok <==> key in old(intents) && delWorks
      ensures entries == (if ok then old(entries) - {key} else old(entries))
      ensures intents == (if ok then old(intents) - {key} else old(intents))
    {
      if key !in intents {
        return false;
      }
      var version := intents[key];
      if !delWorks {
        return false;
      }
      entries := entries - {key};
      if key in intents && intents[key] == version {
        intents := intents - {key};
      }
      ok := true;
    }
  }
}
