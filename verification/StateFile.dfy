/**
 * The client's state file: every update loads, changes, and atomically replaces the file, and any step of the
 * replacement may fail or be the last one before the machine stops.
 *
 * Encryption is ideal, so a file either holds a state or is garbage. After a power loss the path names one of the
 * `survivors`: renames that were not yet forced to disk may be undone, and contents that were not forced are garbage.
 */
module StateFile {
  import opened Common

  const STATE_VERSION := 1

  datatype Conversation = Conversation(appliedCursor: int, ackedCursor: int, pendingAck: int, messages: Option<map<int, Message>>)

  /** As it is encoded; absent maps are `None`. */
  datatype State = State(
    version: int, auth: Option<(int, int)>, pendingRefresh: Option<(int, int)>, conversations: Option<map<int, Conversation>>)

  datatype Content = Sealed(state: State) | Garbage

  datatype Disk = Disk(file: Option<Content>, survivors: set<Option<Content>>)

  function WithMessages(c: Conversation): Conversation {
    if c.messages.None? then c.(messages := Some(map[])) else c
  }

  function Normalize(s: State): State {
    var all := if s.conversations.None? then map[] else s.conversations.value;
    s.(version := STATE_VERSION, conversations := Some(map c | c in all :: WithMessages(all[c])))
  }

  const EMPTY := State(STATE_VERSION, None, None, Some(map[]))

  datatype StoreError = ReadFailed | Unreadable | UnsupportedVersion | UpdateRefused | NotPersisted

  function Load(file: Option<Content>): Result<State, StoreError> {
    match file
    case None => Ok(EMPTY)
    case Some(Garbage) => Err(Unreadable)
    case Some(Sealed(s)) => if s.version != STATE_VERSION then Err(UnsupportedVersion) else Ok(Normalize(s))
  }

  /** Steps 0 to 8: create, chmod, write, sync, close, hook, rename, open directory, sync directory. */
  const RENAME := 6
  const STEPS := 9

  /** Replacing the file when step `stop` is the first that does not happen. */
  function Replace(d: Disk, s: State, stop: nat): (Disk, bool) {
    if stop <= RENAME then (d, false)
    else if stop < STEPS then (Disk(Some(Sealed(s)), d.survivors + {Some(Sealed(s))}), false)
    else (Disk(Some(Sealed(s)), {Some(Sealed(s))}), true)
  }

  type Update = State -> Option<State>

  /** One call, which may fail to read the file or fail at step `stop`, and may be followed by a power loss that leaves `crash`. */
  datatype Attempt = Attempt(update: Update, readable: bool, stop: nat, crash: Option<Option<Content>>)

  /** Reading a file that exists may fail. */
  function Read(file: Option<Content>, readable: bool): Result<State, StoreError> {
    if file.Some? && !readable then Err(ReadFailed) else Load(file)
  }

  function UpdateOnce(d: Disk, update: Update, readable: bool, stop: nat): (Disk, Result<(), StoreError>) {
    match Read(d.file, readable)
    case Err(e) => (d, Err(e))
    case Ok(s) =>
      if update(s).None? then (d, Err(UpdateRefused))
      else
        var (d', ok) := Replace(d, Normalize(update(s).value), stop);
        (d', if ok then Ok(()) else Err(NotPersisted))
  }

  predicate ValidCrash(d: Disk, crash: Option<Option<Content>>) {
    crash.Some? ==> crash.value in d.survivors
  }

  function AfterCrash(d: Disk, crash: Option<Option<Content>>): Disk {
    if crash.None? then d else Disk(crash.value, {crash.value})
  }

  // ---------------------------------------------------------------- the store's code

  class FileStore {
    var file: Option<Content>
    ghost var survivors: set<Option<Content>>

    ghost function View(): Disk
      reads this
    {
      Disk(file, survivors)
    }

    constructor (d: Disk)
      ensures View() == d
    {
      file, survivors := d.file, d.survivors;
    }

    method NormalizeState(state: State) returns (r: State)
      ensures r == Normalize(state)
      ensures r.version == 1 && r.auth == state.auth && r.pendingRefresh == state.pendingRefresh && r.conversations.Some?
      ensures r.conversations.value.Keys == if state.conversations.Some? then state.conversations.value.Keys else {}
      ensures forall c :: c in r.conversations.value ==>
        var x, y := state.conversations.value[c], r.conversations.value[c];
        && y.appliedCursor == x.appliedCursor && y.ackedCursor == x.ackedCursor && y.pendingAck == x.pendingAck
        && y.messages == Some(if x.messages.Some? then x.messages.value else map[])
    {
      var all := if state.conversations.None? then map[] else state.conversations.value;
      var left, normal := all.Keys, map[];
      while left != {}
        invariant left <= all.Keys && normal == map c | c in all.Keys - left :: WithMessages(all[c])
        decreases |left|
      {
        NonEmpty(left);
        var c :| c in left;
        var conversation := all[c];
        if conversation.messages.None? {
          conversation := conversation.(messages := Some(map[]));
        }
        left := left - {c};
        normal := normal[c := conversation];
      }
      assert normal == map c | c in all :: WithMessages(all[c]);
      r := state.(version := STATE_VERSION, conversations := Some(normal));
    }

    /** The temporary file is written and forced before the rename, and the directory after it. */
    method Persist(state: State, stop: nat) returns (ok: bool)
      modifies this
      ensures (View(), ok) == Replace(old(View()), state, stop)
      ensures ok <==> stop >= 9
      ensures stop <= 6 ==> View() == old(View())
      ensures stop > 6 ==> file == Some(Sealed(state))
      ensures 6 < stop < 9 ==> survivors == old(survivors) + {file}
      ensures stop >= 9 ==> survivors == {file}
    {
      var temporary: Option<Content>, forced := None, false;
      // Create the temporary file and restrict its mode.
      if stop <= 1 {
        return false;
      }
      // Write it.
      if stop <= 2 {
        return false;
      }
      temporary := Some(Sealed(state));
      // Force its contents to disk.
      if stop <= 3 {
        return false;
      }
      forced := true;
      // Close it, call the hook, rename it over the state file.
      if stop <= RENAME {
        return false;
      }
      file := temporary;
      survivors := survivors + {if forced then temporary else Some(Garbage)};
      // Open the directory and force the rename to disk.
      if stop < STEPS {
        return false;
      }
      survivors := {if forced then file else Some(Garbage)};
      ok := true;
    }

    method Update(update: Update, readable: bool, stop: nat) returns (r: Result<(), StoreError>)
      modifies this
      ensures (View(), r) == UpdateOnce(old(View()), update, readable, stop)
      ensures old(file).Some? && !readable ==> r == Err(ReadFailed) && View() == old(View())
      ensures old(file) == Some(Garbage) && readable ==> r == Err(Unreadable) && View() == old(View())
      ensures readable && old(file).Some? && old(file).value.Sealed? && old(file).value.state.version != 1 ==>
        r == Err(UnsupportedVersion) && View() == old(View())
      ensures old(file).None? || (readable && old(file).value.Sealed? && old(file).value.state.version == 1) ==>
        var before := if old(file).None? then State(1, None, None, Some(map[])) else Normalize(old(file).value.state);
        if update(before).None? then r == Err(UpdateRefused) && View() == old(View())
        else
          && (r == if stop >= 9 then Ok(()) else Err(NotPersisted))
          && file == if stop > 6 then Some(Sealed(Normalize(update(before).value))) else old(file)
    {
      if file.Some? && !readable {
        return Err(ReadFailed);
      }
      var loaded := Load(file);
      if loaded.Err? {
        return Err(loaded.error);
      }
      var changed := update(loaded.value);
      if changed.None? {
        return Err(UpdateRefused);
      }
      var state := NormalizeState(changed.value);
      var ok := Persist(state, stop);
      r := if ok then Ok(()) else Err(NotPersisted);
    }
  }

  // ---------------------------------------------------------------- theorems

  function Run(d: Disk, attempts: seq<Attempt>): (Disk, seq<bool>)
    decreases |attempts|
  {
    if attempts == [] then (d, [])
    else
      var n := |attempts| - 1;
      var (before, acks) := Run(d, attempts[..n]);
      var (after, r) := UpdateOnce(before, attempts[n].update, attempts[n].readable, attempts[n].stop);
      (AfterCrash(after, attempts[n].crash), acks + [r.Ok?])
  }

  /** Every power loss leaves something that the disk could leave. */
  ghost predicate CrashesValid(d: Disk, attempts: seq<Attempt>)
    decreases |attempts|
  {
    attempts == []
    || var n := |attempts| - 1;
       CrashesValid(d, attempts[..n])
       && ValidCrash(UpdateOnce(Run(d, attempts[..n]).0, attempts[n].update, attempts[n].readable, attempts[n].stop).0, attempts[n].crash)
  }

  /** The state after the updates marked in `taken`, in order; `None` if one of them refuses. */
  function Replay(s: State, attempts: seq<Attempt>, taken: seq<bool>): Option<State>
    requires |taken| == |attempts|
    decreases |attempts|
  {
    if attempts == [] then Some(s)
    else
      var n := |attempts| - 1;
      var before := Replay(s, attempts[..n], taken[..n]);
      if before.None? || !taken[n] then before
      else if attempts[n].update(before.value).None? then None
      else Some(Normalize(attempts[n].update(before.value).value))
  }

  /** `c` loads to the replay of some attempts that reached the rename, among them all acknowledged ones. */
  ghost predicate Explained(s: State, attempts: seq<Attempt>, acks: seq<bool>, c: Option<Content>)
    requires |acks| == |attempts|
  {
    exists taken: seq<bool> :: ExplainedBy(s, attempts, acks, c, taken)
  }

  predicate ExplainedBy(s: State, attempts: seq<Attempt>, acks: seq<bool>, c: Option<Content>, taken: seq<bool>)
    requires |acks| == |attempts|
  {
    && |taken| == |attempts|
    && (forall i :: 0 <= i < |acks| && acks[i] ==> taken[i])
    && (forall i :: 0 <= i < |taken| && taken[i] ==> attempts[i].stop > RENAME)
    && Load(c).Ok? && Replay(s, attempts, taken) == Some(Load(c).value)
  }

  lemma RunAcks(d: Disk, attempts: seq<Attempt>)
    ensures |Run(d, attempts).1| == |attempts|
    decreases |attempts|
  {
    if attempts != [] {
      RunAcks(d, attempts[..|attempts| - 1]);
    }
  }

  lemma NormalizeTwice(s: State)
    ensures Normalize(Normalize(s)) == Normalize(s)
  {
    var all := Normalize(s).conversations.value;
    var again := map c | c in all :: WithMessages(all[c]);
    forall c | c in all ensures again[c] == all[c] {
      assert all[c].messages.Some?;
    }
    assert again == all;
  }

  /** One more attempt that did not take effect. */
  lemma ExplainSkipped(s: State, attempts: seq<Attempt>, acks: seq<bool>, c: Option<Content>, last: Attempt)
    requires |acks| == |attempts| && Explained(s, attempts, acks, c)
    ensures Explained(s, attempts + [last], acks + [false], c)
  {
    var taken :| ExplainedBy(s, attempts, acks, c, taken);
    var more := taken + [false];
    assert (attempts + [last])[..|attempts|] == attempts && more[..|attempts|] == taken;
    assert ExplainedBy(s, attempts + [last], acks + [false], c, more);
  }

  /** One more attempt that replaced the file. */
  lemma ExplainTaken(s: State, attempts: seq<Attempt>, acks: seq<bool>, c: Option<Content>, last: Attempt, ack: bool)
    requires |acks| == |attempts| && Explained(s, attempts, acks, c) && last.update(Load(c).value).Some?
    requires last.stop > RENAME
    ensures Explained(s, attempts + [last], acks + [ack], Some(Sealed(Normalize(last.update(Load(c).value).value))))
  {
    var taken :| ExplainedBy(s, attempts, acks, c, taken);
    var more := taken + [true];
    var next := Normalize(last.update(Load(c).value).value);
    NormalizeTwice(last.update(Load(c).value).value);
    assert (attempts + [last])[..|attempts|] == attempts && more[..|attempts|] == taken;
    assert ExplainedBy(s, attempts + [last], acks + [ack], Some(Sealed(next)), more);
  }

  /**
   * Over any sequence of updates, each failing at any step and followed or not by a power loss, whatever the file
   * holds or could hold after a power loss is a readable state made by whole updates in order, and no update that
   * reported success is missing.
   */
  lemma {:induction false} UpdatesAreAtomicAndDurable(d: Disk, attempts: seq<Attempt>)
    requires Load(d.file).Ok? && d.survivors == {d.file} && CrashesValid(d, attempts)
    ensures var (d', acks) := Run(d, attempts);
            && |acks| == |attempts| && d'.file in d'.survivors
            && forall c :: c in d'.survivors ==> Explained(Load(d.file).value, attempts, acks, c)
    decreases |attempts|
  {
    hide Load, Normalize;
    var s := Load(d.file).value;
    if attempts == [] {
      assert ExplainedBy(s, attempts, [], d.file, []);
    } else {
      var n := |attempts| - 1;
      var front, last := attempts[..n], attempts[n];
      assert front + [last] == attempts;
      UpdatesAreAtomicAndDurable(d, front);
      var (before, acks) := Run(d, front);
      var (after, r) := UpdateOnce(before, last.update, last.readable, last.stop);
      hide Explained, UpdateOnce;
      forall c | c in after.survivors ensures Explained(s, attempts, acks + [r.Ok?], c) {
        AttemptStaysExplained(s, front, acks, before, last, c);
      }
      FileSurvives(before, last);
    }
  }

  lemma FileSurvives(before: Disk, last: Attempt)
    requires before.file in before.survivors
    ensures var after := UpdateOnce(before, last.update, last.readable, last.stop).0; after.file in after.survivors
  {
  }

  lemma AttemptStaysExplained(s: State, attempts: seq<Attempt>, acks: seq<bool>, before: Disk, last: Attempt, c: Option<Content>)
    requires |acks| == |attempts| && before.file in before.survivors
    requires forall b :: b in before.survivors ==> Explained(s, attempts, acks, b)
    requires c in UpdateOnce(before, last.update, last.readable, last.stop).0.survivors
    ensures Explained(s, attempts + [last], acks + [UpdateOnce(before, last.update, last.readable, last.stop).1.Ok?], c)
  {
    LoadsWhenExplained(s, attempts, acks, before.file);
    hide Load, Normalize, Explained;
    var r := UpdateOnce(before, last.update, last.readable, last.stop).1;
    if c in before.survivors && !r.Ok? {
      ExplainSkipped(s, attempts, acks, c, last);
    } else {
      ExplainTaken(s, attempts, acks, before.file, last, r.Ok?);
    }
  }

  lemma LoadsWhenExplained(s: State, attempts: seq<Attempt>, acks: seq<bool>, c: Option<Content>)
    requires |acks| == |attempts| && Explained(s, attempts, acks, c)
    ensures Load(c).Ok?
  {
  }

  /** The update accepts the state it reads, and the rename happens. */
  predicate TakesEffect(before: Disk, a: Attempt) {
    && Read(before.file, a.readable).Ok? && a.update(Read(before.file, a.readable).value).Some?
    && a.stop > RENAME
  }

  /** Which attempts of a run took effect when they were made. */
  function Effects(d: Disk, attempts: seq<Attempt>): seq<bool> {
    seq(|attempts|, i requires 0 <= i < |attempts| => TakesEffect(Run(d, attempts[..i]).0, attempts[i]))
  }

  /** Without power losses the file holds exactly the updates that took effect, in order. */
  lemma {:induction false} FileHoldsWhatTookEffect(d: Disk, attempts: seq<Attempt>)
    requires Load(d.file).Ok? && forall i :: 0 <= i < |attempts| ==> attempts[i].crash.None?
    ensures var d' := Run(d, attempts).0;
            Load(d'.file).Ok? && Replay(Load(d.file).value, attempts, Effects(d, attempts)) == Some(Load(d'.file).value)
    decreases |attempts|
  {
    if attempts == [] {
    } else {
      hide Load, Normalize, TakesEffect, UpdateOnce, Effects;
      var n := |attempts| - 1;
      FileHoldsWhatTookEffect(d, attempts[..n]);
      EffectsGrow(d, attempts);
      LastEffect(Run(d, attempts[..n]).0, attempts[n]);
    }
  }

  /**
   * An update reports success exactly if it took effect and the directory was forced too; so after an error the
   * change is there exactly when only the directory steps failed.
   */
  lemma {:induction false} ErrorsMayHideChanges(d: Disk, attempts: seq<Attempt>, i: nat)
    requires Load(d.file).Ok? && i < |attempts| && forall k :: 0 <= k < |attempts| ==> attempts[k].crash.None?
    ensures |Run(d, attempts).1| == |attempts|
    ensures Run(d, attempts).1[i] <==> Effects(d, attempts)[i] && attempts[i].stop >= STEPS
    decreases |attempts|
  {
    hide Load, Normalize, TakesEffect, UpdateOnce, Effects, Replay;
    var n := |attempts| - 1;
    var front := attempts[..n];
    RunAcks(d, front);
    EffectsGrow(d, attempts);
    if i < n {
      ErrorsMayHideChanges(d, front, i);
    } else {
      FileHoldsWhatTookEffect(d, front);
      LastEffect(Run(d, front).0, attempts[n]);
    }
  }

  lemma EffectsGrow(d: Disk, attempts: seq<Attempt>)
    requires attempts != []
    ensures var n := |attempts| - 1;
            && |Effects(d, attempts)| == n + 1 && Effects(d, attempts)[..n] == Effects(d, attempts[..n])
            && (Effects(d, attempts)[n] <==> TakesEffect(Run(d, attempts[..n]).0, attempts[n]))
  {
    hide TakesEffect, Run;
    var n := |attempts| - 1;
    forall i | 0 <= i < n ensures Effects(d, attempts)[i] == Effects(d, attempts[..n])[i] {
      assert attempts[..n][..i] == attempts[..i];
    }
  }

  lemma LastEffect(before: Disk, last: Attempt)
    requires Load(before.file).Ok?
    ensures var (after, r) := UpdateOnce(before, last.update, last.readable, last.stop);
            && Load(after.file).Ok? && (r.Ok? <==> TakesEffect(before, last) && last.stop >= STEPS)
            && Load(after.file).value == if TakesEffect(before, last)
                                         then Normalize(last.update(Load(before.file).value).value) else Load(before.file).value
  {
    if TakesEffect(before, last) {
      NormalizeTwice(last.update(Load(before.file).value).value);
    }
  }
}
