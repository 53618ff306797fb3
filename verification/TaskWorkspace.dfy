/** `gsd2 new` run by itself on one workspace (apps/cli/src/gsd2.ts). */
module TaskWorkspace {
  import opened Seqs
  import opened TaskNumbers

  /** STATE.md after the initialization and migration that precede an allocation. */
  function Prepared(state: Option<seq<Line>>, dirs: seq<nat>): Option<seq<Line>> {
    var lines := if state.Some? then state.value else WriteState(None, MaxOf(dirs) + 1);
    var version := Version(lines);
    if version.None? then
      var counter := Counter(lines);
      Some(WriteState(Some(lines), if counter.Some? then counter.value else MaxOf(dirs) + 1))
    else if version.value != CURRENT_STATE_SCHEMA_VERSION then None
    else Some(lines)
  }

  /** The number of the counter pair that a missing or unversioned STATE.md is given. */
  ghost predicate FirstCounter(dirs: seq<nat>, number: nat) {
    number >= 1 && (forall d :: d in dirs ==> d < number) && (number == 1 || number - 1 in dirs)
  }

  /**
   * Preparation refuses exactly an unknown version. It leaves a current file as it is; otherwise the file it leaves has
   * the current version and the counter it held, or one past the largest directory, after the lines it held.
   */
  lemma {:induction false} PreparedMeaning(state: Option<seq<Line>>, dirs: seq<nat>)
    ensures var p := Prepared(state, dirs);
            var lines := if state.Some? then state.value else [];
            && (p.None? <==> state.Some? && Version(lines).Some? && Version(lines) != Some(1))
            && (p.Some? && state.Some? && Version(lines).Some? ==> p == state)
            && (p.Some? && Version(lines).None? ==>
                  && Version(p.value) == Some(1) && Counter(p.value).Some?
                  && (if Counter(lines).Some? then Counter(p.value) == Counter(lines)
                      else FirstCounter(dirs, Counter(p.value).value))
                  && (state.Some? ==>
                        p.value == WithoutCounters(lines) + [SchemaVersion(1), NextNumber(Counter(p.value).value)]))
  {
    MaxOfMeaning(dirs);
    WrittenReadsBack(None, MaxOf(dirs) + 1);
    if state.Some? {
      var counter := Counter(state.value);
      WrittenReadsBack(state, if counter.Some? then counter.value else MaxOf(dirs) + 1);
    }
  }

  class Workspace {
    var locked: bool
    var state: Option<seq<Line>>
    var dirs: seq<nat>

    /** acquireMutationLock; a file that was created but could not be written (`recorded` is false) stays. */
    method AcquireMutationLock(recorded: bool) returns (ok: bool)
      modifies `locked
      ensures ok <==> !old(locked) && recorded
      ensures locked
    {
      ok := !locked && recorded;
      locked := true;
    }

    /** migrateStateSchema, on an existing STATE.md. */
    method MigrateStateSchema() returns (ok: bool)
      requires state.Some?
      modifies `state
      ensures ok <==> Prepared(old(state), dirs).Some?
      ensures state == if ok then Prepared(old(state), dirs) else old(state)
    {
      var version := ReadNumberFromLastMatch(state.value, IsVersion);
      if version.None? {
        var counter := ReadNumberFromLastMatch(state.value, IsCounter);
        var max := MaxTaskDirectoryNumber(dirs);
        state := Some(WriteState(state, if counter.Some? then counter.value else max + 1));
        return true;
      }
      return version.value == CURRENT_STATE_SCHEMA_VERSION;
    }

    /** STATE.md is created if it is missing, and migrated. */
    method PrepareState() returns (ok: bool)
      modifies `state
      ensures ok <==> Prepared(old(state), dirs).Some?
      ensures ok ==> state == Prepared(old(state), dirs)
    {
      if state.None? {
        var max := MaxTaskDirectoryNumber(dirs);
        state := Some(WriteState(None, max + 1));
      }
      ok := MigrateStateSchema();
    }

    /** What runNew does inside the locked section. */
    method Allocate() returns (r: Option<nat>)
      modifies `state, `dirs
      ensures r == Allocated(old(state), old(dirs))
      ensures r.Some? ==> dirs == old(dirs) + [r.value] && state.Some?
      ensures r.Some? ==> Counter(state.value) == Some(r.value + 1) && Version(state.value) == Some(1)
    {
      var prepared := PrepareState();
      if !prepared {
        return None;
      }
      r := NextTaskNumber(dirs, state);
      if r.Some? {
        dirs := dirs + [r.value];
        WrittenReadsBack(state, r.value + 1);
        state := Some(WriteState(state, r.value + 1));
      }
    }

    /** runNew: the number it returns is past every directory and every number the counter has passed. */
    method RunNew(recorded: bool) returns (r: Option<nat>)
      modifies this
      ensures old(locked) || !recorded ==> r.None? && locked && state == old(state) && dirs == old(dirs)
      ensures !old(locked) && recorded ==> !locked
      ensures !old(locked) && recorded ==> r == Allocated(old(state), old(dirs))
      ensures r.Some? ==> dirs == old(dirs) + [r.value] && state.Some?
      ensures r.Some? ==> Counter(state.value) == Some(r.value + 1) && Version(state.value) == Some(1)
      ensures r.Some? ==> r.value > MaxOf(old(dirs)) && 1 <= r.value <= MAX_TASK_NUMBER
    {
      var acquired := AcquireMutationLock(recorded);
      if !acquired {
        return None;
      }
      r := Allocate();
      locked := false;
    }
  }

  /** After an allocation the next one, whatever directories were deleted meanwhile, is larger. */
  lemma {:induction false} NextIsLarger(state: seq<Line>, n: nat, dirs: seq<nat>)
    requires Version(state) == Some(1) && Counter(state) == Some(n + 1) && NextTaskNumber(dirs, Some(state)).Some?
    ensures Prepared(Some(state), dirs) == Some(state) && NextTaskNumber(dirs, Some(state)).value > n
  {
  }

  // ------------------------------------------------- the same call as steps

  function Allocated(state: Option<seq<Line>>, dirs: seq<nat>): Option<nat> {
    var p :- Prepared(state, dirs);
    NextTaskNumber(dirs, Some(p))
  }

  /** A process that alone takes `n` steps. */
  function Alone(w: World, i: nat, n: nat): (r: World)
    requires i < |w.procs|
    ensures |r.procs| == |w.procs|
    decreases n
  {
    if n == 0 then w else Alone(Act(w, i), i, n - 1)
  }

  lemma {:induction false} AloneMore(w: World, i: nat, m: nat, n: nat)
    requires i < |w.procs|
    ensures Alone(w, i, m + n) == Alone(Alone(w, i, m), i, n)
    decreases m
  {
    if m > 0 { AloneMore(Act(w, i), i, m - 1, n); }
  }

  lemma {:induction false} AloneTwo(w: World, i: nat)
    requires i < |w.procs|
    ensures Alone(w, i, 1) == Act(w, i) && Alone(w, i, 2) == Act(Act(w, i), i)
  {
    var v := Act(w, i);
    assert Alone(v, i, 0) == v;
    assert Alone(Act(v, i), i, 0) == Act(v, i);
    assert Alone(v, i, 1) == Act(v, i);
  }

  /** STATE.md is read and written back, in two steps. */
  lemma {:induction false} AloneWrites(w: World, i: nat)
    requires i < |w.procs| && w.procs[i].pc.Loading?
    ensures var pc := w.procs[i].pc;
            var v := Alone(w, i, 2);
            && v.procs[i] == Proc(w.procs[i].command, AfterStoring(w.procs[i].command, pc.why))
            && v.state == Some(WriteState(w.state, pc.next)) && v.dirs == w.dirs && v.lock == w.lock
  {
    AloneTwo(w, i);
  }

  /** From a chosen number to its release. */
  lemma {:induction false} AloneMakes(w: World, i: nat)
    requires i < |w.procs| && w.procs[i].pc.Making?
    ensures Alone(w, i, 5).procs[i].pc == Done(Some(w.procs[i].pc.number)) && Alone(w, i, 5).lock.None?
  {
    AloneTwo(w, i);
    var a := Alone(w, i, 1);
    AloneWrites(a, i);
    var b := Alone(a, i, 2);
    AloneTwo(b, i);
    AloneMore(a, i, 2, 2);
    AloneMore(w, i, 1, 4);
  }

  /** From the scan of the directories to the release of the lock. */
  lemma {:induction false} AloneFinishes(w: World, i: nat) returns (n: nat)
    requires i < |w.procs| && w.procs[i].pc.Scanning?
    ensures Alone(w, i, n).procs[i].pc == Done(NextTaskNumber(w.dirs, w.state)) && Alone(w, i, n).lock.None?
  {
    AloneTwo(w, i);
    var a := Alone(w, i, 2);
    if NextTaskNumber(w.dirs, w.state).Some? {
      AloneMakes(a, i);
      n := 7;
      AloneMore(w, i, 2, 5);
    } else {
      AloneTwo(a, i);
      n := 3;
      AloneMore(w, i, 2, 1);
    }
  }

  /** The size of the directories decides the first counter. */
  lemma {:induction false} AloneSizes(w: World, i: nat)
    requires i < |w.procs| && w.procs[i].pc.Sizing?
    ensures var v := Alone(w, i, 3);
            && v.procs[i] == Proc(w.procs[i].command, AfterStoring(w.procs[i].command, w.procs[i].pc.why))
            && v.state == Some(WriteState(w.state, MaxOf(w.dirs) + 1)) && v.dirs == w.dirs
  {
    AloneTwo(w, i);
    AloneWrites(Alone(w, i, 1), i);
    AloneMore(w, i, 1, 2);
  }

  /** Migration ends at the scan of the directories, or releases at once if the schema is unknown. */
  lemma {:induction false} AloneMigrates(w: World, i: nat) returns (n: nat)
    requires i < |w.procs| && w.procs[i] == Proc(New, Migrating) && w.state.Some?
    ensures var v := Alone(w, i, n);
            var p := Prepared(w.state, w.dirs);
            if p.None? then v.procs[i].pc == Releasing(None)
            else v.procs[i].pc.Scanning? && v.state == p && v.dirs == w.dirs
  {
    AloneTwo(w, i);
    n := 1;
    if Version(w.state.value).None? {
      var a := Alone(w, i, 1);
      if Counter(w.state.value).Some? {
        AloneWrites(a, i);
        n := 3;
        AloneMore(w, i, 1, 2);
      } else {
        AloneSizes(a, i);
        n := 4;
        AloneMore(w, i, 1, 3);
      }
    }
  }

  lemma {:induction false} AloneInitializes(w: World, i: nat) returns (n: nat)
    requires i < |w.procs| && w.procs[i] == Proc(New, Starting) && w.lock.None?
    ensures var v := Alone(w, i, n);
            v.procs[i] == Proc(New, Migrating) && v.dirs == w.dirs
            && v.state == Some(if w.state.Some? then w.state.value else WriteState(None, MaxOf(w.dirs) + 1))
  {
    AloneTwo(w, i);
    n := 2;
    if w.state.None? {
      AloneSizes(Alone(w, i, 2), i);
      AloneMore(w, i, 2, 3);
      n := 5;
    }
  }

  lemma {:induction false} AlonePrepares(w: World, i: nat) returns (n: nat)
    requires i < |w.procs| && w.procs[i] == Proc(New, Starting) && w.lock.None?
    ensures var v := Alone(w, i, n);
            var p := Prepared(w.state, w.dirs);
            if p.None? then v.procs[i].pc == Releasing(None)
            else v.procs[i].pc.Scanning? && v.state == p && v.dirs == w.dirs
  {
    var m := AloneInitializes(w, i);
    var v := Alone(w, i, m);
    var k := AloneMigrates(v, i);
    AloneMore(w, i, m, k);
    n := m + k;
    assert Prepared(v.state, v.dirs) == Prepared(w.state, w.dirs);
  }

  /** An undisturbed process allocates, step by step, what RunNew allocates, and frees the lock. */
  lemma {:induction false} AloneAllocates(w: World, i: nat) returns (n: nat)
    requires i < |w.procs| && w.procs[i] == Proc(New, Starting) && w.lock.None?
    ensures Alone(w, i, n).procs[i].pc == Done(Allocated(w.state, w.dirs)) && Alone(w, i, n).lock.None?
  {
    var m := AlonePrepares(w, i);
    var v := Alone(w, i, m);
    var k := 1;
    if Prepared(w.state, w.dirs).Some? { k := AloneFinishes(v, i); } else { AloneTwo(v, i); }
    AloneMore(w, i, m, k);
    n := m + k;
  }
}
