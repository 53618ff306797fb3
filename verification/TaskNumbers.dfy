/** Allocation of task numbers by `gsd2 new` under the mutation lock (apps/cli/src/gsd2.ts). */
module TaskNumbers {
  import opened Seqs

  // ------------------------------------------------------------------ STATE.md

  /** A line of STATE.md, as the two counter patterns see it. */
  datatype Line = SchemaVersion(number: nat) | NextNumber(number: nat) | OtherLine(text: string)

  const CURRENT_STATE_SCHEMA_VERSION := 1
  const MAX_TASK_NUMBER := 9999

  predicate IsVersion(l: Line) { l.SchemaVersion? }

  predicate IsCounter(l: Line) { l.NextNumber? }

  function LastMatch(lines: seq<Line>, matches: Line -> bool): Option<Line> {
    if lines == [] then None
    else if matches(lines[|lines| - 1]) then Some(lines[|lines| - 1])
    else LastMatch(lines[..|lines| - 1], matches)
  }

  /** The number on the last matching line; a zero counts as absent. */
  function LastNumber(lines: seq<Line>, matches: Line -> bool): Option<nat> {
    var last :- LastMatch(lines, matches);
    if last.OtherLine? || last.number == 0 then None else Some(last.number)
  }

  /** readNumberFromLastMatch: the loop keeps the last match it has seen. */
  method ReadNumberFromLastMatch(lines: seq<Line>, matches: Line -> bool) returns (r: Option<nat>)
    ensures r == LastNumber(lines, matches)
  {
    var last: Option<Line> := None;
    for i := 0 to |lines|
      invariant last == LastMatch(lines[..i], matches)
    {
      assert lines[..i + 1][..i] == lines[..i];
      if matches(lines[i]) {
        last := Some(lines[i]);
      }
    }
    assert lines[..|lines|] == lines;
    return if last.None? || last.value.OtherLine? || last.value.number == 0 then None else Some(last.value.number);
  }

  /** Line `k` is the last that matches, and it carries the number. */
  ghost predicate LastCarries(lines: seq<Line>, matches: Line -> bool, k: nat, number: nat) {
    && k < |lines| && matches(lines[k]) && !lines[k].OtherLine? && lines[k].number == number
    && forall j :: k < j < |lines| ==> !matches(lines[j])
  }

  lemma {:induction false} LastMatchFound(lines: seq<Line>, matches: Line -> bool) returns (k: nat)
    requires LastMatch(lines, matches).Some?
    ensures k < |lines| && matches(lines[k]) && LastMatch(lines, matches) == Some(lines[k])
    ensures forall j :: k < j < |lines| ==> !matches(lines[j])
  {
    k := |lines| - 1;
    if !matches(lines[k]) {
      var n := |lines| - 1;
      k := LastMatchFound(lines[..n], matches);
      assert forall j :: k < j < n ==> lines[..n][j] == lines[j];
    }
  }

  lemma {:induction false} LastMatchIs(lines: seq<Line>, matches: Line -> bool, k: nat)
    requires k < |lines| && matches(lines[k]) && forall j :: k < j < |lines| ==> !matches(lines[j])
    ensures LastMatch(lines, matches) == Some(lines[k])
  {
    var n := |lines| - 1;
    if k < n {
      assert forall j :: k <= j < n ==> lines[..n][j] == lines[j];
      LastMatchIs(lines[..n], matches, k);
    }
  }

  /** A number is read exactly when it is positive and stands on the last matching line. */
  lemma {:induction false} LastNumberMeaning(lines: seq<Line>, matches: Line -> bool, number: nat)
    ensures LastNumber(lines, matches) == Some(number) <==>
            number > 0 && exists k :: LastCarries(lines, matches, k, number)
  {
    if LastNumber(lines, matches) == Some(number) {
      var k := LastMatchFound(lines, matches);
      assert LastCarries(lines, matches, k, number);
    }
    if k: nat :| LastCarries(lines, matches, k, number) { LastMatchIs(lines, matches, k); }
  }

  function WithoutCounters(lines: seq<Line>): seq<Line> {
    if lines == [] then []
    else
      var n := |lines| - 1;
      var rest := WithoutCounters(lines[..n]);
      if lines[n].OtherLine? then rest + [lines[n]] else rest
  }

  /** Counter lines go, every other line stays where it is: line by line, and part by part. */
  lemma {:induction false} OtherLinesStay(a: seq<Line>, b: seq<Line>, l: Line)
    ensures WithoutCounters([l]) == if l.SchemaVersion? || l.NextNumber? then [] else [l]
    ensures WithoutCounters(a + b) == WithoutCounters(a) + WithoutCounters(b)
  {
    assert WithoutCounters([l][..0]) == [];
    if b == [] {
      assert a + b == a;
    } else {
      var n := |b| - 1;
      OtherLinesStay(a, b[..n], l);
      assert (a + b)[..|a| + n] == a + b[..n];
    }
  }

  const FRESH_STATE: seq<Line> := [OtherLine("# GSD-2 State"), OtherLine(""), OtherLine("Current status: initialized")]

  /** writeStateMarkdown: every old counter line goes, the new pair is appended. */
  function WriteState(state: Option<seq<Line>>, next: nat): seq<Line> {
    WithoutCounters(if state.Some? then state.value else FRESH_STATE)
    + [SchemaVersion(CURRENT_STATE_SCHEMA_VERSION), NextNumber(next)]
  }

  function Version(lines: seq<Line>): Option<nat> { LastNumber(lines, IsVersion) }

  function Counter(lines: seq<Line>): Option<nat> { LastNumber(lines, IsCounter) }

  /** A rewritten file has the current version and exactly the counter written. */
  lemma {:induction false} WrittenReadsBack(state: Option<seq<Line>>, next: nat)
    ensures var lines := WriteState(state, next);
            Version(lines) == Some(1) && Counter(lines) == if next == 0 then None else Some(next)
  {
    var lines := WriteState(state, next);
    var n := |lines|;
    assert lines[n - 1] == NextNumber(next) && lines[n - 2] == SchemaVersion(1);
    assert lines[..n - 1][n - 2] == SchemaVersion(1);
    assert LastMatch(lines[..n - 1], IsVersion) == Some(SchemaVersion(1));
  }

  // -------------------------------------------------------------- directories

  function MaxOf(dirs: seq<nat>): nat {
    if dirs == [] then 0
    else
      var rest := MaxOf(dirs[..|dirs| - 1]);
      if dirs[|dirs| - 1] > rest then dirs[|dirs| - 1] else rest
  }

  lemma {:induction false} MaxOfBounds(dirs: seq<nat>, d: nat)
    requires d in dirs
    ensures d <= MaxOf(dirs)
  {
    var n := |dirs| - 1;
    if d != dirs[n] { MaxOfBounds(dirs[..n], d); }
  }

  lemma {:induction false} MaxOfAttained(dirs: seq<nat>)
    ensures dirs == [] || MaxOf(dirs) in dirs
  {
    if |dirs| > 1 {
      var n := |dirs| - 1;
      MaxOfAttained(dirs[..n]);
      if MaxOf(dirs) != dirs[n] { assert MaxOf(dirs[..n]) in dirs[..n]; }
    } else if |dirs| == 1 {
      assert MaxOf(dirs[..0]) == 0;
      assert MaxOf(dirs) == dirs[0];
    }
  }

  /** MaxOf is the largest number of the list, and 0 for the empty list. */
  lemma {:induction false} MaxOfMeaning(dirs: seq<nat>)
    ensures forall d :: d in dirs ==> d <= MaxOf(dirs)
    ensures if dirs == [] then MaxOf(dirs) == 0 else MaxOf(dirs) in dirs
  {
    MaxOfAttained(dirs);
    forall d | d in dirs ensures d <= MaxOf(dirs) { MaxOfBounds(dirs, d); }
  }

  /** maxTaskDirectoryNumber: the largest number of a task directory, or 0. */
  method MaxTaskDirectoryNumber(dirs: seq<nat>) returns (max: nat)
    ensures forall d :: d in dirs ==> d <= max
    ensures if dirs == [] then max == 0 else max in dirs
    ensures max == MaxOf(dirs)
  {
    MaxOfMeaning(dirs);
    max := 0;
    for i := 0 to |dirs|
      invariant max == MaxOf(dirs[..i])
    {
      assert dirs[..i + 1][..i] == dirs[..i];
      max := if dirs[i] > max then dirs[i] else max;
    }
    assert dirs[..|dirs|] == dirs;
  }

  /** What nextTaskNumber makes of the largest directory number and STATE.md. */
  function NumberAfter(max: nat, state: Option<seq<Line>>): (r: Option<nat>)
    ensures r.Some? ==> 1 <= r.value <= MAX_TASK_NUMBER && r.value > max
  {
    var counter := if state.Some? then Counter(state.value) else None;
    var floor := if counter.Some? then counter.value else 1;
    var next := if max + 1 > floor then max + 1 else floor;
    if next > MAX_TASK_NUMBER then None else Some(next)
  }

  /** nextTaskNumber: past every directory and not below the counter, or nothing when ids run out. */
  function NextTaskNumber(dirs: seq<nat>, state: Option<seq<Line>>): Option<nat> { NumberAfter(MaxOf(dirs), state) }

  /** The number is past every directory and not below the counter, if there is one. */
  ghost predicate Free(dirs: seq<nat>, counter: Option<nat>, number: nat) {
    number >= 1 && (forall d :: d in dirs ==> d < number) && (counter.Some? ==> counter.value <= number)
  }

  /** The number allocated is the least that is free, and there is none exactly when that one is past 9999. */
  lemma {:induction false} NextIsLeastFree(dirs: seq<nat>, state: Option<seq<Line>>)
    ensures var counter := if state.Some? then Counter(state.value) else None;
            var next := NextTaskNumber(dirs, state);
            && (next.Some? <==> exists number: nat :: Free(dirs, counter, number) && number <= 9999)
            && (next.Some? ==> next.value <= 9999 && Free(dirs, counter, next.value))
            && (next.Some? ==> forall number: nat :: Free(dirs, counter, number) ==> next.value <= number)
  {
    MaxOfMeaning(dirs);
    var counter := if state.Some? then Counter(state.value) else None;
    var next := NextTaskNumber(dirs, state);
    if next.Some? { assert Free(dirs, counter, next.value); }
    forall number: nat | Free(dirs, counter, number)
      ensures MaxOf(dirs) < number && (next.Some? ==> next.value <= number) && (number <= 9999 ==> next.Some?)
    {
    }
  }

  /** An allocated number is not that of any directory. */
  lemma {:induction false} PastEveryDirectory(dirs: seq<nat>, state: Option<seq<Line>>, d: nat)
    requires NextTaskNumber(dirs, state).Some? && d in dirs
    ensures d < NextTaskNumber(dirs, state).value
  {
    MaxOfBounds(dirs, d);
  }

  // ------------------------------------------------------------- the machine

  datatype Command = New | Prepare

  /** Why STATE.md is written: it was missing, it had no version, or a number was taken. */
  datatype Purpose = ForNew | ForMigration | ForNumber(number: nat)

  /** Where a process stands; every step below is one access to the shared files. */
  datatype Pc =
    | Starting
    | Initializing
    | Sizing(why: Purpose)
    | Loading(next: nat, why: Purpose)
    | Storing(lines: seq<Line>, why: Purpose)
    | Migrating
    | Scanning
    | Reading(max: nat)
    | Making(number: nat)
    | Printing(number: nat)
    | Releasing(printed: Option<nat>)
    | Done(printed: Option<nat>)
    | Crashed

  datatype Proc = Proc(command: Command, pc: Pc)

  datatype Issue = Issue(proc: nat, number: nat)

  /** The lock file with its creator, STATE.md, task directories, processes, and what has been printed. */
  datatype World = World(
    lock: Option<nat>, state: Option<seq<Line>>, dirs: seq<nat>, procs: seq<Proc>, printed: seq<Issue>)

  predicate Inside(p: Proc) { !p.pc.Starting? && !p.pc.Done? && !p.pc.Crashed? }

  function Goto(w: World, i: nat, pc: Pc): World
    requires i < |w.procs|
  {
    w.(procs := w.procs[i := w.procs[i].(pc := pc)])
  }

  /** Where a command goes on once the schema is in order. */
  function Allocating(command: Command): Pc { if command.New? then Scanning else Releasing(None) }

  function Migrate(w: World, i: nat): World
    requires i < |w.procs|
  {
    if w.state.None? then Goto(w, i, Allocating(w.procs[i].command))
    else
      var version := Version(w.state.value);
      if version.None? then
        var counter := Counter(w.state.value);
        Goto(w, i, if counter.Some? then Loading(counter.value, ForMigration) else Sizing(ForMigration))
      else if version.value != CURRENT_STATE_SCHEMA_VERSION then Goto(w, i, Releasing(None))
      else Goto(w, i, Allocating(w.procs[i].command))
  }

  function AfterStoring(command: Command, why: Purpose): Pc {
    match why
    case ForNew => Migrating
    case ForMigration => Allocating(command)
    case ForNumber(number) => Printing(number)
  }

  /** One step of one process. */
  function Act(w: World, i: nat): (v: World)
    requires i < |w.procs|
    ensures |v.procs| == |w.procs|
  {
    match w.procs[i].pc
    case Starting =>
      if w.lock.Some? then Goto(w, i, Done(None))
      else Goto(w.(lock := Some(i)), i, if w.procs[i].command.New? then Initializing else Migrating)
    case Initializing => Goto(w, i, if w.state.None? then Sizing(ForNew) else Migrating)
    case Sizing(why) => Goto(w, i, Loading(MaxOf(w.dirs) + 1, why))
    case Loading(next, why) => Goto(w, i, Storing(WriteState(w.state, next), why))
    case Storing(lines, why) => Goto(w.(state := Some(lines)), i, AfterStoring(w.procs[i].command, why))
    case Migrating => Migrate(w, i)
    case Scanning => Goto(w, i, Reading(MaxOf(w.dirs)))
    case Reading(max) =>
      var next := NumberAfter(max, w.state);
      Goto(w, i, if next.None? then Releasing(None) else Making(next.value))
    case Making(number) => Goto(w.(dirs := w.dirs + [number]), i, Loading(number + 1, ForNumber(number)))
    case Printing(number) => Goto(w.(printed := w.printed + [Issue(i, number)]), i, Releasing(Some(number)))
    case Releasing(printed) => Goto(w.(lock := None), i, Done(printed))
    case _ => w
  }

  ghost predicate Begins(w: World, v: World, command: Command) { v == w.(procs := w.procs + [Proc(command, Starting)]) }

  ghost predicate Acts(w: World, v: World, i: nat) { i < |w.procs| && v == Act(w, i) }

  ghost predicate Crashes(w: World, v: World, i: nat) {
    i < |w.procs| && !w.procs[i].pc.Done? && v == Goto(w, i, Crashed)
  }

  /** An exception inside the locked section: the lock is released and nothing is printed. */
  ghost predicate Fails(w: World, v: World, i: nat) {
    i < |w.procs| && Inside(w.procs[i]) && !w.procs[i].pc.Releasing? && v == Goto(w, i, Releasing(None))
  }

  /** The lock file is created, but recording the process in it fails: the call is refused and the file stays. */
  ghost predicate Jams(w: World, v: World, i: nat) {
    i < |w.procs| && w.procs[i].pc.Starting? && w.lock.None? && v == Goto(w.(lock := Some(i)), i, Done(None))
  }

  /** Task directories may be deleted at any time; the lock file only once its creator is no longer at work. */
  ghost predicate Deletes(w: World, v: World) { v == w.(dirs := v.dirs) && forall d :: d in v.dirs ==> d in w.dirs }

  ghost predicate Unlocks(w: World, v: World) {
    w.lock.Some? && w.lock.value < |w.procs| && !Inside(w.procs[w.lock.value]) && v == w.(lock := None)
  }

  ghost predicate Next(w: World, v: World) {
    || (exists command :: Begins(w, v, command))
    || (exists i :: Acts(w, v, i))
    || (exists i :: Crashes(w, v, i))
    || (exists i :: Fails(w, v, i))
    || (exists i :: Jams(w, v, i))
    || Deletes(w, v)
    || Unlocks(w, v)
  }

  ghost predicate Initial(w: World) { w.lock.None? && w.procs == [] && w.printed == [] }

  ghost predicate Run(run: seq<World>) {
    run != [] && Initial(run[0]) && forall k :: 0 <= k < |run| - 1 ==> Next(run[k], run[k + 1])
  }

  // -------------------------------------------------------------- invariants

  ghost predicate Increasing(printed: seq<Issue>) {
    forall i, j :: 0 <= i < j < |printed| ==> printed[i].number < printed[j].number
  }

  /** Everything printed so far lies below `bound`. */
  ghost predicate Below(printed: seq<Issue>, bound: nat) {
    forall i :: 0 <= i < |printed| ==> 1 <= printed[i].number <= MAX_TASK_NUMBER && printed[i].number < bound
  }

  /** Once a number is out, STATE.md is there, in the current schema, with a counter past every number. */
  ghost predicate StateAhead(w: World) {
    w.printed != [] ==>
      && w.state.Some? && Version(w.state.value) == Some(1)
      && Counter(w.state.value).Some? && Below(w.printed, Counter(w.state.value).value)
  }

  predicate Writes(p: Proc) { p.pc.Sizing? || p.pc.Loading? || p.pc.Storing? }

  ghost predicate Fits(printed: seq<Issue>, number: nat) { 1 <= number <= MAX_TASK_NUMBER && Below(printed, number) }

  ghost predicate CountsPast(lines: seq<Line>, number: nat) {
    Version(lines) == Some(1) && Counter(lines) == Some(number + 1)
  }

  ghost predicate ProcHolds(w: World, i: nat)
    requires i < |w.procs|
  {
    var p := w.procs[i];
    && (Inside(p) ==> w.lock == Some(i))
    && (Writes(p) && !p.pc.why.ForNumber? ==> w.printed == [])
    && (Writes(p) && p.pc.why.ForNumber? ==> !p.pc.Sizing? && Fits(w.printed, p.pc.why.number))
    && (p.pc.Loading? && p.pc.why.ForNumber? ==> p.pc.next == p.pc.why.number + 1)
    && (p.pc.Storing? && p.pc.why.ForNumber? ==> CountsPast(p.pc.lines, p.pc.why.number))
    && (p.pc.Making? ==> Fits(w.printed, p.pc.number))
    && (p.pc.Printing? ==> Fits(w.printed, p.pc.number) && w.state.Some? && CountsPast(w.state.value, p.pc.number))
    && ((p.pc.Releasing? || p.pc.Done?) && p.pc.printed.Some? ==> Issue(i, p.pc.printed.value) in w.printed)
  }

  ghost predicate Inv(w: World) {
    && (w.lock.Some? ==> w.lock.value < |w.procs|)
    && Increasing(w.printed) && StateAhead(w)
    && forall i :: 0 <= i < |w.procs| ==> ProcHolds(w, i)
  }
}
