/** No task number is issued twice, in any interleaving with crashes, failures, deletions and stale-lock removal. */
module TaskNumberSafety {
  import opened Seqs
  import opened TaskNumbers

  /** Only the lock's creator is inside; when another process is inside, a step can only be a refused start. */
  lemma {:induction false} OnlyOneMoves(w: World, i: nat, j: nat)
    requires Inv(w) && i < |w.procs| && j < |w.procs| && i != j && Inside(w.procs[j])
    ensures Act(w, i) == w || Act(w, i) == Goto(w, i, Done(None))
  {
    assert ProcHolds(w, i) && ProcHolds(w, j);
  }

  lemma {:induction false} PrintedGrows(w: World, i: nat)
    requires i < |w.procs|
    ensures w.printed <= Act(w, i).printed && |Act(w, i).procs| == |w.procs|
    ensures forall j :: 0 <= j < |w.procs| && j != i ==> Act(w, i).procs[j] == w.procs[j]
  {
  }

  lemma {:induction false} BystanderHolds(w: World, i: nat, j: nat)
    requires Inv(w) && i < |w.procs| && j < |w.procs| && i != j
    ensures j < |Act(w, i).procs| && ProcHolds(Act(w, i), j)
  {
    PrintedGrows(w, i);
    assert ProcHolds(w, j);
    if Inside(w.procs[j]) { OnlyOneMoves(w, i, j); }
  }

  lemma {:induction false} BelowMore(printed: seq<Issue>, issue: Issue, bound: nat)
    requires Below(printed, issue.number) && 1 <= issue.number <= MAX_TASK_NUMBER && issue.number < bound
    ensures Below(printed + [issue], bound)
  {
  }

  /** The number about to be used lies past everything printed. */
  lemma {:induction false} NumberIsNew(w: World, max: nat)
    requires Inv(w) && NumberAfter(max, w.state).Some?
    ensures Below(w.printed, NumberAfter(max, w.state).value)
  {
  }

  /** The process that moves keeps its own part of the invariant. */
  lemma {:induction false} MoverHolds(w: World, i: nat)
    requires Inv(w) && i < |w.procs|
    ensures i < |Act(w, i).procs| && ProcHolds(Act(w, i), i)
  {
    assert ProcHolds(w, i);
    var pc := w.procs[i].pc;
    if pc.Reading? {
      if NumberAfter(pc.max, w.state).Some? { NumberIsNew(w, pc.max); }
    } else if pc.Loading? {
      WrittenReadsBack(w.state, pc.next);
    } else if pc.Printing? {
      assert Issue(i, pc.number) in w.printed + [Issue(i, pc.number)];
    }
  }

  lemma {:induction false} StateStaysAhead(w: World, i: nat)
    requires Inv(w) && i < |w.procs|
    ensures Increasing(Act(w, i).printed) && StateAhead(Act(w, i))
  {
    assert ProcHolds(w, i);
    var pc := w.procs[i].pc;
    if pc.Printing? {
      BelowMore(w.printed, Issue(i, pc.number), pc.number + 1);
    }
  }

  lemma {:induction false} ActStep(w: World, i: nat)
    requires Inv(w) && i < |w.procs|
    ensures Inv(Act(w, i))
  {
    var v := Act(w, i);
    PrintedGrows(w, i);
    StateStaysAhead(w, i);
    forall j | 0 <= j < |v.procs| ensures ProcHolds(v, j) {
      if j == i { MoverHolds(w, i); } else { BystanderHolds(w, i, j); }
    }
  }

  lemma {:induction false} OtherStep(w: World, v: World)
    requires Inv(w)
    requires || (exists command :: Begins(w, v, command)) || (exists i :: Crashes(w, v, i))
             || (exists i :: Fails(w, v, i))
             || (exists i :: Jams(w, v, i)) || Deletes(w, v) || Unlocks(w, v)
    ensures Inv(v)
  {
    forall j | 0 <= j < |v.procs| ensures ProcHolds(v, j) {
      if j < |w.procs| { assert ProcHolds(w, j); }
    }
  }

  lemma {:induction false} InvStep(w: World, v: World)
    requires Inv(w) && Next(w, v)
    ensures Inv(v)
  {
    if i: nat :| Acts(w, v, i) { ActStep(w, i); } else { OtherStep(w, v); }
  }

  lemma {:induction false} InvRun(run: seq<World>, k: nat)
    requires Run(run) && k < |run|
    ensures Inv(run[k])
  {
    if k > 0 {
      InvRun(run, k - 1);
      assert Next(run[k - 1], run[k - 1 + 1]);
      InvStep(run[k - 1], run[k]);
    }
  }

  // ------------------------------------------------------------ the theorems

  /** At most one process is inside the locked section. */
  lemma {:induction false} AtMostOneInside(run: seq<World>, k: nat, i: nat, j: nat)
    requires Run(run) && k < |run| && i < |run[k].procs| && j < |run[k].procs|
    requires Inside(run[k].procs[i]) && Inside(run[k].procs[j])
    ensures i == j
  {
    InvRun(run, k);
    assert ProcHolds(run[k], i) && ProcHolds(run[k], j);
  }

  /** The numbers printed, in order, strictly increase and lie in 1..9999. */
  lemma {:induction false} PrintedIncrease(run: seq<World>, k: nat)
    requires Run(run) && k < |run|
    ensures Increasing(run[k].printed)
    ensures forall i :: 0 <= i < |run[k].printed| ==> 1 <= run[k].printed[i].number <= MAX_TASK_NUMBER
  {
    InvRun(run, k);
  }

  /** Two completed calls never return the same number, and the one printed later returns the larger. */
  lemma {:induction false} CompletedCallsDiffer(run: seq<World>, k: nat, i: nat, j: nat)
    requires Run(run) && k < |run| && i < |run[k].procs| && j < |run[k].procs| && i != j
    requires run[k].procs[i].pc.Done? && run[k].procs[i].pc.printed.Some?
    requires run[k].procs[j].pc.Done? && run[k].procs[j].pc.printed.Some?
    ensures run[k].procs[i].pc.printed != run[k].procs[j].pc.printed
  {
    InvRun(run, k);
    var w := run[k];
    assert ProcHolds(w, i) && ProcHolds(w, j);
    var a :| 0 <= a < |w.printed| && w.printed[a] == Issue(i, w.procs[i].pc.printed.value);
    var b :| 0 <= b < |w.printed| && w.printed[b] == Issue(j, w.procs[j].pc.printed.value);
  }

  lemma {:induction false} StepKeepsPrinted(w: World, v: World)
    requires Next(w, v)
    ensures w.printed <= v.printed
  {
    if i: nat :| Acts(w, v, i) { PrintedGrows(w, i); }
  }

  /** Printed numbers are never taken back, so whatever is printed later is larger than all before it. */
  lemma {:induction false} LaterIsLarger(run: seq<World>, j: nat, k: nat, a: nat, b: nat)
    requires Run(run) && j <= k < |run| && a < |run[j].printed| <= b < |run[k].printed|
    ensures run[j].printed[a].number < run[k].printed[b].number
  {
    PrintedKept(run, j, k);
    PrintedIncrease(run, k);
  }

  lemma {:induction false} PrintedKept(run: seq<World>, j: nat, k: nat)
    requires Run(run) && j <= k < |run|
    ensures run[j].printed <= run[k].printed
  {
    if j < k {
      PrintedKept(run, j, k - 1);
      assert Next(run[k - 1], run[k - 1 + 1]);
      StepKeepsPrinted(run[k - 1], run[k]);
    }
  }
}
