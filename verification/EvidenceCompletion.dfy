/** What an evidence-store operation has written by the time it finishes: every record it names, and every binding. */
module EvidenceCompletion {
  import opened Seqs
  import opened EvidenceFiles
  import opened EvidencePublication
  import opened EvidenceStore

  /** A record lies, whole, under the hash of its own encoding. */
  ghost predicate Stored(h: Host, fs: Fs, r: Record) { Shows(fs, Blob(h.sha(h.encode(r))), h.encode(r)) }

  ghost predicate Bound(h: Host, fs: Fs, r: Record) { IsBinding(r) && Shows(fs, IdentityPath(h, r), h.encode(r)) }

  function ResultOf(h: Host, op: Op, input: string): Record
    requires op.PersistResult?
  {
    ResultRecord(CommonOf(h, op, input))
  }

  /** Only a successful outcome has a result record, and the evidence names it. */
  function ResultDigest(h: Host, op: Op, input: string): Option<string>
    requires op.PersistResult?
  {
    if op.result.outcome.Succeeded? then Some(h.sha(h.encode(ResultOf(h, op, input)))) else None
  }

  function EvidenceOf(h: Host, op: Op, input: string): Record
    requires op.PersistResult?
  {
    EvidenceRecord(CommonOf(h, op, input), ResultDigest(h, op, input))
  }

  ghost predicate ResultStored(h: Host, fs: Fs, op: Op, input: string)
    requires op.PersistResult?
  {
    op.result.outcome.Succeeded? ==> Stored(h, fs, ResultOf(h, op, input))
  }

  ghost predicate EvidenceStored(h: Host, fs: Fs, op: Op, input: string, evidence: string)
    requires op.PersistResult?
  {
    && ResultStored(h, fs, op, input) && Stored(h, fs, EvidenceOf(h, op, input))
    && evidence == h.sha(h.encode(EvidenceOf(h, op, input)))
  }

  function RequestBindingOf(h: Host, op: Op, evidence: string): Record
    requires op.PersistResult?
  {
    RequestBinding(RunOf(h, op), ActionOf(h, op), h.sha(h.text(op.result.requestRef)), op.result.requestDigest,
                   evidence)
  }

  /** Result, evidence and both bindings of a result operation are in place, and so is the input they rest on. */
  ghost predicate ResultComplete(h: Host, fs: Fs, op: Op, input: string, evidence: string)
    requires op.PersistResult?
  {
    && InputIntact(h, fs, RunOf(h, op), ActionOf(h, op), input)
    && EvidenceStored(h, fs, op, input, evidence)
    && Bound(h, fs, RequestBindingOf(h, op, evidence))
    && Bound(h, fs, ActionBinding(RunOf(h, op), ActionOf(h, op), evidence))
  }

  /** What each stage has already written. */
  ghost predicate Written(h: Host, fs: Fs, op: Op, stage: Stage) {
    match stage
    case BindingInput => op.PersistInput? ==> Shows(fs, Blob(op.digest), op.bytes)
    case SavingEvidence(input, result) =>
      op.PersistResult? ==> ResultStored(h, fs, op, input) && result == ResultDigest(h, op, input)
    case BindingRequest(input, evidence) => op.PersistResult? ==> EvidenceStored(h, fs, op, input, evidence)
    case BindingAction(input, evidence) =>
      op.PersistResult? ==>
        EvidenceStored(h, fs, op, input, evidence) && Bound(h, fs, RequestBindingOf(h, op, evidence))
    case Finished(artifact) =>
      && (op.PersistInput? ==>
            && artifact == op.digest && Shows(fs, Blob(op.digest), op.bytes)
            && Bound(h, fs, InputBinding(RunOf(h, op), ActionOf(h, op), op.digest)))
      && (op.PersistResult? ==> exists input :: ResultComplete(h, fs, op, input, artifact))
    case _ => true
  }

  /** A successful outcome goes through the stage that saves the result; any other outcome must not. */
  ghost predicate OnPath(op: Op, stage: Stage) {
    op.PersistResult? && stage.SavingResult? ==> op.result.outcome.Succeeded?
  }

  lemma {:induction false} WrittenGrows(h: Host, fs: Fs, fs': Fs, op: Op, stage: Stage)
    requires Grows(fs, fs') && Written(h, fs, op, stage)
    ensures Written(h, fs', op, stage)
  {
    if stage.Finished? && op.PersistResult? {
      var input :| ResultComplete(h, fs, op, input, stage.artifact);
      IntactGrows(h, fs, fs', RunOf(h, op), ActionOf(h, op), input);
      assert ResultComplete(h, fs', op, input, stage.artifact);
    }
  }

  /** A returned call adds to what was written exactly what the next stage counts on. */
  lemma {:induction false} AfterWritten(h: Host, s: State, p: Proc)
    requires Inv(s) && ProcHolds(h, s, p) && TaskAt(h, p.op, p.stage).Some? && s.calls[p.call].pc.Done?
    requires Written(h, s.fs, p.op, p.stage) && OnPath(p.op, p.stage)
    ensures Written(h, s.fs, p.op, After(h, p.op, p.stage, s.calls[p.call].pc.found))
    ensures OnPath(p.op, After(h, p.op, p.stage, s.calls[p.call].pc.found))
  {
    var c := s.calls[p.call];
    assert CallHolds(s.fs, c);
    if p.stage.BindingAction? {
      assert ResultComplete(h, s.fs, p.op, p.stage.input, p.stage.evidence);
    }
  }

  ghost predicate AllWritten(h: Host, s: Store) {
    forall i :: 0 <= i < |s.procs| ==>
      Written(h, s.files.fs, s.procs[i].op, s.procs[i].stage) && OnPath(s.procs[i].op, s.procs[i].stage)
  }

  lemma {:induction false} WrittenStep(h: Host, s: Store, t: Store)
    requires StoreInv(h, s) && AllWritten(h, s) && StoreNext(h, s, t)
    ensures AllWritten(h, t)
  {
    if op :| Starts(h, s, t, op) {
      assert t.files.fs == s.files.fs;
    } else if i: nat :| Advances(h, s, t, i) {
      WrittenAdvance(h, s, t, i);
    } else {
      WrittenMove(h, s, t);
    }
  }

  lemma {:induction false} WrittenAdvance(h: Host, s: Store, t: Store, i: nat)
    requires StoreInv(h, s) && AllWritten(h, s) && Advances(h, s, t, i)
    ensures AllWritten(h, t)
  {
    assert t.files.fs == s.files.fs && ProcHolds(h, s.files, s.procs[i]);
    AfterWritten(h, s.files, s.procs[i]);
  }

  lemma {:induction false} WrittenMove(h: Host, s: Store, t: Store)
    requires StoreInv(h, s) && AllWritten(h, s) && t.procs == s.procs && Moves(s.files, t.files)
    ensures AllWritten(h, t)
  {
    MoveGrows(s.files, t.files);
    forall i | 0 <= i < |t.procs| ensures Written(h, t.files.fs, t.procs[i].op, t.procs[i].stage) {
      WrittenGrows(h, s.files.fs, t.files.fs, s.procs[i].op, s.procs[i].stage);
    }
  }

  lemma {:induction false} StepOfRun(h: Host, run: seq<Store>, k: nat)
    requires StoreRun(h, run) && k + 1 < |run|
    ensures StoreInv(h, run[k]) && StoreNext(h, run[k], run[k + 1])
  {
    StoreInvRun(h, run, k);
    assert StoreStepAt(h, run, k);
  }

  lemma {:induction false} WrittenRun(h: Host, run: seq<Store>, k: nat)
    requires StoreRun(h, run) && k < |run|
    ensures AllWritten(h, run[k])
  {
    if k > 0 {
      WrittenRun(h, run, k - 1);
      StepOfRun(h, run, k - 1);
      WrittenStep(h, run[k - 1], run[k]);
    }
  }

  /**
   * An operation that finished left everything it promised: an input operation its blob and binding; a result
   * operation its evidence record, the result record the evidence names when the outcome succeeded, both bindings,
   * and the input they rest on.
   */
  lemma {:induction false} FinishedIsComplete(h: Host, run: seq<Store>, k: nat, i: nat)
    requires StoreRun(h, run) && k < |run| && i < |run[k].procs| && run[k].procs[i].stage.Finished?
    ensures var fs, op, artifact := run[k].files.fs, run[k].procs[i].op, run[k].procs[i].stage.artifact;
            && (op.PersistInput? ==>
                  && artifact == op.digest && Shows(fs, Blob(op.digest), op.bytes)
                  && Bound(h, fs, InputBinding(RunOf(h, op), ActionOf(h, op), op.digest)))
            && (op.PersistResult? ==> exists input :: ResultComplete(h, fs, op, input, artifact))
  {
    WrittenRun(h, run, k);
    assert Written(h, run[k].files.fs, run[k].procs[i].op, run[k].procs[i].stage);
  }

  // --------------------------------------------- what the files say, field by field

  /** The common part of a result's records says what the result says. */
  ghost predicate Reports(h: Host, r: ActionResult, input: string, c: Common) {
    && c.runIdDigest == h.sha(h.text(r.runId)) && c.actionIdDigest == h.sha(h.text(r.actionId))
    && c.requestRefDigest == h.sha(h.text(r.requestRef)) && c.requestDigest == r.requestDigest
    && c.canonicalInputDigest == input && c.outcome == r.outcome
    && c.gatewayInputDigest == r.inputDigest && c.gatewayResultDigest == r.resultDigest
    && c.exitCode == r.exitCode && c.outputChecks == r.outputChecks
  }

  function InputName(h: Host, runId: string, actionId: string): Path {
    Identity(h.sha(h.locate(Locator("governed_command_input_identity_v1", h.sha(h.text(runId)),
                                    h.sha(h.text(actionId)), None, None))))
  }

  function ActionName(h: Host, r: ActionResult): Path {
    Identity(h.sha(h.locate(Locator("governed_command_result_action_identity_v1", h.sha(h.text(r.runId)),
                                    h.sha(h.text(r.actionId)), None, None))))
  }

  function RequestName(h: Host, r: ActionResult): Path {
    Identity(h.sha(h.locate(Locator("governed_command_result_request_identity_v1", h.sha(h.text(r.runId)),
                                    h.sha(h.text(r.actionId)), Some(h.sha(h.text(r.requestRef))),
                                    Some(r.requestDigest)))))
  }

  /** The artifact bound for the input of a run and action, and the record behind it. */
  ghost predicate InputKept(h: Host, fs: Fs, runId: string, actionId: string, input: string) {
    var run, action := h.sha(h.text(runId)), h.sha(h.text(actionId));
    && Exists(fs, InputName(h, runId, actionId))
    && h.decode(ContentOf(fs, InputName(h, runId, actionId))) == Some(InputBinding(run, action, input))
    && Exists(fs, Blob(input)) && h.sha(ContentOf(fs, Blob(input))) == input
    && exists command, args, cwd ::
         h.decode(ContentOf(fs, Blob(input))) == Some(InputRecord(run, action, command, args, cwd))
  }

  /**
   * The evidence record under the artifact, the result record under the digest it names, and the two bindings that
   * name the artifact.
   */
  ghost predicate ResultKept(
      h: Host, fs: Fs, r: ActionResult, artifact: string, input: string, e: Record)
  {
    && e.EvidenceRecord? && Reports(h, r, input, e.common)
    && Shows(fs, Blob(artifact), h.encode(e)) && artifact == h.sha(h.encode(e))
    && (e.resultDigest.Some? <==> e.common.outcome.Succeeded?)
    && (e.resultDigest.Some? ==>
          && e.resultDigest.value == h.sha(h.encode(ResultRecord(e.common)))
          && Shows(fs, Blob(e.resultDigest.value), h.encode(ResultRecord(e.common))))
    && Shows(fs, RequestName(h, r),
             h.encode(RequestBinding(h.sha(h.text(r.runId)), h.sha(h.text(r.actionId)), h.sha(h.text(r.requestRef)),
                                     r.requestDigest, artifact)))
    && Shows(fs, ActionName(h, r),
             h.encode(ActionBinding(h.sha(h.text(r.runId)), h.sha(h.text(r.actionId)), artifact)))
  }

  lemma {:induction false} CompleteIsKept(h: Host, fs: Fs, op: Op, input: string, artifact: string)
    requires op.PersistResult? && ResultComplete(h, fs, op, input, artifact)
    ensures ResultKept(h, fs, op.result, artifact, input, EvidenceOf(h, op, input))
    ensures InputKept(h, fs, op.result.runId, op.result.actionId, input)
  {
    var r := h.decode(ContentOf(fs, Blob(input))).value;
    assert r == InputRecord(r.runIdDigest, r.actionIdDigest, r.commandDigest, r.argsDigest, r.cwdDigest);
  }

  /**
   * When a result operation finishes, the blob under its artifact is an evidence record whose outcome, digests, exit
   * code and output checks are those of the result it was given, whose canonical input is the artifact bound for the
   * action's input, and which names a result record exactly when the outcome succeeded.
   */
  lemma {:induction false} FinishedRecordsResult(h: Host, run: seq<Store>, k: nat, i: nat)
    returns (input: string, e: Record)
    requires StoreRun(h, run) && k < |run| && i < |run[k].procs| && run[k].procs[i].stage.Finished?
    requires run[k].procs[i].op.PersistResult?
    ensures var fs, r := run[k].files.fs, run[k].procs[i].op.result;
            && ResultKept(h, fs, r, run[k].procs[i].stage.artifact, input, e)
            && InputKept(h, fs, r.runId, r.actionId, input)
  {
    FinishedIsComplete(h, run, k, i);
    var fs, op, artifact := run[k].files.fs, run[k].procs[i].op, run[k].procs[i].stage.artifact;
    input :| ResultComplete(h, fs, op, input, artifact);
    CompleteIsKept(h, fs, op, input, artifact);
    e := EvidenceOf(h, op, input);
  }

  /** When an input operation finishes, its bytes lie under its digest and its binding names that digest. */
  lemma {:induction false} FinishedRecordsInput(h: Host, run: seq<Store>, k: nat, i: nat)
    requires StoreRun(h, run) && k < |run| && i < |run[k].procs| && run[k].procs[i].stage.Finished?
    requires run[k].procs[i].op.PersistInput?
    ensures var fs, op := run[k].files.fs, run[k].procs[i].op;
            && run[k].procs[i].stage.artifact == op.digest && Shows(fs, Blob(op.digest), op.bytes)
            && h.sha(op.bytes) == op.digest
            && Shows(fs, InputName(h, op.runId, op.actionId),
                     h.encode(InputBinding(h.sha(h.text(op.runId)), h.sha(h.text(op.actionId)), op.digest)))
  {
    FinishedIsComplete(h, run, k, i);
    EverythingStoredIsBacked(h, run, k, Blob(run[k].procs[i].op.digest));
  }

  // ---------------------------------------------------------- the size of a record

  /** The bytes of a write are within the bound, or are an input some operation was given. */
  ghost predicate WriteFits(procs: seq<Proc>, task: Task) {
    task.Write? && |task.bytes| > MAX_RECORD_BYTES ==> Given(procs, task.path, task.bytes)
  }

  ghost predicate Given(procs: seq<Proc>, path: Path, bytes: Bytes) {
    exists i :: 0 <= i < |procs| && procs[i].op.PersistInput? && procs[i].op.bytes == bytes
                && path == Blob(procs[i].op.digest)
  }

  ghost predicate AllFit(s: Store) {
    forall i :: 0 <= i < |s.files.calls| ==> WriteFits(s.procs, s.files.calls[i].task)
  }

  lemma {:induction false} FitsStays(s: Store, t: Store, task: Task)
    requires WriteFits(s.procs, task) && |t.procs| >= |s.procs|
    requires forall j :: 0 <= j < |s.procs| ==> t.procs[j].op == s.procs[j].op
    ensures WriteFits(t.procs, task)
  {
    if task.Write? && |task.bytes| > MAX_RECORD_BYTES {
      var j :| 0 <= j < |s.procs| && s.procs[j].op.PersistInput? && s.procs[j].op.bytes == task.bytes
               && task.path == Blob(s.procs[j].op.digest);
      assert t.procs[j].op == s.procs[j].op;
    }
  }

  /** A process that enters a stage makes a call that fits: a record over the bound is refused first. */
  lemma {:induction false} EnterFits(h: Host, s: Store, t: Store, op: Op, stage: Stage, p: Proc, j: nat)
    requires AllFit(s) && Enters(h, s.files, t.files, op, stage, p) && Enter(h, op, stage) == stage
    requires |t.procs| >= |s.procs| && j < |t.procs| && t.procs[j] == p
    requires forall m :: 0 <= m < |s.procs| ==> t.procs[m].op == s.procs[m].op
    ensures AllFit(t)
  {
    forall i | 0 <= i < |t.files.calls| ensures WriteFits(t.procs, t.files.calls[i].task) {
      if i < |s.files.calls| { FitsStays(s, t, s.files.calls[i].task); }
    }
  }

  lemma {:induction false} FitStep(h: Host, s: Store, t: Store)
    requires AllFit(s) && StoreNext(h, s, t)
    ensures AllFit(t)
  {
    if op :| Starts(h, s, t, op) {
      EnterFits(h, s, t, op, First(h, op), t.procs[|s.procs|], |s.procs|);
    } else if i: nat :| Advances(h, s, t, i) {
      var next := After(h, s.procs[i].op, s.procs[i].stage, s.files.calls[s.procs[i].call].pc.found);
      EnterFits(h, s, t, s.procs[i].op, Enter(h, s.procs[i].op, next), t.procs[i], i);
    } else {
      MoveKeepsTasks(s.files, t.files);
    }
  }

  lemma {:induction false} FitRun(h: Host, run: seq<Store>, k: nat)
    requires StoreRun(h, run) && k < |run|
    ensures AllFit(run[k])
  {
    if k > 0 {
      FitRun(h, run, k - 1);
      StepOfRun(h, run, k - 1);
      FitStep(h, run[k - 1], run[k]);
    }
  }

  /** No published file exceeds the bound, but for an input blob whose bytes an operation was given as they are. */
  lemma {:induction false} RecordsFit(h: Host, run: seq<Store>, k: nat, p: Path)
    requires StoreRun(h, run) && k < |run| && Exists(run[k].files.fs, p)
    ensures |ContentOf(run[k].files.fs, p)| <= MAX_RECORD_BYTES
            || Given(run[k].procs, p, ContentOf(run[k].files.fs, p))
  {
    FitRun(h, run, k);
    StoreInvRun(h, run, k);
    var s := run[k].files;
    assert Brought(s.calls, p, ContentOf(s.fs, p));
    var i :| 0 <= i < |s.calls| && s.calls[i].task == Write(p, ContentOf(s.fs, p));
    assert WriteFits(run[k].procs, s.calls[i].task);
  }
}
