/**
 * The evidence store's two operations as processes over the publication protocol: content-addressed blobs
 * first, then write-once identity bindings (apps/cli/src/governed-command-evidence-store.ts).
 */
module EvidenceStore {
  import opened Seqs
  import opened EvidenceFiles
  import opened EvidencePublication
  import opened OutputChecks

  // ------------------------------------------------------------------- data

  datatype Outcome = Succeeded | Unsuccessful | Denied

  datatype Common = Common(
    runIdDigest: string,
    actionIdDigest: string,
    requestRefDigest: string,
    requestDigest: string,
    canonicalInputDigest: string,
    outcome: Outcome,
    gatewayInputDigest: string,
    gatewayResultDigest: string,
    exitCode: Option<int>,
    outputChecks: seq<SafeCheck>)

  datatype Record =
    | InputRecord(
        runIdDigest: string,
        actionIdDigest: string,
        commandDigest: string,
        argsDigest: string,
        cwdDigest: Option<string>)
    | ResultRecord(common: Common)
    | EvidenceRecord(common: Common, resultDigest: Option<string>)
    | InputBinding(runIdDigest: string, actionIdDigest: string, artifact: string)
    | ActionBinding(runIdDigest: string, actionIdDigest: string, artifact: string)
    | RequestBinding(
        runIdDigest: string,
        actionIdDigest: string,
        requestRefDigest: string,
        requestDigest: string,
        artifact: string)

  datatype Locator = Locator(
    recordKind: string,
    runIdDigest: string,
    actionIdDigest: string,
    requestRefDigest: Option<string>,
    requestDigest: Option<string>)

  /** Hashing and serialization are the host's. */
  datatype Host = Host(
    sha: Bytes -> string,
    text: string -> Bytes,
    encode: Record -> Bytes,
    decode: Bytes -> Option<Record>,
    locate: Locator -> Bytes)

  datatype ActionResult = ActionResult(
    runId: string,
    actionId: string,
    requestRef: string,
    requestDigest: string,
    outcome: Outcome,
    inputDigest: string,
    resultDigest: string,
    exitCode: Option<int>,
    outputChecks: seq<SafeCheck>)

  datatype Op =
    | PersistInput(runId: string, actionId: string, bytes: Bytes, digest: string)
    | PersistResult(result: ActionResult)

  predicate IsBinding(r: Record) { r.InputBinding? || r.ActionBinding? || r.RequestBinding? }

  /** identityLocator: everything of a binding but the artifact it names. */
  function LocatorOf(r: Record): Locator
    requires IsBinding(r)
  {
    match r
    case InputBinding(run, action, _) => Locator("governed_command_input_identity_v1", run, action, None, None)
    case ActionBinding(run, action, _) => Locator("governed_command_result_action_identity_v1", run, action, None, None)
    case RequestBinding(run, action, ref, request, _) =>
      Locator("governed_command_result_request_identity_v1", run, action, Some(ref), Some(request))
  }

  function IdentityPath(h: Host, r: Record): Path
    requires IsBinding(r)
  {
    Identity(h.sha(h.locate(LocatorOf(r))))
  }

  // -------------------------------------------------------------- operations

  function RunOf(h: Host, op: Op): string { h.sha(h.text(if op.PersistInput? then op.runId else op.result.runId)) }

  function ActionOf(h: Host, op: Op): string {
    h.sha(h.text(if op.PersistInput? then op.actionId else op.result.actionId))
  }

  datatype Stage =
    | SavingInput
    | BindingInput
    | FindingInput
    | CheckingInput(input: string)
    | SavingResult(input: string)
    | SavingEvidence(input: string, result: Option<string>)
    | BindingRequest(input: string, evidence: string)
    | BindingAction(input: string, evidence: string)
    | Finished(artifact: string)
    | Refused

  function CommonOf(h: Host, op: Op, input: string): Common
    requires op.PersistResult?
  {
    var r := op.result;
    Common(RunOf(h, op), ActionOf(h, op), h.sha(h.text(r.requestRef)), r.requestDigest, input, r.outcome,
           r.inputDigest, r.resultDigest, r.exitCode, r.outputChecks)
  }

  /** The record a writing stage serializes. */
  function RecordAt(h: Host, op: Op, stage: Stage): Option<Record> {
    match stage
    case BindingInput => if op.PersistInput? then Some(InputBinding(RunOf(h, op), ActionOf(h, op), op.digest)) else None
    case SavingResult(input) => if op.PersistResult? then Some(ResultRecord(CommonOf(h, op, input))) else None
    case SavingEvidence(input, result) =>
      if op.PersistResult? then Some(EvidenceRecord(CommonOf(h, op, input), result)) else None
    case BindingRequest(_, evidence) =>
      if op.PersistResult? then
        Some(RequestBinding(RunOf(h, op), ActionOf(h, op), h.sha(h.text(op.result.requestRef)),
                            op.result.requestDigest, evidence))
      else None
    case BindingAction(_, evidence) =>
      if op.PersistResult? then Some(ActionBinding(RunOf(h, op), ActionOf(h, op), evidence)) else None
    case _ => None
  }

  function InputPath(h: Host, run: string, action: string): Path { IdentityPath(h, InputBinding(run, action, "")) }

  /** The file call a stage makes. */
  function TaskAt(h: Host, op: Op, stage: Stage): Option<Task> {
    match stage
    case SavingInput => if op.PersistInput? then Some(Write(Blob(op.digest), op.bytes)) else None
    case FindingInput => Some(Read(InputPath(h, RunOf(h, op), ActionOf(h, op))))
    case CheckingInput(input) => Some(Read(Blob(input)))
    case _ =>
      var r :- RecordAt(h, op, stage);
      var bytes := h.encode(r);
      Some(Write(if IsBinding(r) then IdentityPath(h, r) else Blob(h.sha(bytes)), bytes))
  }

  /** canonicalRecordBytes refuses a record over the bound before any file is touched. */
  function Enter(h: Host, op: Op, stage: Stage): Stage {
    var r := RecordAt(h, op, stage);
    if r.Some? && |h.encode(r.value)| > MAX_RECORD_BYTES then Refused else stage
  }

  function First(h: Host, op: Op): Stage {
    if op.PersistResult? then FindingInput else if h.sha(op.bytes) == op.digest then SavingInput else Refused
  }

  /** The stage that follows a call that returned `found`. */
  function After(h: Host, op: Op, stage: Stage, found: Option<Bytes>): Stage {
    match stage
    case SavingInput => BindingInput
    case BindingInput => if op.PersistInput? then Finished(op.digest) else Refused
    case FindingInput =>
      if found.None? then Refused
      else
        var r := h.decode(found.value);
        if && r.Some? && r.value.InputBinding?
           && r.value.runIdDigest == RunOf(h, op) && r.value.actionIdDigest == ActionOf(h, op)
        then CheckingInput(r.value.artifact)
        else Refused
    case CheckingInput(input) =>
      if found.None? || h.sha(found.value) != input then Refused
      else
        var r := h.decode(found.value);
        if && r.Some? && r.value.InputRecord?
           && r.value.runIdDigest == RunOf(h, op) && r.value.actionIdDigest == ActionOf(h, op)
        then
          if op.PersistResult? && op.result.outcome.Succeeded? then SavingResult(input) else SavingEvidence(input, None)
        else Refused
    case SavingResult(input) =>
      var r := RecordAt(h, op, stage);
      if r.None? then Refused else SavingEvidence(input, Some(h.sha(h.encode(r.value))))
    case SavingEvidence(input, _) =>
      var r := RecordAt(h, op, stage);
      if r.None? then Refused else BindingRequest(input, h.sha(h.encode(r.value)))
    case BindingRequest(input, evidence) => BindingAction(input, evidence)
    case BindingAction(_, evidence) => Finished(evidence)
    case _ => stage
  }

  // ------------------------------------------------------------ the machine

  datatype Proc = Proc(op: Op, stage: Stage, call: nat)

  datatype Store = Store(files: State, procs: seq<Proc>)

  /** A process enters a stage and, if the stage has one, begins its call. */
  ghost predicate Enters(h: Host, files: State, files': State, op: Op, stage: Stage, p: Proc) {
    var task := TaskAt(h, op, stage);
    p == Proc(op, stage, |files.calls|) && if task.Some? then Begins(files, files', task.value) else files' == files
  }

  ghost predicate Starts(h: Host, s: Store, t: Store, op: Op) {
    exists p :: Enters(h, s.files, t.files, op, First(h, op), p) && t.procs == s.procs + [p]
  }

  /** The found bytes of a process whose current call has returned. */
  ghost predicate Waits(h: Host, s: Store, i: nat) {
    i < |s.procs| && TaskAt(h, s.procs[i].op, s.procs[i].stage).Some?
    && s.procs[i].call < |s.files.calls| && s.files.calls[s.procs[i].call].pc.Done?
  }

  ghost predicate Advances(h: Host, s: Store, t: Store, i: nat) {
    Waits(h, s, i)
    && var p := s.procs[i];
       var next := Enter(h, p.op, After(h, p.op, p.stage, s.files.calls[p.call].pc.found));
       exists p' :: Enters(h, s.files, t.files, p.op, next, p') && t.procs == s.procs[i := p']
  }

  /** Operations start and advance, and files move, in any order; a crashed call never advances. */
  ghost predicate StoreNext(h: Host, s: Store, t: Store) {
    || (exists op :: Starts(h, s, t, op))
    || (exists i :: Advances(h, s, t, i))
    || (t.procs == s.procs && Moves(s.files, t.files))
  }

  ghost predicate StoreStepAt(h: Host, run: seq<Store>, k: nat) {
    k + 1 < |run| && StoreNext(h, run[k], run[k + 1])
  }

  ghost predicate StoreRun(h: Host, run: seq<Store>) {
    run != [] && Initial(run[0].files) && run[0].procs == []
    && forall k :: 0 <= k < |run| - 1 ==> StoreStepAt(h, run, k)
  }

  // -------------------------------------------------------------- invariants

  ghost predicate HasBlob(h: Host, fs: Fs, digest: string) {
    Exists(fs, Blob(digest)) && h.sha(ContentOf(fs, Blob(digest))) == digest
  }

  ghost predicate InputBound(h: Host, fs: Fs, run: string, action: string, input: string) {
    Exists(fs, InputPath(h, run, action))
    && h.decode(ContentOf(fs, InputPath(h, run, action))) == Some(InputBinding(run, action, input))
  }

  /** The canonical input of a run and action is bound, its blob is there, and the blob is that input's record. */
  ghost predicate InputIntact(h: Host, fs: Fs, run: string, action: string, input: string) {
    && InputBound(h, fs, run, action, input) && HasBlob(h, fs, input)
    && var r := h.decode(ContentOf(fs, Blob(input)));
       r.Some? && r.value.InputRecord? && r.value.runIdDigest == run && r.value.actionIdDigest == action
  }

  ghost predicate SomeInputIntact(h: Host, fs: Fs, run: string, action: string) {
    exists input :: InputIntact(h, fs, run, action, input)
  }

  /** A binding's artifact is a stored blob; a result's binding also has its canonical input intact. */
  ghost predicate Backed(h: Host, fs: Fs, r: Record)
    requires IsBinding(r)
  {
    HasBlob(h, fs, r.artifact) && (!r.InputBinding? ==> SomeInputIntact(h, fs, r.runIdDigest, r.actionIdDigest))
  }

  ghost predicate BindsAt(h: Host, fs: Fs, path: Path, bytes: Bytes, r: Record) {
    IsBinding(r) && IdentityPath(h, r) == path && bytes == h.encode(r) && Backed(h, fs, r)
  }

  /** What is about to be, or has been, published: a blob under its own hash, or a backed binding. */
  ghost predicate Justified(h: Host, fs: Fs, path: Path, bytes: Bytes) {
    match path
    case Blob(digest) => h.sha(bytes) == digest
    case Identity(_) => exists r :: BindsAt(h, fs, path, bytes, r)
  }

  ghost predicate TaskJustified(h: Host, fs: Fs, task: Task) { task.Write? ==> Justified(h, fs, task.path, task.bytes) }

  /** What an operation has established by the time it enters a stage. */
  ghost predicate Relies(h: Host, fs: Fs, op: Op, stage: Stage) {
    var run, action := RunOf(h, op), ActionOf(h, op);
    match stage
    case SavingInput => op.PersistInput? && h.sha(op.bytes) == op.digest
    case BindingInput => op.PersistInput? && HasBlob(h, fs, op.digest)
    case FindingInput => op.PersistResult?
    case CheckingInput(input) => op.PersistResult? && InputBound(h, fs, run, action, input)
    case SavingResult(input) => op.PersistResult? && InputIntact(h, fs, run, action, input)
    case SavingEvidence(input, _) => op.PersistResult? && InputIntact(h, fs, run, action, input)
    case BindingRequest(input, evidence) =>
      op.PersistResult? && InputIntact(h, fs, run, action, input) && HasBlob(h, fs, evidence)
    case BindingAction(input, evidence) =>
      op.PersistResult? && InputIntact(h, fs, run, action, input) && HasBlob(h, fs, evidence)
    case Finished(artifact) =>
      var r := if op.PersistInput? then InputBinding(run, action, artifact) else ActionBinding(run, action, artifact);
      Shows(fs, IdentityPath(h, r), h.encode(r)) && Backed(h, fs, r)
    case Refused => true
  }

  ghost predicate ProcHolds(h: Host, s: State, p: Proc) {
    && Relies(h, s.fs, p.op, p.stage)
    && (TaskAt(h, p.op, p.stage).Some? ==>
          p.call < |s.calls| && s.calls[p.call].task == TaskAt(h, p.op, p.stage).value)
  }

  ghost predicate StoreInv(h: Host, s: Store) {
    && Inv(s.files)
    && (forall i :: 0 <= i < |s.files.calls| ==> TaskJustified(h, s.files.fs, s.files.calls[i].task))
    && (forall i :: 0 <= i < |s.procs| ==> ProcHolds(h, s.files, s.procs[i]))
  }

  // ------------------------------------------------- nothing published is lost

  ghost predicate Grows(fs: Fs, fs': Fs) {
    forall p :: Exists(fs, p) ==> Exists(fs', p) && ContentOf(fs', p) == ContentOf(fs, p)
  }

  lemma {:induction false} IntactGrows(h: Host, fs: Fs, fs': Fs, run: string, action: string, input: string)
    requires Grows(fs, fs') && InputIntact(h, fs, run, action, input)
    ensures InputIntact(h, fs', run, action, input)
  {
  }

  lemma {:induction false} BackedGrows(h: Host, fs: Fs, fs': Fs, r: Record)
    requires Grows(fs, fs') && IsBinding(r) && Backed(h, fs, r)
    ensures Backed(h, fs', r)
  {
    if !r.InputBinding? {
      var input :| InputIntact(h, fs, r.runIdDigest, r.actionIdDigest, input);
      IntactGrows(h, fs, fs', r.runIdDigest, r.actionIdDigest, input);
    }
  }

  lemma {:induction false} JustifiedGrows(h: Host, fs: Fs, fs': Fs, path: Path, bytes: Bytes)
    requires Grows(fs, fs') && Justified(h, fs, path, bytes)
    ensures Justified(h, fs', path, bytes)
  {
    if path.Identity? {
      var r :| BindsAt(h, fs, path, bytes, r);
      BackedGrows(h, fs, fs', r);
      assert BindsAt(h, fs', path, bytes, r);
    }
  }

  lemma {:induction false} ReliesGrows(h: Host, fs: Fs, fs': Fs, op: Op, stage: Stage)
    requires Grows(fs, fs') && Relies(h, fs, op, stage)
    ensures Relies(h, fs', op, stage)
  {
    if stage.Finished? {
      var run, action := RunOf(h, op), ActionOf(h, op);
      var r :=
        if op.PersistInput? then InputBinding(run, action, stage.artifact)
        else ActionBinding(run, action, stage.artifact);
      BackedGrows(h, fs, fs', r);
    }
  }

  // ------------------------------------------------------------------- steps

  /** The call a stage makes is justified by what the stage relies on. */
  lemma {:induction false} StageJustified(h: Host, fs: Fs, op: Op, stage: Stage)
    requires Relies(h, fs, op, stage) && TaskAt(h, op, stage).Some?
    ensures TaskJustified(h, fs, TaskAt(h, op, stage).value)
  {
    var r := RecordAt(h, op, stage);
    if r.Some? && IsBinding(r.value) {
      assert BindsAt(h, fs, IdentityPath(h, r.value), h.encode(r.value), r.value);
    }
  }

  /** A returned call gives the next stage what it relies on. */
  lemma {:induction false} AfterRelies(h: Host, s: State, p: Proc)
    requires Inv(s) && ProcHolds(h, s, p) && TaskAt(h, p.op, p.stage).Some? && s.calls[p.call].pc.Done?
    ensures Relies(h, s.fs, p.op, After(h, p.op, p.stage, s.calls[p.call].pc.found))
  {
    var c := s.calls[p.call];
    assert CallHolds(s.fs, c);
    StageJustified(h, s.fs, p.op, p.stage);
    if p.stage.BindingInput? {
      assert Backed(h, s.fs, InputBinding(RunOf(h, p.op), ActionOf(h, p.op), p.op.digest));
    } else if p.stage.BindingAction? {
      assert Backed(h, s.fs, ActionBinding(RunOf(h, p.op), ActionOf(h, p.op), p.stage.evidence));
    }
  }

  lemma {:induction false} EnterHolds(h: Host, s: State, t: State, op: Op, stage: Stage, p: Proc)
    requires Inv(s) && Relies(h, s.fs, op, stage) && Enters(h, s, t, op, stage, p)
    requires forall i :: 0 <= i < |s.calls| ==> TaskJustified(h, s.fs, s.calls[i].task)
    ensures Inv(t) && t.fs == s.fs && s.calls <= t.calls && ProcHolds(h, t, p)
    ensures forall i :: 0 <= i < |t.calls| ==> TaskJustified(h, t.fs, t.calls[i].task)
  {
    var task := TaskAt(h, op, stage);
    if task.Some? {
      BeginStep(s, t, task.value);
      StageJustified(h, s.fs, op, stage);
    }
  }

  lemma {:induction false} StartStep(h: Host, s: Store, t: Store, op: Op)
    requires StoreInv(h, s) && Starts(h, s, t, op)
    ensures StoreInv(h, t)
  {
    var p :| Enters(h, s.files, t.files, op, First(h, op), p) && t.procs == s.procs + [p];
    EnterHolds(h, s.files, t.files, op, First(h, op), p);
    forall i | 0 <= i < |t.procs| ensures ProcHolds(h, t.files, t.procs[i]) {
      if i < |s.procs| { assert ProcHolds(h, s.files, s.procs[i]); }
    }
  }

  lemma {:induction false} AdvanceStep(h: Host, s: Store, t: Store, i: nat)
    requires StoreInv(h, s) && Advances(h, s, t, i)
    ensures StoreInv(h, t)
  {
    var p := s.procs[i];
    assert ProcHolds(h, s.files, p);
    AfterRelies(h, s.files, p);
    var next := Enter(h, p.op, After(h, p.op, p.stage, s.files.calls[p.call].pc.found));
    var p' :| Enters(h, s.files, t.files, p.op, next, p') && t.procs == s.procs[i := p'];
    EnterHolds(h, s.files, t.files, p.op, next, p');
    forall j | 0 <= j < |t.procs| ensures ProcHolds(h, t.files, t.procs[j]) {
      if j != i { assert ProcHolds(h, s.files, s.procs[j]); }
    }
  }

  lemma {:induction false} MoveKeepsTasks(s: State, t: State)
    requires Moves(s, t)
    ensures |t.calls| == |s.calls| && forall i :: 0 <= i < |s.calls| ==> t.calls[i].task == s.calls[i].task
  {
  }

  lemma {:induction false} MoveGrows(s: State, t: State)
    requires Inv(s) && Moves(s, t)
    ensures Inv(t) && Grows(s.fs, t.fs)
  {
    assert Next(s, t);
    InvStep(s, t);
    forall p | Exists(s.fs, p) ensures Exists(t.fs, p) && ContentOf(t.fs, p) == ContentOf(s.fs, p) {
      StepKeepsPublished(s, t, p);
    }
  }

  lemma {:induction false} MoveStep(h: Host, s: Store, t: Store)
    requires StoreInv(h, s) && t.procs == s.procs && Moves(s.files, t.files)
    ensures StoreInv(h, t)
  {
    MoveGrows(s.files, t.files);
    MoveKeepsTasks(s.files, t.files);
    forall i | 0 <= i < |t.files.calls| ensures TaskJustified(h, t.files.fs, t.files.calls[i].task) {
      var task := s.files.calls[i].task;
      assert TaskJustified(h, s.files.fs, task);
      if task.Write? { JustifiedGrows(h, s.files.fs, t.files.fs, task.path, task.bytes); }
    }
    forall i | 0 <= i < |t.procs| ensures ProcHolds(h, t.files, t.procs[i]) {
      var p := s.procs[i];
      assert ProcHolds(h, s.files, p);
      ReliesGrows(h, s.files.fs, t.files.fs, p.op, p.stage);
    }
  }

  lemma {:induction false} StoreStep(h: Host, s: Store, t: Store)
    requires StoreInv(h, s) && StoreNext(h, s, t)
    ensures StoreInv(h, t)
  {
    if op :| Starts(h, s, t, op) {
      StartStep(h, s, t, op);
    } else if i: nat :| Advances(h, s, t, i) {
      AdvanceStep(h, s, t, i);
    } else {
      MoveStep(h, s, t);
    }
  }

  lemma {:induction false} StoreInvRun(h: Host, run: seq<Store>, k: nat)
    requires StoreRun(h, run) && k < |run|
    ensures StoreInv(h, run[k])
  {
    if k > 0 {
      StoreInvRun(h, run, k - 1);
      assert StoreStepAt(h, run, k - 1);
      StoreStep(h, run[k - 1], run[k]);
    }
  }

  // ------------------------------------------------------------ the theorems

  /** In every reachable state each blob lies under its own hash, and each binding is backed. */
  lemma {:induction false} EverythingStoredIsBacked(h: Host, run: seq<Store>, k: nat, p: Path)
    requires StoreRun(h, run) && k < |run| && Exists(run[k].files.fs, p)
    ensures Justified(h, run[k].files.fs, p, ContentOf(run[k].files.fs, p))
  {
    StoreInvRun(h, run, k);
    var s := run[k].files;
    assert Brought(s.calls, p, ContentOf(s.fs, p));
    var i :| 0 <= i < |s.calls| && s.calls[i].task == Write(p, ContentOf(s.fs, p));
    assert TaskJustified(h, s.fs, s.calls[i].task);
  }

  /** A published result binding of a run and action has that run and action's canonical input intact. */
  lemma {:induction false} ResultHasInput(h: Host, run: seq<Store>, k: nat, r: Record)
    requires StoreRun(h, run) && k < |run| && (r.ActionBinding? || r.RequestBinding?)
    requires Shows(run[k].files.fs, IdentityPath(h, r), h.encode(r))
    requires forall q :: h.encode(q) == h.encode(r) ==> q == r
    ensures HasBlob(h, run[k].files.fs, r.artifact)
    ensures SomeInputIntact(h, run[k].files.fs, r.runIdDigest, r.actionIdDigest)
  {
    var fs := run[k].files.fs;
    EverythingStoredIsBacked(h, run, k, IdentityPath(h, r));
    var q :| BindsAt(h, fs, IdentityPath(h, r), h.encode(r), q);
  }

  // ------------------------------------------------------ order of the checks

  datatype RawResult = RawResult(
    runId: string,
    actionId: string,
    requestRef: string,
    requestDigest: string,
    outcome: Outcome,
    inputDigest: string,
    resultDigest: string,
    exitCode: Option<int>,
    outputChecks: seq<OutputCheck>)

  ghost function OpOf(h: PathHost, r: RawResult): Option<Op> {
    if !ChecksAccepted(h, r.outputChecks) then None
    else Some(PersistResult(ActionResult(r.runId, r.actionId, r.requestRef, r.requestDigest, r.outcome, r.inputDigest,
                                         r.resultDigest, r.exitCode, Sorted(h, r.outputChecks))))
  }

  /** A result is taken exactly when its output checks are accepted, and then field by field. */
  lemma {:induction false} ResultTaken(h: PathHost, r: RawResult)
    ensures OpOf(h, r).Some? <==> ChecksAccepted(h, r.outputChecks)
    ensures OpOf(h, r).Some? ==>
              && OpOf(h, r).value.PersistResult?
              && var x := OpOf(h, r).value.result;
                 && x.runId == r.runId && x.actionId == r.actionId
                 && x.requestRef == r.requestRef && x.requestDigest == r.requestDigest && x.outcome == r.outcome
                 && x.inputDigest == r.inputDigest && x.resultDigest == r.resultDigest && x.exitCode == r.exitCode
                 && |x.outputChecks| == |r.outputChecks|
                 && (forall c :: c in x.outputChecks <==> Listed(h, r.outputChecks, c))
                 && (forall i, j :: 0 <= i < j < |x.outputChecks| ==>
                       StrBelow(x.outputChecks[i].pathDigest, x.outputChecks[j].pathDigest))
  {
    if ChecksAccepted(h, r.outputChecks) { NormalizedMeaning(h, r.outputChecks); }
  }

  /** Results that list the same output checks in another order are one operation: every stage makes the same call. */
  lemma {:induction false} SameOperation(h: Host, ph: PathHost, a: RawResult, b: RawResult, stage: Stage)
    requires multiset(a.outputChecks) == multiset(b.outputChecks) && a.(outputChecks := []) == b.(outputChecks := [])
    ensures OpOf(ph, a) == OpOf(ph, b)
    ensures OpOf(ph, a).Some? ==> TaskAt(h, OpOf(ph, a).value, stage) == TaskAt(h, OpOf(ph, b).value, stage)
  {
    CheckOrderIgnored(ph, a.outputChecks, b.outputChecks);
    var empty := a.(outputChecks := []);
    assert empty.runId == b.runId && empty.actionId == b.actionId && empty.requestRef == b.requestRef;
    assert empty.requestDigest == b.requestDigest && empty.outcome == b.outcome && empty.inputDigest == b.inputDigest;
    assert empty.resultDigest == b.resultDigest && empty.exitCode == b.exitCode;
  }
}
