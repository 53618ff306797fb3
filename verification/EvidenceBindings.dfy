/** What identity bindings say of each other in every reachable state, whatever became of the operations. */
module EvidenceBindings {
  import opened Seqs
  import opened EvidenceFiles
  import opened EvidencePublication
  import opened EvidenceStore
  import opened EvidenceCompletion

  /** Distinct records have distinct serializations. */
  ghost predicate EncodesApart(h: Host) { forall q, r :: h.encode(q) == h.encode(r) ==> q == r }

  // -------------------------------------------------- one artifact per identity

  lemma {:induction false} StoreGrows(h: Host, s: Store, t: Store)
    requires StoreInv(h, s) && StoreNext(h, s, t)
    ensures Grows(s.files.fs, t.files.fs)
  {
    if !(exists op :: Starts(h, s, t, op)) && !(exists i :: Advances(h, s, t, i)) {
      MoveGrows(s.files, t.files);
    }
  }

  lemma {:induction false} StoredStays(h: Host, run: seq<Store>, j: nat, k: nat, p: Path, bytes: Bytes)
    requires StoreRun(h, run) && j <= k < |run| && Shows(run[j].files.fs, p, bytes)
    ensures Shows(run[k].files.fs, p, bytes)
    decreases k - j
  {
    if j < k {
      StoredStays(h, run, j, k - 1, p, bytes);
      StoreInvRun(h, run, k - 1);
      assert StoreStepAt(h, run, k - 1);
      StoreGrows(h, run[k - 1], run[k]);
    }
  }

  /** Two bindings of one identity that are ever on disk, at whatever moments, are one binding. */
  lemma {:induction false} OneArtifactPerIdentity(h: Host, run: seq<Store>, j: nat, k: nat, a: Record, b: Record)
    requires StoreRun(h, run) && j <= k < |run| && EncodesApart(h)
    requires Bound(h, run[j].files.fs, a) && Bound(h, run[k].files.fs, b) && LocatorOf(a) == LocatorOf(b)
    ensures a == b
  {
    StoredStays(h, run, j, k, IdentityPath(h, a), h.encode(a));
    assert h.encode(a) == h.encode(b);
  }

  /**
   * At most one evidence artifact is ever bound to a run and action by its action binding: any two action bindings
   * on disk, at the same or at different moments, name one artifact, also when their operations failed or crashed.
   */
  lemma {:induction false} OneEvidencePerAction(h: Host, run: seq<Store>, j: nat, k: nat, a: Record, b: Record)
    requires StoreRun(h, run) && j <= k < |run| && EncodesApart(h) && a.ActionBinding? && b.ActionBinding?
    requires Bound(h, run[j].files.fs, a) && Bound(h, run[k].files.fs, b)
    requires a.runIdDigest == b.runIdDigest && a.actionIdDigest == b.actionIdDigest
    ensures a.artifact == b.artifact
  {
    OneArtifactPerIdentity(h, run, j, k, a, b);
  }

  /** In particular two result operations that finish for one run and action report the same evidence. */
  lemma {:induction false} FinishedAgree(h: Host, run: seq<Store>, k: nat, i: nat, j: nat)
    requires StoreRun(h, run) && k < |run| && EncodesApart(h) && i < |run[k].procs| && j < |run[k].procs|
    requires run[k].procs[i].stage.Finished? && run[k].procs[j].stage.Finished?
    requires run[k].procs[i].op.PersistResult? && run[k].procs[j].op.PersistResult?
    requires run[k].procs[i].op.result.runId == run[k].procs[j].op.result.runId
    requires run[k].procs[i].op.result.actionId == run[k].procs[j].op.result.actionId
    ensures run[k].procs[i].stage.artifact == run[k].procs[j].stage.artifact
  {
    FinishedIsComplete(h, run, k, i);
    FinishedIsComplete(h, run, k, j);
    var p, q := run[k].procs[i], run[k].procs[j];
    OneEvidencePerAction(h, run, k, k, ActionBinding(RunOf(h, p.op), ActionOf(h, p.op), p.stage.artifact),
                         ActionBinding(RunOf(h, q.op), ActionOf(h, q.op), q.stage.artifact));
  }

  // --------------------------------------------- what stands behind a result binding

  /** A stored evidence record that carries this run, action and request. */
  ghost predicate EvidenceFor(h: Host, fs: Fs, r: Record, e: Record)
    requires r.RequestBinding?
  {
    && e.EvidenceRecord? && Stored(h, fs, e) && r.artifact == h.sha(h.encode(e))
    && e.common.runIdDigest == r.runIdDigest && e.common.actionIdDigest == r.actionIdDigest
    && e.common.requestRefDigest == r.requestRefDigest && e.common.requestDigest == r.requestDigest
  }

  /** A result operation that was started for this run, action and request. */
  ghost predicate AskedBy(h: Host, op: Op, r: Record)
    requires r.RequestBinding?
  {
    && op.PersistResult? && RunOf(h, op) == r.runIdDigest && ActionOf(h, op) == r.actionIdDigest
    && h.sha(h.text(op.result.requestRef)) == r.requestRefDigest && op.result.requestDigest == r.requestDigest
  }

  ghost predicate Asked(h: Host, procs: seq<Proc>, r: Record)
    requires r.RequestBinding?
  {
    exists j :: 0 <= j < |procs| && AskedBy(h, procs[j].op, r)
  }

  /** The request binding an action binding follows. */
  ghost predicate Follows(h: Host, fs: Fs, r: Record, q: Record)
    requires r.ActionBinding?
  {
    && q.RequestBinding? && Bound(h, fs, q) && q.artifact == r.artifact
    && q.runIdDigest == r.runIdDigest && q.actionIdDigest == r.actionIdDigest
  }

  ghost predicate Rooted(h: Host, fs: Fs, procs: seq<Proc>, r: Record) {
    && (r.RequestBinding? ==> Asked(h, procs, r) && exists e :: EvidenceFor(h, fs, r, e))
    && (r.ActionBinding? ==> exists q :: Follows(h, fs, r, q))
  }

  ghost predicate RootedAt(h: Host, fs: Fs, procs: seq<Proc>, path: Path, bytes: Bytes, r: Record) {
    IsBinding(r) && IdentityPath(h, r) == path && bytes == h.encode(r) && Rooted(h, fs, procs, r)
  }

  ghost predicate TaskRooted(h: Host, fs: Fs, procs: seq<Proc>, task: Task) {
    task.Write? && task.path.Identity? ==> exists r :: RootedAt(h, fs, procs, task.path, task.bytes, r)
  }

  ghost predicate AllRooted(h: Host, s: Store) {
    forall i :: 0 <= i < |s.files.calls| ==> TaskRooted(h, s.files.fs, s.procs, s.files.calls[i].task)
  }

  /** No operation disappears or changes. */
  ghost predicate SameOps(procs: seq<Proc>, procs': seq<Proc>) {
    |procs| <= |procs'| && forall j :: 0 <= j < |procs| ==> procs'[j].op == procs[j].op
  }

  lemma {:induction false} RootedGrows(h: Host, fs: Fs, fs': Fs, procs: seq<Proc>, procs': seq<Proc>, r: Record)
    requires Grows(fs, fs') && SameOps(procs, procs') && Rooted(h, fs, procs, r)
    ensures Rooted(h, fs', procs', r)
  {
    if r.RequestBinding? {
      var e :| EvidenceFor(h, fs, r, e);
      assert EvidenceFor(h, fs', r, e);
      var j :| 0 <= j < |procs| && AskedBy(h, procs[j].op, r);
      assert AskedBy(h, procs'[j].op, r);
    } else if r.ActionBinding? {
      var q :| Follows(h, fs, r, q);
      assert Follows(h, fs', r, q);
    }
  }

  lemma {:induction false} TaskRootedGrows(h: Host, fs: Fs, fs': Fs, procs: seq<Proc>, procs': seq<Proc>, task: Task)
    requires Grows(fs, fs') && SameOps(procs, procs') && TaskRooted(h, fs, procs, task)
    ensures TaskRooted(h, fs', procs', task)
  {
    if task.Write? && task.path.Identity? {
      var r :| RootedAt(h, fs, procs, task.path, task.bytes, r);
      RootedGrows(h, fs, fs', procs, procs', r);
      assert RootedAt(h, fs', procs', task.path, task.bytes, r);
    }
  }

  /** The call a stage makes is rooted in what the operation has written by then. */
  lemma {:induction false} StageRooted(h: Host, fs: Fs, procs: seq<Proc>, j: nat)
    requires j < |procs| && Written(h, fs, procs[j].op, procs[j].stage)
    requires TaskAt(h, procs[j].op, procs[j].stage).Some?
    ensures TaskRooted(h, fs, procs, TaskAt(h, procs[j].op, procs[j].stage).value)
  {
    var op, stage := procs[j].op, procs[j].stage;
    var r := RecordAt(h, op, stage);
    if r.Some? && IsBinding(r.value) {
      if stage.BindingRequest? {
        assert EvidenceFor(h, fs, r.value, EvidenceOf(h, op, stage.input));
        assert AskedBy(h, procs[j].op, r.value);
      } else if stage.BindingAction? {
        assert Follows(h, fs, r.value, RequestBindingOf(h, op, stage.evidence));
      }
      assert RootedAt(h, fs, procs, IdentityPath(h, r.value), h.encode(r.value), r.value);
    }
  }

  lemma {:induction false} OldTasksRooted(h: Host, s: Store, t: Store, i: nat)
    requires AllRooted(h, s) && Grows(s.files.fs, t.files.fs) && SameOps(s.procs, t.procs)
    requires i < |s.files.calls| && i < |t.files.calls| && t.files.calls[i].task == s.files.calls[i].task
    ensures TaskRooted(h, t.files.fs, t.procs, t.files.calls[i].task)
  {
    TaskRootedGrows(h, s.files.fs, t.files.fs, s.procs, t.procs, s.files.calls[i].task);
  }

  /** A process that entered a stage: its new call, if it made one, is the last. */
  lemma {:induction false} EnterRooted(h: Host, s: Store, t: Store, op: Op, stage: Stage, p: Proc, j: nat)
    requires AllRooted(h, s) && SameOps(s.procs, t.procs) && Enters(h, s.files, t.files, op, stage, p)
    requires j < |t.procs| && t.procs[j] == p && Written(h, t.files.fs, op, stage)
    ensures AllRooted(h, t)
  {
    forall i | 0 <= i < |t.files.calls| ensures TaskRooted(h, t.files.fs, t.procs, t.files.calls[i].task) {
      if i < |s.files.calls| { OldTasksRooted(h, s, t, i); } else { StageRooted(h, t.files.fs, t.procs, j); }
    }
  }

  lemma {:induction false} RootedStart(h: Host, s: Store, t: Store, op: Op)
    requires AllRooted(h, s) && AllWritten(h, t) && Starts(h, s, t, op)
    ensures AllRooted(h, t)
  {
    var p :| Enters(h, s.files, t.files, op, First(h, op), p) && t.procs == s.procs + [p];
    EnterRooted(h, s, t, op, First(h, op), p, |s.procs|);
  }

  lemma {:induction false} RootedAdvance(h: Host, s: Store, t: Store, i: nat)
    requires AllRooted(h, s) && AllWritten(h, t) && Advances(h, s, t, i)
    ensures AllRooted(h, t)
  {
    var p := s.procs[i];
    var next := Enter(h, p.op, After(h, p.op, p.stage, s.files.calls[p.call].pc.found));
    var p' :| Enters(h, s.files, t.files, p.op, next, p') && t.procs == s.procs[i := p'];
    EnterRooted(h, s, t, p.op, next, p', i);
  }

  lemma {:induction false} RootedStep(h: Host, s: Store, t: Store)
    requires StoreInv(h, s) && AllRooted(h, s) && AllWritten(h, t) && StoreNext(h, s, t)
    ensures AllRooted(h, t)
  {
    if op :| Starts(h, s, t, op) {
      RootedStart(h, s, t, op);
    } else if i: nat :| Advances(h, s, t, i) {
      RootedAdvance(h, s, t, i);
    } else {
      MoveGrows(s.files, t.files);
      MoveKeepsTasks(s.files, t.files);
      forall i | 0 <= i < |t.files.calls| ensures TaskRooted(h, t.files.fs, t.procs, t.files.calls[i].task) {
        OldTasksRooted(h, s, t, i);
      }
    }
  }

  lemma {:induction false} RootedRun(h: Host, run: seq<Store>, k: nat)
    requires StoreRun(h, run) && k < |run|
    ensures AllRooted(h, run[k])
  {
    if k > 0 {
      RootedRun(h, run, k - 1);
      StoreInvRun(h, run, k - 1);
      WrittenRun(h, run, k);
      assert StoreStepAt(h, run, k - 1);
      RootedStep(h, run[k - 1], run[k]);
    }
  }

  /**
   * Behind every request binding on disk stand an operation started for that request and a stored evidence record
   * that carries it; behind every action binding stands a request binding that names the same evidence.
   */
  lemma {:induction false} BindingIsRooted(h: Host, run: seq<Store>, k: nat, r: Record)
    requires StoreRun(h, run) && k < |run| && EncodesApart(h) && Bound(h, run[k].files.fs, r)
    ensures Rooted(h, run[k].files.fs, run[k].procs, r)
  {
    StoreInvRun(h, run, k);
    RootedRun(h, run, k);
    var s := run[k].files;
    var p := IdentityPath(h, r);
    assert Brought(s.calls, p, ContentOf(s.fs, p));
    var i :| 0 <= i < |s.calls| && s.calls[i].task == Write(p, ContentOf(s.fs, p));
    assert TaskRooted(h, s.fs, run[k].procs, s.calls[i].task);
    var q :| RootedAt(h, s.fs, run[k].procs, p, h.encode(r), q);
  }

  // ------------------------------------------------------ one evidence, exactly when

  /** A result binding, of either kind, of this run and action is on disk. */
  ghost predicate ResultBound(h: Host, fs: Fs, runId: string, actionId: string, r: Record) {
    (r.ActionBinding? || r.RequestBinding?) && Bound(h, fs, r) && r.runIdDigest == runId && r.actionIdDigest == actionId
  }

  ghost predicate RequestBound(h: Host, fs: Fs, runId: string, actionId: string, r: Record) {
    r.RequestBinding? && ResultBound(h, fs, runId, actionId, r)
  }

  ghost predicate OneEvidence(h: Host, fs: Fs, runId: string, actionId: string) {
    forall x, y :: ResultBound(h, fs, runId, actionId, x) && ResultBound(h, fs, runId, actionId, y) ==>
      x.artifact == y.artifact
  }

  predicate SameRequest(x: Record, y: Record)
    requires x.RequestBinding? && y.RequestBinding?
  {
    x.requestRefDigest == y.requestRefDigest && x.requestDigest == y.requestDigest
  }

  /** At most one request identity has been bound for this run and action. */
  ghost predicate OneRequest(h: Host, fs: Fs, runId: string, actionId: string) {
    forall x, y :: RequestBound(h, fs, runId, actionId, x) && RequestBound(h, fs, runId, actionId, y) ==>
      SameRequest(x, y)
  }

  /** Every result binding names the evidence of some request binding of its run and action. */
  lemma {:induction false} RequestBehind(h: Host, run: seq<Store>, k: nat, runId: string, actionId: string, x: Record)
    returns (q: Record)
    requires StoreRun(h, run) && k < |run| && EncodesApart(h) && ResultBound(h, run[k].files.fs, runId, actionId, x)
    ensures RequestBound(h, run[k].files.fs, runId, actionId, q) && q.artifact == x.artifact
  {
    if x.RequestBinding? {
      q := x;
    } else {
      BindingIsRooted(h, run, k, x);
      q :| Follows(h, run[k].files.fs, x, q);
    }
  }

  /** Two request bindings that name one artifact carry one request. */
  lemma {:induction false} SameArtifactSameRequest(h: Host, run: seq<Store>, k: nat, x: Record, y: Record)
    requires StoreRun(h, run) && k < |run| && EncodesApart(h) && x.RequestBinding? && y.RequestBinding?
    requires Bound(h, run[k].files.fs, x) && Bound(h, run[k].files.fs, y) && x.artifact == y.artifact
    ensures SameRequest(x, y)
  {
    BindingIsRooted(h, run, k, x);
    BindingIsRooted(h, run, k, y);
    var fs := run[k].files.fs;
    var e :| EvidenceFor(h, fs, x, e);
    var f :| EvidenceFor(h, fs, y, f);
    assert h.encode(e) == h.encode(f);
  }

  /**
   * In every reachable state the result bindings of a run and action, action and request bindings alike, name one
   * evidence artifact exactly when at most one request has been bound for it.
   */
  lemma {:induction false} OneEvidenceExactly(h: Host, run: seq<Store>, k: nat, runId: string, actionId: string)
    requires StoreRun(h, run) && k < |run| && EncodesApart(h)
    ensures OneEvidence(h, run[k].files.fs, runId, actionId) <==> OneRequest(h, run[k].files.fs, runId, actionId)
  {
    var fs := run[k].files.fs;
    if OneEvidence(h, fs, runId, actionId) {
      forall x, y | RequestBound(h, fs, runId, actionId, x) && RequestBound(h, fs, runId, actionId, y)
        ensures SameRequest(x, y)
      {
        SameArtifactSameRequest(h, run, k, x, y);
      }
    }
    if OneRequest(h, fs, runId, actionId) {
      forall x, y | ResultBound(h, fs, runId, actionId, x) && ResultBound(h, fs, runId, actionId, y)
        ensures x.artifact == y.artifact
      {
        var q := RequestBehind(h, run, k, runId, actionId, x);
        var r := RequestBehind(h, run, k, runId, actionId, y);
        assert SameRequest(q, r);
        OneArtifactPerIdentity(h, run, k, k, q, r);
      }
    }
  }

  /** All result operations started so far for this run and action carry one request. */
  ghost predicate OneRequestAsked(h: Host, procs: seq<Proc>, runId: string, actionId: string) {
    forall i, j :: 0 <= i < |procs| && 0 <= j < |procs|
                   && ResultFor(h, procs[i].op, runId, actionId) && ResultFor(h, procs[j].op, runId, actionId) ==>
      SameAsked(h, procs[i].op, procs[j].op)
  }

  ghost predicate ResultFor(h: Host, op: Op, runId: string, actionId: string) {
    op.PersistResult? && RunOf(h, op) == runId && ActionOf(h, op) == actionId
  }

  ghost predicate SameAsked(h: Host, a: Op, b: Op)
    requires a.PersistResult? && b.PersistResult?
  {
    h.sha(h.text(a.result.requestRef)) == h.sha(h.text(b.result.requestRef))
    && a.result.requestDigest == b.result.requestDigest
  }

  /** A caller who never reports a run and action under two requests never sees two evidences bound to it. */
  lemma {:induction false} OneRequestSuffices(h: Host, run: seq<Store>, k: nat, runId: string, actionId: string)
    requires StoreRun(h, run) && k < |run| && EncodesApart(h) && OneRequestAsked(h, run[k].procs, runId, actionId)
    ensures OneEvidence(h, run[k].files.fs, runId, actionId)
  {
    var fs, procs := run[k].files.fs, run[k].procs;
    forall x, y | RequestBound(h, fs, runId, actionId, x) && RequestBound(h, fs, runId, actionId, y)
      ensures SameRequest(x, y)
    {
      BindingIsRooted(h, run, k, x);
      BindingIsRooted(h, run, k, y);
      var i :| 0 <= i < |procs| && AskedBy(h, procs[i].op, x);
      var j :| 0 <= j < |procs| && AskedBy(h, procs[j].op, y);
      assert ResultFor(h, procs[i].op, runId, actionId) && ResultFor(h, procs[j].op, runId, actionId);
      assert SameAsked(h, procs[i].op, procs[j].op);
    }
    OneEvidenceExactly(h, run, k, runId, actionId);
  }
}
