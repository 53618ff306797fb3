/** A run in which two evidence artifacts are bound for one run and action, reached by any two requests for it. */
module EvidenceConflict {
  import opened Seqs
  import opened EvidenceFiles
  import opened EvidencePublication
  import opened EvidenceTraces
  import opened EvidenceStore
  import opened EvidenceCompletion
  import opened EvidenceBindings

  /** Nothing collides, and what was serialized reads back. */
  ghost predicate Faithful(h: Host) {
    && (forall x, y :: h.sha(x) == h.sha(y) ==> x == y)
    && (forall a, b :: h.locate(a) == h.locate(b) ==> a == b)
    && (forall r :: h.decode(h.encode(r)) == Some(r))
  }

  lemma {:induction false} FaithfulApart(h: Host)
    requires Faithful(h)
    ensures EncodesApart(h)
  {
    forall q, r | h.encode(q) == h.encode(r) ensures q == r { assert h.decode(h.encode(q)) == Some(q); }
  }

  // --------------------------------------------------------- operations alone

  lemma {:induction false} StoreMore(h: Host, run: seq<Store>, t: Store)
    requires StoreRun(h, run) && StoreNext(h, Last(run), t)
    ensures StoreRun(h, run + [t])
  {
    var more := run + [t];
    forall k | 0 <= k < |more| - 1 ensures StoreStepAt(h, more, k) {
      if k < |run| - 1 { assert StoreStepAt(h, run, k); }
    }
  }

  lemma {:induction false} StoreTraced(h: Host, run: seq<Store>, tr: seq<State>) returns (more: seq<Store>)
    requires StoreRun(h, run) && Trace(tr) && tr[0] == Last(run).files
    ensures StoreRun(h, more) && Last(more) == EvidenceStore.Store(Last(tr), Last(run).procs)
    decreases |tr|
  {
    if |tr| == 1 {
      more := run;
    } else {
      var n := |tr| - 1;
      assert Trace(tr[..n]) by {
        forall k | 0 <= k < n - 1 ensures MoveAt(tr[..n], k) { assert MoveAt(tr, k); }
      }
      var before := StoreTraced(h, run, tr[..n]);
      assert MoveAt(tr, n - 1);
      var t := EvidenceStore.Store(tr[n], Last(run).procs);
      StoreMore(h, before, t);
      more := before + [t];
    }
  }

  /** Process `i` has entered a stage and its call, if the stage makes one, is about to look. */
  ghost predicate Entered(h: Host, s: Store, i: nat, op: Op, stage: Stage) {
    && i < |s.procs| && s.procs[i].op == op && s.procs[i].stage == stage
    && var task := TaskAt(h, op, stage);
       task.Some? ==>
         s.procs[i].call < |s.files.calls| && s.files.calls[s.procs[i].call] == Call(task.value, Looking(false), 0, 0)
  }

  /** What other processes were doing is as it was. */
  ghost predicate OthersStay(s: Store, t: Store, i: nat) {
    |t.procs| == |s.procs| && forall j :: 0 <= j < |s.procs| && j != i ==> t.procs[j] == s.procs[j]
  }

  lemma {:induction false} StartOp(h: Host, run: seq<Store>, op: Op) returns (more: seq<Store>)
    requires StoreRun(h, run)
    ensures StoreRun(h, more) && Last(more).files.fs == Last(run).files.fs
    ensures Entered(h, Last(more), |Last(run).procs|, op, First(h, op))
    ensures |Last(more).procs| == |Last(run).procs| + 1 && Last(run).procs <= Last(more).procs
  {
    var s := Last(run);
    var stage := First(h, op);
    var p := Proc(op, stage, |s.files.calls|);
    var task := TaskAt(h, op, stage);
    var files :=
      if task.Some? then s.files.(calls := s.files.calls + [Call(task.value, Looking(false), 0, 0)]) else s.files;
    var t := EvidenceStore.Store(files, s.procs + [p]);
    assert Enters(h, s.files, t.files, op, stage, p);
    assert Starts(h, s, t, op);
    StoreMore(h, run, t);
    more := run + [t];
  }

  /** A process whose call returned enters the stage that follows. */
  lemma {:induction false} AdvanceOp(h: Host, run: seq<Store>, i: nat) returns (more: seq<Store>)
    requires StoreRun(h, run) && Waits(h, Last(run), i)
    ensures StoreRun(h, more) && Last(more).files.fs == Last(run).files.fs
    ensures var p := Last(run).procs[i];
            Entered(h, Last(more), i, p.op,
                    Enter(h, p.op, After(h, p.op, p.stage, Last(run).files.calls[p.call].pc.found)))
    ensures OthersStay(Last(run), Last(more), i)
  {
    var s := Last(run);
    var p := s.procs[i];
    var stage := Enter(h, p.op, After(h, p.op, p.stage, s.files.calls[p.call].pc.found));
    var p' := Proc(p.op, stage, |s.files.calls|);
    var task := TaskAt(h, p.op, stage);
    var files :=
      if task.Some? then s.files.(calls := s.files.calls + [Call(task.value, Looking(false), 0, 0)]) else s.files;
    var t := EvidenceStore.Store(files, s.procs[i := p']);
    assert Enters(h, s.files, t.files, p.op, stage, p');
    assert Advances(h, s, t, i);
    StoreMore(h, run, t);
    more := run + [t];
  }

  /** Nothing shown is lost, and nothing but `p` is added. */
  ghost predicate OnlyAdds(fs: Fs, fs': Fs, p: Path) {
    Grows(fs, fs') && forall q :: Exists(fs', q) ==> Exists(fs, q) || q == p
  }

  lemma {:induction false} WriteStage(h: Host, run: seq<Store>, i: nat, op: Op, stage: Stage, p: Path, bytes: Bytes)
    returns (more: seq<Store>)
    requires StoreRun(h, run) && Entered(h, Last(run), i, op, stage) && TaskAt(h, op, stage) == Some(Write(p, bytes))
    requires |bytes| <= MAX_RECORD_BYTES
    requires Exists(Last(run).files.fs, p) ==> ContentOf(Last(run).files.fs, p) == bytes
    ensures StoreRun(h, more) && Entered(h, Last(more), i, op, Enter(h, op, After(h, op, stage, Some(bytes))))
    ensures OthersStay(Last(run), Last(more), i)
    ensures OnlyAdds(Last(run).files.fs, Last(more).files.fs, p) && Shows(Last(more).files.fs, p, bytes)
  {
    StoreInvRun(h, run, |run| - 1);
    var s := Last(run);
    var c := s.procs[i].call;
    var tr := WriteAlone([s.files], c, p, bytes);
    var written := StoreTraced(h, run, tr);
    assert Waits(h, Last(written), i);
    more := AdvanceOp(h, written, i);
  }

  lemma {:induction false} ReadStage(h: Host, run: seq<Store>, i: nat, op: Op, stage: Stage, p: Path)
    returns (more: seq<Store>)
    requires StoreRun(h, run) && Entered(h, Last(run), i, op, stage) && TaskAt(h, op, stage) == Some(Read(p))
    requires Exists(Last(run).files.fs, p) && |ContentOf(Last(run).files.fs, p)| <= MAX_RECORD_BYTES
    ensures StoreRun(h, more) && OthersStay(Last(run), Last(more), i) && Last(more).files.fs == Last(run).files.fs
    ensures Entered(h, Last(more), i, op, Enter(h, op, After(h, op, stage, Some(ContentOf(Last(run).files.fs, p)))))
  {
    var s := Last(run);
    var c := s.procs[i].call;
    var looked := LookThrough([s.files], c);
    var tr := ActMore(looked, c, PLAIN);
    var done := StoreTraced(h, run, tr);
    assert Waits(h, Last(done), i);
    more := AdvanceOp(h, done, i);
  }

  /** A blob path is free or holds the blob. */
  lemma {:induction false} BlobFree(h: Host, run: seq<Store>, bytes: Bytes)
    requires StoreRun(h, run) && Faithful(h)
    ensures var fs := Last(run).files.fs;
            Exists(fs, Blob(h.sha(bytes))) ==> ContentOf(fs, Blob(h.sha(bytes))) == bytes
  {
    if Exists(Last(run).files.fs, Blob(h.sha(bytes))) {
      EverythingStoredIsBacked(h, run, |run| - 1, Blob(h.sha(bytes)));
    }
  }

  /** Every identity file on disk is one of these. */
  ghost predicate IdentitiesIn(fs: Fs, ids: set<Path>) { forall q :: Exists(fs, q) && q.Identity? ==> q in ids }

  /** The records of a result operation stay within the bound. */
  ghost predicate Fits(h: Host, op: Op, input: string)
    requires op.PersistResult?
  {
    var e := h.sha(h.encode(EvidenceOf(h, op, input)));
    && |h.encode(ResultOf(h, op, input))| <= MAX_RECORD_BYTES
    && |h.encode(EvidenceOf(h, op, input))| <= MAX_RECORD_BYTES
    && |h.encode(RequestBindingOf(h, op, e))| <= MAX_RECORD_BYTES
    && |h.encode(ActionBinding(RunOf(h, op), ActionOf(h, op), e))| <= MAX_RECORD_BYTES
  }

  function EvidenceDigest(h: Host, op: Op, input: string): string
    requires op.PersistResult?
  {
    h.sha(h.encode(EvidenceOf(h, op, input)))
  }

  /** The canonical input of the operation's run and action can be read, and passes the checks made of it. */
  ghost predicate InputReadable(h: Host, fs: Fs, op: Op, input: string) {
    && InputIntact(h, fs, RunOf(h, op), ActionOf(h, op), input)
    && |ContentOf(fs, InputPath(h, RunOf(h, op), ActionOf(h, op)))| <= MAX_RECORD_BYTES
    && |ContentOf(fs, Blob(input))| <= MAX_RECORD_BYTES
  }

  lemma {:induction false} ReadableGrows(h: Host, fs: Fs, fs': Fs, op: Op, input: string)
    requires Grows(fs, fs') && InputReadable(h, fs, op, input)
    ensures InputReadable(h, fs', op, input)
  {
    IntactGrows(h, fs, fs', RunOf(h, op), ActionOf(h, op), input);
  }

  lemma {:induction false} IdentityAdded(fs: Fs, fs': Fs, p: Path, ids: set<Path>)
    requires OnlyAdds(fs, fs', p) && IdentitiesIn(fs, ids)
    ensures IdentitiesIn(fs', if p.Identity? then ids + {p} else ids)
  {
  }

  /** The stage after the input has been read and checked. */
  function FirstRecord(op: Op, input: string): Stage
    requires op.PersistResult?
  {
    if op.result.outcome.Succeeded? then SavingResult(input) else SavingEvidence(input, None)
  }

  /** What each read and write of a result operation leads to. */
  lemma {:induction false} ReadsLead(h: Host, fs: Fs, op: Op, input: string)
    requires op.PersistResult? && InputReadable(h, fs, op, input) && Fits(h, op, input)
    ensures var p := InputPath(h, RunOf(h, op), ActionOf(h, op));
            && TaskAt(h, op, FindingInput) == Some(Read(p))
            && Enter(h, op, After(h, op, FindingInput, Some(ContentOf(fs, p)))) == CheckingInput(input)
    ensures TaskAt(h, op, CheckingInput(input)) == Some(Read(Blob(input)))
    ensures Enter(h, op, After(h, op, CheckingInput(input), Some(ContentOf(fs, Blob(input))))) == FirstRecord(op, input)
  {
  }

  lemma {:induction false} RecordsLead(h: Host, op: Op, input: string, found: Option<Bytes>)
    requires op.PersistResult? && Fits(h, op, input)
    ensures var bytes := h.encode(ResultOf(h, op, input));
            op.result.outcome.Succeeded? ==>
              && TaskAt(h, op, SavingResult(input)) == Some(Write(Blob(h.sha(bytes)), bytes))
              && Enter(h, op, After(h, op, SavingResult(input), found))
                 == SavingEvidence(input, ResultDigest(h, op, input))
    ensures var stage, bytes := SavingEvidence(input, ResultDigest(h, op, input)), h.encode(EvidenceOf(h, op, input));
            && TaskAt(h, op, stage) == Some(Write(Blob(h.sha(bytes)), bytes))
            && Enter(h, op, After(h, op, stage, found)) == BindingRequest(input, EvidenceDigest(h, op, input))
  {
  }

  lemma {:induction false} BindingsLead(h: Host, op: Op, input: string, found: Option<Bytes>)
    requires op.PersistResult? && Fits(h, op, input)
    ensures var e := EvidenceDigest(h, op, input);
            var r := RequestBindingOf(h, op, e);
            && TaskAt(h, op, BindingRequest(input, e)) == Some(Write(IdentityPath(h, r), h.encode(r)))
            && Enter(h, op, After(h, op, BindingRequest(input, e), found)) == BindingAction(input, e)
    ensures var e := EvidenceDigest(h, op, input);
            var r := ActionBinding(RunOf(h, op), ActionOf(h, op), e);
            && TaskAt(h, op, BindingAction(input, e)) == Some(Write(IdentityPath(h, r), h.encode(r)))
            && Enter(h, op, After(h, op, BindingAction(input, e), found)) == Finished(e)
  {
  }

  /** A result operation alone reads and checks its input. */
  lemma {:induction false} ReadInput(h: Host, run: seq<Store>, i: nat, op: Op, input: string) returns (more: seq<Store>)
    requires StoreRun(h, run) && op.PersistResult? && Fits(h, op, input)
    requires Entered(h, Last(run), i, op, FindingInput) && InputReadable(h, Last(run).files.fs, op, input)
    ensures StoreRun(h, more) && OthersStay(Last(run), Last(more), i) && Last(more).files.fs == Last(run).files.fs
    ensures Entered(h, Last(more), i, op, FirstRecord(op, input))
  {
    ReadsLead(h, Last(run).files.fs, op, input);
    var found := ReadStage(h, run, i, op, FindingInput, InputPath(h, RunOf(h, op), ActionOf(h, op)));
    more := ReadStage(h, found, i, op, CheckingInput(input), Blob(input));
  }

  /** It saves a result record if the outcome calls for one. */
  lemma {:induction false} SaveResult(h: Host, run: seq<Store>, i: nat, op: Op, input: string, ids: set<Path>)
    returns (more: seq<Store>)
    requires StoreRun(h, run) && Faithful(h) && op.PersistResult? && Fits(h, op, input)
    requires Entered(h, Last(run), i, op, FirstRecord(op, input)) && IdentitiesIn(Last(run).files.fs, ids)
    ensures StoreRun(h, more) && OthersStay(Last(run), Last(more), i)
    ensures Entered(h, Last(more), i, op, SavingEvidence(input, ResultDigest(h, op, input)))
    ensures Grows(Last(run).files.fs, Last(more).files.fs) && IdentitiesIn(Last(more).files.fs, ids)
  {
    more := run;
    if op.result.outcome.Succeeded? {
      var bytes := h.encode(ResultOf(h, op, input));
      BlobFree(h, run, bytes);
      RecordsLead(h, op, input, Some(bytes));
      more := WriteStage(h, run, i, op, SavingResult(input), Blob(h.sha(bytes)), bytes);
      IdentityAdded(Last(run).files.fs, Last(more).files.fs, Blob(h.sha(bytes)), ids);
    }
  }

  lemma {:induction false} SaveEvidence(h: Host, run: seq<Store>, i: nat, op: Op, input: string, ids: set<Path>)
    returns (more: seq<Store>)
    requires StoreRun(h, run) && Faithful(h) && op.PersistResult? && Fits(h, op, input)
    requires Entered(h, Last(run), i, op, SavingEvidence(input, ResultDigest(h, op, input)))
    requires IdentitiesIn(Last(run).files.fs, ids)
    ensures StoreRun(h, more) && OthersStay(Last(run), Last(more), i)
    ensures Entered(h, Last(more), i, op, BindingRequest(input, EvidenceDigest(h, op, input)))
    ensures Grows(Last(run).files.fs, Last(more).files.fs) && IdentitiesIn(Last(more).files.fs, ids)
  {
    var bytes := h.encode(EvidenceOf(h, op, input));
    BlobFree(h, run, bytes);
    RecordsLead(h, op, input, Some(bytes));
    more := WriteStage(h, run, i, op, SavingEvidence(input, ResultDigest(h, op, input)), Blob(h.sha(bytes)), bytes);
    IdentityAdded(Last(run).files.fs, Last(more).files.fs, Blob(h.sha(bytes)), ids);
  }

  /** It binds its request when that identity is free. */
  lemma {:induction false} BindRequest(h: Host, run: seq<Store>, i: nat, op: Op, input: string, ids: set<Path>)
    returns (more: seq<Store>)
    requires StoreRun(h, run) && op.PersistResult? && Fits(h, op, input) && IdentitiesIn(Last(run).files.fs, ids)
    requires Entered(h, Last(run), i, op, BindingRequest(input, EvidenceDigest(h, op, input)))
    requires IdentityPath(h, RequestBindingOf(h, op, EvidenceDigest(h, op, input))) !in ids
    ensures StoreRun(h, more) && OthersStay(Last(run), Last(more), i)
    ensures Entered(h, Last(more), i, op, BindingAction(input, EvidenceDigest(h, op, input)))
    ensures var r := RequestBindingOf(h, op, EvidenceDigest(h, op, input));
            && Grows(Last(run).files.fs, Last(more).files.fs) && Bound(h, Last(more).files.fs, r)
            && IdentitiesIn(Last(more).files.fs, ids + {IdentityPath(h, r)})
  {
    var e := EvidenceDigest(h, op, input);
    var r := RequestBindingOf(h, op, e);
    var p := IdentityPath(h, r);
    BindingsLead(h, op, input, Some(h.encode(r)));
    more := WriteStage(h, run, i, op, BindingRequest(input, e), p, h.encode(r));
    IdentityAdded(Last(run).files.fs, Last(more).files.fs, p, ids);
  }

  lemma {:induction false} BindAction(h: Host, run: seq<Store>, i: nat, op: Op, input: string, ids: set<Path>)
    returns (more: seq<Store>)
    requires StoreRun(h, run) && op.PersistResult? && Fits(h, op, input) && IdentitiesIn(Last(run).files.fs, ids)
    requires Entered(h, Last(run), i, op, BindingAction(input, EvidenceDigest(h, op, input)))
    requires ActionPath(h, op) !in ids
    ensures StoreRun(h, more) && OthersStay(Last(run), Last(more), i)
    ensures Entered(h, Last(more), i, op, Finished(EvidenceDigest(h, op, input)))
    ensures Bound(h, Last(more).files.fs, ActionBinding(RunOf(h, op), ActionOf(h, op), EvidenceDigest(h, op, input)))
    ensures Grows(Last(run).files.fs, Last(more).files.fs)
    ensures IdentitiesIn(Last(more).files.fs, ids + {ActionPath(h, op)})
  {
    var e := EvidenceDigest(h, op, input);
    var r := ActionBinding(RunOf(h, op), ActionOf(h, op), e);
    assert IdentityPath(h, r) == ActionPath(h, op);
    BindingsLead(h, op, input, Some(h.encode(r)));
    more := WriteStage(h, run, i, op, BindingAction(input, e), IdentityPath(h, r), h.encode(r));
    IdentityAdded(Last(run).files.fs, Last(more).files.fs, IdentityPath(h, r), ids);
  }

  function ActionPath(h: Host, op: Op): Path { IdentityPath(h, ActionBinding(RunOf(h, op), ActionOf(h, op), "")) }

  /** A result operation alone, from its start until it has bound its request. */
  lemma {:induction false} ReportAlone(h: Host, run: seq<Store>, op: Op, input: string, ids: set<Path>)
    returns (more: seq<Store>)
    requires StoreRun(h, run) && Faithful(h) && op.PersistResult? && Fits(h, op, input)
    requires InputReadable(h, Last(run).files.fs, op, input) && IdentitiesIn(Last(run).files.fs, ids)
    requires IdentityPath(h, RequestBindingOf(h, op, EvidenceDigest(h, op, input))) !in ids
    ensures StoreRun(h, more) && |Last(more).procs| == |Last(run).procs| + 1 && Last(run).procs <= Last(more).procs
    ensures Entered(h, Last(more), |Last(run).procs|, op, BindingAction(input, EvidenceDigest(h, op, input)))
    ensures var r := RequestBindingOf(h, op, EvidenceDigest(h, op, input));
            && Grows(Last(run).files.fs, Last(more).files.fs) && Bound(h, Last(more).files.fs, r)
            && IdentitiesIn(Last(more).files.fs, ids + {IdentityPath(h, r)})
  {
    var i := |Last(run).procs|;
    var started := StartOp(h, run, op);
    var ready := SaveAlone(h, started, i, op, input, ids);
    more := BindRequest(h, ready, i, op, input, ids);
    GrowsOn(Last(run).files.fs, Last(ready).files.fs, Last(more).files.fs);
  }

  lemma {:induction false} SaveAlone(h: Host, run: seq<Store>, i: nat, op: Op, input: string, ids: set<Path>)
    returns (more: seq<Store>)
    requires StoreRun(h, run) && Faithful(h) && op.PersistResult? && Fits(h, op, input)
    requires Entered(h, Last(run), i, op, FindingInput)
    requires InputReadable(h, Last(run).files.fs, op, input) && IdentitiesIn(Last(run).files.fs, ids)
    ensures StoreRun(h, more) && OthersStay(Last(run), Last(more), i)
    ensures Entered(h, Last(more), i, op, BindingRequest(input, EvidenceDigest(h, op, input)))
    ensures Grows(Last(run).files.fs, Last(more).files.fs) && IdentitiesIn(Last(more).files.fs, ids)
  {
    var read := ReadInput(h, run, i, op, input);
    var saved := SaveResult(h, read, i, op, input, ids);
    more := SaveEvidence(h, saved, i, op, input, ids);
    GrowsOn(Last(run).files.fs, Last(saved).files.fs, Last(more).files.fs);
  }

  lemma {:induction false} GrowsOn(a: Fs, b: Fs, c: Fs)
    requires Grows(a, b) && Grows(b, c)
    ensures Grows(a, c)
  {
  }

  /** It fails when the action is bound to other bytes. */
  lemma {:induction false} ConflictOnAction(h: Host, run: seq<Store>, i: nat, op: Op, input: string, b: Record)
    returns (more: seq<Store>)
    requires StoreRun(h, run) && op.PersistResult? && Fits(h, op, input)
    requires b.ActionBinding? && Bound(h, Last(run).files.fs, b)
    requires b.runIdDigest == RunOf(h, op) && b.actionIdDigest == ActionOf(h, op)
    requires Entered(h, Last(run), i, op, BindingAction(input, EvidenceDigest(h, op, input)))
    requires |h.encode(b)| <= MAX_RECORD_BYTES && EncodesApart(h) && b.artifact != EvidenceDigest(h, op, input)
    ensures StoreRun(h, more) && OthersStay(Last(run), Last(more), i) && Last(more).files.fs == Last(run).files.fs
    ensures i < |Last(more).procs| && Last(more).procs[i] == Last(run).procs[i]
    ensures var c := Last(more).procs[i].call; c < |Last(more).files.calls| && Last(more).files.calls[c].pc.Failed?
  {
    var s := Last(run);
    var c := s.procs[i].call;
    var r := ActionBinding(RunOf(h, op), ActionOf(h, op), EvidenceDigest(h, op, input));
    assert IdentityPath(h, r) == IdentityPath(h, b) && h.encode(r) != h.encode(b);
    BindingsLead(h, op, input, None);
    var looked := LookThrough([s.files], c);
    var tr := ActMore(looked, c, PLAIN);
    more := StoreTraced(h, run, tr);
  }

  // ----------------------------------------------------------- the whole run

  /** The input operation of a run and action, whose bytes are the canonical record. */
  ghost predicate InputOp(h: Host, op: Op, record: Record) {
    && op.PersistInput? && record.InputRecord? && op.bytes == h.encode(record) && op.digest == h.sha(op.bytes)
    && record.runIdDigest == RunOf(h, op) && record.actionIdDigest == ActionOf(h, op)
    && |op.bytes| <= MAX_RECORD_BYTES
    && |h.encode(InputBinding(RunOf(h, op), ActionOf(h, op), op.digest))| <= MAX_RECORD_BYTES
  }

  lemma {:induction false} InputStored(h: Host, op: Op, record: Record) returns (run: seq<Store>)
    requires Faithful(h) && InputOp(h, op, record)
    ensures StoreRun(h, run) && |Last(run).procs| == 1
    ensures InputReadable(h, Last(run).files.fs, op, op.digest)
    ensures IdentitiesIn(Last(run).files.fs, {InputPath(h, RunOf(h, op), ActionOf(h, op))})
  {
    var s := EvidenceStore.Store(State(Fs(map[], map[], 0), []), []);
    assert StoreRun(h, [s]);
    var started := StartOp(h, [s], op);
    var saved := WriteStage(h, started, 0, op, SavingInput, Blob(op.digest), op.bytes);
    var b := InputBinding(RunOf(h, op), ActionOf(h, op), op.digest);
    assert IdentityPath(h, b) == InputPath(h, RunOf(h, op), ActionOf(h, op));
    run := WriteStage(h, saved, 0, op, BindingInput, IdentityPath(h, b), h.encode(b));
    assert ContentOf(Last(run).files.fs, Blob(op.digest)) == op.bytes;
  }

  /** The two identities a result operation binds differ from each other and from the input's. */
  lemma {:induction false} PathsApart(h: Host, op: Op, e: string)
    requires Faithful(h) && op.PersistResult?
    ensures var input := InputPath(h, RunOf(h, op), ActionOf(h, op));
            var request := IdentityPath(h, RequestBindingOf(h, op, e));
            request != input && ActionPath(h, op) != input && ActionPath(h, op) != request
  {
    var input := InputBinding(RunOf(h, op), ActionOf(h, op), "");
    var action := ActionBinding(RunOf(h, op), ActionOf(h, op), "");
    assert LocatorOf(input).recordKind != LocatorOf(action).recordKind;
    assert LocatorOf(input).requestRefDigest != LocatorOf(RequestBindingOf(h, op, e)).requestRefDigest;
    assert LocatorOf(action).requestRefDigest != LocatorOf(RequestBindingOf(h, op, e)).requestRefDigest;
  }

  /** Operations under two requests leave two evidence records, and bind them at two identities. */
  lemma {:induction false} RequestsApart(h: Host, a: Op, b: Op, input: string)
    requires Faithful(h) && a.PersistResult? && b.PersistResult? && !SameAsked(h, a, b)
    ensures EvidenceDigest(h, a, input) != EvidenceDigest(h, b, input)
    ensures forall e, f :: IdentityPath(h, RequestBindingOf(h, a, e)) != IdentityPath(h, RequestBindingOf(h, b, f))
  {
    FaithfulApart(h);
    var x, y := EvidenceOf(h, a, input), EvidenceOf(h, b, input);
    assert x.common.requestRefDigest != y.common.requestRefDigest || x.common.requestDigest != y.common.requestDigest;
    forall e, f ensures IdentityPath(h, RequestBindingOf(h, a, e)) != IdentityPath(h, RequestBindingOf(h, b, f)) {
      var k, l := LocatorOf(RequestBindingOf(h, a, e)), LocatorOf(RequestBindingOf(h, b, f));
      assert k.requestRefDigest != l.requestRefDigest || k.requestDigest != l.requestDigest;
    }
  }

  /** A result operation of the input's run and action. */
  ghost predicate ResultOp(h: Host, op: Op, input: Op) {
    && op.PersistResult? && input.PersistInput?
    && op.result.runId == input.runId && op.result.actionId == input.actionId && Fits(h, op, input.digest)
  }

  function RequestPath(h: Host, op: Op, input: string): Path
    requires op.PersistResult?
  {
    IdentityPath(h, RequestBindingOf(h, op, EvidenceDigest(h, op, input)))
  }

  /** After the first operation alone: it finished, and its request and action are bound to its evidence. */
  lemma {:induction false} FirstFinished(h: Host, run: seq<Store>, op: Op, input: string, ids: set<Path>)
    returns (more: seq<Store>)
    requires StoreRun(h, run) && Faithful(h) && op.PersistResult? && Fits(h, op, input) && |Last(run).procs| == 1
    requires InputReadable(h, Last(run).files.fs, op, input) && IdentitiesIn(Last(run).files.fs, ids)
    requires ids == {InputPath(h, RunOf(h, op), ActionOf(h, op))}
    ensures StoreRun(h, more) && |Last(more).procs| == 2
    ensures var fs, e := Last(more).files.fs, EvidenceDigest(h, op, input);
            && Last(more).procs[1].op == op && Last(more).procs[1].stage == Finished(e)
            && Bound(h, fs, RequestBindingOf(h, op, e)) && Bound(h, fs, ActionBinding(RunOf(h, op), ActionOf(h, op), e))
            && InputReadable(h, fs, op, input)
            && IdentitiesIn(fs, ids + {RequestPath(h, op, input)} + {ActionPath(h, op)})
  {
    PathsApart(h, op, EvidenceDigest(h, op, input));
    var asked := ReportAlone(h, run, op, input, ids);
    more := BindAction(h, asked, 1, op, input, ids + {RequestPath(h, op, input)});
    ReadableGrows(h, Last(run).files.fs, Last(asked).files.fs, op, input);
    ReadableGrows(h, Last(asked).files.fs, Last(more).files.fs, op, input);
  }

  /** The second operation then binds its own request to its own evidence before it meets the conflict. */
  lemma {:induction false} SecondFails(h: Host, run: seq<Store>, op: Op, input: string, ids: set<Path>, b: Record)
    returns (more: seq<Store>)
    requires StoreRun(h, run) && Faithful(h) && op.PersistResult? && Fits(h, op, input) && |Last(run).procs| == 2
    requires InputReadable(h, Last(run).files.fs, op, input) && IdentitiesIn(Last(run).files.fs, ids)
    requires RequestPath(h, op, input) !in ids
    requires b.ActionBinding? && Bound(h, Last(run).files.fs, b) && |h.encode(b)| <= MAX_RECORD_BYTES
    requires b.runIdDigest == RunOf(h, op) && b.actionIdDigest == ActionOf(h, op)
    requires b.artifact != EvidenceDigest(h, op, input)
    ensures StoreRun(h, more) && |Last(more).procs| == 3 && Last(more).procs[1] == Last(run).procs[1]
    ensures Grows(Last(run).files.fs, Last(more).files.fs)
    ensures Bound(h, Last(more).files.fs, RequestBindingOf(h, op, EvidenceDigest(h, op, input)))
    ensures var p := Last(more).procs[2];
            p.op == op && p.call < |Last(more).files.calls| && Last(more).files.calls[p.call].pc.Failed?
  {
    FaithfulApart(h);
    var asked := ReportAlone(h, run, op, input, ids);
    more := ConflictOnAction(h, asked, 2, op, input, b);
  }

  /**
   * Whenever results for one run and action are reported under two requests, some run leaves two evidence artifacts
   * bound to it: the first operation finishes, the second binds its request to its own evidence and only then fails
   * on the action, which names the first evidence.
   */
  lemma {:induction false} TwoEvidencesBound(h: Host, input: Op, record: Record, a: Op, b: Op) returns (run: seq<Store>)
    requires Faithful(h) && InputOp(h, input, record) && ResultOp(h, a, input) && ResultOp(h, b, input)
    requires !SameAsked(h, a, b)
    ensures StoreRun(h, run) && |Last(run).procs| == 3
    ensures var fs, e, f := Last(run).files.fs, EvidenceDigest(h, a, input.digest), EvidenceDigest(h, b, input.digest);
            && e != f && Bound(h, fs, ActionBinding(RunOf(h, a), ActionOf(h, a), e))
            && Bound(h, fs, RequestBindingOf(h, a, e)) && Bound(h, fs, RequestBindingOf(h, b, f))
            && !OneEvidence(h, fs, RunOf(h, a), ActionOf(h, a))
            && Last(run).procs[1].op == a && Last(run).procs[1].stage == Finished(e)
    ensures var p := Last(run).procs[2];
            p.op == b && p.call < |Last(run).files.calls| && Last(run).files.calls[p.call].pc.Failed?
  {
    var e, f := EvidenceDigest(h, a, input.digest), EvidenceDigest(h, b, input.digest);
    var ids := {InputPath(h, RunOf(h, a), ActionOf(h, a))};
    assert RunOf(h, a) == RunOf(h, input) == RunOf(h, b) && ActionOf(h, a) == ActionOf(h, input) == ActionOf(h, b);
    var stored := InputStored(h, input, record);
    var before := FirstFinished(h, stored, a, input.digest, ids);
    RequestsApart(h, a, b, input.digest);
    SecondFree(h, a, b, input.digest);
    var action := ActionBinding(RunOf(h, a), ActionOf(h, a), e);
    ids := ids + {RequestPath(h, a, input.digest)} + {ActionPath(h, a)};
    run := SecondFails(h, before, b, input.digest, ids, action);
    TwoBound(h, Last(before).files.fs, Last(run).files.fs, RunOf(h, a), ActionOf(h, a), action,
             RequestBindingOf(h, a, e), RequestBindingOf(h, b, f));
  }

  lemma {:induction false} SecondFree(h: Host, a: Op, b: Op, input: string)
    requires Faithful(h) && a.PersistResult? && b.PersistResult? && !SameAsked(h, a, b)
    requires RunOf(h, a) == RunOf(h, b) && ActionOf(h, a) == ActionOf(h, b)
    ensures var ids := {InputPath(h, RunOf(h, a), ActionOf(h, a))} + {RequestPath(h, a, input)} + {ActionPath(h, a)};
            RequestPath(h, b, input) !in ids
  {
    RequestsApart(h, a, b, input);
    PathsApart(h, b, EvidenceDigest(h, b, input));
  }

  /** Three bindings that do not name one artifact. */
  lemma {:induction false} TwoBound(
      h: Host, fs: Fs, fs': Fs, runId: string, actionId: string, x: Record, y: Record, z: Record)
    requires Grows(fs, fs') && Bound(h, fs, x) && Bound(h, fs, y) && Bound(h, fs', z)
    requires x.ActionBinding? && z.RequestBinding? && x.artifact != z.artifact
    requires x.runIdDigest == z.runIdDigest == runId && x.actionIdDigest == z.actionIdDigest == actionId
    ensures Bound(h, fs', x) && Bound(h, fs', y) && !OneEvidence(h, fs', runId, actionId)
  {
    assert ResultBound(h, fs', runId, actionId, x) && ResultBound(h, fs', runId, actionId, z);
  }
}
