/** Safety of the publication protocol over every interleaving, with crashes at any step. */
module EvidencePublication {
  import opened Seqs
  import opened EvidenceFiles

  // ------------------------------------------------ calls that did not move

  /** A call is untouched by another call's step. */
  lemma {:induction false} OtherHolds(fs: Fs, fs': Fs, temp: Option<nat>, ino: Option<nat>, d: Call)
    requires Keeps(fs, fs', temp, ino) && CallHolds(fs, d)
    requires Holds(d) ==> (temp.Some? ==> d.temp != temp.value) && (ino.Some? ==> d.inode != ino.value)
    requires ino.Some? ==> forall p :: Published(p) in fs.names ==> fs.names[Published(p)] != ino.value
    requires Unlinked(d) ==> forall p :: Published(p) in fs'.names ==> fs'.names[Published(p)] != d.inode
    ensures CallHolds(fs', d)
  {
    if Exists(fs, d.task.path) { KeepsShown(fs, fs', temp, ino, d.task.path); }
  }

  // ---------------------------------------------------- what a step may change

  /** The part of the invariant that is about files. */
  ghost predicate FilesHold(fs: Fs) { Resolves(fs) && TempsApart(fs) }

  lemma {:induction false} CreateKeeps(fs: Fs, temp: nat, ino: nat)
    requires FilesHold(fs) && Temp(temp) !in fs.names && ino !in fs.inodes
    ensures FilesHold(Create(fs, temp, ino)) && Keeps(fs, Create(fs, temp, ino), None, None)
    ensures forall p :: Published(p) in Create(fs, temp, ino).names <==> Published(p) in fs.names
    ensures forall p :: Published(p) in fs.names ==>
              Create(fs, temp, ino).names[Published(p)] == fs.names[Published(p)] != ino
  {
  }

  lemma {:induction false} StoreKeeps(fs: Fs, ino: nat, bytes: Bytes)
    requires FilesHold(fs)
    ensures FilesHold(Store(fs, ino, bytes)) && Keeps(fs, Store(fs, ino, bytes), None, Some(ino))
  {
  }

  lemma {:induction false} LinkKeeps(fs: Fs, temp: nat, path: Path)
    requires FilesHold(fs) && Temp(temp) in fs.names && Published(path) !in fs.names
    ensures FilesHold(Link(fs, temp, path)) && Keeps(fs, Link(fs, temp, path), None, None)
    ensures Exists(Link(fs, temp, path), path)
    ensures ContentOf(Link(fs, temp, path), path) == fs.inodes[fs.names[Temp(temp)]].bytes
    ensures forall p :: Published(p) in Link(fs, temp, path).names ==>
              if p == path then Link(fs, temp, path).names[Published(p)] == fs.names[Temp(temp)]
              else Published(p) in fs.names && Link(fs, temp, path).names[Published(p)] == fs.names[Published(p)]
  {
  }

  lemma {:induction false} UnlinkKeeps(fs: Fs, temp: nat)
    requires FilesHold(fs)
    ensures FilesHold(Unlink(fs, temp)) && Keeps(fs, Unlink(fs, temp), Some(temp), None)
    ensures forall p :: Published(p) in Unlink(fs, temp).names ==>
              Published(p) in fs.names && Unlink(fs, temp).names[Published(p)] == fs.names[Published(p)]
  {
  }

  /** The temporary name and the file whose bytes one call's step may change. */
  function FreedTemp(c: Call, choice: Choice): Option<nat> {
    if c.pc.Unlinking? && !choice.fail then Some(c.temp) else None
  }

  function WrittenFile(c: Call, choice: Choice): Option<nat> {
    if c.pc.Writing? && !choice.fail then Some(c.inode) else None
  }

  lemma {:induction false} KeepsAll(fs: Fs, temp: Option<nat>, ino: Option<nat>)
    ensures Keeps(fs, fs, temp, ino)
  {
  }

  lemma {:induction false} ActKeeps(fs: Fs, c: Call, choice: Choice)
    requires FilesHold(fs) && CallHolds(fs, c)
    ensures var fs' := Act(fs, c, choice).0;
            FilesHold(fs') && Keeps(fs, fs', FreedTemp(c, choice), WrittenFile(c, choice))
  {
    KeepsAll(fs, FreedTemp(c, choice), WrittenFile(c, choice));
    if !Over(c) && !choice.fail {
      if c.pc.Opening? && Temp(choice.temp) !in fs.names && choice.inode !in fs.inodes {
        CreateKeeps(fs, choice.temp, choice.inode);
      } else if c.pc.Writing? && c.pc.count < choice.upto <= |c.task.bytes| {
        StoreKeeps(fs, c.inode, c.task.bytes[..choice.upto]);
      } else if c.pc.Linking? && Published(c.task.path) !in fs.names {
        LinkKeeps(fs, c.temp, c.task.path);
      } else if c.pc.Unlinking? {
        UnlinkKeeps(fs, c.temp);
      }
    }
  }

  /** A step publishes nothing but a finished file, under its own call's path. */
  lemma {:induction false} ActPublishes(fs: Fs, c: Call, choice: Choice, p: Path)
    requires FilesHold(fs) && CallHolds(fs, c) && Published(p) in Act(fs, c, choice).0.names
    ensures Published(p) !in fs.names ==>
              c.pc.Linking? && p == c.task.path && Act(fs, c, choice).0.names[Published(p)] == c.inode
    ensures Published(p) in fs.names ==> Act(fs, c, choice).0.names[Published(p)] == fs.names[Published(p)]
  {
    if !Over(c) && !choice.fail {
      if c.pc.Opening? && Temp(choice.temp) !in fs.names && choice.inode !in fs.inodes {
        CreateKeeps(fs, choice.temp, choice.inode);
      } else if c.pc.Linking? && Published(c.task.path) !in fs.names {
        LinkKeeps(fs, c.temp, c.task.path);
      } else if c.pc.Unlinking? {
        UnlinkKeeps(fs, c.temp);
      }
    }
  }

  /** No published name leads to the file being written. */
  lemma {:induction false} WrittenUnpublished(fs: Fs, c: Call, choice: Choice, p: Path)
    requires CallHolds(fs, c) && WrittenFile(c, choice).Some? && Published(p) in fs.names
    ensures fs.names[Published(p)] != WrittenFile(c, choice).value
  {
  }

  // -------------------------------------------------------- the call that moves

  lemma {:induction false} AbortHolds(fs: Fs, c: Call)
    requires CallHolds(fs, c) && !Over(c)
    ensures CallHolds(fs, Abort(c))
  {
  }

  lemma {:induction false} MoverHolds(fs: Fs, c: Call, choice: Choice)
    requires FilesHold(fs) && CallHolds(fs, c)
    ensures CallHolds(Act(fs, c, choice).0, Act(fs, c, choice).1)
  {
    if !Over(c) {
      AbortHolds(fs, c);
      if !choice.fail {
        match c.pc
        case Opening => OpeningHolds(fs, c, choice);
        case Writing(_) => WritingHolds(fs, c, choice);
        case Linking => LinkingHolds(fs, c, choice);
        case Unlinking(_) => UnlinkingHolds(fs, c, choice);
        case _ =>
      }
    }
  }

  lemma {:induction false} OpeningHolds(fs: Fs, c: Call, choice: Choice)
    requires FilesHold(fs) && CallHolds(fs, c) && c.pc.Opening? && !choice.fail
    ensures CallHolds(Act(fs, c, choice).0, Act(fs, c, choice).1)
  {
    if Temp(choice.temp) !in fs.names && choice.inode !in fs.inodes {
      CreateKeeps(fs, choice.temp, choice.inode);
    }
  }

  lemma {:induction false} WritingHolds(fs: Fs, c: Call, choice: Choice)
    requires FilesHold(fs) && CallHolds(fs, c) && c.pc.Writing? && !choice.fail
    ensures CallHolds(Act(fs, c, choice).0, Act(fs, c, choice).1)
  {
    if c.pc.count >= |c.task.bytes| { assert c.task.bytes[..c.pc.count] == c.task.bytes; }
  }

  lemma {:induction false} LinkingHolds(fs: Fs, c: Call, choice: Choice)
    requires FilesHold(fs) && CallHolds(fs, c) && c.pc.Linking? && !choice.fail
    ensures CallHolds(Act(fs, c, choice).0, Act(fs, c, choice).1)
  {
    if Published(c.task.path) !in fs.names { LinkKeeps(fs, c.temp, c.task.path); }
  }

  lemma {:induction false} UnlinkingHolds(fs: Fs, c: Call, choice: Choice)
    requires FilesHold(fs) && CallHolds(fs, c) && c.pc.Unlinking? && !choice.fail
    ensures CallHolds(Act(fs, c, choice).0, Act(fs, c, choice).1)
  {
    UnlinkKeeps(fs, c.temp);
    if c.pc.ok { KeepsShown(fs, Unlink(fs, c.temp), Some(c.temp), None, c.task.path); }
  }

  // -------------------------------------------------------------- whole states

  lemma {:induction false} HeldInodesDiffer(fs: Fs, c: Call, d: Call)
    requires TempsApart(fs) && CallHolds(fs, c) && CallHolds(fs, d) && Holds(c) && Holds(d) && c.temp != d.temp
    ensures c.inode != d.inode
  {
    assert fs.names[Temp(c.temp)] != fs.names[Temp(d.temp)];
  }

  lemma {:induction false} BystanderHolds(fs: Fs, c: Call, choice: Choice, d: Call)
    requires FilesHold(fs) && CallHolds(fs, c) && CallHolds(fs, d) && Apart(c, d)
    ensures CallHolds(Act(fs, c, choice).0, d)
  {
    var fs' := Act(fs, c, choice).0;
    ActKeeps(fs, c, choice);
    if Holds(c) && Holds(d) { HeldInodesDiffer(fs, c, d); }
    if Unlinked(d) {
      forall p | Published(p) in fs'.names ensures fs'.names[Published(p)] != d.inode {
        ActPublishes(fs, c, choice, p);
      }
    }
    OtherHolds(fs, fs', FreedTemp(c, choice), WrittenFile(c, choice), d);
  }

  lemma {:induction false} StaysApart(fs: Fs, c: Call, choice: Choice, d: Call)
    requires CallHolds(fs, d) && Apart(c, d)
    ensures Apart(Act(fs, c, choice).1, d)
  {
  }

  lemma {:induction false} ActBrings(s: State, t: State, i: nat, choice: Choice, p: Path)
    requires Inv(s) && Acts(s, t, i, choice) && Exists(t.fs, p)
    ensures Brought(t.calls, p, ContentOf(t.fs, p))
  {
    var c := s.calls[i];
    assert CallHolds(s.fs, c);
    ActKeeps(s.fs, c, choice);
    ActPublishes(s.fs, c, choice, p);
    if Published(p) in s.fs.names {
      if WrittenFile(c, choice).Some? { WrittenUnpublished(s.fs, c, choice, p); }
      KeepsShown(s.fs, t.fs, FreedTemp(c, choice), WrittenFile(c, choice), p);
      var k :| 0 <= k < |s.calls| && s.calls[k].task == Write(p, ContentOf(s.fs, p));
      assert t.calls[k].task == s.calls[k].task;
    } else {
      assert t.calls[i].task == c.task;
    }
  }

  lemma {:induction false} ActStep(s: State, t: State, i: nat, choice: Choice)
    requires Inv(s) && Acts(s, t, i, choice)
    ensures Inv(t)
  {
    var c := s.calls[i];
    assert CallHolds(s.fs, c);
    ActKeeps(s.fs, c, choice);
    MoverHolds(s.fs, c, choice);
    forall j | 0 <= j < |t.calls| ensures CallHolds(t.fs, t.calls[j]) {
      if j != i {
        assert Apart(c, s.calls[j]);
        BystanderHolds(s.fs, c, choice, s.calls[j]);
      }
    }
    forall j | 0 <= j < |t.calls| && j != i ensures Apart(t.calls[i], t.calls[j]) {
      assert Apart(c, s.calls[j]) && CallHolds(s.fs, s.calls[j]);
      StaysApart(s.fs, c, choice, s.calls[j]);
    }
    forall j, k | 0 <= j < k < |t.calls| ensures Apart(t.calls[j], t.calls[k]) {
      if j != i && k != i { assert Apart(s.calls[j], s.calls[k]); }
    }
    forall p | Exists(t.fs, p) ensures Brought(t.calls, p, ContentOf(t.fs, p)) { ActBrings(s, t, i, choice, p); }
  }

  lemma {:induction false} CrashStep(s: State, t: State, i: nat)
    requires Inv(s) && Crashes(s, t, i)
    ensures Inv(t)
  {
    forall j | 0 <= j < |t.calls| ensures CallHolds(t.fs, t.calls[j]) { assert CallHolds(s.fs, s.calls[j]); }
    forall j, k | 0 <= j < k < |t.calls| ensures Apart(t.calls[j], t.calls[k]) { assert Apart(s.calls[j], s.calls[k]); }
    forall p | Exists(t.fs, p) ensures Brought(t.calls, p, ContentOf(t.fs, p)) {
      var k :| 0 <= k < |s.calls| && s.calls[k].task == Write(p, ContentOf(s.fs, p));
      assert t.calls[k].task == s.calls[k].task;
    }
  }

  lemma {:induction false} BeginStep(s: State, t: State, task: Task)
    requires Inv(s) && Begins(s, t, task)
    ensures Inv(t)
  {
    forall p | Exists(t.fs, p) ensures Brought(t.calls, p, ContentOf(t.fs, p)) {
      var k :| 0 <= k < |s.calls| && s.calls[k].task == Write(p, ContentOf(s.fs, p));
      assert t.calls[k] == s.calls[k];
    }
  }

  lemma {:induction false} TickStep(s: State, t: State)
    requires Inv(s) && Ticks(s, t)
    ensures Inv(t)
  {
    KeepsAll(s.fs, None, None);
    assert Keeps(s.fs, t.fs, None, None);
    forall j | 0 <= j < |t.calls| ensures CallHolds(t.fs, t.calls[j]) {
      assert CallHolds(s.fs, s.calls[j]);
      OtherHolds(s.fs, t.fs, None, None, s.calls[j]);
    }
    forall p | Exists(t.fs, p) ensures Brought(t.calls, p, ContentOf(t.fs, p)) {
      assert Exists(s.fs, p) && ContentOf(t.fs, p) == ContentOf(s.fs, p);
    }
  }

  /** Every step of every process keeps the invariant. */
  lemma {:induction false} InvStep(s: State, t: State)
    requires Inv(s) && Next(s, t)
    ensures Inv(t)
  {
    if task :| Begins(s, t, task) {
      BeginStep(s, t, task);
    } else if i, choice :| Acts(s, t, i, choice) {
      ActStep(s, t, i, choice);
    } else if i :| Crashes(s, t, i) {
      CrashStep(s, t, i);
    } else {
      TickStep(s, t);
    }
  }

  lemma {:induction false} InvRun(run: seq<State>, k: nat)
    requires Run(run) && k < |run|
    ensures Inv(run[k])
  {
    if k > 0 {
      InvRun(run, k - 1);
      assert StepAt(run, k - 1);
      InvStep(run[k - 1], run[k]);
    }
  }

  // ------------------------------------------------------------- the theorems

  lemma {:induction false} StepKeepsPublished(s: State, t: State, p: Path)
    requires Inv(s) && Next(s, t) && Exists(s.fs, p)
    ensures Shows(t.fs, p, ContentOf(s.fs, p))
  {
    if i: nat, choice :| Acts(s, t, i, choice) {
      var c := s.calls[i];
      assert CallHolds(s.fs, c);
      ActKeeps(s.fs, c, choice);
      if WrittenFile(c, choice).Some? { WrittenUnpublished(s.fs, c, choice, p); }
      KeepsShown(s.fs, t.fs, FreedTemp(c, choice), WrittenFile(c, choice), p);
    }
  }

  lemma {:induction false} ShownStep(run: seq<State>, k: nat, p: Path, bytes: Bytes)
    requires Run(run) && k + 1 < |run| && Shows(run[k].fs, p, bytes)
    ensures Shows(run[k + 1].fs, p, bytes)
  {
    InvRun(run, k);
    assert StepAt(run, k);
    StepKeepsPublished(run[k], run[k + 1], p);
  }

  lemma {:induction false} ShownStays(run: seq<State>, j: nat, k: nat, p: Path, bytes: Bytes)
    requires Run(run) && j <= k < |run| && Shows(run[j].fs, p, bytes)
    ensures Shows(run[k].fs, p, bytes)
  {
    if j < k {
      ShownStays(run, j, k - 1, p, bytes);
      ShownStep(run, k - 1, p, bytes);
    }
  }

  /** A published path keeps its bytes through the rest of every run. */
  lemma {:induction false} PublishedNeverChanges(run: seq<State>, j: nat, k: nat, p: Path)
    requires Run(run) && j <= k < |run| && Exists(run[j].fs, p)
    ensures Shows(run[k].fs, p, ContentOf(run[j].fs, p))
  {
    ShownStays(run, j, k, p, ContentOf(run[j].fs, p));
  }

  /** A published path never shows anything but all the bytes some call on it brought. */
  lemma {:induction false} NeverPartial(run: seq<State>, k: nat, p: Path) returns (i: nat)
    requires Run(run) && k < |run| && Exists(run[k].fs, p)
    ensures i < |run[k].calls| && run[k].calls[i].task == Write(p, ContentOf(run[k].fs, p))
  {
    InvRun(run, k);
    assert Brought(run[k].calls, p, ContentOf(run[k].fs, p));
    i :| 0 <= i < |run[k].calls| && run[k].calls[i].task == Write(p, ContentOf(run[k].fs, p));
  }

  lemma {:induction false} StepKeepsDone(s: State, t: State, i: nat)
    requires Next(s, t) && i < |s.calls| && Over(s.calls[i])
    ensures i < |t.calls| && t.calls[i] == s.calls[i]
  {
  }

  lemma {:induction false} DoneStays(run: seq<State>, j: nat, k: nat, i: nat)
    requires Run(run) && j <= k < |run| && i < |run[j].calls| && Over(run[j].calls[i])
    ensures i < |run[k].calls| && run[k].calls[i] == run[j].calls[i]
  {
    if j < k {
      DoneStays(run, j, k - 1, i);
      assert StepAt(run, k - 1);
      StepKeepsDone(run[k - 1], run[k], i);
    }
  }

  predicate Returned(c: Call) { c.pc.Done? && c.task.Write? }

  /** A call that returned has left its path holding exactly its bytes, from then on. */
  lemma {:induction false} ReturnedIsPublished(run: seq<State>, j: nat, k: nat, i: nat)
    requires Run(run) && j <= k < |run| && i < |run[j].calls| && Returned(run[j].calls[i])
    ensures Shows(run[k].fs, run[j].calls[i].task.path, run[j].calls[i].task.bytes)
  {
    InvRun(run, k);
    DoneStays(run, j, k, i);
    assert CallHolds(run[k].fs, run[k].calls[i]);
  }

  /** Two calls that returned on one path, whenever they did, wrote the same bytes. */
  lemma {:induction false} ReturnsAgree(run: seq<State>, j: nat, k: nat, i: nat, h: nat)
    requires Run(run) && j <= k < |run|
    requires i < |run[j].calls| && Returned(run[j].calls[i]) && h < |run[k].calls| && Returned(run[k].calls[h])
    requires run[j].calls[i].task.path == run[k].calls[h].task.path
    ensures run[j].calls[i].task.bytes == run[k].calls[h].task.bytes
  {
    ReturnedIsPublished(run, j, k, i);
    ReturnedIsPublished(run, k, k, h);
  }

  /** What a read returned is what the path still shows. */
  lemma {:induction false} ReadStays(run: seq<State>, j: nat, k: nat, i: nat)
    requires Run(run) && j <= k < |run| && i < |run[j].calls|
    requires run[j].calls[i].pc.Done? && run[j].calls[i].pc.found.Some?
    ensures Shows(run[k].fs, run[j].calls[i].task.path, run[j].calls[i].pc.found.value)
  {
    InvRun(run, k);
    DoneStays(run, j, k, i);
    assert CallHolds(run[k].fs, run[k].calls[i]);
  }
}
