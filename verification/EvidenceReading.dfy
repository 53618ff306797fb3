/** When a read of a published record is refused, over every interleaving: exactly when its time stamp moved. */
module EvidenceReading {
  import opened Seqs
  import opened EvidenceFiles
  import opened EvidencePublication

  // ------------------------------------------------------------- time stamps

  /** No named file was changed in the future. */
  ghost predicate TimesHold(fs: Fs) {
    forall n :: n in fs.names && fs.names[n] in fs.inodes ==> fs.inodes[fs.names[n]].ctime <= fs.clock
  }

  /** A temporary name of the file at `p` goes away at a later clock than the file's change time. */
  ghost predicate LateUnlink(fs: Fs, fs': Fs, p: Path) {
    Exists(fs, p) && fs.inodes[fs.names[Published(p)]].ctime < fs.clock
    && exists x: nat :: Temp(x) in fs.names && Temp(x) !in fs'.names && fs.names[Temp(x)] == fs.names[Published(p)]
  }

  /** What one step does to the stat of a published file: nothing, or the change time moves up by a late unlink. */
  ghost predicate StatMoves(fs: Fs, fs': Fs, p: Path)
    requires Exists(fs, p)
  {
    Exists(fs', p)
    && var a, b := StatOf(fs, p), StatOf(fs', p);
       b.(ctime := a.ctime) == a && a.ctime <= b.ctime && (a.ctime < b.ctime <==> LateUnlink(fs, fs', p))
  }

  lemma {:induction false} CreateStat(fs: Fs, temp: nat, ino: nat, p: Path)
    requires TimesHold(fs) && Exists(fs, p) && Temp(temp) !in fs.names && ino !in fs.inodes
    ensures TimesHold(Create(fs, temp, ino)) && StatMoves(fs, Create(fs, temp, ino), p)
  {
  }

  lemma {:induction false} StoreStat(fs: Fs, ino: nat, bytes: Bytes, p: Path)
    requires TimesHold(fs) && Exists(fs, p) && fs.names[Published(p)] != ino
    ensures TimesHold(Store(fs, ino, bytes)) && StatMoves(fs, Store(fs, ino, bytes), p)
  {
  }

  lemma {:induction false} LinkStat(fs: Fs, temp: nat, path: Path, p: Path)
    requires TimesHold(fs) && Exists(fs, p) && Temp(temp) in fs.names && Published(path) !in fs.names
    requires fs.names[Published(p)] != fs.names[Temp(temp)]
    ensures TimesHold(Link(fs, temp, path)) && StatMoves(fs, Link(fs, temp, path), p)
  {
  }

  lemma {:induction false} UnlinkStat(fs: Fs, temp: nat, p: Path)
    requires TimesHold(fs) && Exists(fs, p) && Temp(temp) in fs.names
    ensures TimesHold(Unlink(fs, temp)) && StatMoves(fs, Unlink(fs, temp), p)
  {
    var fs' := Unlink(fs, temp);
    assert Temp(temp) !in fs'.names;
    forall x: nat | Temp(x) in fs.names && Temp(x) !in fs'.names ensures x == temp {}
  }

  lemma {:induction false} ActStat(fs: Fs, c: Call, choice: Choice, p: Path)
    requires TimesHold(fs) && CallHolds(fs, c) && Exists(fs, p)
    ensures TimesHold(Act(fs, c, choice).0) && StatMoves(fs, Act(fs, c, choice).0, p)
  {
    if !Over(c) && !choice.fail {
      if c.pc.Opening? && Temp(choice.temp) !in fs.names && choice.inode !in fs.inodes {
        CreateStat(fs, choice.temp, choice.inode, p);
      } else if c.pc.Writing? && c.pc.count < choice.upto <= |c.task.bytes| {
        StoreStat(fs, c.inode, c.task.bytes[..choice.upto], p);
      } else if c.pc.Linking? && Published(c.task.path) !in fs.names {
        LinkStat(fs, c.temp, c.task.path, p);
      } else if c.pc.Unlinking? {
        UnlinkStat(fs, c.temp, p);
      }
    }
  }

  lemma {:induction false} ActTimes(fs: Fs, c: Call, choice: Choice)
    requires TimesHold(fs)
    ensures TimesHold(Act(fs, c, choice).0)
  {
  }

  lemma {:induction false} TimesRun(run: seq<State>, k: nat)
    requires Run(run) && k < |run|
    ensures TimesHold(run[k].fs)
  {
    if k > 0 {
      TimesRun(run, k - 1);
      var s, t := run[k - 1], run[k];
      assert StepAt(run, k - 1);
      if i: nat, choice :| Acts(s, t, i, choice) { ActTimes(s.fs, s.calls[i], choice); }
    }
  }

  lemma {:induction false} StatStep(run: seq<State>, k: nat, p: Path)
    requires Run(run) && k + 1 < |run| && Exists(run[k].fs, p)
    ensures StatMoves(run[k].fs, run[k + 1].fs, p)
  {
    InvRun(run, k);
    TimesRun(run, k);
    var s, t := run[k], run[k + 1];
    assert StepAt(run, k);
    if i: nat, choice :| Acts(s, t, i, choice) {
      assert CallHolds(s.fs, s.calls[i]);
      ActStat(s.fs, s.calls[i], choice, p);
    }
  }

  ghost predicate LateAt(run: seq<State>, m: nat, p: Path) {
    m + 1 < |run| && LateUnlink(run[m].fs, run[m + 1].fs, p)
  }

  /** Some late unlink of `p` lies in steps `a` to `b`. */
  ghost predicate LateBetween(run: seq<State>, a: nat, b: nat, p: Path) {
    a < b && (LateBetween(run, a, b - 1, p) || LateAt(run, b - 1, p))
  }

  lemma {:induction false} LateMeaning(run: seq<State>, a: nat, b: nat, p: Path)
    ensures LateBetween(run, a, b, p) <==> exists m :: a <= m < b && LateAt(run, m, p)
  {
    if a < b { LateMeaning(run, a, b - 1, p); }
  }

  /** The stat of a published file is the same at two moments exactly when no late unlink lies between them. */
  lemma {:induction false} StatUnchanged(run: seq<State>, a: nat, b: nat, p: Path)
    requires Run(run) && a <= b < |run| && Exists(run[a].fs, p)
    ensures Exists(run[b].fs, p)
    ensures var before, after := StatOf(run[a].fs, p), StatOf(run[b].fs, p);
            && before.ctime <= after.ctime && after.(ctime := before.ctime) == before
            && (before != after <==> LateBetween(run, a, b, p))
    decreases b - a
  {
    if a < b {
      var c := b - 1;
      StatUnchanged(run, a, c, p);
      StatStep(run, c, p);
    }
  }

  // --------------------------------------------------------------- one reading

  /** Whatever the call does in this step, no I/O fails. */
  ghost predicate Quiet(s: State, t: State, i: nat) {
    i < |s.calls| && i < |t.calls|
    && (t.calls[i] == s.calls[i]
        || exists choice: Choice :: !choice.fail && t.calls[i] == Act(s.fs, s.calls[i], choice).1)
  }

  /** A read under way, after its first stat. */
  ghost predicate UnderWay(c: Call, p: Path, before: Stat) {
    c.task == Read(p) && (c.pc.Reading? || c.pc.Rereading?) && !c.pc.back && c.pc.before == before
  }

  /** A reading goes on, or ends by comparing the second stat with the first. */
  lemma {:induction false} ReadingStep(s: State, t: State, i: nat, p: Path, before: Stat)
    requires Inv(s) && Quiet(s, t, i) && UnderWay(s.calls[i], p, before)
    ensures Over(t.calls[i]) || UnderWay(t.calls[i], p, before)
    ensures Over(t.calls[i]) ==>
              && Exists(s.fs, p)
              && t.calls[i].pc == if StatOf(s.fs, p) == before then Done(Some(ContentOf(s.fs, p))) else Failed
  {
    assert CallHolds(s.fs, s.calls[i]);
    if t.calls[i] != s.calls[i] {
      var choice: Choice :| !choice.fail && t.calls[i] == Act(s.fs, s.calls[i], choice).1;
    }
  }

  lemma {:induction false} UnderWayStep(run: seq<State>, i: nat, k: nat, p: Path, before: Stat)
    requires Run(run) && k + 1 < |run| && Quiet(run[k], run[k + 1], i) && UnderWay(run[k].calls[i], p, before)
    ensures Over(run[k + 1].calls[i]) || UnderWay(run[k + 1].calls[i], p, before)
    ensures Over(run[k + 1].calls[i]) ==>
              && Exists(run[k].fs, p)
              && run[k + 1].calls[i].pc
                 == if StatOf(run[k].fs, p) == before then Done(Some(ContentOf(run[k].fs, p))) else Failed
  {
    InvRun(run, k);
    ReadingStep(run[k], run[k + 1], i, p, before);
  }

  ghost predicate QuietAt(run: seq<State>, i: nat, m: nat) { m + 1 < |run| && Quiet(run[m], run[m + 1], i) }

  /** No I/O of call `i` fails in steps `a` to `b`. */
  ghost predicate QuietBetween(run: seq<State>, i: nat, a: nat, b: nat) {
    forall m :: a <= m < b ==> QuietAt(run, i, m)
  }

  lemma {:induction false} StaysUnderWay(run: seq<State>, i: nat, a: nat, b: nat, p: Path, before: Stat)
    requires Run(run) && a <= b < |run| && i < |run[a].calls| && UnderWay(run[a].calls[i], p, before)
    requires QuietBetween(run, i, a, b) && i < |run[b].calls| && !Over(run[b].calls[i])
    ensures UnderWay(run[b].calls[i], p, before)
    decreases b - a
  {
    if a < b {
      var c := b - 1;
      assert QuietAt(run, i, c);
      if Over(run[c].calls[i]) { DoneStays(run, c, b, i); }
      StaysUnderWay(run, i, a, c, p, before);
      UnderWayStep(run, i, c, p, before);
    }
  }

  /** A call that reads `p`, takes its first stat at step `a` and ends at step `b`, without an I/O failure. */
  ghost predicate ReadsBetween(run: seq<State>, i: nat, a: nat, b: nat, p: Path)
    requires a < b < |run|
  {
    && i < |run[a].calls| && run[a].calls[i].task == Read(p) && run[a].calls[i].pc == Looking(false)
    && i < |run[a + 1].calls| && run[a + 1].calls[i] != run[a].calls[i]
    && QuietBetween(run, i, a, b)
    && i < |run[b - 1].calls| && i < |run[b].calls| && !Over(run[b - 1].calls[i]) && Over(run[b].calls[i])
  }

  /** The first stat: an oversized record is refused at once. */
  lemma {:induction false} FirstStat(s: State, t: State, i: nat, p: Path)
    requires Quiet(s, t, i) && s.calls[i].task == Read(p) && s.calls[i].pc == Looking(false)
    requires t.calls[i] != s.calls[i] && Exists(s.fs, p)
    ensures if StatOf(s.fs, p).size > MAX_RECORD_BYTES then t.calls[i].pc.Failed?
            else UnderWay(t.calls[i], p, StatOf(s.fs, p))
  {
  }

  /** The second stat decides. */
  lemma {:induction false} SecondStat(run: seq<State>, i: nat, a: nat, b: nat, p: Path, before: Stat)
    requires Run(run) && a + 1 < b < |run| && i < |run[a + 1].calls| && UnderWay(run[a + 1].calls[i], p, before)
    requires QuietBetween(run, i, a + 1, b)
    requires i < |run[b - 1].calls| && i < |run[b].calls| && !Over(run[b - 1].calls[i]) && Over(run[b].calls[i])
    ensures Exists(run[b - 1].fs, p) && !LateAt(run, b - 1, p)
    ensures run[b].calls[i].pc
            == if StatOf(run[b - 1].fs, p) == before then Done(Some(ContentOf(run[b - 1].fs, p))) else Failed
  {
    var c := b - 1;
    assert QuietAt(run, i, c);
    StaysUnderWay(run, i, a + 1, c, p, before);
    UnderWayStep(run, i, c, p, before);
    LastStepUnlinksNothing(run, i, c, p, before);
  }

  /**
   * A read of a published record that meets no I/O failure is refused exactly when the record is over the bound, or
   * the publisher's temporary name for it was unlinked at a later clock between the two stats; otherwise it returns
   * the record's bytes.
   */
  lemma {:induction false} ReadRefusedExactly(run: seq<State>, i: nat, a: nat, b: nat, p: Path)
    requires a < b < |run| && Run(run) && ReadsBetween(run, i, a, b, p) && Exists(run[a].fs, p)
    ensures run[b].calls[i].pc.Failed? <==>
              |ContentOf(run[a].fs, p)| > MAX_RECORD_BYTES || exists m :: a <= m < b && LateAt(run, m, p)
    ensures run[b].calls[i].pc.Failed? || run[b].calls[i].pc == Done(Some(ContentOf(run[a].fs, p)))
  {
    assert QuietAt(run, i, a);
    LateMeaning(run, a, b, p);
    FirstStat(run[a], run[a + 1], i, p);
    if |ContentOf(run[a].fs, p)| > MAX_RECORD_BYTES {
      DoneStays(run, a + 1, b, i);
    } else {
      ReadDecided(run, i, a, b, p);
    }
  }

  lemma {:induction false} ReadDecided(run: seq<State>, i: nat, a: nat, b: nat, p: Path)
    requires Run(run) && a < b < |run| && Exists(run[a].fs, p)
    requires i < |run[a + 1].calls| && UnderWay(run[a + 1].calls[i], p, StatOf(run[a].fs, p))
    requires QuietBetween(run, i, a + 1, b)
    requires i < |run[b - 1].calls| && i < |run[b].calls| && !Over(run[b - 1].calls[i]) && Over(run[b].calls[i])
    ensures run[b].calls[i].pc == if LateBetween(run, a, b, p) then Failed else Done(Some(ContentOf(run[a].fs, p)))
  {
    var c := b - 1;
    SecondStat(run, i, a, b, p, StatOf(run[a].fs, p));
    StatUnchanged(run, a, c, p);
    PublishedNeverChanges(run, a, c, p);
  }

  /** The step in which a reading ends touches no file. */
  lemma {:induction false} LastStepUnlinksNothing(run: seq<State>, i: nat, k: nat, p: Path, before: Stat)
    requires Run(run) && k + 1 < |run| && i < |run[k].calls| && UnderWay(run[k].calls[i], p, before)
    requires i < |run[k + 1].calls| && Over(run[k + 1].calls[i])
    ensures !LateAt(run, k, p)
  {
    var s, t := run[k], run[k + 1];
    assert StepAt(run, k);
    assert t.calls[i] != s.calls[i];
    if j: nat, choice :| Acts(s, t, j, choice) {
      assert j == i;
    }
  }
}
