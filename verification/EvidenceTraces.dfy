/** Runs of the publication protocol built step by step: what a call does when nothing else moves. */
module EvidenceTraces {
  import opened Seqs
  import opened EvidenceFiles
  import opened EvidencePublication
  import opened EvidenceReading

  function Last<T>(s: seq<T>): T
    requires s != []
  {
    s[|s| - 1]
  }

  ghost predicate MoveAt(tr: seq<State>, k: nat) { k + 1 < |tr| && Moves(tr[k], tr[k + 1]) }

  /** States that follow one another while no call begins. */
  ghost predicate Trace(tr: seq<State>) { tr != [] && forall k :: 0 <= k < |tr| - 1 ==> MoveAt(tr, k) }

  ghost predicate Continues(tr: seq<State>, more: seq<State>) { tr != [] && Trace(more) && more[0] == tr[0] }

  function Acted(s: State, i: nat, choice: Choice): State
    requires i < |s.calls|
  {
    var r := Act(s.fs, s.calls[i], choice);
    State(r.0, s.calls[i := r.1])
  }

  lemma {:induction false} ActMore(tr: seq<State>, i: nat, choice: Choice) returns (more: seq<State>)
    requires Trace(tr) && i < |Last(tr).calls|
    ensures Continues(tr, more) && Last(more) == Acted(Last(tr), i, choice)
  {
    more := tr + [Acted(Last(tr), i, choice)];
    assert Acts(Last(tr), Last(more), i, choice);
    forall k | 0 <= k < |more| - 1 ensures MoveAt(more, k) {
      if k < |tr| - 1 { assert MoveAt(tr, k); }
    }
  }

  /** A step that leaves the choices of the environment open. */
  const PLAIN := Choice(false, 0, 0, 0)

  function Taking(upto: nat): Choice { Choice(false, 0, 0, upto) }

  function At(s: State, i: nat, pc: Pc): State
    requires i < |s.calls|
  {
    s.(calls := s.calls[i := s.calls[i].(pc := pc)])
  }

  /** A reading by itself: two equal stats around the whole content. */
  lemma {:induction false} LookThrough(tr: seq<State>, i: nat) returns (more: seq<State>)
    requires Trace(tr) && i < |Last(tr).calls| && Last(tr).calls[i].pc.Looking?
    requires var s := Last(tr);
             Exists(s.fs, s.calls[i].task.path) && |ContentOf(s.fs, s.calls[i].task.path)| <= MAX_RECORD_BYTES
    ensures var s := Last(tr);
            var p := s.calls[i].task.path;
            && Continues(tr, more)
            && Last(more) == At(s, i, Rereading(s.calls[i].pc.back, StatOf(s.fs, p), ContentOf(s.fs, p)))
  {
    var s := Last(tr);
    var p := s.calls[i].task.path;
    var back, stat, content := s.calls[i].pc.back, StatOf(s.fs, p), ContentOf(s.fs, p);
    var looked := ActMore(tr, i, PLAIN);
    assert Last(looked) == At(s, i, Reading(back, stat, []));
    var full := looked;
    if content != [] {
      full := ActMore(looked, i, Taking(|content|));
      assert [] + content[0..|content|] == content;
    }
    assert Last(full) == At(s, i, Reading(back, stat, content));
    more := ActMore(full, i, PLAIN);
  }

  // ------------------------------------------------------------ fresh numbers

  lemma {:induction false} Above(s: set<nat>) returns (n: nat)
    ensures forall x :: x in s ==> x < n
  {
    if s == {} {
      n := 0;
    } else {
      var x :| x in s;
      var m := Above(s - {x});
      assert forall y :: y in s ==> y == x || y in s - {x};
      n := if m > x then m else x + 1;
    }
  }

  lemma {:induction false} FreshFile(fs: Fs) returns (temp: nat, ino: nat)
    ensures Temp(temp) !in fs.names && ino !in fs.inodes
  {
    var temps := set n | n in fs.names.Keys && n.Temp? :: n.id;
    temp := Above(temps);
    assert forall x: nat :: Temp(x) in fs.names ==> Temp(x).id in temps;
    ino := Above(fs.inodes.Keys);
  }

  // ------------------------------------------------------- a write by itself

  /** The one difference a finished write makes to what paths show. */
  ghost predicate Adds(fs: Fs, fs': Fs, p: Path, bytes: Bytes) {
    && Shows(fs', p, bytes)
    && (forall q :: q != p ==> (Exists(fs', q) <==> Exists(fs, q)))
    && (forall q :: q != p && Exists(fs, q) ==> ContentOf(fs', q) == ContentOf(fs, q))
  }

  /** A temporary file that holds `bytes`, made just now beside everything that was there. */
  ghost predicate Prepared(fs: Fs, fs': Fs, temp: nat, ino: nat, bytes: Bytes) {
    && Temp(temp) !in fs.names && ino !in fs.inodes
    && fs' == Fs(fs.names[Temp(temp) := ino], fs.inodes[ino := File(bytes, fs.clock, fs.clock)], fs.clock)
  }

  ghost predicate StartsWriting(s: State, i: nat, p: Path, bytes: Bytes) {
    i < |s.calls| && s.calls[i] == Call(Write(p, bytes), Looking(false), 0, 0)
  }

  lemma {:induction false} WriteTemp(tr: seq<State>, i: nat, p: Path, bytes: Bytes)
    returns (more: seq<State>, temp: nat, ino: nat)
    requires Trace(tr) && StartsWriting(Last(tr), i, p, bytes) && !Exists(Last(tr).fs, p)
    ensures Continues(tr, more) && Prepared(Last(tr).fs, Last(more).fs, temp, ino, bytes)
    ensures Last(more).calls == Last(tr).calls[i := Call(Write(p, bytes), Linking, temp, ino)]
  {
    var s := Last(tr);
    temp, ino := FreshFile(s.fs);
    var looked := ActMore(tr, i, PLAIN);
    assert Last(looked) == At(s, i, Opening);
    var created := ActMore(looked, i, Choice(false, temp, ino, 0));
    var fs := Create(s.fs, temp, ino);
    assert Last(created) == State(fs, s.calls[i := Call(Write(p, bytes), Writing(0), temp, ino)]);
    var written := created;
    if bytes != [] {
      written := ActMore(created, i, Taking(|bytes|));
      fs := Store(fs, ino, bytes[..|bytes|]);
      assert bytes[..|bytes|] == bytes;
    }
    assert Last(written) == State(fs, s.calls[i := Call(Write(p, bytes), Writing(|bytes|), temp, ino)]);
    more := ActMore(written, i, PLAIN);
  }

  /** The publication of a prepared file, and what paths show then. */
  lemma {:induction false} LinkAdds(fs: Fs, fs': Fs, temp: nat, ino: nat, p: Path, bytes: Bytes)
    requires FilesHold(fs) && Prepared(fs, fs', temp, ino, bytes) && Published(p) !in fs.names
    ensures var linked := Link(fs', temp, p);
            && FilesHold(linked) && Adds(fs, linked, p, bytes) && linked.clock == fs.clock
            && Temp(temp) in linked.names && linked.names[Temp(temp)] == ino == linked.names[Published(p)]
            && linked.inodes[ino] == File(bytes, fs.clock, fs.clock)
  {
    var linked := Link(fs', temp, p);
    forall q | q != p ensures Exists(linked, q) <==> Exists(fs, q) {
      if Published(q) in fs.names { assert fs.names[Published(q)] in fs.inodes; }
    }
    forall q | q != p && Exists(fs, q) ensures ContentOf(linked, q) == ContentOf(fs, q) {
      assert fs.names[Published(q)] != ino;
    }
  }

  /** From the start of a write to the moment before its unlink. */
  lemma {:induction false} PublishAlone(tr: seq<State>, i: nat, p: Path, bytes: Bytes)
    returns (more: seq<State>, temp: nat, ino: nat)
    requires Trace(tr) && StartsWriting(Last(tr), i, p, bytes) && FilesHold(Last(tr).fs)
    requires !Exists(Last(tr).fs, p) && |bytes| <= MAX_RECORD_BYTES
    ensures Continues(tr, more)
    ensures Last(more).calls == Last(tr).calls[i := Call(Write(p, bytes), Unlinking(true), temp, ino)]
    ensures var fs, fs' := Last(tr).fs, Last(more).fs;
            && FilesHold(fs') && Adds(fs, fs', p, bytes) && fs'.clock == fs.clock
            && Temp(temp) in fs'.names && fs'.names[Temp(temp)] == ino == fs'.names[Published(p)]
            && fs'.inodes[ino] == File(bytes, fs.clock, fs.clock)
  {
    var s := Last(tr);
    var ready;
    ready, temp, ino := WriteTemp(tr, i, p, bytes);
    var t := Last(ready);
    LinkAdds(s.fs, t.fs, temp, ino, p, bytes);
    var linked := ActMore(ready, i, PLAIN);
    var u := Last(linked);
    assert u == State(Link(t.fs, temp, p), t.calls[i := Call(Write(p, bytes), Looking(true), temp, ino)]);
    var looked := LookThrough(linked, i);
    more := ActMore(looked, i, PLAIN);
  }

  lemma {:induction false} UnlinkAdds(fs: Fs, fs': Fs, temp: nat, p: Path, bytes: Bytes)
    requires FilesHold(fs') && Adds(fs, fs', p, bytes)
    ensures FilesHold(Unlink(fs', temp)) && Adds(fs, Unlink(fs', temp), p, bytes)
  {
    UnlinkKeeps(fs', temp);
    var u := Unlink(fs', temp);
    forall q | Exists(fs', q) ensures Exists(u, q) && ContentOf(u, q) == ContentOf(fs', q) {
      KeepsShown(fs', u, Some(temp), None, q);
    }
  }

  /** A whole write by itself: the path is free, or holds these very bytes. */
  lemma {:induction false} WriteAlone(tr: seq<State>, i: nat, p: Path, bytes: Bytes) returns (more: seq<State>)
    requires Trace(tr) && StartsWriting(Last(tr), i, p, bytes) && FilesHold(Last(tr).fs)
    requires |bytes| <= MAX_RECORD_BYTES && (Exists(Last(tr).fs, p) ==> ContentOf(Last(tr).fs, p) == bytes)
    ensures Continues(tr, more) && FilesHold(Last(more).fs) && Adds(Last(tr).fs, Last(more).fs, p, bytes)
    ensures |Last(more).calls| == |Last(tr).calls| && Last(more).calls[i].pc == Done(Some(bytes))
    ensures forall j :: 0 <= j < |Last(tr).calls| && j != i ==> Last(more).calls[j] == Last(tr).calls[j]
  {
    var s := Last(tr);
    if Exists(s.fs, p) {
      var looked := LookThrough(tr, i);
      more := ActMore(looked, i, PLAIN);
    } else {
      var published, temp, ino := PublishAlone(tr, i, p, bytes);
      UnlinkAdds(s.fs, Last(published).fs, temp, p, bytes);
      more := ActMore(published, i, PLAIN);
    }
  }

  // ------------------------------------------------------- a read that is refused

  lemma {:induction false} RunMore(run: seq<State>, t: State)
    requires Run(run) && Next(Last(run), t)
    ensures Run(run + [t])
  {
    var more := run + [t];
    forall k | 0 <= k < |more| - 1 ensures StepAt(more, k) {
      if k < |run| - 1 { assert StepAt(run, k); }
    }
  }

  lemma {:induction false} RunTraced(run: seq<State>, tr: seq<State>) returns (more: seq<State>)
    requires Run(run) && Trace(tr) && tr[0] == Last(run)
    ensures Run(more) && Last(more) == Last(tr)
    decreases |tr|
  {
    if |tr| == 1 {
      more := run;
    } else {
      var n := |tr| - 1;
      assert Trace(tr[..n]) by {
        forall k | 0 <= k < n - 1 ensures MoveAt(tr[..n], k) { assert MoveAt(tr, k); }
      }
      var before := RunTraced(run, tr[..n]);
      assert MoveAt(tr, n - 1);
      RunMore(before, tr[n]);
      more := before + [tr[n]];
    }
  }

  /** A run that goes on while call `i` meets no I/O failure. */
  lemma {:induction false} QuietMore(run: seq<State>, i: nat, a: nat, t: State)
    requires Run(run) && a < |run| && QuietBetween(run, i, a, |run| - 1) && Next(Last(run), t) && Quiet(Last(run), t, i)
    ensures Run(run + [t]) && QuietBetween(run + [t], i, a, |run|)
  {
    RunMore(run, t);
    forall m | a <= m < |run| ensures QuietAt(run + [t], i, m) {
      if m < |run| - 1 { assert QuietAt(run, i, m); }
    }
  }

  lemma {:induction false} ActQuietly(run: seq<State>, i: nat, a: nat, upto: nat)
    requires Run(run) && a < |run| && i < |Last(run).calls| && QuietBetween(run, i, a, |run| - 1)
    ensures var t := Acted(Last(run), i, Taking(upto)); Run(run + [t]) && QuietBetween(run + [t], i, a, |run|)
  {
    var t := Acted(Last(run), i, Taking(upto));
    assert Acts(Last(run), t, i, Taking(upto));
    assert Next(Last(run), t) && Quiet(Last(run), t, i);
    QuietMore(run, i, a, t);
  }

  /** A reader about to look at a record whose writer has yet to unlink its temporary name, and whose clock stands. */
  ghost predicate Poised(s: State, p: Path, bytes: Bytes, temp: nat, ino: nat) {
    && s.calls == [Call(Write(p, bytes), Unlinking(true), temp, ino), Call(Read(p), Looking(false), 0, 0)]
    && Shows(s.fs, p, bytes) && Temp(temp) in s.fs.names && s.fs.names[Temp(temp)] == ino == s.fs.names[Published(p)]
    && s.fs.inodes[ino] == File(bytes, s.fs.clock, s.fs.clock)
  }

  lemma {:induction false} PoisedReached(p: Path, bytes: Bytes) returns (run: seq<State>, temp: nat, ino: nat)
    requires |bytes| <= MAX_RECORD_BYTES
    ensures Run(run) && Poised(Last(run), p, bytes, temp, ino)
  {
    var s := State(Fs(map[], map[], 0), []);
    var t := s.(calls := [Call(Write(p, bytes), Looking(false), 0, 0)]);
    assert Run([s]);
    assert Begins(s, t, Write(p, bytes));
    RunMore([s], t);
    var tr;
    tr, temp, ino := PublishAlone([t], 0, p, bytes);
    var before := RunTraced([s] + [t], tr);
    var u := Last(before);
    var v := u.(calls := u.calls + [Call(Read(p), Looking(false), 0, 0)]);
    assert Begins(u, v, Read(p));
    RunMore(before, v);
    run := before + [v];
  }

  /** The reader's first stat, a tick of the clock, and the writer's unlink. */
  lemma {:induction false} StampMoves(run: seq<State>, p: Path, bytes: Bytes, temp: nat, ino: nat)
    returns (more: seq<State>)
    requires Run(run) && Poised(Last(run), p, bytes, temp, ino) && |bytes| <= MAX_RECORD_BYTES
    ensures var a := |run| - 1;
            && Run(more) && |more| == |run| + 3 && more[..|run|] == run && QuietBetween(more, 1, a, |more| - 1)
            && |more[a + 1].calls| == 2 && more[a + 1].calls[1] != run[a].calls[1]
            && |Last(more).calls| == 2
            && Last(more).calls[1] == Call(Read(p), Reading(false, StatOf(run[a].fs, p), []), 0, 0)
            && Shows(Last(more).fs, p, bytes) && StatOf(Last(more).fs, p) != StatOf(run[a].fs, p)
  {
    var a := |run| - 1;
    var s := run[a];
    ActQuietly(run, 1, a, 0);
    var t := Acted(s, 1, Taking(0));
    assert t.calls[1] == Call(Read(p), Reading(false, StatOf(s.fs, p), []), 0, 0);
    var looked := run + [t];
    var u := t.(fs := t.fs.(clock := t.fs.clock + 1));
    assert Ticks(t, u);
    QuietMore(looked, 1, a, u);
    var v := Acted(u, 0, PLAIN);
    assert Acts(u, v, 0, PLAIN);
    assert v.fs == Unlink(u.fs, temp);
    QuietMore(looked + [u], 1, a, v);
    more := looked + [u] + [v];
  }

  /**
   * For every path and record within the bound, a run reaches a read that is refused although no I/O failed, the
   * record was published before the read began, and it still holds the same bytes.
   */
  lemma {:induction false} RefusalReached(p: Path, bytes: Bytes) returns (run: seq<State>, i: nat, a: nat, b: nat)
    requires |bytes| <= MAX_RECORD_BYTES
    ensures a < b < |run| && Run(run) && ReadsBetween(run, i, a, b, p)
    ensures Shows(run[a].fs, p, bytes) && Shows(run[b].fs, p, bytes) && run[b].calls[i].pc.Failed?
  {
    var poised, temp, ino := PoisedReached(p, bytes);
    i, a := 1, |poised| - 1;
    var moved := StampMoves(poised, p, bytes, temp, ino);
    var full := moved;
    if bytes != [] {
      ActQuietly(moved, 1, a, |bytes|);
      full := moved + [Acted(Last(moved), 1, Taking(|bytes|))];
      assert [] + bytes[0..|bytes|] == bytes;
    }
    var s := Last(full);
    assert s.fs == Last(moved).fs && s.calls[1].pc == Reading(false, StatOf(poised[a].fs, p), bytes);
    ActQuietly(full, 1, a, 0);
    var t := Acted(s, 1, Taking(0));
    ActQuietly(full + [t], 1, a, 0);
    run := full + [t] + [Acted(t, 1, Taking(0))];
    b := |run| - 1;
  }
}
