/**
 * Publication of immutable evidence files by any number of processes: read, write a temporary file,
 * hard-link it, read back, compare, unlink (apps/cli/src/governed-command-evidence-store.ts).
 */
module EvidenceFiles {
  import opened Seqs

  type Bytes = seq<int>

  /** The published files of the store: content-addressed blobs and identity bindings, named by digest. */
  datatype Path = Blob(digest: string) | Identity(digest: string)

  const MAX_RECORD_BYTES: nat := 1024 * 1024

  datatype Name = Published(path: Path) | Temp(id: nat)

  datatype File = File(bytes: Bytes, mtime: nat, ctime: nat)

  /** Directory entries, inodes and a clock that time stamps are taken from. */
  datatype Fs = Fs(names: map<Name, nat>, inodes: map<nat, File>, clock: nat)

  datatype Stat = Stat(ino: nat, size: nat, mtime: nat, ctime: nat)

  datatype Task = Write(path: Path, bytes: Bytes) | Read(path: Path)

  /** Where a call stands; `back` marks the reading that follows publication. */
  datatype Pc =
    | Looking(back: bool)
    | Reading(back: bool, before: Stat, got: Bytes)
    | Rereading(back: bool, before: Stat, seen: Bytes)
    | Opening
    | Writing(count: nat)
    | Linking
    | Unlinking(ok: bool)
    | Done(found: Option<Bytes>)
    | Failed
    | Crashed

  /** One call of readImmutableFile or writeImmutableFile, with its temporary file once it has one. */
  datatype Call = Call(task: Task, pc: Pc, temp: nat, inode: nat)

  // -------------------------------------------------------- file operations

  predicate Exists(fs: Fs, path: Path) {
    Published(path) in fs.names && fs.names[Published(path)] in fs.inodes
  }

  function ContentOf(fs: Fs, path: Path): Bytes
    requires Exists(fs, path)
  {
    fs.inodes[fs.names[Published(path)]].bytes
  }

  function StatOf(fs: Fs, path: Path): Stat
    requires Exists(fs, path)
  {
    var ino := fs.names[Published(path)];
    var f := fs.inodes[ino];
    Stat(ino, |f.bytes|, f.mtime, f.ctime)
  }

  function Touch(fs: Fs, ino: nat): map<nat, File> {
    if ino in fs.inodes then fs.inodes[ino := fs.inodes[ino].(ctime := fs.clock)] else fs.inodes
  }

  function Create(fs: Fs, temp: nat, ino: nat): Fs {
    fs.(names := fs.names[Temp(temp) := ino], inodes := fs.inodes[ino := File([], fs.clock, fs.clock)])
  }

  function Store(fs: Fs, ino: nat, bytes: Bytes): Fs {
    fs.(inodes := fs.inodes[ino := File(bytes, fs.clock, fs.clock)])
  }

  function Link(fs: Fs, temp: nat, path: Path): Fs
    requires Temp(temp) in fs.names
  {
    var ino := fs.names[Temp(temp)];
    fs.(names := fs.names[Published(path) := ino], inodes := Touch(fs, ino))
  }

  function Unlink(fs: Fs, temp: nat): Fs {
    if Temp(temp) in fs.names
    then fs.(names := fs.names - {Temp(temp)}, inodes := Touch(fs, fs.names[Temp(temp)]))
    else fs
  }

  // ------------------------------------------------------------------ steps

  /** What the environment decides: an I/O failure, the random name, the inode, how much one read or write takes. */
  datatype Choice = Choice(fail: bool, temp: nat, inode: nat, upto: nat)

  predicate Holds(c: Call) {
    c.pc.Writing? || c.pc.Linking? || c.pc.Unlinking?
    || ((c.pc.Looking? || c.pc.Reading? || c.pc.Rereading?) && c.pc.back)
  }

  predicate Over(c: Call) { c.pc.Done? || c.pc.Failed? || c.pc.Crashed? }

  /** An exception: the temporary file, if there is one, is still unlinked. */
  function Abort(c: Call): Call {
    if Holds(c) && !c.pc.Unlinking? then c.(pc := Unlinking(false)) else c.(pc := Failed)
  }

  function Compare(fs: Fs, c: Call): Call
    requires c.pc.Rereading?
  {
    if !Exists(fs, c.task.path) || StatOf(fs, c.task.path) != c.pc.before || |c.pc.seen| != c.pc.before.size
    then Abort(c)
    else if c.task.Read? then c.(pc := Done(Some(c.pc.seen)))
    else if c.pc.seen != c.task.bytes then Abort(c)
    else if c.pc.back then c.(pc := Unlinking(true))
    else c.(pc := Done(Some(c.pc.seen)))
  }

  function LookAt(fs: Fs, c: Call): Call
    requires c.pc.Looking?
  {
    if !Exists(fs, c.task.path) then
      if c.pc.back then Abort(c) else if c.task.Read? then c.(pc := Done(None)) else c.(pc := Opening)
    else if StatOf(fs, c.task.path).size > MAX_RECORD_BYTES then Abort(c)
    else c.(pc := Reading(c.pc.back, StatOf(fs, c.task.path), []))
  }

  /** A read takes as many bytes as the system gives it, until it meets the end of the file. */
  function ReadMore(fs: Fs, c: Call, upto: nat): Call
    requires c.pc.Reading?
  {
    if !Exists(fs, c.task.path) then Abort(c)
    else
      var content, got := ContentOf(fs, c.task.path), c.pc.got;
      if |got| >= |content| then c.(pc := Rereading(c.pc.back, c.pc.before, got))
      else if |got| < upto <= |content| then c.(pc := c.pc.(got := got + content[|got|..upto]))
      else c
  }

  /** The next step of one call: the new file system and the call's new state. */
  function Act(fs: Fs, c: Call, choice: Choice): (Fs, Call) {
    if Over(c) then (fs, c)
    else if choice.fail then (fs, Abort(c))
    else
      match c.pc
      case Looking(_) => (fs, LookAt(fs, c))
      case Reading(_, _, _) => (fs, ReadMore(fs, c, choice.upto))
      case Rereading(_, _, _) => (fs, Compare(fs, c))
      case Opening =>
        if Temp(choice.temp) in fs.names then (fs, Abort(c))
        else if choice.inode in fs.inodes then (fs, c)
        else (Create(fs, choice.temp, choice.inode), c.(pc := Writing(0), temp := choice.temp, inode := choice.inode))
      case Writing(count) =>
        if c.task.Read? || count >= |c.task.bytes| then (fs, c.(pc := Linking))
        else if count < choice.upto <= |c.task.bytes| then
          (Store(fs, c.inode, c.task.bytes[..choice.upto]), c.(pc := Writing(choice.upto)))
        else (fs, c)
      case Linking =>
        if Temp(c.temp) !in fs.names then (fs, Abort(c))
        else if Published(c.task.path) in fs.names then (fs, c.(pc := Looking(true)))
        else (Link(fs, c.temp, c.task.path), c.(pc := Looking(true)))
      case Unlinking(ok) =>
        (Unlink(fs, c.temp), c.(pc := if ok && c.task.Write? then Done(Some(c.task.bytes)) else Failed))
      case _ => (fs, c)
  }

  datatype State = State(fs: Fs, calls: seq<Call>)

  ghost predicate Begins(s: State, t: State, task: Task) {
    t == s.(calls := s.calls + [Call(task, Looking(false), 0, 0)])
  }

  ghost predicate Acts(s: State, t: State, i: nat, choice: Choice) {
    i < |s.calls|
    && var r := Act(s.fs, s.calls[i], choice);
       t == State(r.0, s.calls[i := r.1])
  }

  ghost predicate Crashes(s: State, t: State, i: nat) {
    i < |s.calls| && !Over(s.calls[i]) && t == s.(calls := s.calls[i := s.calls[i].(pc := Crashed)])
  }

  ghost predicate Ticks(s: State, t: State) { t == s.(fs := s.fs.(clock := s.fs.clock + 1)) }

  /** Something happens to the calls under way, or time passes. */
  ghost predicate Moves(s: State, t: State) {
    (exists i, choice :: Acts(s, t, i, choice)) || (exists i :: Crashes(s, t, i)) || Ticks(s, t)
  }

  /** Any call begins, acts or crashes at any moment, and time passes. */
  ghost predicate Next(s: State, t: State) {
    || (exists task :: Begins(s, t, task))
    || (exists i, choice :: Acts(s, t, i, choice))
    || (exists i :: Crashes(s, t, i))
    || Ticks(s, t)
  }

  ghost predicate Initial(s: State) { s.fs.names == map[] && s.calls == [] }

  ghost predicate StepAt(run: seq<State>, k: nat) { k + 1 < |run| && Next(run[k], run[k + 1]) }

  ghost predicate Run(run: seq<State>) {
    run != [] && Initial(run[0]) && forall k :: 0 <= k < |run| - 1 ==> StepAt(run, k)
  }

  // -------------------------------------------------------------- invariants

  ghost predicate Resolves(fs: Fs) {
    forall n :: n in fs.names ==> fs.names[n] in fs.inodes
  }

  ghost predicate TempsApart(fs: Fs) {
    forall x: nat, y: nat ::
      Temp(x) in fs.names && Temp(y) in fs.names && x != y ==> fs.names[Temp(x)] != fs.names[Temp(y)]
  }

  ghost predicate Shows(fs: Fs, path: Path, bytes: Bytes) { Exists(fs, path) && ContentOf(fs, path) == bytes }

  /** The call's temporary file has no published name yet. */
  predicate Unlinked(c: Call) { c.pc.Writing? || c.pc.Linking? }

  /** What holds of one call, given the file system. */
  ghost predicate CallHolds(fs: Fs, c: Call) {
    && (Holds(c) ==>
          c.task.Write? && Temp(c.temp) in fs.names && fs.names[Temp(c.temp)] == c.inode && c.inode in fs.inodes)
    && (c.pc.Writing? ==> c.pc.count <= |c.task.bytes| && fs.inodes[c.inode].bytes == c.task.bytes[..c.pc.count])
    && (Unlinked(c) ==> forall p :: Published(p) in fs.names ==> fs.names[Published(p)] != c.inode)
    && (c.pc.Linking? ==> fs.inodes[c.inode].bytes == c.task.bytes)
    && (c.pc.Opening? ==> c.task.Write?)
    && (c.pc.Reading? ==> Exists(fs, c.task.path) && c.pc.got <= ContentOf(fs, c.task.path))
    && (c.pc.Rereading? ==> Shows(fs, c.task.path, c.pc.seen))
    && (c.pc.Unlinking? && c.pc.ok ==> Shows(fs, c.task.path, c.task.bytes))
    && (c.pc.Done? && c.task.Write? ==> Shows(fs, c.task.path, c.task.bytes))
    && (c.pc.Done? && c.pc.found.Some? ==> Shows(fs, c.task.path, c.pc.found.value))
  }

  ghost predicate Apart(c: Call, d: Call) { Holds(c) && Holds(d) ==> c.temp != d.temp }

  /** Some call on this very path brought exactly these bytes. */
  ghost predicate Brought(calls: seq<Call>, path: Path, bytes: Bytes) {
    exists i :: 0 <= i < |calls| && calls[i].task == Write(path, bytes)
  }

  ghost predicate AllBrought(s: State) {
    forall p :: Exists(s.fs, p) ==> Brought(s.calls, p, ContentOf(s.fs, p))
  }

  ghost predicate Inv(s: State) {
    && Resolves(s.fs) && TempsApart(s.fs)
    && (forall i :: 0 <= i < |s.calls| ==> CallHolds(s.fs, s.calls[i]))
    && (forall i, j :: 0 <= i < j < |s.calls| ==> Apart(s.calls[i], s.calls[j]))
    && AllBrought(s)
  }

  /** `fs'` keeps every name but one temporary and every file's bytes but one unpublished file's. */
  ghost predicate Keeps(fs: Fs, fs': Fs, temp: Option<nat>, ino: Option<nat>) {
    && (forall n :: n in fs.names && (n.Temp? && temp.Some? ==> n.id != temp.value) ==>
          n in fs'.names && fs'.names[n] == fs.names[n])
    && (forall k :: k in fs.inodes && (ino.Some? ==> k != ino.value) ==>
          k in fs'.inodes && fs'.inodes[k].bytes == fs.inodes[k].bytes)
  }

  lemma {:induction false} KeepsShown(fs: Fs, fs': Fs, temp: Option<nat>, ino: Option<nat>, path: Path)
    requires Keeps(fs, fs', temp, ino) && Exists(fs, path)
    requires ino.Some? ==> fs.names[Published(path)] != ino.value
    ensures Exists(fs', path) && ContentOf(fs', path) == ContentOf(fs, path)
  {
  }
}
