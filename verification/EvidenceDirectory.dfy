/** readImmutableFile and writeImmutableFile run without a concurrent writer, on one mutable file system. */
module EvidenceDirectory {
  import opened Seqs
  import opened EvidenceFiles
  import opened EvidencePublication

  /** What one undisturbed write leaves: the path is linked if it was free, and no temporary name remains. */
  ghost function NamesAfter(fs: Fs, path: Path, temp: nat, inode: nat): map<Name, nat> {
    if Exists(fs, path) || Temp(temp) in fs.names then fs.names else fs.names[Published(path) := inode]
  }

  /** When an undisturbed write succeeds: the path is free or already holds the bytes, which fit a record. */
  ghost predicate WriteSucceeds(fs: Fs, path: Path, bytes: Bytes, temp: nat) {
    && |bytes| <= MAX_RECORD_BYTES
    && (if Exists(fs, path) then ContentOf(fs, path) == bytes else Temp(temp) !in fs.names)
  }

  class Directory {
    var fs: Fs

    constructor (initial: Fs)
      ensures fs == initial
    {
      fs := initial;
    }

    /** readImmutableFile: refuses only an oversized record when nothing else moves. */
    method ReadImmutableFile(path: Path) returns (ok: bool, found: Option<Bytes>)
      ensures ok <==> (Exists(fs, path) ==> |ContentOf(fs, path)| <= MAX_RECORD_BYTES)
      ensures ok ==> found == if Exists(fs, path) then Some(ContentOf(fs, path)) else None
    {
      if !Exists(fs, path) {
        return true, None;
      }
      var before := StatOf(fs, path);
      if before.size > MAX_RECORD_BYTES {
        return false, None;
      }
      var bytes := ContentOf(fs, path);
      var after := StatOf(fs, path);
      if before != after || |bytes| != after.size {
        return false, None;
      }
      return true, Some(bytes);
    }

    /** The bytes reach the temporary file piece by piece. */
    method WriteTemporary(inode: nat, bytes: Bytes, chunk: nat)
      requires inode in fs.inodes && fs.inodes[inode].bytes == [] && chunk > 0
      modifies this
      ensures inode in fs.inodes && fs.inodes[inode].bytes == bytes
      ensures fs == old(fs).(inodes := old(fs).inodes[inode := fs.inodes[inode]])
    {
      var count := 0;
      while count < |bytes|
        invariant count <= |bytes| && inode in fs.inodes && fs.inodes[inode].bytes == bytes[..count]
        invariant fs == old(fs).(inodes := old(fs).inodes[inode := fs.inodes[inode]])
      {
        count := if count + chunk < |bytes| then count + chunk else |bytes|;
        fs := Store(fs, inode, bytes[..count]);
      }
      assert bytes[..|bytes|] == bytes;
    }

    /** writeImmutableFile, with the random temporary name and the new inode as given by the system. */
    method WriteImmutableFile(path: Path, bytes: Bytes, temp: nat, inode: nat, chunk: nat) returns (ok: bool)
      requires FilesHold(fs) && inode !in fs.inodes && chunk > 0
      modifies this
      ensures ok <==> WriteSucceeds(old(fs), path, bytes, temp)
      ensures ok ==> Shows(fs, path, bytes)
      ensures FilesHold(fs) && fs.names == NamesAfter(old(fs), path, temp, inode)
      ensures forall p :: Exists(old(fs), p) ==> Shows(fs, p, ContentOf(old(fs), p))
    {
      var readable, existing := ReadImmutableFile(path);
      if !readable {
        return false;
      }
      if existing.Some? {
        return existing.value == bytes;
      }
      if Temp(temp) in fs.names {
        return false;
      }
      CreateKeeps(fs, temp, inode);
      fs := Create(fs, temp, inode);
      assert forall p :: Exists(old(fs), p) ==> Shows(fs, p, ContentOf(old(fs), p)) by {
        forall p | Exists(old(fs), p) ensures Shows(fs, p, ContentOf(old(fs), p)) {
          KeepsShown(old(fs), fs, None, None, p);
        }
      }
      ok := Publish(path, bytes, temp, inode, chunk);
    }

    /** From the fresh temporary file to its removal; the removal happens whether or not the bytes compare. */
    method Publish(path: Path, bytes: Bytes, temp: nat, inode: nat, chunk: nat) returns (ok: bool)
      requires FilesHold(fs) && chunk > 0 && Published(path) !in fs.names
      requires Temp(temp) in fs.names && fs.names[Temp(temp)] == inode && fs.inodes[inode].bytes == []
      requires forall p :: Published(p) in fs.names ==> fs.names[Published(p)] != inode
      modifies this
      ensures ok <==> |bytes| <= MAX_RECORD_BYTES
      ensures Shows(fs, path, bytes)
      ensures FilesHold(fs) && fs.names == (old(fs).names - {Temp(temp)})[Published(path) := inode]
      ensures forall p :: Exists(old(fs), p) ==> Shows(fs, p, ContentOf(old(fs), p))
    {
      WriteTemporary(inode, bytes, chunk);
      LinkKeeps(fs, temp, path);
      fs := Link(fs, temp, path);
      var readable, published := ReadImmutableFile(path);
      ok := readable && published == Some(bytes);
      UnlinkKeeps(fs, temp);
      fs := Unlink(fs, temp);
    }
  }
}
