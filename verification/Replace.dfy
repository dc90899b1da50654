/** The two crash-safe file replacements: auth.Store.Save and copyFile. */
module Replace {
  import opened Wrappers
  import opened Disk

  /** What goes wrong during one replacement. `write` names the length at which
      a write breaks off; a platform may also reject flushing a directory. */
  datatype Flush = Flushed | Rejected | Refused

  datatype Faults = Faults(
    create: bool,
    write: Option<nat>,
    flush: bool,
    close: bool,
    chmod: bool,
    rename: bool,
    openDir: bool,
    flushDir: Flush)

  /** Every step up to and including the rename works. */
  predicate Reaches(x: Faults) {
    !x.create && x.write.None? && !x.flush && !x.close && !x.chmod && !x.rename
  }

  /** os.CreateTemp made `tmp`: it did not exist. */
  predicate Creates(d: Disk, tmp: string, x: Faults) {
    !x.create && tmp !in Current(d)
  }

  class FileSystem {
    var disk: Disk

    /** Every state the disk has been in since this object was made. */
    ghost var history: seq<Disk>

    ghost predicate Valid()
      reads this
    {
      Closed(disk) && |history| > 0 && history[|history| - 1] == disk
    }

    constructor (d: Disk)
      requires Closed(d)
      ensures Valid() && disk == d && history == [d]
    {
      disk, history := d, [d];
    }

    method Become(d: Disk)
      modifies this
      ensures disk == d && history == old(history) + [d]
    {
      disk := d;
      history := history + [d];
    }

    /** os.CreateTemp: a new empty file under a name not in use. */
    method CreateTemp(tmp: string, x: Faults) returns (inode: Option<nat>)
      modifies this
      ensures inode.Some? <==> Creates(old(disk), tmp, x)
      ensures if inode.None? then disk == old(disk) && history == old(history)
              else && inode.value == |old(disk).files|
                   && disk == old(disk).(files := old(disk).files + [File("", false)], journal := old(disk).journal + [Link(tmp, inode.value)])
                   && history == old(history) + [disk]
    {
      if x.create || tmp in Current(disk) {
        return None;
      }
      inode := Some(|disk.files|);
      Become(disk.(files := disk.files + [File("", false)], journal := disk.journal + [Link(tmp, inode.value)]));
    }

    /** Write appends, all of it or a prefix. */
    method Write(inode: nat, data: string, x: Faults) returns (ok: bool)
      requires inode < |disk.files|
      modifies this
      ensures ok <==> x.write.None?
      ensures exists n: nat :: n <= |data| && (ok ==> n == |data|)
                          && disk == old(disk).(files := old(disk).files[inode := File(old(disk).files[inode].bytes + data[..n], false)])
      ensures history == old(history) + [disk]
    {
      var n := if x.write.Some? && x.write.value <= |data| then x.write.value else |data|;
      Become(disk.(files := disk.files[inode := File(disk.files[inode].bytes + data[..n], false)]));
      ok := x.write.None?;
    }

    /** File.Sync: the bytes written so far are on the disk. */
    method Sync(inode: nat, x: Faults) returns (ok: bool)
      requires inode < |disk.files|
      modifies this
      ensures ok == !x.flush
      ensures if ok then disk == old(disk).(files := old(disk).files[inode := old(disk).files[inode].(flushed := true)]) && history == old(history) + [disk]
              else disk == old(disk) && history == old(history)
    {
      if x.flush {
        return false;
      }
      Become(disk.(files := disk.files[inode := disk.files[inode].(flushed := true)]));
      ok := true;
    }

    method Rename(from: string, to: string, inode: nat, x: Faults) returns (ok: bool)
      modifies this
      ensures ok == !x.rename
      ensures if ok then disk == old(disk).(journal := old(disk).journal + [Move(from, to, inode)]) && history == old(history) + [disk]
              else disk == old(disk) && history == old(history)
    {
      if x.rename {
        return false;
      }
      Become(disk.(journal := disk.journal + [Move(from, to, inode)]));
      ok := true;
    }

    /** The deferred removal of the temp file: nothing to do after the rename. */
    method RemoveTemp(tmp: string)
      modifies this
      ensures if tmp in Current(old(disk)) then disk == old(disk).(journal := old(disk).journal + [Unlink(tmp)]) && history == old(history) + [disk]
              else disk == old(disk) && history == old(history)
    {
      if tmp in Current(disk) {
        Become(disk.(journal := disk.journal + [Unlink(tmp)]));
      }
    }

    /** syncDir: a no-op on Windows and where the directory does not open or its
        platform rejects the flush; otherwise every pending change is settled. */
    method SyncDir(windows: bool, x: Faults) returns (ok: bool)
      modifies this
      ensures ok == (windows || x.openDir || !x.flushDir.Refused?)
      ensures if !windows && !x.openDir && x.flushDir.Flushed?
              then disk == old(disk).(durable := Current(old(disk)), journal := []) && history == old(history) + [disk]
              else disk == old(disk) && history == old(history)
    {
      if windows {
        return true;
      }
      if x.openDir {
        return true;
      }
      if x.flushDir.Flushed? {
        Become(disk.(durable := Current(disk), journal := []));
      }
      ok := !x.flushDir.Refused?;
    }

    /** writeAndClose: write, flush, close. Whatever fails, only the new file has
        been touched; on success it holds the data, flushed. */
    method WriteAndClose(inode: nat, data: string, x: Faults, ghost d0: Disk, ghost path: string) returns (ok: bool)
      requires Apart(disk, d0, path) && |d0.files| <= inode < |disk.files| && disk.files[inode].bytes == ""
      modifies this
      ensures ok <==> x.write.None? && !x.flush && !x.close
      ensures Apart(disk, d0, path) && disk.journal == old(disk).journal && disk.durable == old(disk).durable
      ensures |disk.files| == |old(disk).files|
      ensures ok ==> disk.files[inode] == File(data, true)
      ensures |history| > |old(history)| && history[|history| - 1] == disk
      ensures Prepares(old(history), history, d0, path)
    {
      var written := Write(inode, data, x);
      if !written {
        return false;
      }
      assert data[..|data|] == data && "" + data == data;
      var flushed := Sync(inode, x);
      ok := flushed && !x.close;
    }

    /** The half both replacements share: a temp file beside the target,
        written, flushed and given its mode, or removed again. */
    method Prepare(path: string, tmp: string, data: string, x: Faults) returns (inode: Option<nat>)
      requires Valid() && (tmp != path || path in Current(disk))
      modifies this
      ensures Valid() && Apart(disk, old(disk), path) && Prepares(old(history), history, old(disk), path)
      ensures inode.Some? <==> Creates(old(disk), tmp, x) && x.write.None? && !x.flush && !x.close && !x.chmod
      ensures inode.Some? ==> tmp != path && inode.value < |disk.files| && disk.files[inode.value] == File(data, true)
    {
      ghost var d0 := disk;
      inode := CreateTemp(tmp, x);
      if inode.Some? {
        var ok := WriteAndClose(inode.value, data, x, d0, path);
        if !ok || x.chmod {
          RemoveTemp(tmp);
          inode := None;
        }
      }
    }

    /** Both replacements up to the rename, with the deferred removal of the
        temp file, which finds nothing once the rename has happened. */
    method Swap(path: string, tmp: string, data: string, x: Faults) returns (ok: bool)
      requires Valid() && (tmp != path || path in Current(disk))
      modifies this
      ensures Valid()
      ensures exists m :: Replaces(old(history), m, history, old(disk), path, data)
      ensures ok <==> Creates(old(disk), tmp, x) && Reaches(x)
      ensures if ok then Published(disk, old(disk), path, data) && Holds(disk, path, data) else Unpublished(disk, old(disk), path)
    {
      ghost var d0, h0 := disk, history;
      var inode := Prepare(path, tmp, data, x);
      ghost var h := history;
      ok := false;
      if inode.Some? {
        ok := Rename(tmp, path, inode.value, x);
        if ok {
          RenameCommits(h0, h, d0, disk, path, tmp, data);
        }
        RemoveTemp(tmp);
      }
      if !ok {
        Abandoned(h0, history, d0, path, data);
        ApartIsUnpublished(disk, d0, path);
      }
    }

    /** Store.Save. At every state it passes through, a power loss leaves the
        target with what it could have held before or with the complete new
        bytes, and a killed process exactly one of the two. Once the directory
        has been flushed only the new bytes can be found. */
    method Save(path: string, tmp: string, data: string, windows: bool, x: Faults) returns (ok: bool)
      requires Valid() && (tmp != path || path in Current(disk))
      modifies this
      ensures Valid()
      ensures exists m :: Replaces(old(history), m, history, old(disk), path, data)
      ensures ok <==> Creates(old(disk), tmp, x) && Reaches(x) && (windows || x.openDir || !x.flushDir.Refused?)
      ensures if !(Creates(old(disk), tmp, x) && Reaches(x)) then Unpublished(disk, old(disk), path)
              else if !windows && !x.openDir && x.flushDir.Flushed? then Durable(disk, path, data)
              else Published(disk, old(disk), path, data)
    {
      ok := Swap(path, tmp, data, x);
      if ok {
        FlushSettles(old(history), history, old(disk), disk, path, data);
        ok := SyncDir(windows, x);
      }
    }

    /** copyFile: the same without the directory flush, so the old file may
        still come back. The source is read first; it may not be there. */
    method CopyFile(source: string, dest: string, tmp: string, x: Faults) returns (ok: bool)
      requires Valid() && (tmp != dest || dest in Current(disk))
      modifies this
      ensures Valid()
      ensures ok <==> Reads(old(disk), source).Some? && Creates(old(disk), tmp, x) && Reaches(x)
      ensures Reads(old(disk), source).Some? ==> exists m :: Replaces(old(history), m, history, old(disk), dest, Reads(old(disk), source).value)
      ensures if ok then Published(disk, old(disk), dest, Reads(old(disk), source).value) else Unpublished(disk, old(disk), dest)
    {
      var read := Reads(disk, source);
      if read.None? {
        ApartIsUnpublished(disk, disk, dest);
        return false;
      }
      ok := Swap(dest, tmp, read.value, x);
    }
  }

  // ---- the states passed through -------------------------------------------------

  /** Every state added since left the path alone. */
  ghost predicate Prepares(h0: seq<Disk>, h: seq<Disk>, d0: Disk, path: string) {
    h0 <= h && forall k :: |h0| <= k < |h| ==> Apart(h[k], d0, path)
  }

  /** The states added since: before `m` nothing was published, from `m` on the
      new bytes were. */
  ghost predicate Replaces(h0: seq<Disk>, m: int, h: seq<Disk>, d0: Disk, path: string, data: string) {
    && h0 <= h && |h0| <= m <= |h|
    && (forall k :: |h0| <= k < m ==> Unpublished(h[k], d0, path))
    && (forall k :: m <= k < |h| ==> Published(h[k], d0, path, data) || Durable(h[k], path, data))
  }

  /** The target is a flushed file with these bytes. */
  ghost predicate Holds(d: Disk, path: string, data: string) {
    var dir := Current(d);
    path in dir && dir[path] < |d.files| && d.files[dir[path]] == File(data, true)
  }

  lemma Abandoned(h0: seq<Disk>, h: seq<Disk>, d0: Disk, path: string, data: string)
    requires Prepares(h0, h, d0, path)
    ensures Replaces(h0, |h|, h, d0, path, data)
  {
    forall k | |h0| <= k < |h|
      ensures Unpublished(h[k], d0, path)
    {
      ApartIsUnpublished(h[k], d0, path);
    }
  }

  /** The rename is the commit. */
  lemma RenameCommits(h0: seq<Disk>, h: seq<Disk>, d0: Disk, d: Disk, path: string, tmp: string, data: string)
    requires Prepares(h0, h, d0, path) && |d.journal| > 0
    requires Renamed(d, d0, path, data, |d.journal| - 1) && d.journal[|d.journal| - 1].from == tmp != path
    ensures Published(d, d0, path, data) && Replaces(h0, |h|, h + [d], d0, path, data)
    ensures tmp !in Current(d) && Holds(d, path, data)
  {
    var n := |d.journal| - 1;
    RenamedIsPublished(d, d0, path, data, n);
    Abandoned(h0, h, d0, path, data);
    assert Everything(|d.journal|)[n];
  }

  /** Flushing the directory settles it. */
  lemma FlushSettles(h0: seq<Disk>, h: seq<Disk>, d0: Disk, d: Disk, path: string, data: string)
    requires Closed(d) && Holds(d, path, data) && exists m :: Replaces(h0, m, h, d0, path, data)
    ensures var d' := d.(durable := Current(d), journal := []);
            && Closed(d') && Durable(d', path, data)
            && exists m :: Replaces(h0, m, h + [d'], d0, path, data)
  {
    var d' := d.(durable := Current(d), journal := []);
    ReplayBelow(d.durable, d.journal, Everything(|d.journal|), |d.files|);
    FlushedIsDurable(d', path, data);
    var m :| Replaces(h0, m, h, d0, path, data);
    assert Replaces(h0, m, h + [d'], d0, path, data);
  }
}
