/** A file system as a crash sees it: a cache that dies with the machine, file
    contents that are safe once flushed, and directory changes that are safe
    once the directory is flushed and may survive or not, each, before that. */
module Disk {
  import opened Wrappers

  datatype File = File(bytes: string, flushed: bool)

  datatype Change = Link(name: string, inode: nat) | Move(from: string, to: string, inode: nat) | Unlink(name: string)

  /** Files by inode; the directory as last flushed; the changes since. */
  datatype Disk = Disk(files: seq<File>, durable: map<string, nat>, journal: seq<Change>)

  function Changed(dir: map<string, nat>, c: Change): map<string, nat> {
    match c
    case Link(name, inode) => dir[name := inode]
    case Move(from, to, inode) => (dir - {from})[to := inode]
    case Unlink(name) => dir - {name}
  }

  /** The directory when exactly the kept changes took hold. */
  function Replay(dir: map<string, nat>, journal: seq<Change>, keep: seq<bool>): map<string, nat>
    requires |keep| == |journal|
  {
    var n := |journal|;
    if n == 0 then dir
    else
      var before := Replay(dir, journal[..n - 1], keep[..n - 1]);
      if keep[n - 1] then Changed(before, journal[n - 1]) else before
  }

  function Everything(n: nat): (keep: seq<bool>)
    ensures |keep| == n && forall i :: 0 <= i < n ==> keep[i]
  {
    seq(n, _ => true)
  }

  /** The directory every running process sees. */
  function Current(d: Disk): map<string, nat> {
    Replay(d.durable, d.journal, Everything(|d.journal|))
  }

  function Reads(d: Disk, path: string): Option<string> {
    var dir := Current(d);
    if path in dir && dir[path] < |d.files| then Some(d.files[dir[path]].bytes) else None
  }

  /** What a path may hold when this directory survives: a flushed file its
      bytes, any other file anything at all. */
  ghost predicate Shows(files: seq<File>, dir: map<string, nat>, path: string, out: Option<string>) {
    if path !in dir then out.None?
    else dir[path] < |files| && out.Some? && (files[dir[path]].flushed ==> out.value == files[dir[path]].bytes)
  }

  /** `out` is a possible content of `path` after losing power here. */
  ghost predicate Survives(d: Disk, path: string, out: Option<string>) {
    exists keep :: |keep| == |d.journal| && Shows(d.files, Replay(d.durable, d.journal, keep), path, out)
  }

  ghost predicate Names(c: Change, path: string) {
    match c
    case Link(name, _) => name == path
    case Move(from, to, _) => from == path || to == path
    case Unlink(name) => name == path
  }

  ghost predicate RefersBelow(c: Change, n: nat) {
    !c.Unlink? ==> c.inode < n
  }

  ghost predicate Below(dir: map<string, nat>, n: nat) {
    forall name :: name in dir ==> dir[name] < n
  }

  ghost predicate Closed(d: Disk) {
    && Below(d.durable, |d.files|)
    && (forall i :: 0 <= i < |d.journal| ==> RefersBelow(d.journal[i], |d.files|))
  }

  lemma {:induction false} ReplayBelow(dir: map<string, nat>, journal: seq<Change>, keep: seq<bool>, n: nat)
    requires |keep| == |journal| && Below(dir, n)
    requires forall i :: 0 <= i < |journal| ==> RefersBelow(journal[i], n)
    ensures Below(Replay(dir, journal, keep), n)
  {
    if |journal| > 0 {
      var m := |journal| - 1;
      ReplayBelow(dir, journal[..m], keep[..m], n);
      assert RefersBelow(journal[m], n);
    }
  }

  /** Changes that do not name a path leave it as it was, whichever survive. */
  lemma {:induction false} ReplayElsewhere(dir: map<string, nat>, j: seq<Change>, extra: seq<Change>, keep: seq<bool>, path: string)
    requires |keep| == |j| + |extra|
    requires forall i :: 0 <= i < |extra| ==> !Names(extra[i], path)
    ensures var r, s := Replay(dir, j + extra, keep), Replay(dir, j, keep[..|j|]);
            (path in r <==> path in s) && (path in r ==> r[path] == s[path])
  {
    if |extra| == 0 {
      assert j + extra == j && keep[..|j|] == keep;
    } else {
      var n := |extra| - 1;
      var all := j + extra;
      assert all[..|all| - 1] == j + extra[..n];
      assert keep[..|all| - 1][..|j|] == keep[..|j|];
      ReplayElsewhere(dir, j, extra[..n], keep[..|all| - 1], path);
      assert !Names(extra[n], path);
    }
  }

  // ---- relative to the disk an operation began on ------------------------------

  /** Only names other than `path`, and files created since, have been touched. */
  ghost predicate Apart(d: Disk, d0: Disk, path: string) {
    && Closed(d) && Closed(d0)
    && d.durable == d0.durable && d0.files <= d.files && d0.journal <= d.journal
    && forall i :: |d0.journal| <= i < |d.journal| ==> !Names(d.journal[i], path)
  }

  /** Since then `path` was renamed over, by one change, to a flushed new file. */
  ghost predicate Renamed(d: Disk, d0: Disk, path: string, data: string, at: nat) {
    && Closed(d) && Closed(d0)
    && d.durable == d0.durable && d0.files <= d.files && d0.journal <= d.journal
    && |d0.journal| <= at < |d.journal|
    && (forall i :: |d0.journal| <= i < |d.journal| && i != at ==> !Names(d.journal[i], path))
    && d.journal[at].Move? && d.journal[at].to == path
    && d.journal[at].inode < |d.files| && d.files[d.journal[at].inode] == File(data, true)
  }

  /** A power loss, or a killed process, finds exactly what it could have found before. */
  ghost predicate Unpublished(d: Disk, d0: Disk, path: string) {
    && Reads(d, path) == Reads(d0, path)
    && forall out :: Survives(d, path, out) <==> Survives(d0, path, out)
  }

  /** A killed process finds the new bytes; a power loss those or the old. */
  ghost predicate Published(d: Disk, d0: Disk, path: string, data: string) {
    && Reads(d, path) == Some(data)
    && forall out :: Survives(d, path, out) <==> Survives(d0, path, out) || out == Some(data)
  }

  /** Nothing but the new bytes can be found again. */
  ghost predicate Durable(d: Disk, path: string, data: string) {
    && Reads(d, path) == Some(data)
    && forall out :: Survives(d, path, out) <==> out == Some(data)
  }

  lemma ShowsSame(files: seq<File>, more: seq<File>, dir: map<string, nat>, dir': map<string, nat>, path: string, out: Option<string>)
    requires files <= more && (path in dir <==> path in dir') && (path in dir ==> dir[path] == dir'[path] < |files|)
    ensures Shows(files, dir, path, out) <==> Shows(more, dir', path, out)
  {
  }

  lemma ApartReplays(d: Disk, d0: Disk, path: string, keep: seq<bool>, out: Option<string>)
    requires Apart(d, d0, path) && |keep| == |d.journal|
    ensures Shows(d.files, Replay(d.durable, d.journal, keep), path, out) <==>
            Shows(d0.files, Replay(d0.durable, d0.journal, keep[..|d0.journal|]), path, out)
  {
    var n := |d0.journal|;
    assert d.journal == d0.journal + d.journal[n..];
    ReplayElsewhere(d.durable, d0.journal, d.journal[n..], keep, path);
    ReplayBelow(d0.durable, d0.journal, keep[..n], |d0.files|);
    ShowsSame(d0.files, d.files, Replay(d0.durable, d0.journal, keep[..n]), Replay(d.durable, d.journal, keep), path, out);
  }

  lemma ApartReads(d: Disk, d0: Disk, path: string)
    requires Apart(d, d0, path)
    ensures Reads(d, path) == Reads(d0, path)
  {
    var n := |d0.journal|;
    var keep := Everything(|d.journal|);
    assert keep[..n] == Everything(n);
    assert d.journal == d0.journal + d.journal[n..];
    ReplayElsewhere(d.durable, d0.journal, d.journal[n..], keep, path);
    ReplayBelow(d0.durable, d0.journal, keep[..n], |d0.files|);
  }

  /** Preparing beside a path leaves every outcome for it as it was. */
  lemma ApartIsUnpublished(d: Disk, d0: Disk, path: string)
    requires Apart(d, d0, path)
    ensures Unpublished(d, d0, path)
  {
    var n := |d0.journal|;
    ApartReads(d, d0, path);
    forall out | Survives(d, path, out)
      ensures Survives(d0, path, out)
    {
      var keep :| |keep| == |d.journal| && Shows(d.files, Replay(d.durable, d.journal, keep), path, out);
      ApartReplays(d, d0, path, keep, out);
    }
    forall out | Survives(d0, path, out)
      ensures Survives(d, path, out)
    {
      var keep :| |keep| == n && Shows(d0.files, Replay(d0.durable, d0.journal, keep), path, out);
      var more := keep + seq(|d.journal| - n, _ => false);
      assert more[..n] == keep;
      ApartReplays(d, d0, path, more, out);
    }
  }

  lemma RenameReplays(d: Disk, d0: Disk, path: string, data: string, at: nat, keep: seq<bool>, out: Option<string>)
    requires Renamed(d, d0, path, data, at) && |keep| == |d.journal|
    ensures keep[at] ==> (Shows(d.files, Replay(d.durable, d.journal, keep), path, out) <==> out == Some(data))
    ensures !keep[at] ==> (Shows(d.files, Replay(d.durable, d.journal, keep), path, out) <==>
                           Shows(d0.files, Replay(d0.durable, d0.journal, keep[..|d0.journal|]), path, out))
  {
    var n := |d0.journal|;
    assert d.journal == d.journal[..at + 1] + d.journal[at + 1..];
    ReplayElsewhere(d.durable, d.journal[..at + 1], d.journal[at + 1..], keep, path);
    assert d.journal[..at + 1][..at] == d.journal[..at] && keep[..at + 1][..at] == keep[..at];
    if !keep[at] {
      assert d.journal[..at] == d0.journal + d.journal[n..at];
      ReplayElsewhere(d.durable, d0.journal, d.journal[n..at], keep[..at], path);
      assert keep[..at][..n] == keep[..n];
      ReplayBelow(d0.durable, d0.journal, keep[..n], |d0.files|);
      ShowsSame(d0.files, d.files, Replay(d0.durable, d0.journal, keep[..n]), Replay(d.durable, d.journal, keep), path, out);
    }
  }

  lemma RenamedReads(d: Disk, d0: Disk, path: string, data: string, at: nat)
    requires Renamed(d, d0, path, data, at)
    ensures Reads(d, path) == Some(data)
  {
    var keep := Everything(|d.journal|);
    assert d.journal == d.journal[..at + 1] + d.journal[at + 1..];
    ReplayElsewhere(d.durable, d.journal[..at + 1], d.journal[at + 1..], keep, path);
    assert keep[..at + 1][at];
  }

  /** The rename of a flushed file publishes it whole or not at all. */
  lemma RenamedIsPublished(d: Disk, d0: Disk, path: string, data: string, at: nat)
    requires Renamed(d, d0, path, data, at)
    ensures Published(d, d0, path, data)
  {
    var n := |d0.journal|;
    RenamedReads(d, d0, path, data, at);
    forall out | Survives(d, path, out)
      ensures Survives(d0, path, out) || out == Some(data)
    {
      var keep :| |keep| == |d.journal| && Shows(d.files, Replay(d.durable, d.journal, keep), path, out);
      RenameReplays(d, d0, path, data, at, keep, out);
    }
    forall out | Survives(d0, path, out)
      ensures Survives(d, path, out)
    {
      var keep :| |keep| == n && Shows(d0.files, Replay(d0.durable, d0.journal, keep), path, out);
      var more := keep + seq(|d.journal| - n, _ => false);
      assert more[..n] == keep;
      RenameReplays(d, d0, path, data, at, more, out);
    }
    var all := Everything(|d.journal|);
    RenameReplays(d, d0, path, data, at, all, Some(data));
    assert Survives(d, path, Some(data));
  }

  /** Once the directory is flushed the old bytes cannot come back. */
  lemma FlushedIsDurable(d: Disk, path: string, data: string)
    requires d.journal == [] && path in d.durable && d.durable[path] < |d.files| && d.files[d.durable[path]] == File(data, true)
    ensures Durable(d, path, data)
  {
    assert Replay(d.durable, d.journal, []) == d.durable;
    forall out | Survives(d, path, out)
      ensures out == Some(data)
    {
      var keep :| |keep| == |d.journal| && Shows(d.files, Replay(d.durable, d.journal, keep), path, out);
      assert keep == [];
    }
    assert Shows(d.files, Replay(d.durable, d.journal, []), path, Some(data));
  }
}
