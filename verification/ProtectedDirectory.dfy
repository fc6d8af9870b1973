/** The file system calls that the launcher's stores make on a directory of their own. */
module ProtectedDirectory {
  import opened Durability

  datatype Creation = Made(inode: nat) | Exists | Refused

  datatype Renaming = Renamed | TargetExists | NotRenamed

  lemma IssueKeepsValid<N, F>(d: Disk<N, F>, op: Op<N>)
    requires Valid(d) && !op.Link?
    ensures Valid(Issue(d, op))
  {
    ImagesAfterIssue(d, op);
    var e := Issue(d, op);
    assert forall k :: 0 <= k <= |d.log| ==> Image(e, k) == Image(d, k);
  }

  /** One call and whether it went well. */
  datatype Call<N> =
    | Creates(name: N, ok: bool)
    | Writes(inode: nat, ok: bool)
    | SyncsFile(inode: nat, ok: bool)
    | Renames(from: N, to: N, ok: bool)
    | Removes(name: N, ok: bool)
    | SyncsDirectory(ok: bool)

  /** Every call may fail, and a failed call leaves the disk as it was. `calls` are the calls of this holder. */
  class Directory<N(==), F> {
    var disk: Disk<N, F>
    ghost var calls: seq<Call<N>>
    ghost var failures: nat

    ghost predicate Valid() reads this { Durability.Valid(disk) }

    constructor (disk: Disk<N, F>)
      requires Durability.Valid(disk)
      ensures this.disk == disk && Valid() && calls == [] && failures == 0
    {
      this.disk := disk;
      this.calls := [];
      this.failures := 0;
    }

    /** `create_new` */
    method CreateNew(name: N, blank: F) returns (r: Creation)
      requires Valid()
      modifies this
      ensures Valid()
      ensures r.Exists? ==> name in Current(disk)
      ensures r.Made? ==> name !in old(Current(disk)) && r.inode == |old(disk).content|
                          && disk == Create(old(disk), name, blank)
      ensures !r.Made? ==> disk == old(disk)
      ensures calls == old(calls) + [Creates(name, r.Made?)]
      ensures failures == old(failures) + if r.Made? then 0 else 1
    {
      var fails: bool := *;
      if name in Current(disk) {
        r := Exists;
      } else if fails {
        r := Refused;
      } else {
        r := Made(|disk.content|);
        ImagesAfterCreate(disk, name, blank);
        disk := Create(disk, name, blank);
      }
      calls := calls + [Creates(name, r.Made?)];
      failures := failures + if r.Made? then 0 else 1;
    }

    /** Open a file that is there. */
    method Open(name: N) returns (ok: bool)
      requires Valid()
      modifies this
      ensures Valid() && disk == old(disk) && calls == old(calls)
      ensures ok ==> name in Current(disk)
      ensures failures == old(failures) + if ok then 0 else 1
    {
      ok := *;
      ok := ok && name in Current(disk);
      failures := failures + if ok then 0 else 1;
    }

    /** Write a file whole. A write that fails leaves the file unwritten or torn, which are one here. */
    method WriteAll(inode: nat, file: F) returns (ok: bool)
      requires Valid() && inode < |disk.content|
      modifies this
      ensures Valid()
      ensures disk == if ok then Write(old(disk), inode, file) else old(disk)
      ensures calls == old(calls) + [Writes(inode, ok)]
      ensures failures == old(failures) + if ok then 0 else 1
    {
      ok := *;
      if ok {
        ImagesAfterWrite(disk, inode, file);
        disk := Write(disk, inode, file);
      }
      calls := calls + [Writes(inode, ok)];
      failures := failures + if ok then 0 else 1;
    }

    /** Sync a file. */
    method SyncAll(inode: nat) returns (ok: bool)
      requires Valid()
      modifies this
      ensures Valid()
      ensures disk == if ok then SyncFile(old(disk), inode) else old(disk)
      ensures calls == old(calls) + [SyncsFile(inode, ok)]
      ensures failures == old(failures) + if ok then 0 else 1
    {
      ok := *;
      if ok {
        ImagesAfterSyncFile(disk, inode);
        disk := SyncFile(disk, inode);
      }
      calls := calls + [SyncsFile(inode, ok)];
      failures := failures + if ok then 0 else 1;
    }

    method Rename(from: N, to: N) returns (ok: bool)
      requires Valid()
      modifies this
      ensures Valid()
      ensures ok ==> from in old(Current(disk))
      ensures disk == if ok then Issue(old(disk), Move(from, to)) else old(disk)
      ensures calls == old(calls) + [Renames(from, to, ok)]
      ensures failures == old(failures) + if ok then 0 else 1
    {
      ok := *;
      ok := ok && from in Current(disk);
      if ok {
        IssueKeepsValid(disk, Move(from, to));
        disk := Issue(disk, Move(from, to));
      }
      calls := calls + [Renames(from, to, ok)];
      failures := failures + if ok then 0 else 1;
    }

    /** `renameat2` with `RENAME_NOREPLACE` */
    method RenameNoReplace(from: N, to: N) returns (r: Renaming)
      requires Valid()
      modifies this
      ensures Valid()
      ensures r.Renamed? ==> from in old(Current(disk)) && to !in old(Current(disk))
                             && disk == Issue(old(disk), Move(from, to))
      ensures r.TargetExists? ==> to in old(Current(disk))
      ensures !r.Renamed? ==> disk == old(disk)
      ensures calls == old(calls) + [Renames(from, to, r.Renamed?)]
      ensures failures == old(failures) + if r.Renamed? then 0 else 1
    {
      var fails: bool := *;
      if to in Current(disk) {
        r := TargetExists;
      } else if fails || from !in Current(disk) {
        r := NotRenamed;
      } else {
        IssueKeepsValid(disk, Move(from, to));
        disk := Issue(disk, Move(from, to));
        r := Renamed;
      }
      calls := calls + [Renames(from, to, r.Renamed?)];
      failures := failures + if r.Renamed? then 0 else 1;
    }

    method Remove(name: N) returns (ok: bool)
      requires Valid()
      modifies this
      ensures Valid()
      ensures ok ==> name in old(Current(disk))
      ensures disk == if ok then Issue(old(disk), Unlink(name)) else old(disk)
      ensures calls == old(calls) + [Removes(name, ok)]
      ensures failures == old(failures) + if ok then 0 else 1
    {
      ok := *;
      ok := ok && name in Current(disk);
      if ok {
        IssueKeepsValid(disk, Unlink(name));
        disk := Issue(disk, Unlink(name));
      }
      calls := calls + [Removes(name, ok)];
      failures := failures + if ok then 0 else 1;
    }

    method Sync() returns (ok: bool)
      requires Valid()
      modifies this
      ensures Valid()
      ensures disk == if ok then Flush(old(disk)) else old(disk)
      ensures calls == old(calls) + [SyncsDirectory(ok)]
      ensures failures == old(failures) + if ok then 0 else 1
    {
      ok := *;
      if ok {
        ImagesAfterFlush(disk);
        disk := Flush(disk);
      }
      calls := calls + [SyncsDirectory(ok)];
      failures := failures + if ok then 0 else 1;
    }
  }
}
