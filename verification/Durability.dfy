/**
 A directory on disk as the launcher's stores use it.

 Directory entries name inodes. Directory operations are queued in issue order
 and become durable together at a directory sync. A file's content belongs to its inode. It is there for
 every process once it is written, and durable once the file is synced: a machine crash may tear any file
 that is not.
 */
module Durability {

  datatype Op<N> =
    | Link(name: N, inode: nat)
    | Move(from: N, to: N)
    | Unlink(name: N)

  type Entries<N> = map<N, nat>

  function Apply<N>(entries: Entries<N>, op: Op<N>): Entries<N> {
    match op
    case Link(name, inode) => entries[name := inode]
    case Move(from, to) => if from in entries then (entries - {from})[to := entries[from]] else entries
    case Unlink(name) => entries - {name}
  }

  function Replay<N>(entries: Entries<N>, log: seq<Op<N>>): Entries<N> {
    if log == [] then entries else Apply(Replay(entries, log[..|log| - 1]), log[|log| - 1])
  }

  /**
   `durable` survives any crash; `log` holds the directory operations issued since the last sync, and
   `unsynced` the inodes that were written and not synced.
   */
  datatype Disk<N, F> = Disk(durable: Entries<N>, log: seq<Op<N>>, content: seq<F>, unsynced: set<nat>)

  ghost predicate Valid<N, F>(d: Disk<N, F>) {
    && (forall k, n :: 0 <= k <= |d.log| && n in Image(d, k) ==> Image(d, k)[n] < |d.content|)
    && (forall i <- d.unsynced :: i < |d.content|)
  }

  /** A directory with nothing in it. */
  function Empty<N, F>(): Disk<N, F> { Disk(map[], [], [], {}) }

  /** The entries a machine crash leaves when the first `k` queued operations reached the disk. */
  function Image<N, F>(d: Disk<N, F>, k: nat): Entries<N>
    requires k <= |d.log|
  {
    Replay(d.durable, d.log[..k])
  }

  /** The entries every running process sees, and a process crash leaves. */
  function Current<N, F>(d: Disk<N, F>): Entries<N> {
    Image(d, |d.log|)
  }

  function Issue<N, F>(d: Disk<N, F>, op: Op<N>): Disk<N, F> {
    d.(log := d.log + [op])
  }

  /** `create_new`: a fresh inode whose content is still unwritten. */
  function Create<N, F>(d: Disk<N, F>, name: N, blank: F): Disk<N, F> {
    Issue(d, Link(name, |d.content|)).(content := d.content + [blank])
  }

  /** `write_all` */
  function Write<N, F>(d: Disk<N, F>, inode: nat, f: F): Disk<N, F>
    requires inode < |d.content|
  {
    d.(content := d.content[inode := f], unsynced := d.unsynced + {inode})
  }

  /** `sync_all` on the file */
  function SyncFile<N, F>(d: Disk<N, F>, inode: nat): Disk<N, F> {
    d.(unsynced := d.unsynced - {inode})
  }

  /** The directory sync. */
  function Flush<N, F>(d: Disk<N, F>): Disk<N, F> {
    d.(durable := Current(d), log := [])
  }

  /** A machine crash that kept the first `k` queued operations and every file whole. */
  function Survive<N, F>(d: Disk<N, F>, k: nat): Disk<N, F>
    requires k <= |d.log|
  {
    d.(durable := Image(d, k), log := [], unsynced := {})
  }

  /** Some files lost what was written to them. */
  function Tear<N, F>(d: Disk<N, F>, torn: set<nat>, blank: F): Disk<N, F> {
    d.(content := seq(|d.content|, i requires 0 <= i < |d.content| => if i in torn then blank else d.content[i]))
  }

  /** A machine crash that kept the first `k` queued operations and tore these files. */
  function Crash<N, F>(d: Disk<N, F>, k: nat, torn: set<nat>, blank: F): Disk<N, F>
    requires k <= |d.log|
  {
    Survive(Tear(d, torn, blank), k)
  }

  /** What a reader finds: each entry with the content of its inode. */
  function Files<N, F>(entries: Entries<N>, content: seq<F>): map<N, F>
    requires forall n :: n in entries ==> entries[n] < |content|
  {
    map n | n in entries :: content[entries[n]]
  }

  lemma ImagesAfterIssue<N, F>(d: Disk<N, F>, op: Op<N>)
    ensures forall k :: 0 <= k <= |d.log| ==> Image(Issue(d, op), k) == Image(d, k)
    ensures Current(Issue(d, op)) == Apply(Current(d), op)
  {
    var e := Issue(d, op);
    forall k | 0 <= k <= |d.log|
      ensures Image(e, k) == Image(d, k)
    {
      assert e.log[..k] == d.log[..k];
    }
    assert e.log[..|e.log|] == e.log;
    assert e.log[..|e.log| - 1] == d.log;
    assert d.log[..|d.log|] == d.log;
  }

  lemma ImagesAfterCreate<N, F>(d: Disk<N, F>, name: N, blank: F)
    ensures forall k :: 0 <= k <= |d.log| ==> Image(Create(d, name, blank), k) == Image(d, k)
    ensures Current(Create(d, name, blank)) == Current(d)[name := |d.content|]
    ensures Valid(d) ==> Valid(Create(d, name, blank))
  {
    ImagesAfterIssue(d, Link(name, |d.content|));
    var e := Create(d, name, blank);
    forall k | 0 <= k <= |e.log|
      ensures Image(e, k) == Image(Issue(d, Link(name, |d.content|)), k)
    {
    }
  }

  lemma ImagesAfterWrite<N, F>(d: Disk<N, F>, inode: nat, f: F)
    requires inode < |d.content|
    ensures forall k :: 0 <= k <= |d.log| ==> Image(Write(d, inode, f), k) == Image(d, k)
    ensures Current(Write(d, inode, f)) == Current(d)
    ensures Valid(d) ==> Valid(Write(d, inode, f))
  {
  }

  lemma ImagesAfterSyncFile<N, F>(d: Disk<N, F>, inode: nat)
    ensures forall k :: 0 <= k <= |d.log| ==> Image(SyncFile(d, inode), k) == Image(d, k)
    ensures Current(SyncFile(d, inode)) == Current(d)
    ensures Valid(d) ==> Valid(SyncFile(d, inode))
  {
  }

  lemma ImagesAfterTear<N, F>(d: Disk<N, F>, torn: set<nat>, blank: F)
    ensures forall k :: 0 <= k <= |d.log| ==> Image(Tear(d, torn, blank), k) == Image(d, k)
    ensures Current(Tear(d, torn, blank)) == Current(d)
    ensures Valid(d) ==> Valid(Tear(d, torn, blank))
  {
  }

  lemma ImagesAfterCrash<N, F>(d: Disk<N, F>, k: nat, torn: set<nat>, blank: F)
    requires k <= |d.log|
    ensures var e := Crash(d, k, torn, blank);
            && Image(e, 0) == Image(d, k) && Current(e) == Image(d, k) && e.unsynced == {}
            && |e.content| == |d.content|
            && (forall i :: 0 <= i < |d.content| ==> e.content[i] == if i in torn then blank else d.content[i])
            && (Valid(d) ==> Valid(e))
  {
    ImagesAfterTear(d, torn, blank);
    ImagesAfterSurvive(Tear(d, torn, blank), k);
  }

  lemma ImagesAfterFlush<N, F>(d: Disk<N, F>)
    ensures Image(Flush(d), 0) == Current(d)
    ensures Current(Flush(d)) == Current(d)
    ensures Valid(d) ==> Valid(Flush(d))
  {
  }

  lemma ImagesAfterSurvive<N, F>(d: Disk<N, F>, k: nat)
    requires k <= |d.log|
    ensures Image(Survive(d, k), 0) == Image(d, k)
    ensures Current(Survive(d, k)) == Image(d, k)
    ensures Valid(d) ==> Valid(Survive(d, k))
  {
  }

  /** A number that no member of the set reaches. */
  lemma {:induction false} Above(s: set<nat>) returns (m: nat)
    ensures forall x <- s :: x < m
  {
    if s == {} {
      m := 0;
    } else {
      var x :| x in s;
      var rest := Above(s - {x});
      m := if x < rest then rest else x + 1;
      forall y | y in s ensures y < m {
        assert y == x || y in s - {x};
      }
    }
  }

  /** The operation mentions the name. */
  predicate Mentions<N(==)>(op: Op<N>, name: N) {
    match op
    case Link(n, _) => n == name
    case Move(from, to) => from == name || to == name
    case Unlink(n) => n == name
  }

  /** A name that no queued operation mentions is the same in every image. */
  lemma {:induction false} UnmentionedStays<N, F>(d: Disk<N, F>, name: N, k: nat)
    requires k <= |d.log| && forall op <- d.log :: !Mentions(op, name)
    ensures name in Image(d, k) <==> name in d.durable
    ensures name in d.durable ==> Image(d, k)[name] == d.durable[name]
  {
    if k > 0 {
      UnmentionedStays(d, name, k - 1);
      assert d.log[..k][..k - 1] == d.log[..k - 1] && d.log[..k][k - 1] == d.log[k - 1];
      assert d.log[k - 1] in d.log;
    }
  }
}
