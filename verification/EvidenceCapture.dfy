/**
 The capture of pressure evidence: a closed set of files is copied to a staging directory, the
 directory is renamed into the store, and a public record of its digest is published.

 One capture name is modelled, with any number of `capture` runs one after the other. A run may fail
 or its process may die at every call; both leave the directories as they are at that point.
 */
module EvidenceCapture {
  import opened Wrappers

  type Bytes = string

  type Files = map<string, Bytes>

  /** A file of the staging directory: created and not yet written, or written and synced. */
  datatype Staged = Torn | Whole(bytes: Bytes)

  datatype CaptureClass = SuccessSet | FailureDiagnosticSet

  /** A digest stands for exactly the bytes that were fed to it. */
  datatype Digest = Sha256(fed: Bytes)

  datatype Config = Config(
    installation: string, request: string, core: string, launcher: string, protocol: string,
    runId: string, runAttempt: string)

  datatype Record = Record(config: Config, captureClass: CaptureClass, digest: Digest)

  const SUCCESS: seq<string> := [
    "COMPLETE", "SHA256SUMS", "client-public.json", "client.stderr.txt", "endpoint-evidence.json",
    "pressure-installation.json", "toolkit-loopback-evidence.json"]

  const FAILURE: seq<string> := ["COMPLETE", "SHA256SUMS", "client-diagnostic.json"]

  const MAX_FILE_BYTES: nat := 1024 * 1024

  function Names(s: seq<string>): set<string> { set n | n in s }

  /** `classify_bundle`: the set of names must be one of the two closed sets. */
  function ClassifyBundle(names: set<string>): Option<(CaptureClass, seq<string>)> {
    if names == Names(SUCCESS) then Some((SuccessSet, SUCCESS))
    else if names == Names(FAILURE) then Some((FailureDiagnosticSet, FAILURE))
    else None
  }

  predicate SizeFits(name: string, bytes: Bytes) {
    (name == "COMPLETE" <==> bytes == "") && |bytes| <= MAX_FILE_BYTES
  }

  const ZERO: Bytes := [0 as char]

  /** What the digest is fed for the files of a bundle, in the order of their class. */
  function Fed(expected: seq<string>, files: Files): Bytes
    requires forall n <- expected :: n in files
  {
    if expected == [] then ""
    else
      var last := expected[|expected| - 1];
      Fed(expected[..|expected| - 1], files) + last + ZERO + files[last]
  }

  // ---------------------------------------------------------------- what a capture promises, spelled out

  /** The files of a successful job, in the order in which they are digested. */
  function SuccessFiles(): seq<string> {
    ["COMPLETE", "SHA256SUMS", "client-public.json", "client.stderr.txt", "endpoint-evidence.json",
     "pressure-installation.json", "toolkit-loopback-evidence.json"]
  }

  function FailureFiles(): seq<string> { ["COMPLETE", "SHA256SUMS", "client-diagnostic.json"] }

  predicate IsSuccess(names: set<string>) {
    names == {"COMPLETE", "SHA256SUMS", "client-public.json", "client.stderr.txt", "endpoint-evidence.json",
              "pressure-installation.json", "toolkit-loopback-evidence.json"}
  }

  predicate IsFailure(names: set<string>) { names == {"COMPLETE", "SHA256SUMS", "client-diagnostic.json"} }

  /** One file as the digest is fed it: name, zero byte, content. */
  function One(name: string, files: Files): Bytes
    requires name in files
  {
    name + [0 as char] + files[name]
  }

  function SuccessBytes(files: Files): Bytes
    requires IsSuccess(files.Keys)
  {
    One("COMPLETE", files) + One("SHA256SUMS", files) + One("client-public.json", files)
    + One("client.stderr.txt", files) + One("endpoint-evidence.json", files)
    + One("pressure-installation.json", files) + One("toolkit-loopback-evidence.json", files)
  }

  function FailureBytes(files: Files): Bytes
    requires IsFailure(files.Keys)
  {
    One("COMPLETE", files) + One("SHA256SUMS", files) + One("client-diagnostic.json", files)
  }

  /** What a bundle is: one of the two closed sets, `COMPLETE` alone empty, no file over a mebibyte. */
  predicate Closed(bundle: Files) {
    && (IsSuccess(bundle.Keys) || IsFailure(bundle.Keys))
    && forall n <- bundle :: (bundle[n] == "" <==> n == "COMPLETE") && |bundle[n]| <= 1_048_576
  }

  /** The record says which set the bundle is, and its digest was fed the files in the listed order. */
  predicate Describes(r: Record, bundle: Files) {
    && (r.captureClass == SuccessSet <==> IsSuccess(bundle.Keys))
    && (r.captureClass == FailureDiagnosticSet <==> IsFailure(bundle.Keys))
    && (IsSuccess(bundle.Keys) ==> r.digest == Sha256(SuccessBytes(bundle)))
    && (IsFailure(bundle.Keys) ==> r.digest == Sha256(FailureBytes(bundle)))
  }

  /** The only record that describes this bundle under this configuration. */
  function RecordOf(config: Config, bundle: Files): Record
    requires Closed(bundle)
  {
    if IsSuccess(bundle.Keys) then Record(config, SuccessSet, Sha256(SuccessBytes(bundle)))
    else Record(config, FailureDiagnosticSet, Sha256(FailureBytes(bundle)))
  }

  lemma SetsDiffer()
    ensures forall names :: !(IsSuccess(names) && IsFailure(names))
  {
    assert "client-public.json" !in {"COMPLETE", "SHA256SUMS", "client-diagnostic.json"};
  }

  /** The bundle is classified as the two sets say. */
  lemma ClassifiesExactly(names: set<string>)
    ensures IsSuccess(names) <==> ClassifyBundle(names) == Some((SuccessSet, SuccessFiles()))
    ensures IsFailure(names) <==> ClassifyBundle(names) == Some((FailureDiagnosticSet, FailureFiles()))
    ensures ClassifyBundle(names).Some? ==> IsSuccess(names) || IsFailure(names)
  {
    SetsDiffer();
    assert Names(SUCCESS) == {"COMPLETE", "SHA256SUMS", "client-public.json", "client.stderr.txt",
      "endpoint-evidence.json", "pressure-installation.json", "toolkit-loopback-evidence.json"};
    assert Names(FAILURE) == {"COMPLETE", "SHA256SUMS", "client-diagnostic.json"};
  }

  lemma FedOne(before: seq<string>, name: string, files: Files)
    requires (forall n <- before :: n in files) && name in files
    ensures Fed(before + [name], files) == Fed(before, files) + One(name, files)
  {
    assert (before + [name])[..|before|] == before;
  }

  lemma FedFailure(files: Files)
    requires IsFailure(files.Keys)
    ensures (forall n <- FailureFiles() :: n in files) && Fed(FailureFiles(), files) == FailureBytes(files)
  {
    hide Fed, One;
    FedOne([], "COMPLETE", files);
    FedOne([] + ["COMPLETE"], "SHA256SUMS", files);
    FedOne([] + ["COMPLETE"] + ["SHA256SUMS"], "client-diagnostic.json", files);
    assert [] + ["COMPLETE"] + ["SHA256SUMS"] + ["client-diagnostic.json"] == FailureFiles();
    assert Fed([], files) == "" by { NothingFed([]); }
  }

  lemma FedSuccess(files: Files)
    requires IsSuccess(files.Keys)
    ensures (forall n <- SuccessFiles() :: n in files) && Fed(SuccessFiles(), files) == SuccessBytes(files)
  {
    hide Fed, One;
    var l0: seq<string> := [];
    var l1 := l0 + ["COMPLETE"];
    var l2 := l1 + ["SHA256SUMS"];
    var l3 := l2 + ["client-public.json"];
    var l4 := l3 + ["client.stderr.txt"];
    var l5 := l4 + ["endpoint-evidence.json"];
    var l6 := l5 + ["pressure-installation.json"];
    FedOne(l0, "COMPLETE", files);
    FedOne(l1, "SHA256SUMS", files);
    FedOne(l2, "client-public.json", files);
    FedOne(l3, "client.stderr.txt", files);
    FedOne(l4, "endpoint-evidence.json", files);
    FedOne(l5, "pressure-installation.json", files);
    FedOne(l6, "toolkit-loopback-evidence.json", files);
    assert l6 + ["toolkit-loopback-evidence.json"] == SuccessFiles();
    assert Fed([], files) == "" by { NothingFed([]); }
  }

  /** What the code computes for a closed bundle is its record. */
  lemma RecordIsThis(config: Config, bundle: Files)
    requires ClassifyBundle(bundle.Keys).Some? && Closed(bundle)
    ensures var (captureClass, expected) := ClassifyBundle(bundle.Keys).value;
            && (forall n <- expected :: n in bundle)
            && Record(config, captureClass, Sha256(Fed(expected, bundle))) == RecordOf(config, bundle)
    ensures Describes(RecordOf(config, bundle), bundle)
  {
    hide Fed, SuccessBytes, FailureBytes, ClassifyBundle, IsSuccess, IsFailure;
    SetsDiffer();
    ClassifiesExactly(bundle.Keys);
    if IsSuccess(bundle.Keys) {
      FedSuccess(bundle);
    } else {
      FedFailure(bundle);
    }
  }

  lemma ClassNames(names: set<string>)
    requires ClassifyBundle(names).Some?
    ensures Names(ClassifyBundle(names).value.1) == names
    ensures NoRepeats(ClassifyBundle(names).value.1)
  {
  }

  lemma ExpectedIsThere(expected: seq<string>, files: Files)
    requires Names(expected) == files.Keys
    ensures forall n <- expected :: n in files
  {
    assert forall n <- expected :: n in Names(expected);
  }

  predicate NoRepeats(s: seq<string>) {
    forall i, j :: 0 <= i < j < |s| ==> s[i] != s[j]
  }

  function AsStaged(files: Files): map<string, Staged> { map n | n in files :: Whole(files[n]) }

  /** Feeding depends only on the files that are fed. */
  lemma {:induction false} FedAgrees(expected: seq<string>, a: Files, b: Files)
    requires forall n <- expected :: n in a && n in b && a[n] == b[n]
    ensures Fed(expected, a) == Fed(expected, b)
  {
    if expected != [] {
      FedAgrees(expected[..|expected| - 1], a, b);
    }
  }

  lemma NothingFed(expected: seq<string>)
    ensures Names(expected[..0]) == {} && forall files :: Fed(expected[..0], files) == ""
  {
  }

  lemma OneMoreFed(expected: seq<string>, i: nat, copied: Files, bytes: Bytes)
    requires i < |expected| && NoRepeats(expected) && copied.Keys == Names(expected[..i])
    ensures var more := copied[expected[i] := bytes];
            && more.Keys == Names(expected[..i + 1])
            && (forall n <- expected[..i] :: n in copied)
            && (forall n <- expected[..i + 1] :: n in more)
            && Fed(expected[..i + 1], more) == Fed(expected[..i], copied) + expected[i] + ZERO + bytes
  {
    var name, before := expected[i], expected[..i];
    var more := copied[name := bytes];
    assert expected[..i + 1] == before + [name];
    assert expected[..i + 1][..i] == before;
    assert forall n <- before :: n in Names(before);
    assert name !in Names(before);
    FedAgrees(before, copied, more);
  }

  /** Each file is what its one read returned; the job may change its files between the reads. */
  ghost predicate ReadAs(expected: seq<string>, answers: nat -> Option<Bytes>, files: Files) {
    forall i :: 0 <= i < |expected| ==> expected[i] in files && answers(i) == Some(files[expected[i]])
  }

  lemma OneMoreRead(expected: seq<string>, i: nat, answers: nat -> Option<Bytes>, copied: Files)
    requires i < |expected| && NoRepeats(expected) && ReadAs(expected[..i], answers, copied) && answers(i).Some?
    ensures ReadAs(expected[..i + 1], answers, copied[expected[i] := answers(i).value])
  {
    forall k | 0 <= k < i
      ensures expected[k] in copied && expected[k] != expected[i] && answers(k) == Some(copied[expected[k]])
    {
      assert expected[..i][k] == expected[k];
    }
  }

  /** What one run met: its configuration, the names in the job's directory, what its reads return, its process. */
  datatype Attempt = Attempt(config: Config, names: set<string>, answers: nat -> Option<Bytes>, pid: nat)

  /** The bundle was made by this run: the job's own names, each file as it was read. */
  ghost predicate MadeBy(bundle: Files, a: Attempt) {
    && bundle.Keys == a.names
    && (IsSuccess(a.names) ==> ReadAs(SuccessFiles(), a.answers, bundle))
    && (IsFailure(a.names) ==> ReadAs(FailureFiles(), a.answers, bundle))
  }

  /** The reads of this run yield files of admissible sizes. */
  ghost predicate Supplies(expected: seq<string>, answers: nat -> Option<Bytes>) {
    forall i :: 0 <= i < |expected| ==> Fine(expected[i], answers(i))
  }

  predicate Fine(name: string, answer: Option<Bytes>) {
    answer.Some? && (answer.value == "" <==> name == "COMPLETE") && |answer.value| <= 1_048_576
  }

  /** When a run that meets no fault succeeds, given what earlier runs left. */
  ghost predicate Succeeds(
    staging: Option<map<string, Staged>>, bundle: Option<Files>, record: Option<Record>, temporaries: set<nat>,
      a: Attempt)
  {
    && (IsSuccess(a.names) || IsFailure(a.names))
    && a.pid !in temporaries
    && (bundle.Some? ==> Closed(bundle.value) && (record.Some? ==> record.value == RecordOf(a.config, bundle.value)))
    && (bundle.None? ==>
          && (staging.Some? ==> forall n <- staging.value :: n in SuccessFiles() || n in FailureFiles())
          && (IsSuccess(a.names) ==> Supplies(SuccessFiles(), a.answers))
          && (IsFailure(a.names) ==> Supplies(FailureFiles(), a.answers)))
  }

  lemma ExpectedFits(expected: seq<string>, bundle: Files)
    requires Names(expected) == bundle.Keys && Closed(bundle)
    ensures forall n <- expected :: n in bundle && SizeFits(n, bundle[n])
  {
    hide IsSuccess, IsFailure;
    ExpectedIsThere(expected, bundle);
  }

  lemma FittingIsClosed(names: set<string>, files: Files)
    requires files.Keys == names && ClassifyBundle(names).Some? && forall n <- files :: SizeFits(n, files[n])
    ensures Closed(files)
  {
    hide ClassifyBundle, IsSuccess, IsFailure;
    ClassifiesExactly(names);
  }

  lemma MadeAsRead(files: Files, a: Attempt, expected: seq<string>)
    requires files.Keys == a.names && ClassifyBundle(a.names).Some? && ClassifyBundle(a.names).value.1 == expected
    requires ReadAs(expected, a.answers, files)
    ensures MadeBy(files, a)
  {
    ClassifiesExactly(a.names);
    hide ClassifyBundle, ReadAs, IsSuccess, IsFailure;
  }

  class CaptureStore {
    var staging: Option<map<string, Staged>>
    var bundle: Option<Files>
    var record: Option<Record>
    var temporaries: set<nat>
    /** Whether the directories of the bundle and of the record were synced since they changed. */
    var storeSynced: bool
    var publicSynced: bool
    /** Some call of the file system failed, or a process died. */
    ghost var faulty: bool

    /** Whenever a record is public, its class and its digest are those of the retained bundle. */
    ghost predicate Valid() reads this {
      && (bundle.Some? ==> Closed(bundle.value))
      && (record.Some? ==> bundle.Some? && Describes(record.value, bundle.value))
    }

    constructor ()
      ensures Valid() && staging.None? && bundle.None? && record.None? && temporaries == {} && !faulty
      ensures storeSynced && publicSynced
    {
      staging, bundle, record, temporaries, faulty := None, None, None, {}, false;
      storeSynced, publicSynced := true, true;
    }

    /** Any call that may fail. */
    method Call() returns (ok: bool)
      modifies this`faulty
      ensures faulty == (old(faulty) || !ok)
    {
      ok := *;
      faulty := faulty || !ok;
    }

    /** `remove_interrupted_staging`: empty the directory and remove it, from wherever a run was interrupted. */
    method RemoveInterruptedStaging() returns (ok: bool)
      modifies this`staging, this`faulty
      ensures old(faulty) ==> faulty
      ensures ok ==> staging.None? && faulty == old(faulty)
      ensures !faulty ==>
                (ok <==> old(staging).None? || forall n <- old(staging).value ::
                  n in SuccessFiles() || n in FailureFiles())
    {
      if staging.None? { return true; }
      while staging.value != map[]
        invariant staging.Some? && staging.value.Keys <= old(staging).value.Keys && faulty == old(faulty)
        invariant forall n <- old(staging).value.Keys - staging.value.Keys :: n in SuccessFiles() || n in FailureFiles()
        decreases |staging.value|
      {
        var entry :| entry in staging.value;
        if entry !in SUCCESS && entry !in FAILURE { return false; }
        var removed := Call();
        if !removed { return false; }
        staging := Some(staging.value - {entry});
      }
      ok := Call();
      if ok { staging := None; }
    }

    /** Read each file once, feed it to the digest and write it to the staging directory. */
    method CopyToStaging(answers: nat -> Option<Bytes>, expected: seq<string>)
      returns (r: Option<Bytes>, ghost copied: Files)
      requires staging == Some(map[]) && NoRepeats(expected)
      modifies this`staging, this`faulty
      ensures old(faulty) ==> faulty
      ensures !faulty ==> (r.Some? <==> Supplies(expected, answers))
      ensures r.None? && faulty != old(faulty) ==> exists n <- expected :: staging == Some(AsStaged(copied)[n := Torn])
      ensures r.Some? ==>
        && faulty == old(faulty)
        && copied.Keys == Names(expected) && ReadAs(expected, answers, copied)
        && (forall n <- copied :: SizeFits(n, copied[n]))
        && staging == Some(AsStaged(copied))
        && r.value == Fed(expected, copied)
    {
      hide Fed, Names;
      copied := map[];
      var fed := "";
      NothingFed(expected);
      for i := 0 to |expected|
        invariant faulty == old(faulty)
        invariant copied.Keys == Names(expected[..i]) && ReadAs(expected[..i], answers, copied)
        invariant forall n <- copied :: SizeFits(n, copied[n])
        invariant forall k :: 0 <= k < i ==> Fine(expected[k], answers(k))
        invariant staging == Some(AsStaged(copied))
        invariant forall n <- expected[..i] :: n in copied
        invariant fed == Fed(expected[..i], copied)
      {
        var name := expected[i];
        var read := answers(i);
        if read.None? || !SizeFits(name, read.value) {
          assert !Fine(expected[i], answers(i));
          return None, copied;
        }
        var bytes := read.value;
        OneMoreFed(expected, i, copied, bytes);
        OneMoreRead(expected, i, answers, copied);
        fed := fed + name + ZERO + bytes;
        staging := Some(staging.value[name := Torn]);
        assert name in expected && staging == Some(AsStaged(copied)[name := Torn]);
        var written := Call();
        if !written { return None, copied; }
        staging := Some(staging.value[name := Whole(bytes)]);
        assert staging.value == AsStaged(copied[name := bytes]);
        copied := copied[name := bytes];
      }
      assert expected[..|expected|] == expected;
      return Some(fed), copied;
    }

    /** `captured_bundle_digest`: the digest folded again over the retained files. */
    method CapturedBundleDigest(expected: seq<string>) returns (r: Option<Bytes>)
      requires bundle.Some? && forall n <- expected :: n in bundle.value
      modifies this`faulty
      ensures old(faulty) ==> faulty
      ensures r.Some? ==> r.value == Fed(expected, bundle.value) && faulty == old(faulty)
      ensures r.Some? ==> forall n <- expected :: SizeFits(n, bundle.value[n])
      ensures r.None? && !faulty ==> exists n <- expected :: !SizeFits(n, bundle.value[n])
    {
      var fed := "";
      for i := 0 to |expected|
        invariant fed == Fed(expected[..i], bundle.value) && faulty == old(faulty)
        invariant forall n <- expected[..i] :: SizeFits(n, bundle.value[n])
      {
        var name := expected[i];
        var readable := Call();
        if !readable || !SizeFits(name, bundle.value[name]) {
          assert name in expected;
          return None;
        }
        fed := fed + name + ZERO + bundle.value[name];
        assert expected[..i + 1][..i] == expected[..i];
        assert expected[..i + 1] == expected[..i] + [name];
      }
      assert expected[..|expected|] == expected;
      return Some(fed);
    }

    /** `publish_record_to_directory`: never over another record, and idempotent for the same one. */
    method PublishRecord(r: Record, pid: nat) returns (ok: bool)
      requires Valid() && bundle.Some? && Describes(r, bundle.value)
      modifies this`record, this`temporaries, this`faulty, this`publicSynced
      ensures Valid() && (old(faulty) ==> faulty)
      ensures old(record).Some? ==> record == old(record)
      ensures ok ==> record == Some(r) && faulty == old(faulty) && publicSynced
      ensures record != old(record) && !ok ==> !publicSynced
      ensures old(temporaries) <= temporaries <= old(temporaries) + {pid}
      ensures ok && old(record).None? ==> temporaries == old(temporaries)
      ensures record == old(record) || record == Some(r)
      ensures !faulty ==> (ok <==> pid !in old(temporaries) && (old(record).Some? ==> old(record).value == r))
    {
      hide Describes, Closed;
      if pid in temporaries { return false; }
      var made := Call();
      if !made { return false; }
      temporaries := temporaries + {pid};
      var written := Call();
      if !written {
        var removed: bool := *;
        if removed { temporaries := temporaries - {pid}; }
        return false;
      }
      var renamed := record.None?;
      if renamed { renamed := Call(); }
      if renamed {
        record, publicSynced := Some(r), false;
        temporaries := temporaries - {pid};
        ok := Call();
        publicSynced := ok;
      } else {
        var removed: bool := *;
        if removed { temporaries := temporaries - {pid}; }
        if record != Some(r) { return false; }
        ok := Call();
        publicSynced := publicSynced || ok;
      }
    }

    /** The bundle is copied to a staging directory, which is synced and renamed into the store. */
    method Retain(a: Attempt, captureClass: CaptureClass, expected: seq<string>) returns (r: Option<Record>)
      requires Valid() && bundle.None? && ClassifyBundle(a.names) == Some((captureClass, expected))
      modifies this`staging, this`bundle, this`storeSynced, this`faulty
      ensures Valid() && (old(faulty) ==> faulty)
      ensures bundle.Some? ==> Closed(bundle.value) && MadeBy(bundle.value, a) && staging.None?
      ensures r.Some? ==>
        bundle.Some? && storeSynced && faulty == old(faulty) && r.value == RecordOf(a.config, bundle.value)
        && Describes(r.value, bundle.value)
      ensures !faulty ==>
        (r.Some? <==> && (old(staging).Some? ==> forall n <- old(staging).value ::
          n in SuccessFiles() || n in FailureFiles())
                      && Supplies(expected, a.answers))
    {
      hide Fed, SizeFits, Names, ClassifyBundle, IsSuccess, IsFailure, SuccessBytes, FailureBytes, Supplies, ReadAs;
      hide SuccessFiles, FailureFiles, Describes, Closed, RecordOf;
      var removed := RemoveInterruptedStaging();
      if !removed { return None; }
      var made := Call();
      if !made { return None; }
      staging := Some(map[]);
      ClassNames(a.names);
      var fed, copied := CopyToStaging(a.answers, expected);
      if fed.None? { return None; }
      var synced := Call();
      if !synced { return None; }
      FittingIsClosed(a.names, copied);
      RecordIsThis(a.config, copied);
      MadeAsRead(copied, a, expected);
      bundle := Some(map n | n in staging.value && staging.value[n].Whole? :: staging.value[n].bytes);
      assert bundle.value == copied;
      staging, storeSynced := None, false;
      storeSynced := Call();
      if !storeSynced { return None; }
      return Some(Record(a.config, captureClass, Sha256(fed.value)));
    }

    /** One run of `capture`, from whatever an earlier run left. */
    method Capture(a: Attempt) returns (ok: bool)
      requires Valid()
      modifies this
      ensures Valid() && (old(faulty) ==> faulty)
      ensures old(bundle).Some? ==> bundle == old(bundle)
      ensures old(record).Some? ==> record == old(record)
      ensures ok ==> faulty == old(faulty)
      ensures ok ==> bundle.Some? && Closed(bundle.value) && record == Some(RecordOf(a.config, bundle.value))
      ensures bundle.Some? && old(bundle).None? ==> MadeBy(bundle.value, a) && staging.None?
      ensures ok ==> publicSynced && (old(bundle).None? ==> storeSynced)
      ensures old(bundle).Some? ==> storeSynced == old(storeSynced)
      ensures !faulty ==> (ok <==> Succeeds(old(staging), old(bundle), old(record), old(temporaries), a))
    {
      hide Fed, SizeFits, Names, ClassifyBundle, MadeBy, IsSuccess, IsFailure, SuccessBytes, FailureBytes, Supplies;
      hide SuccessFiles, FailureFiles, Describes, Closed, RecordOf;
      ClassifiesExactly(a.names);
      SetsDiffer();
      var classified := ClassifyBundle(a.names);
      if classified.None? { return false; }
      if bundle.Some? {
        ok := Republish(a.config, a.pid);
        return;
      }
      var retained := Retain(a, classified.value.0, classified.value.1);
      if retained.None? { return false; }
      ok := PublishRecord(retained.value, a.pid);
    }

    /** The store already holds the bundle: its digest is folded again and the record published from it. */
    method Republish(config: Config, pid: nat) returns (ok: bool)
      requires Valid() && bundle.Some?
      modifies this`record, this`temporaries, this`faulty, this`publicSynced
      ensures Valid() && (old(faulty) ==> faulty) && (ok ==> publicSynced)
      ensures old(record).Some? ==> record == old(record)
      ensures Closed(bundle.value)
      ensures ok ==> record == Some(RecordOf(config, bundle.value)) && faulty == old(faulty)
      ensures !faulty ==>
                (ok <==> pid !in old(temporaries)
                         && (old(record).Some? ==> old(record).value == RecordOf(config, bundle.value)))
    {
      hide Fed, SizeFits, Names, ClassifyBundle, IsSuccess, IsFailure, SuccessBytes, FailureBytes, Describes, RecordOf;
      ClassifiesExactly(bundle.value.Keys);
      var classified := ClassifyBundle(bundle.value.Keys);
      if classified.None? { return false; }
      var (captureClass, expected) := classified.value;
      ClassNames(bundle.value.Keys);
      ExpectedFits(expected, bundle.value);
      hide Closed;
      RecordIsThis(config, bundle.value);
      var fed := CapturedBundleDigest(expected);
      if fed.None? { return false; }
      ok := PublishRecord(Record(config, captureClass, Sha256(fed.value)), pid);
    }

    /** Any number of runs: a retained bundle and a public record are never changed, and they keep agreeing. */
    method CaptureRepeatedly(runs: seq<Attempt>) returns (results: seq<bool>)
      requires Valid()
      modifies this
      ensures Valid() && |results| == |runs|
      ensures old(bundle).Some? ==> bundle == old(bundle)
      ensures old(record).Some? ==> record == old(record)
      ensures forall i :: 0 <= i < |runs| && results[i] ==>
                record.Some? && Describes(record.value, bundle.value) && record.value.config == runs[i].config
      ensures bundle.Some? && old(bundle).None? ==> exists i :: 0 <= i < |runs| && MadeBy(bundle.value, runs[i])
    {
      hide Describes, Closed, MadeBy, Succeeds;
      results := [];
      for i := 0 to |runs|
        invariant Valid() && |results| == i
        invariant old(bundle).Some? ==> bundle == old(bundle)
        invariant old(record).Some? ==> record == old(record)
        invariant forall k :: 0 <= k < i && results[k] ==> record.Some? && record.value.config == runs[k].config
        invariant bundle.Some? && old(bundle).None? ==> exists k :: 0 <= k < i && MadeBy(bundle.value, runs[k])
      {
        ghost var before := bundle;
        var ok := Capture(runs[i]);
        assert ok ==> record.value.config == runs[i].config;
        results := results + [ok];
        assert bundle.Some? && before.None? ==> MadeBy(bundle.value, runs[i]);
      }
    }
  }
}
