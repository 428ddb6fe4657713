/**
 One writer of a report, as the code runs it against a directory. `AtomicReplace` covers many
 writers interleaved, and crashes; here each call's effect on the directory is exact.
 */
module ReportWriter {
  import opened Wrappers
  import opened AtomicReplace
  import opened Binary

  /** Which file system calls are going to fail, `writeAt` counting successful chunk writes, and how
      much of its chunk a failing write leaves behind. */
  datatype Faults = Faults(create: bool, writeAt: nat, torn: Bytes, sync: bool, rename: bool, remove: bool)

  class Directory {
    var files: map<Name, Bytes>

    constructor (files: map<Name, Bytes>)
      ensures this.files == files
    {
      this.files := files;
    }

    /** `create_new`: fails rather than open a file that exists. */
    method CreateNew(name: Name, fault: bool) returns (ok: bool)
      modifies this
      ensures ok == (!fault && name !in old(files))
      ensures files == if ok then old(files)[name := []] else old(files)
    {
      ok := !fault && name !in files;
      if ok {
        files := files[name := []];
      }
    }

    method Append(name: Name, bytes: Bytes)
      requires name in files
      modifies this
      ensures files == old(files)[name := old(files)[name] + bytes]
    {
      files := files[name := files[name] + bytes];
    }

    /** Replaces whatever `to` held in one step. */
    method Rename(from: Name, to: Name, fault: bool) returns (ok: bool)
      requires from != to
      modifies this
      ensures ok == (!fault && from in old(files))
      ensures files == if ok then old(files)[to := old(files)[from]] - {from} else old(files)
    {
      ok := !fault && from in files;
      if ok {
        files := files[to := files[from]] - {from};
      }
    }

    method Remove(name: Name, fault: bool)
      modifies this
      ensures files == if fault then old(files) else old(files) - {name}
    {
      if !fault {
        files := files - {name};
      }
    }
  }

  /** The stage that fails first, if any does. */
  function FirstFault(taken: bool, chunks: nat, faults: Faults): Option<Stage> {
    if taken || faults.create then Some(AtCreate)
    else if faults.writeAt < chunks then Some(AtWrite)
    else if faults.sync then Some(AtSync)
    else if faults.rename then Some(AtRename)
    else None
  }

  /** What is under the temp name once a writer that failed at `stage` has returned. */
  predicate LeftBehind(files: map<Name, Bytes>, before: map<Name, Bytes>, tmp: Name, chunks: seq<Bytes>, faults: Faults, stage: Stage) {
    match stage
    case AtCreate => files == if faults.remove then before else before - {tmp}
    case AtWrite =>
      if faults.remove then
        faults.writeAt <= |chunks| && files == before[tmp := Flatten(chunks[..faults.writeAt]) + faults.torn]
      else files == before
    case AtSync => files == if faults.remove then before[tmp := Flatten(chunks)] else before
    case AtRename => files == before[tmp := Flatten(chunks)]
  }

  method WriteNewFile(dir: Directory, tmp: Name, chunks: seq<Bytes>, faults: Faults) returns (failure: Option<Stage>)
    modifies dir
    ensures failure ==
      (var f := FirstFault(tmp in old(dir.files), |chunks|, faults); if f == Some(AtRename) then None else f)
    ensures dir.files ==
      match failure
      case None => old(dir.files)[tmp := Flatten(chunks)]
      case Some(stage) =>
        if stage.AtCreate? then old(dir.files)
        else if stage.AtWrite? && faults.writeAt <= |chunks| then
          old(dir.files)[tmp := Flatten(chunks[..faults.writeAt]) + faults.torn]
        else old(dir.files)[tmp := Flatten(chunks)]
  {
    var created := dir.CreateNew(tmp, faults.create);
    if !created {
      return Some(AtCreate);
    }
    ghost var start := dir.files;
    assert chunks[..0] == [];
    var n := 0;
    while n < |chunks|
      invariant 0 <= n <= |chunks| && n <= faults.writeAt
      invariant dir.files == start[tmp := Flatten(chunks[..n])]
    {
      if n == faults.writeAt {
        dir.Append(tmp, faults.torn);
        return Some(AtWrite);
      }
      dir.Append(tmp, chunks[n]);
      assert chunks[..n + 1][..n] == chunks[..n];
      n := n + 1;
    }
    assert chunks[..n] == chunks;
    failure := if faults.sync then Some(AtSync) else None;
  }

  /** Success installs the whole payload and nothing else; failure leaves every file but the temp one
      alone, and the temp one is cleaned up unless the cleanup fails or the rename was what failed. */
  method WriteAtomicallyWith(dir: Directory, target: Name, tmp: Name, chunks: seq<Bytes>, faults: Faults)
    returns (failure: Option<Stage>)
    requires tmp != target
    modifies dir
    ensures failure == FirstFault(tmp in old(dir.files), |chunks|, faults)
    ensures failure.None? ==> dir.files == old(dir.files)[target := Flatten(chunks)]
    ensures failure.Some? ==> LeftBehind(dir.files, old(dir.files), tmp, chunks, faults, failure.value)
    ensures failure.Some? && target in old(dir.files) ==> target in dir.files && dir.files[target] == old(dir.files)[target]
  {
    failure := WriteNewFile(dir, tmp, chunks, faults);
    if failure.Some? {
      dir.Remove(tmp, faults.remove);
      if failure != Some(AtCreate) && !faults.remove {
        assert dir.files == old(dir.files);
      }
      return;
    }
    var renamed := dir.Rename(tmp, target, faults.rename);
    if !renamed {
      failure := Some(AtRename);
    } else {
      assert dir.files == old(dir.files)[target := Flatten(chunks)];
    }
  }

  /** A temp file is left behind exactly when the cleanup itself failed after a write or sync error,
      or the rename failed: the documented "cleans up its own temp file" misses the rename. */
  lemma StrayTempExactlyWhen(files: map<Name, Bytes>, before: map<Name, Bytes>, tmp: Name, chunks: seq<Bytes>, faults: Faults)
    requires tmp !in before
    requires FirstFault(false, |chunks|, faults).Some?
    requires LeftBehind(files, before, tmp, chunks, faults, FirstFault(false, |chunks|, faults).value)
    ensures var stage := FirstFault(false, |chunks|, faults).value;
            tmp in files <==> stage.AtRename? || (!stage.AtCreate? && faults.remove)
    ensures forall n :: n != tmp ==> (n in files <==> n in before) && (n in before ==> files[n] == before[n])
  {
  }
}
