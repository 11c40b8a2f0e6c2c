/** internal/selfupdate/install.go: replacing the running binary, one file-system call at a time. A crash between two
    calls leaves the disk as the trace recorded it there. */
module Install {
  import opened Common

  /** What one system call does; n is how many bytes a read or write moves before it returns. */
  datatype Call = Fine(n: nat) | Failed(n: nat)

  type Files = map<string, string>

  class Disk {
    const oracle: nat -> Call
    /** The names that CreateTemp comes up with. */
    const names: nat -> string
    const digest: string -> string
    var files: Files
    var calls: nat
    /** The disk after every call so far. */
    ghost var trace: seq<Files>

    constructor (oracle: nat -> Call, names: nat -> string, digest: string -> string, files: Files)
      ensures this.oracle == oracle && this.names == names && this.digest == digest
      ensures this.files == files && calls == 0 && trace == []
    {
      this.oracle, this.names, this.digest := oracle, names, digest;
      this.files, calls, trace := files, 0, [];
    }

    /** One call: what it makes of the disk when it works and when it does not. */
    method Step(worked: Files, broken: Files) returns (ok: bool)
      modifies this`files, this`calls, this`trace
      ensures calls == old(calls) + 1 && (ok <==> oracle(old(calls)).Fine?)
      ensures files == if ok then worked else broken
      ensures trace == old(trace) + [files]
    {
      ok := oracle(calls).Fine?;
      files := if ok then worked else broken;
      calls := calls + 1;
      trace := trace + [files];
    }

    /** A call that changes no file: open for reading, stat, chmod, sync, close, read. */
    method Quiet() returns (ok: bool)
      modifies this`files, this`calls, this`trace
      ensures calls == old(calls) + 1 && (ok <==> oracle(old(calls)).Fine?)
      ensures files == old(files) && trace == old(trace) + [files]
    {
      ok := Step(files, files);
    }

    /** A file that does not exist yet, or an error. */
    method CreateTemp() returns (name: string, ok: bool)
      modifies this`files, this`calls, this`trace
      ensures calls == old(calls) + 1 && name == names(old(calls))
      ensures ok <==> name !in old(files) && oracle(old(calls)).Fine?
      ensures files == if ok then old(files)[name := ""] else old(files)
      ensures trace == old(trace) + [files]
    {
      name := names(calls);
      var unused := name !in files;
      ok := Step(if unused then files[name := ""] else files, files);
      ok := ok && unused;
    }

    /** io.Copy into an open file: each turn appends what one read gives, and a failing write may append a part. */
    method WriteAll(dst: string, data: string) returns (ok: bool)
      requires dst in files && files[dst] == ""
      modifies this`files, this`calls, this`trace
      ensures dst in files && files - {dst} == old(files) - {dst}
      ensures files[dst] <= data && (ok ==> files[dst] == data)
      ensures |old(trace)| <= |trace| && old(trace) <= trace && old(calls) <= calls
      ensures forall i | |old(trace)| <= i < |trace| :: Growing(trace[i], old(files), dst, data)
      ensures (forall k | k >= old(calls) :: oracle(k).Fine?) ==> ok
      ensures data != "" && oracle(old(calls)) == Failed(0) ==>
                !ok && calls == old(calls) + 1 && files[dst] == ""
    {
      var at := 0;
      while at < |data|
        invariant 0 <= at <= |data| && dst in files && files[dst] == data[..at]
        invariant files - {dst} == old(files) - {dst}
        invariant old(trace) <= trace && old(calls) <= calls
        invariant forall i | |old(trace)| <= i < |trace| :: Growing(trace[i], old(files), dst, data)
        invariant at > 0 ==> oracle(old(calls)).Fine?
        invariant at == 0 ==> calls == old(calls)
        decreases |data| - at
      {
        var n := oracle(calls).n;
        var most := |data| - at;
        var full := if n == 0 then 1 else if n < most then n else most;
        var part := if n < most then n else most;
        assert data[..at] + data[at..at + full] == data[..at + full];
        assert data[..at] + data[at..at + part] == data[..at + part];
        var worked := files[dst := data[..at + full]];
        var broken := files[dst := data[..at + part]];
        assert worked - {dst} == files - {dst} && broken - {dst} == files - {dst};
        ok := Step(worked, broken);
        if !ok {
          return;
        }
        at := at + full;
      }
      assert data[..at] == data;
      ok := true;
    }

    /** Every file but dst is as it was; dst, if there, is its old self or a beginning of the data. */
    ghost static predicate Growing(now: Files, was: Files, dst: string, data: string) {
      now - {dst} == was - {dst} && (dst in now ==> now[dst] <= data || (dst in was && now[dst] == was[dst]))
    }

    method CopyFile(src: string, dst: string) returns (ok: bool)
      requires src != dst
      modifies this`files, this`calls, this`trace
      ensures files - {dst} == old(files) - {dst}
      ensures ok ==> src in old(files) && dst in files && files[dst] == old(files)[src]
      ensures src in old(files) ==> Growing(files, old(files), dst, old(files)[src])
      ensures src !in old(files) ==> !ok && files == old(files)
      ensures old(trace) <= trace && old(calls) <= calls
      ensures forall i | |old(trace)| <= i < |trace| ::
                if src in old(files) then Growing(trace[i], old(files), dst, old(files)[src])
                else trace[i] == old(files)
      ensures src in old(files) && (forall k | k >= old(calls) :: oracle(k).Fine?) ==> ok
      ensures (src in old(files) && old(files)[src] != ""
               && (forall k | old(calls) <= k < old(calls) + 3 :: oracle(k).Fine?)
               && oracle(old(calls) + 3) == Failed(0)) ==>
                !ok && calls == old(calls) + 4 && dst in files && files[dst] == ""
    {
      ok := Quiet();
      if !ok || src !in files {
        return false;
      }
      ok := Quiet();
      if !ok {
        return;
      }
      assert files[dst := ""] - {dst} == files - {dst};
      ok := Step(files[dst := ""], files);
      if !ok {
        return;
      }
      assert files[src] == old(files)[src] by { SameElsewhere(files, old(files), dst, src); }
      assert forall i | |old(trace)| <= i < |trace| :: Growing(trace[i], old(files), dst, old(files)[src]);
      ok := Flush(dst, files[src]);
    }

    /** The copy proper, then sync and close. */
    method Flush(dst: string, data: string) returns (ok: bool)
      requires dst in files && files[dst] == ""
      modifies this`files, this`calls, this`trace
      ensures dst in files && files - {dst} == old(files) - {dst}
      ensures files[dst] <= data && (ok ==> files[dst] == data)
      ensures old(trace) <= trace && old(calls) <= calls
      ensures forall i | |old(trace)| <= i < |trace| :: Growing(trace[i], old(files), dst, data)
      ensures (forall k | k >= old(calls) :: oracle(k).Fine?) ==> ok
      ensures data != "" && oracle(old(calls)) == Failed(0) ==>
                !ok && calls == old(calls) + 1 && files[dst] == ""
    {
      ok := WriteAll(dst, data);
      if !ok {
        return;
      }
      ok := Quiet();
      if !ok {
        return;
      }
      ok := Quiet();
    }

    static lemma SameElsewhere(a: Files, b: Files, p: string, q: string)
      requires a - {p} == b - {p} && p != q
      ensures q in a <==> q in b
      ensures q in a ==> a[q] == b[q]
    {
      assert q in a - {p} <==> q in a;
      assert q in b - {p} <==> q in b;
    }
  }

  function At(files: Files, path: string): Option<string> {
    if path in files then Some(files[path]) else None
  }

  lemma SameAt(a: Files, b: Files, p: string, q: string)
    requires a - {p} == b - {p} && p != q
    ensures At(a, q) == At(b, q)
  {
    Disk.SameElsewhere(a, b, p, q);
  }

  datatype Commit = Installed | BackupFailed | RenameFailed | Unverified | PutBack | LeftInPlace

  /** Under `path` there is what was there before, or the whole of the new contents, if there are any. */
  predicate WholeAt(now: Files, path: string, was: Option<string>, next: Option<string>) {
    At(now, path) == was || (next.Some? && At(now, path) == next)
  }

  class Installer {
    const target: string
    const disk: Disk

    function Prev(): string {
      target + ".prev"
    }

    /** The patterns given to CreateTemp never yield the binary's own name or that of its backup. */
    ghost predicate OwnNames() {
      forall k :: disk.names(k) != target && disk.names(k) != Prev()
    }

    constructor (target: string, disk: Disk)
      ensures this.target == target && this.disk == disk
    {
      this.target, this.disk := target, disk;
    }

    /** Writes the download beside the target. */
    method Stage(data: string, readable: bool) returns (tmp: string, sha: string, ok: bool)
      modifies disk`files, disk`calls, disk`trace
      ensures ok ==> tmp !in old(disk.files) && disk.files == old(disk.files)[tmp := data] && sha == disk.digest(data)
      ensures disk.files - {tmp} == old(disk.files) - {tmp}
      ensures tmp in old(disk.files) ==> disk.files == old(disk.files)
      ensures old(disk.trace) <= disk.trace
      ensures forall i | |old(disk.trace)| <= i < |disk.trace| ::
                disk.trace[i] - {tmp} == old(disk.files) - {tmp}
                && (tmp in old(disk.files) ==> disk.trace[i] == old(disk.files))
      ensures (readable && disk.names(old(disk.calls)) !in old(disk.files)
               && forall k | k >= old(disk.calls) :: disk.oracle(k).Fine?) ==> ok
    {
      ghost var was := disk.files;
      sha := "";
      tmp, ok := disk.CreateTemp();
      assert was[tmp := ""] - {tmp} == was - {tmp};
      if !ok {
        return;
      }
      ok := disk.WriteAll(tmp, data);
      if ok && readable {
        ok := Finish();
      } else {
        ok := false;
      }
      if !ok {
        Discard(tmp);
        return;
      }
      sha := disk.digest(data);
      assert disk.files == was[tmp := data] by {
        assert forall p | p != tmp :: p in disk.files - {tmp} <==> p in disk.files;
        assert forall p | p != tmp :: p in was - {tmp} <==> p in was;
      }
    }

    /** Chmod, sync, close. */
    method Finish() returns (ok: bool)
      modifies disk`files, disk`calls, disk`trace
      ensures disk.files == old(disk.files) && old(disk.trace) <= disk.trace && old(disk.calls) <= disk.calls
      ensures forall i | |old(disk.trace)| <= i < |disk.trace| :: disk.trace[i] == old(disk.files)
      ensures (forall k | k >= old(disk.calls) :: disk.oracle(k).Fine?) ==> ok
    {
      ok := disk.Quiet();
      if ok {
        ok := disk.Quiet();
      }
      if ok {
        ok := disk.Quiet();
      }
    }

    /** Removal whose error is ignored. */
    method Discard(tmp: string)
      modifies disk`files, disk`calls, disk`trace
      ensures disk.files - {tmp} == old(disk.files) - {tmp} && old(disk.calls) <= disk.calls
      ensures disk.trace == old(disk.trace) + [disk.files]
    {
      assert (disk.files - {tmp}) - {tmp} == disk.files - {tmp};
      var ignored := disk.Step(disk.files - {tmp}, disk.files);
    }

    method Rename(source: string, dest: string) returns (ok: bool)
      requires source != dest
      modifies disk`files, disk`calls, disk`trace
      ensures ok ==>
        source in old(disk.files) && disk.files == old(disk.files)[dest := old(disk.files)[source]] - {source}
      ensures !ok ==> disk.files == old(disk.files)
      ensures disk.trace == old(disk.trace) + [disk.files] && disk.calls == old(disk.calls) + 1
      ensures source in old(disk.files) ==> (ok <==> disk.oracle(old(disk.calls)).Fine?)
    {
      if source !in disk.files {
        var ignored := disk.Quiet();
        return false;
      }
      ok := disk.Step(disk.files[dest := disk.files[source]] - {source}, disk.files);
    }

    /** Backs up the target, renames the staged file over it and checks what was installed. At every moment the target
        is one whole binary; once the backup is taken, it is the old one. */
    method Commit(tmp: string, expected: string) returns (c: Commit)
      requires OwnNames() && tmp != target && tmp != Prev()
      modifies disk`files, disk`calls, disk`trace
      ensures old(disk.trace) <= disk.trace && old(disk.calls) <= disk.calls
      ensures forall i | |old(disk.trace)| <= i < |disk.trace| ::
                WholeAt(disk.trace[i], target, At(old(disk.files), target), At(old(disk.files), tmp))
      ensures c == BackupFailed ==>
                At(disk.files, target) == At(old(disk.files), target)
                && disk.files - {Prev()} == old(disk.files) - {Prev()}
      ensures c != BackupFailed ==>
                target in old(disk.files) && At(disk.files, Prev()) == At(old(disk.files), target)
      ensures c in {RenameFailed, PutBack} ==> At(disk.files, target) == At(old(disk.files), target)
      ensures c in {Installed, Unverified, LeftInPlace} ==>
                tmp in old(disk.files) && At(disk.files, target) == At(old(disk.files), tmp)
      ensures c == Installed && expected != "" ==> disk.digest(disk.files[target]) == expected
      ensures c in {PutBack, LeftInPlace} ==> tmp in old(disk.files) && disk.digest(old(disk.files)[tmp]) != expected
      ensures (target in old(disk.files) && old(disk.files)[target] != ""
               && (forall k | old(disk.calls) <= k < old(disk.calls) + 3 :: disk.oracle(k).Fine?)
               && disk.oracle(old(disk.calls) + 3) == Failed(0)) ==>
                c == BackupFailed && At(disk.files, Prev()) == Some("") && disk.calls == old(disk.calls) + 4
      // With every call working the staged binary is installed, or found not to be the one expected.
      ensures (target in old(disk.files) && tmp in old(disk.files)
               && forall k | k >= old(disk.calls) :: disk.oracle(k).Fine?) ==>
                if expected == "" || disk.digest(old(disk.files)[tmp]) == expected then c == Installed
                else c in {PutBack, LeftInPlace}
    {
      var ok := BackUp();
      assert At(disk.files, tmp) == At(old(disk.files), tmp) && At(disk.files, target) == At(old(disk.files), target);
      if !ok {
        return BackupFailed;
      }
      ok := Rename(tmp, target);
      if !ok {
        return RenameFailed;
      }
      c := Verify(expected);
    }

    /** Hashes what was installed, and puts the backup back when it is not what was verified. */
    method Verify(expected: string) returns (c: Commit)
      requires OwnNames() && target in disk.files
      modifies disk`files, disk`calls, disk`trace
      ensures old(disk.trace) <= disk.trace && old(disk.calls) <= disk.calls
      ensures c in {Installed, Unverified, PutBack, LeftInPlace}
      ensures forall i | |old(disk.trace)| <= i < |disk.trace| ::
                WholeAt(disk.trace[i], target, At(old(disk.files), target), At(old(disk.files), Prev()))
      ensures At(disk.files, Prev()) == At(old(disk.files), Prev())
      ensures At(disk.files, target) == At(old(disk.files), if c == PutBack then Prev() else target)
      ensures c == Installed && expected != "" ==> disk.digest(old(disk.files)[target]) == expected
      ensures c in {PutBack, LeftInPlace} ==> disk.digest(old(disk.files)[target]) != expected
      ensures disk.oracle(old(disk.calls)).Fine? ==>
                if expected == "" || disk.digest(old(disk.files)[target]) == expected then c == Installed
                else c in {PutBack, LeftInPlace}
    {
      var ok := disk.Quiet();
      if !ok {
        return Unverified;
      }
      var got := disk.digest(disk.files[target]);
      if expected != "" && got != expected {
        ok := Restore();
        return if ok then PutBack else LeftInPlace;
      }
      return Installed;
    }

    method BackUp() returns (ok: bool)
      modifies disk`files, disk`calls, disk`trace
      ensures old(disk.trace) <= disk.trace && old(disk.calls) <= disk.calls
      ensures disk.files - {Prev()} == old(disk.files) - {Prev()}
      ensures forall p | p != Prev() :: At(disk.files, p) == At(old(disk.files), p)
      ensures forall i | |old(disk.trace)| <= i < |disk.trace| ::
                At(disk.trace[i], target) == At(old(disk.files), target)
      ensures ok ==> target in old(disk.files) && At(disk.files, Prev()) == At(old(disk.files), target)
      ensures (target in old(disk.files) && old(disk.files)[target] != ""
               && (forall k | old(disk.calls) <= k < old(disk.calls) + 3 :: disk.oracle(k).Fine?)
               && disk.oracle(old(disk.calls) + 3) == Failed(0)) ==>
                !ok && At(disk.files, Prev()) == Some("") && disk.calls == old(disk.calls) + 4
      ensures (target in old(disk.files) && forall k | k >= old(disk.calls) :: disk.oracle(k).Fine?) ==> ok
    {
      ghost var was := disk.files;
      ok := disk.CopyFile(target, Prev());
      SameBeside(disk.files, was, Prev());
      forall i | |old(disk.trace)| <= i < |disk.trace| ensures At(disk.trace[i], target) == At(was, target) {
        assert disk.trace[i] - {Prev()} == was - {Prev()};
        SameAt(disk.trace[i], was, Prev(), target);
      }
    }

    /** Copies the backup to a new file and renames that over the target. */
    method Restore() returns (ok: bool)
      requires OwnNames()
      modifies disk`files, disk`calls, disk`trace
      ensures old(disk.trace) <= disk.trace && old(disk.calls) <= disk.calls
      ensures forall i | |old(disk.trace)| <= i < |disk.trace| ::
                WholeAt(disk.trace[i], target, At(old(disk.files), target), At(old(disk.files), Prev()))
                && At(disk.trace[i], Prev()) == At(old(disk.files), Prev())
      ensures At(disk.files, Prev()) == At(old(disk.files), Prev())
      ensures ok ==> Prev() in old(disk.files) && At(disk.files, target) == At(old(disk.files), Prev())
      ensures !ok ==> At(disk.files, target) == At(old(disk.files), target)
      ensures forall p | p in old(disk.files) && p != target :: At(disk.files, p) == At(old(disk.files), p)
      ensures (Prev() in old(disk.files) && disk.names(old(disk.calls) + 1) !in old(disk.files)
               && forall k | k >= old(disk.calls) :: disk.oracle(k).Fine?) ==> ok
    {
      ghost var was := disk.files;
      ok := disk.Quiet();
      if !ok || Prev() !in disk.files {
        return false;
      }
      var tmp;
      tmp, ok := disk.CreateTemp();
      assert was[tmp := ""] - {tmp} == was - {tmp};
      SameBeside(was[tmp := ""], was, tmp);
      if !ok {
        return;
      }
      ok := FillTemp(tmp);
      SameBeside(disk.files, was, tmp);
      assert forall i | |old(disk.trace)| <= i < |disk.trace| ::
          At(disk.trace[i], target) == At(was, target) && At(disk.trace[i], Prev()) == At(was, Prev());
      if !ok {
        ghost var full := disk.files;
        Discard(tmp);
        SameBeside(disk.files, full, tmp);
        return;
      }
      ok := PutInPlace(tmp);
    }

    /** The rename, with the new file removed if it fails. */
    method PutInPlace(tmp: string) returns (ok: bool)
      requires tmp != target && tmp in disk.files
      modifies disk`files, disk`calls, disk`trace
      ensures old(disk.trace) <= disk.trace && old(disk.calls) <= disk.calls
      ensures forall p | p != target && p != tmp :: At(disk.files, p) == At(old(disk.files), p)
      ensures forall i, p | |old(disk.trace)| <= i < |disk.trace| && p != target && p != tmp ::
                At(disk.trace[i], p) == At(old(disk.files), p)
      ensures forall i | |old(disk.trace)| <= i < |disk.trace| ::
                At(disk.trace[i], target) in {At(old(disk.files), target), At(old(disk.files), tmp)}
      ensures At(disk.files, target) == if ok then At(old(disk.files), tmp) else At(old(disk.files), target)
      ensures disk.oracle(old(disk.calls)).Fine? ==> ok
    {
      ghost var full := disk.files;
      ok := Rename(tmp, target);
      if !ok {
        Discard(tmp);
        SameBeside(disk.files, full, tmp);
      }
    }

    /** Closes the new file, copies the backup into it and makes it executable. */
    method FillTemp(tmp: string) returns (ok: bool)
      requires OwnNames() && tmp != target && tmp != Prev() && tmp in disk.files && Prev() in disk.files
      modifies disk`files, disk`calls, disk`trace
      ensures old(disk.trace) <= disk.trace && old(disk.calls) <= disk.calls
      ensures disk.files - {tmp} == old(disk.files) - {tmp}
      ensures ok ==> tmp in disk.files && disk.files[tmp] == old(disk.files)[Prev()]
      ensures forall i | |old(disk.trace)| <= i < |disk.trace| ::
                At(disk.trace[i], target) == At(old(disk.files), target)
                && At(disk.trace[i], Prev()) == At(old(disk.files), Prev())
      ensures (forall k | k >= old(disk.calls) :: disk.oracle(k).Fine?) ==> ok
    {
      ghost var was := disk.files;
      var ignored := disk.Quiet();
      ok := disk.CopyFile(Prev(), tmp);
      forall i | |old(disk.trace)| <= i < |disk.trace|
        ensures At(disk.trace[i], target) == At(was, target) && At(disk.trace[i], Prev()) == At(was, Prev())
      {
        assert disk.trace[i] - {tmp} == was - {tmp};
        SameAt(disk.trace[i], was, tmp, target);
        SameAt(disk.trace[i], was, tmp, Prev());
      }
      SameAt(disk.files, was, tmp, target);
      SameAt(disk.files, was, tmp, Prev());
      if ok {
        ok := disk.Quiet();
      }
    }
  }

  /** A commit that got past its backup, then a restore: the original contents are back. After one that did not, the
      restore installs whatever the backup was left as. */
  method CommitThenRestore(inst: Installer, tmp: string, expected: string) returns (c: Commit, ok: bool)
    requires inst.OwnNames() && tmp != inst.target && tmp != inst.Prev()
    modifies inst.disk`files, inst.disk`calls, inst.disk`trace
    ensures ok && c != BackupFailed ==>
              && inst.target in old(inst.disk.files)
              && At(inst.disk.files, inst.target) == At(old(inst.disk.files), inst.target)
    ensures ok ==> At(inst.disk.files, inst.target) == At(inst.disk.files, inst.Prev())
    ensures forall i | |old(inst.disk.trace)| <= i < |inst.disk.trace| && c != BackupFailed ::
              WholeAt(inst.disk.trace[i], inst.target, At(old(inst.disk.files), inst.target),
                      At(old(inst.disk.files), tmp))
  {
    c := inst.Commit(tmp, expected);
    ok := inst.Restore();
  }

  /** A commit whose backup copy fails at its first write has already emptied the backup: a restore then succeeds and
      leaves an empty binary, whatever the original and the earlier backup were. */
  method RestoreAfterFailedBackup(original: string, earlier: string, staged: string)
    returns (inst: Installer, c: Commit, ok: bool)
    requires original != ""
    ensures fresh(inst) && c == BackupFailed && ok
    ensures At(inst.disk.files, inst.target) == Some("")
  {
    var files := map["/bin/app" := original, "/bin/app.prev" := earlier, "/bin/.u1" := staged];
    var disk := new Disk(k => if k == 3 then Failed(0) else Fine(1), k => "/bin/.r2", data => data, files);
    inst := new Installer("/bin/app", disk);
    assert inst.Prev() == "/bin/app.prev";
    c := inst.Commit("/bin/.u1", "");
    SameAt(disk.files, files, "/bin/app.prev", "/bin/.r2");
    ok := inst.Restore();
  }

  lemma SameBeside(a: Files, b: Files, tmp: string)
    requires a - {tmp} == b - {tmp}
    ensures forall p | p != tmp :: At(a, p) == At(b, p)
  {
    forall p | p != tmp ensures At(a, p) == At(b, p) {
      SameAt(a, b, tmp, p);
    }
  }
}
