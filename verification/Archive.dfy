/** The expansion budget of internal/builder/archive.go and internal/builder/source.go: extracting a tar or zip archive
    and copying a source tree advance the same counters while they write files. */
module Archive {

  const MAX_ENTRIES: nat := 10_000
  const MAX_TOTAL: nat := 512 * 1024 * 1024
  const MAX_FILE: nat := 128 * 1024 * 1024

  datatype Format = Tar | Zip | Tree

  datatype Kind = Dir | Regular | Link | Other

  /** A file's bytes as they arrive: the sizes of the chunks read, whether reading ends in an error, and how many bytes
      the disk takes before a write fails. */
  datatype Stream = Stream(chunks: seq<nat>, fails: bool, room: nat)

  /** One entry; `declared` is the size its header claims. The flags are outcomes of the path check and of the
      operating system. */
  datatype Entry = Entry(kind: Kind, declared: int, data: Stream, located: bool, parentMade: bool, ready: bool,
                         closed: bool)

  function Sum(s: seq<nat>): nat {
    if s == [] then 0 else s[0] + Sum(s[1..])
  }

  function Min(a: nat, b: nat): nat {
    if a < b then a else b
  }

  lemma {:induction false} SumSplit(s: seq<nat>, i: nat)
    requires i <= |s|
    ensures Sum(s) == Sum(s[..i]) + Sum(s[i..])
  {
    if i == 0 {
      assert s[0..] == s;
    } else {
      SumSplit(s[1..], i - 1);
      assert s[..i][1..] == s[1..][..i - 1];
      assert s[1..][i - 1..] == s[i..];
    }
  }

  /** What one copy puts on disk. */
  function Copied(s: Stream): nat {
    Min(s.room, Min(Sum(s.chunks), MAX_FILE + 1))
  }

  /** The whole file arrived, within the cap. */
  predicate Complete(s: Stream) {
    Sum(s.chunks) <= MAX_FILE && Sum(s.chunks) <= s.room && !s.fails
  }

  /** Whether an entry is stored as a file; a zip entry that is no directory and no symlink always is. */
  predicate Stored(f: Format, e: Entry) {
    e.kind == Regular || (f == Zip && e.kind == Other)
  }

  predicate Counted(f: Format, e: Entry) {
    e.kind == Dir || Stored(f, e)
  }

  /** An entry that is fine on its own. */
  predicate Acceptable(f: Format, e: Entry) {
    && e.located && e.kind != Link
    && (e.kind == Dir ==> e.parentMade)
    && (f == Tree ==> e.kind != Other)
    && (Stored(f, e) ==> e.declared <= MAX_FILE && (f == Tar ==> 0 <= e.declared) && e.parentMade && e.ready && e.closed
                         && Complete(e.data))
  }

  function Count(f: Format, es: seq<Entry>): nat {
    if es == [] then 0 else (if Counted(f, es[0]) then 1 else 0) + Count(f, es[1..])
  }

  function Bytes(f: Format, es: seq<Entry>): nat {
    if es == [] then 0 else (if Stored(f, es[0]) then Sum(es[0].data.chunks) else 0) + Bytes(f, es[1..])
  }

  datatype Tally = Tally(entries: nat, total: nat, written: nat)

  /** One turn of the loop: the new tally and whether the loop goes on. */
  function Turn(f: Format, t: Tally, e: Entry): (Tally, bool) {
    if !e.located || e.kind == Link || (f == Tree && e.kind == Other) then (t, false)
    else if !Counted(f, e) then (t, true)
    else if Stored(f, e) && ((f == Tar && e.declared < 0) || e.declared > MAX_FILE) then (t, false)
    else
      var u := t.(entries := t.entries + 1);
      if u.entries > MAX_ENTRIES || !e.parentMade then (u, false)
      else if e.kind == Dir then (u, true)
      else if !e.ready then (u, false)
      else
        var n := Copied(e.data);
        var v := u.(written := u.written + n);
        if !Complete(e.data) || !e.closed || v.total > MAX_TOTAL - n then (v, false)
        else (v.(total := v.total + n), true)
  }

  function Extracted(f: Format, t: Tally, es: seq<Entry>): (Tally, bool)
    decreases |es|
  {
    if es == [] then (t, true)
    else
      var (u, more) := Turn(f, t, es[0]);
      if more then Extracted(f, u, es[1..]) else (u, false)
  }

  class Extraction {
    var entries: nat
    var totalBytes: nat
    /** Every byte ever handed to a file; it never goes down. */
    var written: nat

    ghost function Value(): Tally
      reads this
    {
      Tally(entries, totalBytes, written)
    }

    constructor ()
      ensures Value() == Tally(0, 0, 0)
    {
      entries, totalBytes, written := 0, 0, 0;
    }

    method AddEntry() returns (ok: bool)
      modifies this`entries
      ensures entries == old(entries) + 1 && (ok <==> entries <= MAX_ENTRIES)
    {
      entries := entries + 1;
      ok := !(entries > MAX_ENTRIES);
    }

    method AddBytes(size: nat) returns (ok: bool)
      modifies this`totalBytes
      ensures ok <==> old(totalBytes) + size <= MAX_TOTAL
      ensures totalBytes == if ok then old(totalBytes) + size else old(totalBytes)
    {
      if totalBytes > MAX_TOTAL - size {
        return false;
      }
      totalBytes := totalBytes + size;
      ok := true;
    }

    /** io.Copy through a reader limited to one byte more than the cap, one read at a time. */
    method CopyArchiveData(s: Stream) returns (n: nat, ok: bool)
      modifies this`written
      ensures n == Copied(s) && written == old(written) + n
      ensures ok <==> Complete(s)
    {
      n := 0;
      var i := 0;
      while i < |s.chunks| && n < MAX_FILE + 1
        invariant 0 <= i <= |s.chunks|
        invariant n == Min(Sum(s.chunks[..i]), MAX_FILE + 1) && n <= s.room
        invariant written == old(written) + n
      {
        SumSplit(s.chunks, i + 1);
        SumSplit(s.chunks[..i + 1], i);
        assert s.chunks[..i + 1][..i] == s.chunks[..i] && s.chunks[..i + 1][i..] == [s.chunks[i]];
        var take := Min(s.chunks[i], MAX_FILE + 1 - n);
        if take > s.room - n {
          written := written + (s.room - n);
          return s.room, false;
        }
        written := written + take;
        n := n + take;
        i := i + 1;
      }
      SumSplit(s.chunks, i);
      assert i == |s.chunks| ==> s.chunks[..i] == s.chunks;
      ok := !(s.fails && n < MAX_FILE + 1) && n <= MAX_FILE;
    }

    method ExtractTarGz(es: seq<Entry>, readable: bool) returns (ok: bool)
      modifies this
      ensures (Value(), ok) == (Extracted(Tar, old(Value()), es).0, Extracted(Tar, old(Value()), es).1 && readable)
    {
      for i := 0 to |es|
        invariant Extracted(Tar, old(Value()), es) == Extracted(Tar, Value(), es[i..])
      {
        var e := es[i];
        assert es[i..][0] == e && es[i..][1..] == es[i + 1..];
        if !e.located {
          return false;
        }
        match e.kind {
          case Link =>
            return false;
          case Dir =>
            var counted := AddEntry();
            if !counted || !e.parentMade {
              return false;
            }
          case Regular =>
            if e.declared < 0 || e.declared > MAX_FILE {
              return false;
            }
            var counted := AddEntry();
            if !counted || !e.parentMade || !e.ready {
              return false;
            }
            var n, copied := CopyArchiveData(e.data);
            if !copied || !e.closed {
              return false;
            }
            var fits := AddBytes(n);
            if !fits {
              return false;
            }
          case Other =>
        }
      }
      ok := readable;
    }

    method ExtractZip(es: seq<Entry>) returns (ok: bool)
      modifies this
      ensures (Value(), ok) == Extracted(Zip, old(Value()), es)
    {
      for i := 0 to |es|
        invariant Extracted(Zip, old(Value()), es) == Extracted(Zip, Value(), es[i..])
      {
        var e := es[i];
        assert es[i..][0] == e && es[i..][1..] == es[i + 1..];
        if !e.located || e.kind == Link {
          return false;
        }
        if e.kind == Dir {
          var counted := AddEntry();
          if !counted || !e.parentMade {
            return false;
          }
          continue;
        }
        if e.declared > MAX_FILE {
          return false;
        }
        var counted := AddEntry();
        if !counted || !e.parentMade || !e.ready {
          return false;
        }
        var n, copied := CopyArchiveData(e.data);
        if !copied || !e.closed {
          return false;
        }
        var fits := AddBytes(n);
        if !fits {
          return false;
        }
      }
      ok := true;
    }

    method CopyTree(es: seq<Entry>) returns (ok: bool)
      modifies this
      ensures (Value(), ok) == Extracted(Tree, old(Value()), es)
    {
      for i := 0 to |es|
        invariant Extracted(Tree, old(Value()), es) == Extracted(Tree, Value(), es[i..])
      {
        var e := es[i];
        assert es[i..][0] == e && es[i..][1..] == es[i + 1..];
        if e.kind == Link || !e.located {
          return false;
        }
        match e.kind {
          case Dir =>
            var counted := AddEntry();
            if !counted || !e.parentMade {
              return false;
            }
          case Regular =>
            if e.declared > MAX_FILE {
              return false;
            }
            var counted := AddEntry();
            if !counted || !e.parentMade {
              return false;
            }
            var copied := CopyRegularFile(e);
            if !copied {
              return false;
            }
          case Other =>
            return false;
        }
      }
      ok := true;
    }

    method CopyRegularFile(e: Entry) returns (ok: bool)
      modifies this`written, this`totalBytes
      ensures var n := Copied(e.data);
        && written == old(written) + (if e.ready then n else 0)
        && (ok <==> e.ready && e.closed && Complete(e.data) && old(totalBytes) + n <= MAX_TOTAL)
        && totalBytes == old(totalBytes) + (if ok then n else 0)
    {
      if !e.ready {
        return false;
      }
      var n, copied := CopyArchiveData(e.data);
      if !copied || !e.closed {
        return false;
      }
      ok := AddBytes(n);
    }
  }

  // ---------------------------------------------------------------- the budget

  /** Where the loop stands between entries: every byte written so far is accounted for. */
  predicate Balanced(t: Tally) {
    t.written == t.total <= MAX_TOTAL && t.entries <= MAX_ENTRIES
  }

  /** Stopped or not, no more than the two caps and one byte were written, and success accounts for every byte. */
  lemma {:induction false} NeverOverBudget(f: Format, t: Tally, es: seq<Entry>)
    requires Balanced(t)
    ensures var (u, ok) := Extracted(f, t, es);
      t.written <= u.written <= MAX_TOTAL + MAX_FILE + 1 && (ok ==> Balanced(u))
    decreases |es|
  {
    if es != [] {
      var (u, more) := Turn(f, t, es[0]);
      if more {
        NeverOverBudget(f, u, es[1..]);
      }
    }
  }

  /** The bound is met: four full files and one that outgrows its cap. */
  lemma BudgetIsTight()
    ensures exists es :: Extracted(Tree, Tally(0, 0, 0), es).0.written == MAX_TOTAL + MAX_FILE + 1
  {
    var full := Entry(Regular, MAX_FILE, Stream([MAX_FILE], false, MAX_FILE + 1), true, true, true, true);
    var grown := full.(data := Stream([MAX_FILE + 1], false, MAX_FILE + 1));
    assert Sum([MAX_FILE]) == MAX_FILE + Sum([]) && Sum([MAX_FILE + 1]) == MAX_FILE + 1 + Sum([]);
    FullFile(full, Tally(0, 0, 0), [full, full, full, grown]);
    FullFile(full, Tally(1, MAX_FILE, MAX_FILE), [full, full, grown]);
    FullFile(full, Tally(2, 2 * MAX_FILE, 2 * MAX_FILE), [full, grown]);
    FullFile(full, Tally(3, 3 * MAX_FILE, 3 * MAX_FILE), [grown]);
    assert [full] + [full, full, full, grown] == [full, full, full, full, grown];
    assert [full] + [full, full, grown] == [full, full, full, grown];
    assert [full] + [full, grown] == [full, full, grown];
    assert Extracted(Tree, Tally(4, MAX_TOTAL, MAX_TOTAL), [grown]).0.written == MAX_TOTAL + MAX_FILE + 1;
    assert Extracted(Tree, Tally(0, 0, 0), [full, full, full, full, grown]).0.written == MAX_TOTAL + MAX_FILE + 1;
  }

  lemma FullFile(full: Entry, t: Tally, rest: seq<Entry>)
    requires Acceptable(Tree, full) && full.kind == Regular && Sum(full.data.chunks) == MAX_FILE
    requires t.entries < MAX_ENTRIES && t.total <= MAX_TOTAL - MAX_FILE
    ensures Extracted(Tree, t, [full] + rest) ==
      Extracted(Tree, Tally(t.entries + 1, t.total + MAX_FILE, t.written + MAX_FILE), rest)
  {
    var u := Tally(t.entries + 1, t.total + MAX_FILE, t.written + MAX_FILE);
    assert Turn(Tree, t, full) == (u, true);
    hide Turn, Acceptable;
    var es := [full] + rest;
    assert es[0] == full && es[1..] == rest;
    OneMore(Tree, t, es, u);
  }

  lemma OneMore(f: Format, t: Tally, es: seq<Entry>, u: Tally)
    requires es != [] && Turn(f, t, es[0]) == (u, true)
    ensures Extracted(f, t, es) == Extracted(f, u, es[1..])
  {
    hide Turn;
  }

  /** Extraction succeeds exactly when every entry is acceptable and the counts of entries and bytes stay within their
      caps; then everything was written in full. */
  lemma {:induction false} SucceedsIffWithinCaps(f: Format, t: Tally, es: seq<Entry>)
    requires Balanced(t)
    ensures var (u, ok) := Extracted(f, t, es);
      && (ok <==> (forall e | e in es :: Acceptable(f, e))
                  && t.entries + Count(f, es) <= MAX_ENTRIES && t.total + Bytes(f, es) <= MAX_TOTAL)
      && (ok ==> u == Tally(t.entries + Count(f, es), t.total + Bytes(f, es), t.written + Bytes(f, es)))
    decreases |es|
  {
    if es != [] {
      var e := es[0];
      var (u, more) := Turn(f, t, e);
      assert e in es;
      assert more ==> Acceptable(f, e);
      if more {
        SucceedsIffWithinCaps(f, u, es[1..]);
        assert es == [e] + es[1..];
      }
    }
  }
}
