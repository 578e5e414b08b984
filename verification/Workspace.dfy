/** A run's workspace directory in the sandbox: its size caps, and how it is pruned back to them. */
module Workspace {
  datatype File = File(size: nat, mtime: int)

  type Files = map<string, File>
  type Sizes = map<string, nat>

  datatype Caps = Caps(maxFiles: int, maxBytes: int)

  // ---------- Sizes ----------

  ghost function Sum(sizes: Sizes): nat {
    if sizes == map[] then 0
    else
      var k :| k in sizes;
      sizes[k] + Sum(sizes - {k})
  }

  lemma {:induction false} SumRemove(sizes: Sizes, k: string)
    requires k in sizes
    ensures Sum(sizes) == sizes[k] + Sum(sizes - {k})
    decreases sizes.Keys
  {
    var j :| j in sizes && Sum(sizes) == sizes[j] + Sum(sizes - {j});
    if j != k {
      SumRemove(sizes - {j}, k);
      SumRemove(sizes - {k}, j);
      assert sizes - {j} - {k} == sizes - {k} - {j};
    }
  }

  lemma SumEmpty()
    ensures Sum(map[]) == 0
  {
  }

  lemma SumAdd(sizes: Sizes, k: string, size: nat)
    requires k !in sizes
    ensures Sum(sizes[k := size]) == Sum(sizes) + size && |sizes[k := size]| == |sizes| + 1
  {
    SumRemove(sizes[k := size], k);
    assert sizes[k := size] - {k} == sizes;
  }

  lemma {:induction false} SumMonotone(small: Sizes, large: Sizes)
    requires small.Keys <= large.Keys && forall k <- small :: small[k] <= large[k]
    ensures Sum(small) <= Sum(large) && |small| <= |large|
    decreases large.Keys
  {
    if large != map[] {
      var k :| k in large;
      SumRemove(large, k);
      if k in small {
        SumRemove(small, k);
        assert |small - {k}| == |small| - 1;
      } else {
        assert small - {k} == small;
      }
      assert |large - {k}| == |large| - 1;
      SumMonotone(small - {k}, large - {k});
    } else {
      assert small.Keys == {};
    }
  }

  function SizesOf(files: Files): Sizes {
    map p <- files :: files[p].size
  }

  ghost predicate SizesWithin(sizes: Sizes, caps: Caps) {
    |sizes| <= caps.maxFiles && Sum(sizes) <= caps.maxBytes
  }

  ghost predicate Within(files: Files, caps: Caps) {
    SizesWithin(SizesOf(files), caps)
  }

  lemma SizesCount(files: Files)
    ensures |SizesOf(files)| == |files|
  {
    assert SizesOf(files).Keys == files.Keys;
  }

  // ---------- Pruning, as a specification ----------

  /** First phase: files the snapshot does not know go, and files that grew are cut back to their
      snapshot size; cutting a file back gives it a new modification time. */
  function Trimmed(files: Files, before: Sizes, touched: string -> int): Files {
    map p <- files | p in before :: TrimmedFile(files[p], before[p], touched(p))
  }

  function TrimmedFile(file: File, size: nat, touched: int): File {
    if file.size > size then File(size, touched) else file
  }

  lemma TrimOne(file: File, size: nat, touched: int)
    ensures TrimmedFile(file, size, touched) == if file.size > size then File(size, touched) else file
  {
  }

  /** A snapshot within the caps caps the trimmed workspace. */
  lemma TrimmedWithin(files: Files, before: Sizes, touched: string -> int, caps: Caps)
    requires SizesWithin(before, caps)
    ensures Within(Trimmed(files, before, touched), caps)
  {
    SumMonotone(SizesOf(Trimmed(files, before, touched)), before);
  }

  /** Of the files there are, those the run had stay, at the smaller of both sizes. */
  lemma TrimmedKeeps(files: Files, had: Files, touched: string -> int)
    ensures var kept := Trimmed(files, SizesOf(had), touched);
            && (forall p :: p in kept <==> p in files && p in had)
            && (forall p <- kept :: files[p].size <= had[p].size ==> kept[p] == files[p])
            && (forall p <- kept :: files[p].size > had[p].size ==> kept[p] == File(had[p].size, touched(p)))
    ensures Trimmed(had, SizesOf(had), touched) == had
  {
  }

  /** Second phase, from `files` to `kept`: only whole files went, the newest first, and the last
      one that went was still needed to get under the caps. */
  ghost predicate NewestRemoved(files: Files, kept: Files, caps: Caps) {
    && kept.Keys <= files.Keys
    && (forall p <- kept :: kept[p] == files[p])
    && (forall p, q :: p in files && p !in kept && q in kept ==> files[p].mtime >= files[q].mtime)
    && (kept != files ==> exists last :: last in files && last !in kept && !Within(kept[last := files[last]], caps))
  }

  lemma RemovalStep(files: Files, current: Files, newest: string, caps: Caps)
    requires NewestRemoved(files, current, caps) && !Within(current, caps)
    requires newest in current && forall p <- current :: current[p].mtime <= current[newest].mtime
    ensures NewestRemoved(files, current - {newest}, caps)
  {
    var kept := current - {newest};
    assert kept[newest := files[newest]] == current;
  }

  lemma NextEntry(entries: seq<string>, i: nat)
    requires i < |entries| && NoRepeats(entries)
    ensures entries[i] !in entries[..i]
    ensures forall p :: p in entries[..i + 1] <==> p in entries[..i] || p == entries[i]
  {
    assert entries[..i + 1] == entries[..i] + [entries[i]];
  }

  predicate NoRepeats(entries: seq<string>) {
    forall i, j :: 0 <= i < j < |entries| ==> entries[i] != entries[j]
  }

  /** The first `i` entries are trimmed, the others as they were. */
  ghost predicate TrimmedUpTo(start: Files, files: Files, entries: seq<string>, i: nat, before: Sizes,
                              touched: string -> int)
    requires i <= |entries|
  {
    && (forall p :: p in files <==> p in start && (p in before || p !in entries[..i]))
    && (forall p <- files ::
          files[p] == if p in entries[..i] then TrimmedFile(start[p], before[p], touched(p)) else start[p])
  }

  lemma NothingTrimmed(start: Files, entries: seq<string>, before: Sizes, touched: string -> int)
    ensures TrimmedUpTo(start, start, entries, 0, before, touched)
  {
  }

  lemma TrimNext(start: Files, files: Files, entries: seq<string>, i: nat, before: Sizes, touched: string -> int)
    requires i < |entries| && NoRepeats(entries) && entries[i] in start
    requires TrimmedUpTo(start, files, entries, i, before, touched)
    ensures var p := entries[i];
            && p in files
            && (if p !in before then TrimmedUpTo(start, files - {p}, entries, i + 1, before, touched)
                else if files[p].size > before[p]
                then TrimmedUpTo(start, files[p := File(before[p], touched(p))], entries, i + 1, before, touched)
                else TrimmedUpTo(start, files, entries, i + 1, before, touched))
  {
    NextEntry(entries, i);
    TrimOne(files[entries[i]], if entries[i] in before then before[entries[i]] else 0, touched(entries[i]));
    hide TrimmedFile;
  }

  lemma AllTrimmed(start: Files, files: Files, entries: seq<string>, before: Sizes, touched: string -> int)
    requires TrimmedUpTo(start, files, entries, |entries|, before, touched)
    requires forall p :: p in entries <==> p in start
    ensures files == Trimmed(start, before, touched)
  {
    hide TrimmedFile;
    assert entries[..|entries|] == entries;
  }

  // ---------- The directory ----------

  class Directory {
    var files: Files

    constructor (files: Files)
      ensures this.files == files
    {
      this.files := files;
    }

    /** The regular files in the order the file system lists them, which can be any order. */
    method ListFiles() returns (entries: seq<string>)
      ensures forall p :: p in entries <==> p in files
      ensures NoRepeats(entries)
    {
      var left := files.Keys;
      entries := [];
      while left != {}
        invariant left <= files.Keys
        invariant forall p :: p in entries <==> p in files && p !in left
        invariant NoRepeats(entries)
        decreases left
      {
        var p :| p in left;
        entries := entries + [p];
        left := left - {p};
      }
    }

    /** File count and total size. */
    method Usage() returns (count: nat, total: nat)
      ensures count == |files| && total == Sum(SizesOf(files))
    {
      hide Sum;
      SumEmpty();
      var entries := ListFiles();
      count, total := 0, 0;
      ghost var seen: Sizes := map[];
      for i := 0 to |entries|
        invariant count == |seen| && total == Sum(seen)
        invariant forall p :: p in seen <==> p in entries[..i]
        invariant forall p <- seen :: p in files && seen[p] == files[p].size
      {
        var p := entries[i];
        NextEntry(entries, i);
        SumAdd(seen, p, files[p].size);
        seen := seen[p := files[p].size];
        count, total := count + 1, total + files[p].size;
      }
      assert entries[..|entries|] == entries;
      assert seen == SizesOf(files);
      SizesCount(files);
    }

    method SnapshotSizes() returns (sizes: Sizes)
      ensures sizes == SizesOf(files)
    {
      var entries := ListFiles();
      sizes := map[];
      for i := 0 to |entries|
        invariant forall p :: p in sizes <==> p in entries[..i]
        invariant forall p <- sizes :: p in files && sizes[p] == files[p].size
      {
        sizes := sizes[entries[i] := files[entries[i]].size];
      }
    }

    /** First of the entries sorted by modification time, newest first. */
    method NewestOf(entries: seq<string>) returns (newest: string)
      requires entries != [] && forall p <- entries :: p in files
      ensures newest in entries && forall p <- entries :: files[p].mtime <= files[newest].mtime
    {
      newest := entries[0];
      for i := 1 to |entries|
        invariant newest in entries && forall j :: 0 <= j < i ==> files[entries[j]].mtime <= files[newest].mtime
      {
        if files[entries[i]].mtime > files[newest].mtime {
          newest := entries[i];
        }
      }
    }

    method Trim(before: Sizes, touched: string -> int)
      modifies this
      ensures files == Trimmed(old(files), before, touched)
    {
      var entries := ListFiles();
      ghost var start := files;
      hide TrimmedFile, TrimmedUpTo, Trimmed;
      NothingTrimmed(start, entries, before, touched);
      for i := 0 to |entries|
        invariant TrimmedUpTo(start, files, entries, i, before, touched)
      {
        var p := entries[i];
        TrimNext(start, files, entries, i, before, touched);
        if p !in before {
          files := files - {p};
        } else if files[p].size > before[p] {
          files := files[p := File(before[p], touched(p))];
        }
      }
      AllTrimmed(start, files, entries, before, touched);
    }

    /** Second phase: remove the newest file until the caps hold. */
    method RemoveNewest(caps: Caps)
      modifies this
      ensures NewestRemoved(old(files), files, caps)
      ensures Within(files, caps) || files == map[]
      ensures Within(old(files), caps) ==> files == old(files)
      ensures |old(files)| <= caps.maxFiles && Sum(SizesOf(old(files))) <= caps.maxBytes ==> files == old(files)
      ensures files != map[] ==> |files| <= caps.maxFiles && Sum(SizesOf(files)) <= caps.maxBytes
      ensures forall p, q :: p in old(files) && p !in files && q in files ==> old(files)[p].mtime >= files[q].mtime
    {
      SizesCount(files);
      while true
        invariant NewestRemoved(old(files), files, caps)
        invariant Within(old(files), caps) ==> files == old(files)
        decreases files.Keys
      {
        var count, total := Usage();
        SizesCount(files);
        if count <= caps.maxFiles && total <= caps.maxBytes {
          return;
        }
        var victims := ListFiles();
        if |victims| == 0 {
          assert forall p :: p in victims <==> p in files;
          return;
        }
        var newest := NewestOf(victims);
        RemovalStep(old(files), files, newest, caps);
        files := files - {newest};
      }
    }

    method Prune(before: Sizes, caps: Caps, touched: string -> int)
      modifies this
      ensures NewestRemoved(Trimmed(old(files), before, touched), files, caps)
      ensures Within(files, caps) || files == map[]
      ensures SizesWithin(before, caps) ==> files == Trimmed(old(files), before, touched) && Within(files, caps)
    {
      Trim(before, touched);
      if SizesWithin(before, caps) {
        TrimmedWithin(old(files), before, touched, caps);
      }
      RemoveNewest(caps);
    }

    /** One exec request: `left` is the workspace as the child processes leave it, and `sawOverCap`
        says whether the watcher killed them.  True when the child ran and stayed within the caps. */
    method Execute(left: Files, sawOverCap: bool, caps: Caps, touched: string -> int) returns (clean: bool)
      modifies this
      ensures clean ==> files == left && Within(left, caps) && !sawOverCap
      ensures clean <==>
                && |old(files)| <= caps.maxFiles && Sum(SizesOf(old(files))) <= caps.maxBytes
                && !sawOverCap && |left| <= caps.maxFiles && Sum(SizesOf(left)) <= caps.maxBytes
      ensures !Within(old(files), caps) ==> !clean && NewestRemoved(old(files), files, caps)
      ensures Within(old(files), caps) && !clean ==> files == Trimmed(left, SizesOf(old(files)), touched)
      ensures Within(old(files), caps) && !clean ==> sawOverCap || !Within(left, caps)
      ensures Within(old(files), caps) && !clean ==> Within(files, caps)
      ensures Within(old(files), caps) && !clean ==> forall p :: p in files <==> p in left && p in old(files)
      ensures Within(old(files), caps) && !clean ==>
                forall p <- files :: files[p].size <= old(files)[p].size && files[p].size <= left[p].size
      ensures Within(files, caps) || files == map[]
    {
      hide Sum, Trimmed, NewestRemoved;
      TrimmedKeeps(left, files, touched);
      TrimmedKeeps(files, files, touched);
      var count, total := Usage();
      SizesCount(files);
      if count > caps.maxFiles || total > caps.maxBytes {
        var snapshot := SnapshotSizes();
        Prune(snapshot, caps, touched);
        return false;
      }
      var before := SnapshotSizes();
      files := left;
      count, total := Usage();
      SizesCount(files);
      if sawOverCap || count > caps.maxFiles || total > caps.maxBytes {
        Prune(before, caps, touched);
        return false;
      }
      return true;
    }
  }
}
