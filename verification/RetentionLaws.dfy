/** What the retention passes delete. */
module RetentionLaws {
  import opened Common
  import opened StableSort
  import opened Retention

  ghost predicate Distinct(files: seq<File>) {
    forall i, j :: 0 <= i < j < |files| ==> files[i].path != files[j].path
  }

  function Paths(files: seq<File>): set<Path> {
    set f | f in files :: f.path
  }

  predicate IsExpired(f: File, cutoff: Option<real>, stuck: set<Path>) {
    cutoff.Some? && f.mtime < cutoff.value && f.path !in stuck
  }

  /** The files the age pass deletes. */
  function Expired(files: seq<File>, cutoff: Option<real>, stuck: set<Path>): seq<File> {
    if files == [] then []
    else
      var f := files[|files| - 1];
      Expired(files[..|files| - 1], cutoff, stuck) + if IsExpired(f, cutoff, stuck) then [f] else []
  }

  /** And the ones it leaves. */
  function Kept(files: seq<File>, cutoff: Option<real>, stuck: set<Path>): seq<File> {
    if files == [] then []
    else
      var f := files[|files| - 1];
      Kept(files[..|files| - 1], cutoff, stuck) + if IsExpired(f, cutoff, stuck) then [] else [f]
  }

  function Deletable(files: seq<File>, stuck: set<Path>): seq<File> {
    if files == [] then []
    else (if files[0].path in stuck then [] else [files[0]]) + Deletable(files[1..], stuck)
  }

  /** How many of the sorted files the size pass looks at. */
  function CutAt(files: seq<File>, total: int, cap: int, stuck: set<Path>): (n: nat)
    ensures n <= |files|
  {
    if files == [] || total <= cap then 0
    else 1 + CutAt(files[1..], if files[0].path in stuck then total else total - files[0].size, cap, stuck)
  }

  lemma {:induction false} TotalAppends(a: seq<File>, b: seq<File>)
    ensures Total(a + b) == Total(a) + Total(b)
  {
    if b == [] {
      assert a + b == a;
    } else {
      TotalAppends(a, b[..|b| - 1]);
      assert (a + b)[..|a + b| - 1] == a + b[..|b| - 1];
    }
  }

  lemma TotalHead(f: File, rest: seq<File>)
    ensures Total([f] + rest) == f.size + Total(rest)
  {
    TotalAppends([f], rest);
    assert [f][..0] == [];
  }

  /** The size pass stops after the shortest prefix whose deletable files bring the total within the cap, or at the
      end when none does. */
  lemma {:induction false} CutIsShortest(files: seq<File>, total: int, cap: int, stuck: set<Path>)
    ensures var n := CutAt(files, total, cap, stuck);
            && (forall k :: 0 <= k < n ==> total - Total(Deletable(files[..k], stuck)) > cap)
            && (n < |files| ==> total - Total(Deletable(files[..n], stuck)) <= cap)
            && (n == |files| ==> files[..n] == files)
  {
    if files != [] && total > cap {
      var f, rest := files[0], files[1..];
      var left := if f.path in stuck then total else total - f.size;
      CutIsShortest(rest, left, cap, stuck);
      forall k | 0 < k <= |files|
        ensures total - Total(Deletable(files[..k], stuck)) == left - Total(Deletable(rest[..k - 1], stuck))
      {
        assert files[..k][1..] == rest[..k - 1];
        TotalHead(f, Deletable(rest[..k - 1], stuck));
        assert [] + Deletable(rest[..k - 1], stuck) == Deletable(rest[..k - 1], stuck);
      }
    }
  }

  lemma {:induction false} AllDeletable(files: seq<File>, stuck: set<Path>)
    requires forall f :: f in files ==> f.path !in stuck
    ensures Deletable(files, stuck) == files
  {
    if files != [] {
      AllDeletable(files[1..], stuck);
    }
  }

  /** With nothing undeletable the survivors fit the cap. */
  lemma SurvivorsFit(files: seq<File>, cap: int, stuck: set<Path>)
    requires cap >= 0 && forall f :: f in files ==> f.path !in stuck
    ensures var n := CutAt(files, Total(files), cap, stuck);
            && Deletable(files[..n], stuck) == files[..n]
            && Total(files[n..]) <= cap
            && forall k :: 0 <= k < n ==> Total(files[k..]) > cap
  {
    var n := CutAt(files, Total(files), cap, stuck);
    CutIsShortest(files, Total(files), cap, stuck);
    forall k | 0 <= k <= n
      ensures Deletable(files[..k], stuck) == files[..k] && Total(files) - Total(files[..k]) == Total(files[k..])
    {
      AllDeletable(files[..k], stuck);
      TotalSplits([], files, k);
      assert [] + files[..k] == files[..k];
    }
  }

  lemma TotalSplits(first: seq<File>, files: seq<File>, n: nat)
    requires n <= |files|
    ensures Total(first + files[..n]) + Total(files[n..]) == Total(first) + Total(files)
  {
    TotalAppends(first, files[..n]);
    TotalAppends(files[..n], files[n..]);
    assert files == files[..n] + files[n..];
  }

  lemma {:induction false} FilesSplit(files: seq<File>, cutoff: Option<real>, stuck: set<Path>)
    ensures forall f :: f in Expired(files, cutoff, stuck) <==> f in files && IsExpired(f, cutoff, stuck)
    ensures forall f :: f in Kept(files, cutoff, stuck) <==> f in files && !IsExpired(f, cutoff, stuck)
  {
    if files != [] {
      var before, f := files[..|files| - 1], files[|files| - 1];
      FilesSplit(before, cutoff, stuck);
      assert files == before + [f];
    }
  }

  lemma {:induction false} KeptAreDistinct(files: seq<File>, cutoff: Option<real>, stuck: set<Path>)
    requires Distinct(files)
    ensures Distinct(Kept(files, cutoff, stuck))
  {
    if files != [] {
      var before, f := files[..|files| - 1], files[|files| - 1];
      KeptAreDistinct(before, cutoff, stuck);
      FilesSplit(before, cutoff, stuck);
      NotAmongTheOthers(before, f);
    }
  }

  /** The last of distinct files shares its path with none of the others. */
  lemma NotAmongTheOthers(before: seq<File>, f: File)
    ensures Distinct(before + [f]) ==> Distinct(before) && forall g :: g in before ==> g.path != f.path
  {
    if Distinct(before + [f]) {
      forall i, j | 0 <= i < j < |before| ensures before[i].path != before[j].path {
        assert (before + [f])[i].path != (before + [f])[j].path;
      }
      forall i | 0 <= i < |before| ensures before[i].path != f.path {
        assert (before + [f])[i].path != (before + [f])[|before|].path;
      }
    }
  }

  lemma KeptAndExpiredAreDisjoint(files: seq<File>, cutoff: Option<real>, stuck: set<Path>)
    requires Distinct(files)
    ensures Paths(Kept(files, cutoff, stuck)) !! Paths(Expired(files, cutoff, stuck))
    ensures Paths(Kept(files, cutoff, stuck)) <= Paths(files)
    ensures Paths(Expired(files, cutoff, stuck)) <= Paths(files) - stuck
  {
    FilesSplit(files, cutoff, stuck);
    forall f, g | f in Kept(files, cutoff, stuck) && g in Expired(files, cutoff, stuck) ensures f.path != g.path {
      assert f in files && g in files && f != g;
    }
  }

  /** What a run has removed so far. */
  ghost predicate HasRemoved(start: World, w: World, gone: seq<File>) {
    && !w.report.dryRun && w.stuck == start.stuck && w.disk == start.disk - Paths(gone)
    && w.report.deleted == start.report.deleted + |gone| && w.report.freed == start.report.freed + Total(gone)
  }

  lemma RemoveOneMore(start: World, w: World, gone: seq<File>, f: File)
    requires HasRemoved(start, w, gone)
    ensures HasRemoved(start, Delete(w, f), if CanUnlink(w, f) then gone + [f] else gone)
  {
    TotalAppends(gone, [f]);
    assert [f][..0] == [];
    PathsAppend(gone, [f]);
    assert Paths([f]) == {f.path};
  }

  lemma PathsAppend(a: seq<File>, b: seq<File>)
    ensures Paths(a + b) == Paths(a) + Paths(b)
  {
  }

  /** A real age pass over distinct existing files. */
  lemma {:induction false} AgePassDeletes(w: World, files: seq<File>, cutoff: real)
    requires !w.report.dryRun && Distinct(files) && Paths(files) <= w.disk
    ensures AgePass(w, files, cutoff).1 == Kept(files, Some(cutoff), w.stuck)
    ensures HasRemoved(w, AgePass(w, files, cutoff).0, Expired(files, Some(cutoff), w.stuck))
  {
    if files != [] {
      var before, f := files[..|files| - 1], files[|files| - 1];
      LastAndRest(files);
      AgePassDeletes(w, before, cutoff);
      var expired := Expired(before, Some(cutoff), w.stuck);
      KeptAndExpiredAreDisjoint(before, Some(cutoff), w.stuck);
      RemoveOneMore(w, AgePass(w, before, cutoff).0, expired, f);
      assert expired + [] == expired;
    }
  }

  lemma LastAndRest(files: seq<File>)
    requires Distinct(files) && files != []
    ensures Distinct(files[..|files| - 1]) && files[|files| - 1].path !in Paths(files[..|files| - 1])
    ensures Paths(files) == Paths(files[..|files| - 1]) + {files[|files| - 1].path}
  {
    var before, f := files[..|files| - 1], files[|files| - 1];
    assert files == before + [f];
    NotAmongTheOthers(before, f);
    PathsAppend(before, [f]);
    assert Paths([f]) == {f.path};
  }

  /** A real size pass over distinct existing files. */
  lemma {:induction false} SizePassDeletes(start: World, w: World, gone: seq<File>, files: seq<File>, total: int,
                                           cap: int)
    requires HasRemoved(start, w, gone) && Distinct(files) && Paths(files) <= w.disk
    ensures HasRemoved(start, SizePass(w, files, total, cap),
                       gone + Deletable(files[..CutAt(files, total, cap, w.stuck)], w.stuck))
    decreases |files|
  {
    if files == [] || total <= cap {
      assert gone + [] == gone;
    } else {
      var f, rest := files[0], files[1..];
      FirstAndRest(files);
      RemoveOneMore(start, w, gone, f);
      var left := if f.path in w.stuck then total else total - f.size;
      SizePassDeletes(start, Delete(w, f), if f.path in w.stuck then gone else gone + [f], rest, left, cap);
      DeletableOneMore(gone, files, CutAt(rest, left, cap, w.stuck), w.stuck);
    }
  }

  lemma FirstAndRest(files: seq<File>)
    requires Distinct(files) && files != []
    ensures Distinct(files[1..]) && files[0].path !in Paths(files[1..])
    ensures Paths(files) == {files[0].path} + Paths(files[1..])
  {
    assert files == [files[0]] + files[1..];
    assert Paths([files[0]]) == {files[0].path};
    PathsAppend([files[0]], files[1..]);
  }

  lemma DeletableOneMore(gone: seq<File>, files: seq<File>, n: nat, stuck: set<Path>)
    requires files != [] && n < |files|
    ensures (if files[0].path in stuck then gone else gone + [files[0]]) + Deletable(files[1..][..n], stuck)
         == gone + Deletable(files[..n + 1], stuck)
  {
    assert files[..n + 1][1..] == files[1..][..n];
    var more := Deletable(files[1..][..n], stuck);
    assert (gone + [files[0]]) + more == gone + ([files[0]] + more);
    assert gone + ([] + more) == gone + more;
  }

  lemma {:induction false} AllExist(disk: set<Path>, files: seq<File>)
    requires Paths(files) <= disk
    ensures Existing(disk, files) == files
  {
    if files != [] {
      var before, f := files[..|files| - 1], files[|files| - 1];
      assert f in files && forall g :: g in before ==> g in files;
      AllExist(disk, before);
    }
  }

  lemma {:induction false} SortKeepsTotal(files: seq<File>)
    ensures Total(OldestFirst(files)) == Total(files)
  {
    if files != [] {
      var rest := OldestFirst(files[1..]);
      SortKeepsTotal(files[1..]);
      InsertKeepsTotal(files[0], rest);
      TotalHead(files[0], files[1..]);
      assert files == [files[0]] + files[1..];
    }
  }

  lemma {:induction false} InsertKeepsTotal(f: File, sorted: seq<File>)
    ensures Total(Insert(f, sorted, (f: File) => f.mtime)) == f.size + Total(sorted)
  {
    if sorted == [] || f.mtime <= sorted[0].mtime {
      TotalHead(f, sorted);
    } else {
      InsertKeepsTotal(f, sorted[1..]);
      TotalHead(sorted[0], sorted[1..]);
      TotalHead(sorted[0], Insert(f, sorted[1..], (f: File) => f.mtime));
      assert sorted == [sorted[0]] + sorted[1..];
    }
  }

  /** Permuting distinct files. */
  lemma PermutedFiles(a: seq<File>, b: seq<File>)
    requires multiset(a) == multiset(b)
    ensures Paths(a) == Paths(b)
    ensures Distinct(a) ==> Distinct(b)
  {
    assert forall f :: f in a <==> f in multiset(a);
    assert forall f :: f in b <==> f in multiset(b);
    if Distinct(a) {
      forall i, j | 0 <= i < j < |b| ensures b[i].path != b[j].path {
        SamePathTwice(a, b, i, j);
      }
    }
  }

  lemma SamePathTwice(a: seq<File>, b: seq<File>, i: nat, j: nat)
    requires multiset(a) == multiset(b) && Distinct(a) && i < j < |b|
    ensures b[i].path != b[j].path
  {
    if b[i] == b[j] {
      assert b == b[..i] + [b[i]] + b[i + 1..j] + [b[j]] + b[j + 1..];
      assert multiset(b)[b[i]] >= 2;
      DistinctOnce(a, b[i]);
    } else {
      assert b[i] in multiset(b) && b[j] in multiset(b);
      assert b[i] in a && b[j] in a;
    }
  }

  lemma {:induction false} DistinctOnce(a: seq<File>, f: File)
    requires Distinct(a)
    ensures multiset(a)[f] <= 1
  {
    if a != [] {
      DistinctOnce(a[1..], f);
      assert a == [a[0]] + a[1..];
      assert forall k :: 0 <= k < |a| - 1 ==> a[1..][k] == a[k + 1];
    }
  }

  function Start(disk: set<Path>, stuck: set<Path>, dryRun: bool): World {
    World(disk, stuck, Report(0, 0, [], dryRun))
  }

  /** The files of the size pass, in its order. */
  function Sorted(files: seq<File>, cutoff: Option<real>, stuck: set<Path>): seq<File> {
    OldestFirst(Kept(files, cutoff, stuck))
  }

  lemma SortedFiles(files: seq<File>, cutoff: Option<real>, stuck: set<Path>)
    requires Distinct(files)
    ensures var sorted := Sorted(files, cutoff, stuck);
            && Distinct(sorted) && Paths(sorted) == Paths(Kept(files, cutoff, stuck))
            && multiset(sorted) == multiset(Kept(files, cutoff, stuck))
            && Total(sorted) == Total(Kept(files, cutoff, stuck))
            && IsSorted(sorted, (f: File) => f.mtime)
  {
    var kept := Kept(files, cutoff, stuck);
    KeptAreDistinct(files, cutoff, stuck);
    SortIsStable(kept, (f: File) => f.mtime, 0.0);
    PermutedFiles(kept, OldestFirst(kept));
    SortKeepsTotal(kept);
  }

  /** Everything a real run deletes: the expired files, then the size pass's part of the oldest. */
  function Gone(files: seq<File>, cutoff: Option<real>, cap: Option<int>, stuck: set<Path>): seq<File> {
    var sorted := Sorted(files, cutoff, stuck);
    var n := if cap.Some? then CutAt(sorted, Total(sorted), cap.value, stuck) else 0;
    Expired(files, cutoff, stuck) + Deletable(sorted[..n], stuck)
  }

  lemma {:induction false} NothingExpires(files: seq<File>, stuck: set<Path>)
    ensures Expired(files, None, stuck) == [] && Kept(files, None, stuck) == files
  {
    if files != [] {
      NothingExpires(files[..|files| - 1], stuck);
    }
  }

  /** The world after the age pass, if there is one. */
  function Aged(w: World, files: seq<File>, cutoff: Option<real>): (World, seq<File>) {
    if cutoff.Some? then AgePass(w, files, cutoff.value) else (w, files)
  }

  lemma AgedDeletes(w: World, files: seq<File>, cutoff: Option<real>)
    requires !w.report.dryRun && Distinct(files) && Paths(files) <= w.disk
    ensures Aged(w, files, cutoff).1 == Kept(files, cutoff, w.stuck)
    ensures HasRemoved(w, Aged(w, files, cutoff).0, Expired(files, cutoff, w.stuck))
    ensures Existing(Aged(w, files, cutoff).0.disk, Kept(files, cutoff, w.stuck)) == Kept(files, cutoff, w.stuck)
    ensures Paths(Kept(files, cutoff, w.stuck)) <= Aged(w, files, cutoff).0.disk
  {
    if cutoff.Some? {
      AgePassDeletes(w, files, cutoff.value);
    } else {
      NothingExpires(files, w.stuck);
    }
    KeptAndExpiredAreDisjoint(files, cutoff, w.stuck);
    AllExist(Aged(w, files, cutoff).0.disk, Kept(files, cutoff, w.stuck));
  }

  /** Over distinct existing files, and whatever files cannot be deleted, a real run removes from the disk exactly
      the expired files and the deletable ones among the shortest oldest-first prefix that brings the total within the
      cap; it counts each once and frees the sum of their sizes. */
  lemma RetentionDeletesExactly(disk: set<Path>, stuck: set<Path>, files: seq<File>, cutoff: Option<real>,
                                cap: Option<int>)
    requires Distinct(files) && Paths(files) <= disk
    ensures HasRemoved(Start(disk, stuck, false), Retain(Start(disk, stuck, false), files, cutoff, cap),
                       Gone(files, cutoff, cap, stuck))
  {
    var w := Start(disk, stuck, false);
    var expired, sorted := Expired(files, cutoff, stuck), Sorted(files, cutoff, stuck);
    AgedDeletes(w, files, cutoff);
    SortedFiles(files, cutoff, stuck);
    if cap.Some? {
      SizePassDeletes(w, Aged(w, files, cutoff).0, expired, sorted, Total(sorted), cap.value);
    } else {
      assert expired + [] == expired;
    }
  }

  /** With nothing undeletable, the size pass deletes the shortest prefix of the oldest-first order whose removal
      brings the total within the cap, and the survivors fit it. */
  lemma SurvivorsFitTheCap(disk: set<Path>, files: seq<File>, cutoff: Option<real>, cap: int)
    requires Distinct(files) && Paths(files) <= disk && cap > 0
    ensures var sorted := Sorted(files, cutoff, {});
            var end := Retain(Start(disk, {}, false), files, cutoff, Some(cap));
            exists n :: 0 <= n <= |sorted|
              && HasRemoved(Start(disk, {}, false), end, Expired(files, cutoff, {}) + sorted[..n])
              && Total(sorted[n..]) <= cap && (forall k :: 0 <= k < n ==> Total(sorted[k..]) > cap)
              && end.report.freed + Total(sorted[n..]) == Total(files)
  {
    var sorted := Sorted(files, cutoff, {});
    var n := CutAt(sorted, Total(sorted), cap, {});
    RetentionDeletesExactly(disk, {}, files, cutoff, Some(cap));
    SurvivorsFit(sorted, cap, {});
    FreedAndLeft(files, cutoff, n);
  }

  lemma FreedAndLeft(files: seq<File>, cutoff: Option<real>, n: nat)
    requires n <= |Sorted(files, cutoff, {})|
    ensures var sorted := Sorted(files, cutoff, {});
            Total(Expired(files, cutoff, {}) + sorted[..n]) + Total(sorted[n..]) == Total(files)
  {
    var sorted := Sorted(files, cutoff, {});
    assert Total(sorted) == Total(Kept(files, cutoff, {})) by {
      SortKeepsTotal(Kept(files, cutoff, {}));
    }
    TotalSplits(Expired(files, cutoff, {}), sorted, n);
    SplitTotal(files, cutoff, {});
  }

  lemma {:induction false} SplitTotal(files: seq<File>, cutoff: Option<real>, stuck: set<Path>)
    ensures Total(Expired(files, cutoff, stuck)) + Total(Kept(files, cutoff, stuck)) == Total(files)
  {
    if files != [] {
      var before, f := files[..|files| - 1], files[|files| - 1];
      SplitTotal(before, cutoff, stuck);
      if IsExpired(f, cutoff, stuck) {
        TotalOneMore(Expired(before, cutoff, stuck), f);
        assert Kept(before, cutoff, stuck) + [] == Kept(before, cutoff, stuck);
      } else {
        TotalOneMore(Kept(before, cutoff, stuck), f);
        assert Expired(before, cutoff, stuck) + [] == Expired(before, cutoff, stuck);
      }
    }
  }

  lemma TotalOneMore(files: seq<File>, f: File)
    ensures Total(files + [f]) == Total(files) + f.size
  {
    assert (files + [f])[..|files|] == files;
  }

  /** Every file a real run removes is a deletable candidate, counted once: this needs neither distinct paths nor
      successful deletions. */
  ghost predicate Accounted(start: World, end: World, candidates: set<Path>) {
    && !end.report.dryRun && end.stuck == start.stuck
    && end.disk <= start.disk && start.disk - end.disk <= candidates - start.stuck
    && |start.disk| - |end.disk| == end.report.deleted - start.report.deleted
  }

  lemma DeleteAccounts(start: World, w: World, f: File, candidates: set<Path>)
    requires Accounted(start, w, candidates) && f.path in candidates
    ensures Accounted(start, Delete(w, f), candidates)
  {
  }

  lemma {:induction false} AgePassAccounts(w: World, files: seq<File>, cutoff: real, candidates: set<Path>)
    requires !w.report.dryRun && Paths(files) <= candidates
    ensures Accounted(w, AgePass(w, files, cutoff).0, candidates)
    ensures forall f :: f in AgePass(w, files, cutoff).1 ==> f in files
  {
    if files != [] {
      var before, f := files[..|files| - 1], files[|files| - 1];
      assert f in files && forall g :: g in before ==> g in files;
      AgePassAccounts(w, before, cutoff, candidates);
      DeleteAccounts(w, AgePass(w, before, cutoff).0, f, candidates);
    }
  }

  lemma {:induction false} SizePassAccounts(start: World, w: World, files: seq<File>, total: int, cap: int,
                                            candidates: set<Path>)
    requires Accounted(start, w, candidates) && Paths(files) <= candidates
    ensures Accounted(start, SizePass(w, files, total, cap), candidates)
    decreases |files|
  {
    if files != [] && total > cap {
      assert files[0] in files && forall g :: g in files[1..] ==> g in files;
      DeleteAccounts(start, w, files[0], candidates);
      SizePassAccounts(start, Delete(w, files[0]), files[1..],
                       if IsDeleted(w, files[0]) then total - files[0].size else total, cap, candidates);
    }
  }

  lemma {:induction false} ExistingIsPart(disk: set<Path>, files: seq<File>)
    ensures forall f :: f in Existing(disk, files) ==> f in files
  {
    if files != [] {
      ExistingIsPart(disk, files[..|files| - 1]);
    }
  }

  lemma RealRunAccountsForTheDisk(w: World, files: seq<File>, cutoff: Option<real>, cap: Option<int>)
    requires !w.report.dryRun
    ensures Accounted(w, Retain(w, files, cutoff, cap), Paths(files))
  {
    if cutoff.Some? {
      AgePassAccounts(w, files, cutoff.value, Paths(files));
    }
    var (aged, remaining) := if cutoff.Some? then AgePass(w, files, cutoff.value) else (w, files);
    if cap.Some? {
      var existing := Existing(aged.disk, remaining);
      ExistingIsPart(aged.disk, remaining);
      SortIsStable(existing, (f: File) => f.mtime, 0.0);
      PermutedFiles(existing, OldestFirst(existing));
      assert Paths(existing) <= Paths(files);
      SizePassAccounts(w, aged, OldestFirst(existing), Total(existing), cap.value, Paths(files));
    }
  }
}
