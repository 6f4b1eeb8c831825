/** When a dry run tells what the real run would do. */
module RetentionPrediction {
  import opened Common
  import opened StableSort
  import opened Retention
  import opened RetentionLaws

  /** The files the passes reach for: the ones older than the cutoff, then the shortest sufficient prefix of the
      others, oldest first. What can be deleted plays no part in it. */
  function Picked(files: seq<File>, cutoff: Option<real>, cap: Option<int>): seq<File> {
    var sorted := Sorted(files, cutoff, {});
    Expired(files, cutoff, {}) + if cap.Some? then sorted[..CutAt(sorted, Total(sorted), cap.value, {})] else []
  }

  /** The records of one path agree. */
  ghost predicate Agree(files: seq<File>) {
    forall f, g :: f in files && g in files && f.path == g.path ==> f == g
  }

  /** No path occurs twice and every file can be deleted. */
  ghost predicate Removable(w: World, files: seq<File>) {
    Distinct(files) && Paths(files) <= w.disk - w.stuck
  }

  /** A dry run and a real run with the same report but for the flag. */
  ghost predicate Mirrors(dry: World, run: World) {
    dry.report == run.report.(dryRun := true) && !run.report.dryRun
  }

  lemma RemovableOneMore(w: World, left: World, files: seq<File>, f: File)
    requires left.disk == w.disk - Paths(files) && left.stuck == w.stuck
    ensures Removable(w, files + [f]) <==> Removable(w, files) && CanUnlink(left, f)
  {
    PathsAppend(files, [f]);
    assert Paths([f]) == {f.path};
    NotAmongTheOthers(files, f);
    if Removable(w, files) && CanUnlink(left, f) {
      assert forall g :: g in files ==> g.path in Paths(files);
    }
    if Removable(w, files + [f]) {
      assert f.path in Paths(files + [f]);
    }
  }

  lemma {:induction false} RemovableConcat(w: World, left: World, a: seq<File>, b: seq<File>)
    requires left.disk == w.disk - Paths(a) && left.stuck == w.stuck
    ensures Removable(w, a + b) <==> Removable(w, a) && Removable(left, b)
  {
    if b == [] {
      assert a + b == a;
    } else {
      var before, f := b[..|b| - 1], b[|b| - 1];
      RemovableConcat(w, left, a, before);
      assert b == before + [f];
      Associates(a, before, [f]);
      PathsAppend(a, before);
      var later := left.(disk := left.disk - Paths(before));
      assert later.disk == w.disk - Paths(a + before);
      RemovableOneMore(w, later, a + before, f);
      RemovableOneMore(left, later, before, f);
    }
  }

  /** The age pass of both runs when it can delete what it reaches for. */
  lemma {:induction false} AgePassMirrors(dry: World, w: World, files: seq<File>, cutoff: real)
    requires Mirrors(dry, w) && Removable(w, Expired(files, Some(cutoff), {}))
    ensures var (d, remaining) := AgePass(dry, files, cutoff);
            var (r, left) := AgePass(w, files, cutoff);
            && Mirrors(d, r) && remaining == left == Kept(files, Some(cutoff), {})
            && d.disk == dry.disk && r.stuck == w.stuck
            && r.disk == w.disk - Paths(Expired(files, Some(cutoff), {}))
  {
    if files != [] {
      var before, f := files[..|files| - 1], files[|files| - 1];
      var expired := Expired(before, Some(cutoff), {});
      if f.mtime < cutoff {
        RemovableOneMore(w, w.(disk := w.disk - Paths(expired)), expired, f);
        AgePassMirrors(dry, w, before, cutoff);
        PathsAppend(expired, [f]);
        assert Paths([f]) == {f.path};
        assert Kept(before, Some(cutoff), {}) + [] == Kept(before, Some(cutoff), {});
      } else {
        assert expired + [] == expired;
        AgePassMirrors(dry, w, before, cutoff);
      }
    }
  }

  lemma {:induction false} SizePassMirrors(dry: World, w: World, files: seq<File>, total: int, cap: int)
    requires Mirrors(dry, w) && Removable(w, files[..CutAt(files, total, cap, {})])
    ensures Mirrors(SizePass(dry, files, total, cap), SizePass(w, files, total, cap))
    ensures SizePass(dry, files, total, cap).disk == dry.disk
    decreases |files|
  {
    if files != [] && total > cap {
      var f, rest := files[0], files[1..];
      FirstPick(w, files, total, cap);
      SizePassMirrors(Delete(dry, f), Delete(w, f), rest, total - f.size, cap);
    }
  }

  /** The size pass can delete all it reaches for exactly when it can delete the first file and then the rest. */
  lemma FirstPick(w: World, files: seq<File>, total: int, cap: int)
    requires !w.report.dryRun && files != [] && total > cap
    ensures Removable(w, files[..CutAt(files, total, cap, {})]) <==>
              CanUnlink(w, files[0])
              && Removable(Delete(w, files[0]), files[1..][..CutAt(files[1..], total - files[0].size, cap, {})])
  {
    var f, n := files[0], CutAt(files[1..], total - files[0].size, cap, {});
    assert files[..n + 1] == [f] + files[1..][..n];
    assert Paths([f]) == {f.path} && Paths([]) == {};
    var left := w.(disk := w.disk - {f.path});
    RemovableOneMore(w, w, [], f);
    assert [] + [f] == [f];
    RemovableConcat(w, left, [f], files[1..][..n]);
  }

  /** A real age pass that adds no error could delete what it reached for. */
  lemma {:induction false} SilentAgePass(w: World, files: seq<File>, cutoff: real)
    requires !w.report.dryRun
    ensures var end := AgePass(w, files, cutoff).0;
            && !end.report.dryRun && |end.report.errors| >= |w.report.errors|
            && (|end.report.errors| == |w.report.errors| ==> Removable(w, Expired(files, Some(cutoff), {})))
  {
    if files != [] {
      var before, f := files[..|files| - 1], files[|files| - 1];
      SilentAgePass(w, before, cutoff);
      var mid, expired := AgePass(w, before, cutoff).0, Expired(before, Some(cutoff), {});
      if |AgePass(w, files, cutoff).0.report.errors| == |w.report.errors| {
        AgePassMirrors(w.(report := w.report.(dryRun := true)), w, before, cutoff);
        RemovableOneMore(w, mid, expired, f);
        assert expired + [] == expired;
      }
    }
  }

  lemma {:induction false} SilentSizePass(w: World, files: seq<File>, total: int, cap: int)
    requires !w.report.dryRun
    ensures var end := SizePass(w, files, total, cap);
            && |end.report.errors| >= |w.report.errors|
            && (|end.report.errors| == |w.report.errors| ==> Removable(w, files[..CutAt(files, total, cap, {})]))
    decreases |files|
  {
    if files != [] && total > cap {
      var f := files[0];
      SilentSizePass(Delete(w, f), files[1..], if CanUnlink(w, f) then total - f.size else total, cap);
      FirstPick(w, files, total, cap);
    }
  }

  lemma {:induction false} DryAgePassIsSilent(w: World, files: seq<File>, cutoff: real)
    requires w.report.dryRun
    ensures var end := AgePass(w, files, cutoff).0;
            end.report.dryRun && end.report.errors == w.report.errors && end.disk == w.disk
  {
    if files != [] {
      DryAgePassIsSilent(w, files[..|files| - 1], cutoff);
    }
  }

  lemma {:induction false} DrySizePassIsSilent(w: World, files: seq<File>, total: int, cap: int)
    requires w.report.dryRun
    ensures var end := SizePass(w, files, total, cap); end.report.errors == w.report.errors && end.disk == w.disk
    decreases |files|
  {
    if files != [] && total > cap {
      DrySizePassIsSilent(Delete(w, files[0]), files[1..], total - files[0].size, cap);
    }
  }

  /** A dry run deletes nothing and meets no error. */
  lemma DryRunIsSilent(disk: set<Path>, stuck: set<Path>, files: seq<File>, cutoff: Option<real>, cap: Option<int>)
    ensures var dry := Retain(Start(disk, stuck, true), files, cutoff, cap); dry.report.errors == [] && dry.disk == disk
  {
    var w := Start(disk, stuck, true);
    if cutoff.Some? {
      DryAgePassIsSilent(w, files, cutoff.value);
    }
    var (aged, remaining) := Aged(w, files, cutoff);
    if cap.Some? {
      var existing := Existing(aged.disk, remaining);
      DrySizePassIsSilent(aged, OldestFirst(existing), Total(existing), cap.value);
    }
  }

  /** With agreeing records no file that is kept shares its path with an expired one. */
  lemma KeptFilesExist(disk: set<Path>, files: seq<File>, cutoff: Option<real>)
    requires Agree(files) && Paths(files) <= disk
    ensures Existing(disk - Paths(Expired(files, cutoff, {})), Kept(files, cutoff, {})) == Kept(files, cutoff, {})
    ensures Existing(disk, Kept(files, cutoff, {})) == Kept(files, cutoff, {})
  {
    var expired, kept := Expired(files, cutoff, {}), Kept(files, cutoff, {});
    FilesSplit(files, cutoff, {});
    forall f, g | f in kept && g in expired ensures f.path != g.path {
      assert f in files && g in files;
    }
    assert Paths(kept) <= Paths(files);
    AllExist(disk, kept);
    AllExist(disk - Paths(expired), kept);
  }

  /** The passes of a real run, once its age pass has deleted all it reached for. */
  lemma AgedMirrors(disk: set<Path>, stuck: set<Path>, files: seq<File>, cutoff: Option<real>)
    requires Agree(files) && Paths(files) <= disk
    requires Removable(Start(disk, stuck, false), Expired(files, cutoff, {}))
    ensures var (d, remaining) := Aged(Start(disk, stuck, true), files, cutoff);
            var (r, left) := Aged(Start(disk, stuck, false), files, cutoff);
            && Mirrors(d, r) && r.stuck == stuck && r.disk == disk - Paths(Expired(files, cutoff, {}))
            && Existing(d.disk, remaining) == Existing(r.disk, left) == Kept(files, cutoff, {})
  {
    if cutoff.Some? {
      AgePassMirrors(Start(disk, stuck, true), Start(disk, stuck, false), files, cutoff.value);
    } else {
      NothingExpires(files, {});
    }
    KeptFilesExist(disk, files, cutoff);
  }

  lemma PickedParts(disk: set<Path>, stuck: set<Path>, files: seq<File>, cutoff: Option<real>, cap: Option<int>)
    ensures var w, expired, sorted := Start(disk, stuck, false), Expired(files, cutoff, {}), Sorted(files, cutoff, {});
            Removable(w, Picked(files, cutoff, cap)) <==>
              && Removable(w, expired)
              && (cap.Some? ==> Removable(w.(disk := disk - Paths(expired)),
                                          sorted[..CutAt(sorted, Total(sorted), cap.value, {})]))
  {
    var w, expired, sorted := Start(disk, stuck, false), Expired(files, cutoff, {}), Sorted(files, cutoff, {});
    if cap.Some? {
      RemovableConcat(w, w.(disk := disk - Paths(expired)), expired,
                      sorted[..CutAt(sorted, Total(sorted), cap.value, {})]);
    } else {
      assert expired + [] == expired;
    }
  }

  lemma RemovablePicksMirror(disk: set<Path>, stuck: set<Path>, files: seq<File>, cutoff: Option<real>,
                             cap: Option<int>)
    requires Agree(files) && Paths(files) <= disk
    requires Removable(Start(disk, stuck, false), Picked(files, cutoff, cap))
    ensures Mirrors(Retain(Start(disk, stuck, true), files, cutoff, cap),
                    Retain(Start(disk, stuck, false), files, cutoff, cap))
  {
    PickedParts(disk, stuck, files, cutoff, cap);
    AgedMirrors(disk, stuck, files, cutoff);
    if cap.Some? {
      var d, r := Aged(Start(disk, stuck, true), files, cutoff).0, Aged(Start(disk, stuck, false), files, cutoff).0;
      var kept, sorted := Kept(files, cutoff, {}), Sorted(files, cutoff, {});
      SortKeepsTotal(kept);
      SizePassMirrors(d, r, sorted, Total(sorted), cap.value);
    }
  }

  lemma SilentRunPicksRemovable(disk: set<Path>, stuck: set<Path>, files: seq<File>, cutoff: Option<real>,
                                cap: Option<int>)
    requires Agree(files) && Paths(files) <= disk
    requires Retain(Start(disk, stuck, false), files, cutoff, cap).report.errors == []
    ensures Removable(Start(disk, stuck, false), Picked(files, cutoff, cap))
  {
    var w := Start(disk, stuck, false);
    var (aged, remaining) := Aged(w, files, cutoff);
    if cutoff.Some? {
      SilentAgePass(w, files, cutoff.value);
    } else {
      NothingExpires(files, {});
    }
    if cap.Some? {
      var existing := Existing(aged.disk, remaining);
      SilentSizePass(aged, OldestFirst(existing), Total(existing), cap.value);
    }
    assert Removable(w, Expired(files, cutoff, {}));
    AgedMirrors(disk, stuck, files, cutoff);
    SortKeepsTotal(Kept(files, cutoff, {}));
    PickedParts(disk, stuck, files, cutoff, cap);
  }

  /** A dry run deletes nothing, and it reports what the real run reports, apart from its flag, exactly when no path is
      picked twice and every picked file can be deleted. */
  lemma DryRunPredictsExactly(disk: set<Path>, stuck: set<Path>, files: seq<File>, cutoff: Option<real>,
                              cap: Option<int>)
    requires Agree(files) && Paths(files) <= disk
    ensures var dry := Retain(Start(disk, stuck, true), files, cutoff, cap);
            var run := Retain(Start(disk, stuck, false), files, cutoff, cap);
            var picked := Picked(files, cutoff, cap);
            && dry.disk == disk
            && (dry.report == run.report.(dryRun := true) <==> Distinct(picked) && Paths(picked) <= disk - stuck)
  {
    DryRunIsSilent(disk, stuck, files, cutoff, cap);
    var dry := Retain(Start(disk, stuck, true), files, cutoff, cap);
    var run := Retain(Start(disk, stuck, false), files, cutoff, cap);
    if Removable(Start(disk, stuck, false), Picked(files, cutoff, cap)) {
      RemovablePicksMirror(disk, stuck, files, cutoff, cap);
    } else if dry.report == run.report.(dryRun := true) {
      SilentRunPicksRemovable(disk, stuck, files, cutoff, cap);
    }
  }

  /** In particular over distinct existing files that can all be deleted. */
  lemma DryRunPredictsTheRun(disk: set<Path>, stuck: set<Path>, files: seq<File>, cutoff: Option<real>,
                             cap: Option<int>)
    requires Distinct(files) && Paths(files) <= disk - stuck
    ensures var dry := Retain(Start(disk, stuck, true), files, cutoff, cap);
            var run := Retain(Start(disk, stuck, false), files, cutoff, cap);
            dry.disk == disk && dry.report == run.report.(dryRun := true)
  {
    DistinctPicks(disk, stuck, files, cutoff, cap);
    DryRunPredictsExactly(disk, stuck, files, cutoff, cap);
  }

  lemma DistinctPicks(disk: set<Path>, stuck: set<Path>, files: seq<File>, cutoff: Option<real>, cap: Option<int>)
    requires Distinct(files) && Paths(files) <= disk - stuck
    ensures Removable(Start(disk, stuck, false), Picked(files, cutoff, cap))
  {
    var w, expired, sorted := Start(disk, stuck, false), Expired(files, cutoff, {}), Sorted(files, cutoff, {});
    ExpiredAreDistinct(files, cutoff);
    KeptAndExpiredAreDisjoint(files, cutoff, {});
    SortedFiles(files, cutoff, {});
    if cap.Some? {
      PrefixIsRemovable(w.(disk := disk - Paths(expired)), sorted, CutAt(sorted, Total(sorted), cap.value, {}));
    }
    PickedParts(disk, stuck, files, cutoff, cap);
  }

  lemma PrefixIsRemovable(w: World, files: seq<File>, n: nat)
    requires n <= |files| && Removable(w, files)
    ensures Removable(w, files[..n])
  {
    assert files == files[..n] + files[n..];
    PathsAppend(files[..n], files[n..]);
  }

  lemma {:induction false} ExpiredAreDistinct(files: seq<File>, cutoff: Option<real>)
    requires Distinct(files)
    ensures Distinct(Expired(files, cutoff, {}))
  {
    if files != [] {
      var before := files[..|files| - 1];
      LastAndRest(files);
      ExpiredAreDistinct(before, cutoff);
      KeptAndExpiredAreDisjoint(before, cutoff, {});
      assert forall g :: g in Expired(before, cutoff, {}) ==> g.path in Paths(Expired(before, cutoff, {}));
    }
  }

  /** The smallest failing case, a file found twice through nested base directories: the real run deletes it once and
      reports an error, the dry run counts it twice. */
  lemma DuplicatesBreakThePrediction(f: File, cutoff: real)
    requires f.mtime < cutoff
    ensures var dry := Retain(Start({f.path}, {}, true), [f, f], Some(cutoff), None).report;
            var run := Retain(Start({f.path}, {}, false), [f, f], Some(cutoff), None).report;
            dry == Report(2, 2 * f.size, [], true) && run == Report(1, f.size, [f.path], false)
  {
    assert [f, f][..1] == [f] && [f][..0] == [];
    var d, w := Start({f.path}, {}, true), Start({f.path}, {}, false);
    assert AgePass(d, [f], cutoff) == (Delete(d, f), []);
    assert AgePass(w, [f], cutoff) == (Delete(w, f), []);
  }
}
