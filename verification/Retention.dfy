/** Deleting old files by age and by total size. */
module Retention {
  import opened Common
  import opened StableSort

  datatype Path = Path(name: string)

  /** A file found by the scan. */
  datatype File = File(path: Path, size: nat, mtime: real)

  datatype Report = Report(deleted: nat, freed: nat, errors: seq<Path>, dryRun: bool)

  /** The files on disk, the ones whose deletion fails, and the report so far. */
  datatype World = World(disk: set<Path>, stuck: set<Path>, report: Report)

  predicate CanUnlink(w: World, f: File) {
    f.path in w.disk && f.path !in w.stuck
  }

  predicate IsDeleted(w: World, f: File) {
    w.report.dryRun || CanUnlink(w, f)
  }

  function Marked(r: Report, f: File): Report {
    r.(deleted := r.deleted + 1, freed := r.freed + f.size)
  }

  /** _delete_candidate. */
  function Delete(w: World, f: File): World {
    if w.report.dryRun then w.(report := Marked(w.report, f))
    else if CanUnlink(w, f) then w.(disk := w.disk - {f.path}, report := Marked(w.report, f))
    else w.(report := w.report.(errors := w.report.errors + [f.path]))
  }

  /** The age pass and the candidates it leaves. */
  function AgePass(w: World, files: seq<File>, cutoff: real): (World, seq<File>) {
    if files == [] then (w, [])
    else
      var (before, remaining) := AgePass(w, files[..|files| - 1], cutoff);
      var f := files[|files| - 1];
      if f.mtime >= cutoff then (before, remaining + [f])
      else (Delete(before, f), if IsDeleted(before, f) then remaining else remaining + [f])
  }

  /** The size pass over the sorted candidates. */
  function SizePass(w: World, files: seq<File>, total: int, cap: int): World
    decreases |files|
  {
    if files == [] || total <= cap then w
    else SizePass(Delete(w, files[0]), files[1..], if IsDeleted(w, files[0]) then total - files[0].size else total, cap)
  }

  function Existing(disk: set<Path>, files: seq<File>): seq<File> {
    if files == [] then []
    else
      var rest := Existing(disk, files[..|files| - 1]);
      if files[|files| - 1].path in disk then rest + [files[|files| - 1]] else rest
  }

  function Total(files: seq<File>): nat {
    if files == [] then 0 else Total(files[..|files| - 1]) + files[|files| - 1].size
  }

  function OldestFirst(files: seq<File>): seq<File> {
    SortBy(files, (f: File) => f.mtime)
  }

  /** apply_retention after the scan. */
  function Retain(w: World, files: seq<File>, cutoff: Option<real>, cap: Option<int>): World {
    var (aged, remaining) := if cutoff.Some? then AgePass(w, files, cutoff.value) else (w, files);
    if cap.None? then aged
    else
      var existing := Existing(aged.disk, remaining);
      SizePass(aged, OldestFirst(existing), Total(existing), cap.value)
  }

  /** The files of the disk and the loops over the candidates. */
  class Disk {
    const stuck: set<Path>
    var files: set<Path>

    function View(report: Report): World
      reads this
    {
      World(files, stuck, report)
    }

    constructor (paths: set<Path>, unremovable: set<Path>)
      ensures files == paths && stuck == unremovable
    {
      stuck := unremovable;
      files := paths;
    }

    method DeleteCandidate(f: File, report: Report) returns (deleted: bool, r: Report)
      modifies this
      ensures deleted == IsDeleted(old(View(report)), f) && View(r) == Delete(old(View(report)), f)
    {
      if report.dryRun {
        return true, Marked(report, f);
      }
      if f.path !in files || f.path in stuck {
        return false, report.(errors := report.errors + [f.path]);
      }
      files := files - {f.path};
      return true, Marked(report, f);
    }

    method DeleteByAge(candidates: seq<File>, cutoff: real, report: Report) returns (r: Report, remaining: seq<File>)
      modifies this
      ensures (View(r), remaining) == AgePass(old(View(report)), candidates, cutoff)
    {
      r, remaining := report, [];
      for i := 0 to |candidates|
        invariant (View(r), remaining) == AgePass(old(View(report)), candidates[..i], cutoff)
      {
        assert candidates[..i + 1][..i] == candidates[..i];
        if candidates[i].mtime < cutoff {
          var deleted;
          deleted, r := DeleteCandidate(candidates[i], r);
          if !deleted {
            remaining := remaining + [candidates[i]];
          }
        } else {
          remaining := remaining + [candidates[i]];
        }
      }
      assert candidates[..|candidates|] == candidates;
    }

    method KeepExisting(candidates: seq<File>) returns (existing: seq<File>, total: nat)
      ensures existing == Existing(files, candidates) && total == Total(existing)
    {
      existing, total := [], 0;
      for i := 0 to |candidates|
        invariant existing == Existing(files, candidates[..i]) && total == Total(existing)
      {
        assert candidates[..i + 1][..i] == candidates[..i];
        if candidates[i].path in files {
          assert (existing + [candidates[i]])[..|existing|] == existing;
          existing, total := existing + [candidates[i]], total + candidates[i].size;
        }
      }
      assert candidates[..|candidates|] == candidates;
    }

    method ApplyRetention(candidates: seq<File>, cutoff: Option<real>, cap: Option<int>, dryRun: bool)
        returns (r: Report)
      modifies this
      ensures View(r) == Retain(old(View(Report(0, 0, [], dryRun))), candidates, cutoff, cap)
    {
      r := Report(0, 0, [], dryRun);
      var remaining := candidates;
      if cutoff.Some? {
        r, remaining := DeleteByAge(candidates, cutoff.value, r);
      }
      if cap.Some? {
        var existing, total := KeepExisting(remaining);
        var sorted, left := OldestFirst(existing), total as int;
        ghost var start := View(r);
        var i := 0;
        while i < |sorted| && left > cap.value
          invariant 0 <= i <= |sorted|
          invariant SizePass(View(r), sorted[i..], left, cap.value) == SizePass(start, sorted, total, cap.value)
        {
          assert sorted[i..][1..] == sorted[i + 1..];
          var deleted;
          deleted, r := DeleteCandidate(sorted[i], r);
          if deleted {
            left := left - sorted[i].size;
          }
          i := i + 1;
        }
      }
    }
  }
}
