/** Dockerfile builds as Jobs: number allocation, verdicts, the image to fall back
    on and pruning (internal/controller/dockerfile.go:52-157, 248-286). */
module BuildJobs {
  import opened Basics

  const SUCCESSFUL_BUILDS_KEPT := 10
  const FAILED_BUILDS_KEPT := 5

  /** A build Job: number label, build key, verdict annotations ("" for none), the
      two status conditions the controller reads, and whether it is being deleted. */
  datatype Job = Job(
    number: int,
    key: string,
    image: string,
    revision: string,
    failure: string,
    succeeded: bool,
    failed: bool,
    deleting: bool)

  datatype Ready = Yes | No | Unknown

  datatype Report = Report(build: int, ready: Ready, image: string, revision: string)

  const NO_REPORT := Report(0, Unknown, "", "")

  /** What the build container reported: never an empty image. */
  datatype Built = Built(image: string, revision: string)

  /** One pass: the build key, which calls go through, the outcome read from the
      build's pod with the message beside it, and the deletes that go through. */
  datatype BuildPass = BuildPass(
    key: string,
    createOk: bool,
    outcome: Option<Built>,
    message: string,
    annotateOk: bool,
    deleteOk: Job -> bool)

  predicate WellRead(p: BuildPass) { p.outcome.Some? ==> p.outcome.value.image != "" }

  // ---------- lists of builds

  function Last(s: seq<Job>): Job
    requires s != []
  {
    s[|s| - 1]
  }

  function Front(s: seq<Job>): seq<Job>
    requires s != []
  {
    s[..|s| - 1]
  }

  ghost predicate Strict(s: seq<Job>) {
    forall i, j :: 0 <= i < j < |s| ==> s[i].number < s[j].number
  }

  function Select(s: seq<Job>, f: Job -> bool): seq<Job> {
    if s == [] then [] else Select(Front(s), f) + (if f(Last(s)) then [Last(s)] else [])
  }

  function Kept(j: Job): bool { !j.deleting }

  /** The Jobs that are not being deleted. */
  function Live(jobs: seq<Job>): seq<Job> { Select(jobs, Kept) }

  predicate Succeeded(j: Job) { j.image != "" }

  predicate Lost(j: Job) { j.image == "" && (j.failure != "" || j.failed) }

  /** The newest image among builds. */
  function LastImage(s: seq<Job>): string {
    if s == [] then "" else if Last(s).image != "" then Last(s).image else LastImage(Front(s))
  }

  /** The number of the newest build with an image, 0 for none. */
  function ImageNumber(s: seq<Job>): int {
    if s == [] then 0 else if Last(s).image != "" then Last(s).number else ImageNumber(Front(s))
  }

  function Numbers(s: seq<Job>): set<int> { set j | j in s :: j.number }

  /** What one list gives up to its limit, oldest first. */
  function Excess(s: seq<Job>, keep: nat): seq<Job> {
    if |s| > keep then s[..|s| - keep] else []
  }

  function Doomed(builds: seq<Job>): seq<Job>
    requires builds != []
  {
    Excess(Select(Front(builds), Succeeded), SUCCESSFUL_BUILDS_KEPT)
    + Excess(Select(Front(builds), Lost), FAILED_BUILDS_KEPT)
  }

  /** Deleting goes from the front and stops at the first delete that fails. */
  function Deleted(doomed: seq<Job>, ok: Job -> bool): seq<Job> {
    if doomed == [] || !ok(doomed[0]) then [] else [doomed[0]] + Deleted(doomed[1..], ok)
  }

  function Marked(jobs: seq<Job>, gone: set<int>): seq<Job> {
    seq(|jobs|, i requires 0 <= i < |jobs| => if jobs[i].number in gone then jobs[i].(deleting := true) else jobs[i])
  }

  /** The Job with a verdict; what is "" stays as it is. */
  function Annotated(j: Job, image: string, revision: string, failure: string): Job {
    if image != "" then j.(image := image, revision := revision)
    else if failure != "" then j.(failure := failure)
    else j
  }

  function WithVerdict(jobs: seq<Job>, n: int, image: string, revision: string, failure: string): seq<Job> {
    seq(|jobs|, i requires 0 <= i < |jobs| =>
      if jobs[i].number == n then Annotated(jobs[i], image, revision, failure) else jobs[i])
  }

  // ---------- a pass as a function

  function OrElse(a: string, b: string): string { if a != "" then a else b }

  predicate HasVerdict(j: Job) { j.image != "" || j.failure != "" }

  predicate Finished(j: Job) { j.succeeded || j.failed }

  /** The newest build after the pass. */
  function Judged(j: Job, p: BuildPass): Job {
    if HasVerdict(j) || !Finished(j) then j
    else if j.succeeded && p.outcome.Some? then Annotated(j, p.outcome.value.image, p.outcome.value.revision, "")
    else
      var fallback := if j.succeeded then "build finished without reporting an image" else "build failed";
      Annotated(j, "", "", OrElse(p.message, fallback))
  }

  function JudgedAll(jobs: seq<Job>, n: int, p: BuildPass): seq<Job> {
    seq(|jobs|, i requires 0 <= i < |jobs| => if jobs[i].number == n then Judged(jobs[i], p) else jobs[i])
  }

  function NextNumber(builds: seq<Job>): int { if builds == [] then 1 else Last(builds).number + 1 }

  function NewJob(n: int, key: string): Job { Job(n, key, "", "", "", false, false, false) }

  predicate NeedsBuild(builds: seq<Job>, key: string) { builds == [] || Last(builds).key != key }

  function ReportOf(judged: Job, newest: string): Report {
    Report(judged.number,
           if judged.image != "" then Yes else if judged.failure != "" then No else Unknown,
           newest,
           if judged.image != "" then judged.revision else "")
  }

  datatype Outcome = Outcome(jobs: seq<Job>, report: Report, err: bool)

  /** The call a pass cannot do without fails: the creation of a build it needs, or the
      annotation of a verdict it came to. */
  predicate Stuck(jobs: seq<Job>, p: BuildPass) {
    var builds := Live(jobs);
    if NeedsBuild(builds, p.key) then NextNumber(builds) !in Numbers(jobs) && !p.createOk
    else Judged(Last(builds), p) != Last(builds) && !p.annotateOk
  }

  /** What is reported beside the error of a failed annotation. */
  function Unannotated(judged: Job): Report {
    Report(judged.number, if judged.image != "" then Unknown else No, "", "")
  }

  /** The whole pass. The image reported is, but for a stuck pass, the newest one there is
      once the newest build is judged. */
  function PassOf(jobs: seq<Job>, p: BuildPass): Outcome {
    var builds := Live(jobs);
    if NeedsBuild(builds, p.key) then
      var n := NextNumber(builds);
      if Stuck(jobs, p) then Outcome(jobs, NO_REPORT, true)
      else Outcome(if n in Numbers(jobs) then jobs else jobs + [NewJob(n, p.key)],
                   Report(n, Unknown, LastImage(builds), ""), false)
    else
      var latest := Last(builds);
      var judged := Judged(latest, p);
      if Stuck(jobs, p) then Outcome(jobs, Unannotated(judged), true)
      else
        var jobs1 := JudgedAll(jobs, latest.number, p);
        var doomed := Doomed(builds);
        Outcome(Marked(jobs1, Numbers(Deleted(doomed, p.deleteOk))),
                ReportOf(judged, LastImage(Live(jobs1))),
                |Deleted(doomed, p.deleteOk)| < |doomed|)
  }

  // ---------- small facts

  lemma {:induction false} SelectStrict(s: seq<Job>, f: Job -> bool)
    requires Strict(s)
    ensures Strict(Select(s, f))
    ensures forall j :: j in Select(s, f) <==> j in s && f(j)
  {
    if s != [] {
      SelectStrict(Front(s), f);
      assert s == Front(s) + [Last(s)];
      forall j | j in Select(Front(s), f) ensures j.number < Last(s).number {
        var i :| 0 <= i < |Front(s)| && Front(s)[i] == j;
        assert s[i] == j;
      }
    }
  }

  lemma LiveLast(jobs: seq<Job>)
    requires jobs != [] && !Last(jobs).deleting
    ensures Live(jobs) != [] && Last(Live(jobs)) == Last(jobs) && Front(Live(jobs)) == Live(Front(jobs))
  {}

  lemma {:induction false} SelectCounts(s: seq<Job>, f: Job -> bool, x: Job)
    ensures multiset(Select(s, f))[x] == if f(x) then multiset(s)[x] else 0
  {
    if s != [] {
      SelectCounts(Front(s), f, x);
      assert s == Front(s) + [Last(s)];
    }
  }

  function ByNumber(): (Job, Job) -> bool { (a: Job, b: Job) => a.number <= b.number }

  /** Whatever order the list comes in, filtering and sorting give the live Jobs in
      number order. */
  lemma SelectPermuted(items: seq<Job>, jobs: seq<Job>, f: Job -> bool)
    requires multiset(items) == multiset(jobs)
    ensures multiset(Select(items, f)) == multiset(Select(jobs, f))
  {
    forall x ensures multiset(Select(items, f))[x] == multiset(Select(jobs, f))[x] {
      SelectCounts(items, f, x);
      SelectCounts(jobs, f, x);
    }
  }

  lemma ByNumberPreorder()
    ensures TotalPreorder(ByNumber())
  {}

  lemma StrictIsSorted(jobs: seq<Job>)
    requires Strict(jobs)
    ensures SortedBy(jobs, ByNumber()) && Distinguishes(ByNumber(), jobs)
  {}

  lemma SortedLive(items: seq<Job>, jobs: seq<Job>, picked: seq<Job>)
    requires multiset(items) == multiset(jobs) && Strict(jobs) && picked == Select(items, Kept)
    ensures SortBy(picked, ByNumber()) == Live(jobs)
  {
    ByNumberPreorder();
    SortBySorts(picked, ByNumber());
    SelectStrict(jobs, Kept);
    SelectPermuted(items, jobs, Kept);
    StrictIsSorted(Live(jobs));
    hide Select, SortBy, Strict, SortedBy, Distinguishes, TotalPreorder;
    assert Live(jobs) == Select(jobs, Kept);
    SortedUnique(Live(jobs), SortBy(picked, ByNumber()), ByNumber());
  }

  lemma {:induction false} SelectAppend(s: seq<Job>, j: Job, f: Job -> bool)
    ensures Select(s + [j], f) == Select(s, f) + if f(j) then [j] else []
  {
    assert Front(s + [j]) == s;
  }

  // ---------- a pass as the controller runs it

  class BuildReconciler {
    var jobs: seq<Job>

    /** The app's build Jobs by number. */
    method BuildJobs(items: seq<Job>) returns (out: seq<Job>)
      requires multiset(items) == multiset(jobs) && Strict(jobs)
      ensures out == Live(jobs)
    {
      out := [];
      for i := 0 to |items|
        invariant out == Select(items[..i], Kept)
      {
        assert items[..i + 1] == items[..i] + [items[i]];
        SelectAppend(items[..i], items[i], Kept);
        if !items[i].deleting {
          out := out + [items[i]];
        }
      }
      assert items[..|items|] == items;
      SortedLive(items, jobs, out);
      out := SortBy(out, ByNumber());
    }

    method NewestImage(builds: seq<Job>) returns (image: string)
      ensures image == LastImage(builds)
    {
      var i := |builds|;
      assert builds[..|builds|] == builds;
      while i > 0
        invariant 0 <= i <= |builds|
        invariant LastImage(builds) == LastImage(builds[..i])
      {
        assert builds[..i][..i - 1] == builds[..i - 1];
        if builds[i - 1].image != "" {
          return builds[i - 1].image;
        }
        i := i - 1;
      }
      return "";
    }

    method AnnotateJob(n: int, image: string, revision: string, failure: string, ok: bool) returns (err: bool)
      modifies this
      ensures err == !ok
      ensures jobs == if ok then WithVerdict(old(jobs), n, image, revision, failure) else old(jobs)
    {
      if ok {
        jobs := WithVerdict(jobs, n, image, revision, failure);
      }
      return !ok;
    }

    /** Deletes from the front of a list until keep are left or a delete fails. */
    method DeleteOld(list0: seq<Job>, keep: nat, ok: Job -> bool) returns (err: bool)
      modifies this
      ensures jobs == Marked(old(jobs), Numbers(Deleted(Excess(list0, keep), ok)))
      ensures err <==> |Deleted(Excess(list0, keep), ok)| < |Excess(list0, keep)|
    {
      hide Deleted, Excess, Marked;
      var list := list0;
      ghost var gone: seq<Job> := [];
      NoneMarked(jobs);
      assert Deleted(Excess(list0, keep), ok) == gone + Deleted(Excess(list, keep), ok);
      while |list| > keep
        invariant jobs == Marked(old(jobs), Numbers(gone))
        invariant Deleted(Excess(list0, keep), ok) == gone + Deleted(Excess(list, keep), ok)
        invariant |Excess(list0, keep)| == |gone| + |Excess(list, keep)|
      {
        var j := list[0];
        ExcessStep(list, keep, ok);
        if !ok(j) {
          assert gone + [] == gone;
          return true;
        }
        MarkOne(old(jobs), gone, j);
        list := list[1..];
        jobs := Marked(jobs, {j.number});
        assert gone + ([j] + Deleted(Excess(list, keep), ok)) == (gone + [j]) + Deleted(Excess(list, keep), ok);
        gone := gone + [j];
      }
      NoExcess(list, keep, ok);
      assert gone + [] == gone;
      return false;
    }

    /** Deletes old finished builds beyond the limits; never the newest. */
    method PruneBuildJobs(builds: seq<Job>, ok: Job -> bool) returns (err: bool)
      modifies this
      ensures builds == [] ==> jobs == old(jobs) && !err
      ensures builds != [] ==>
                jobs == Marked(old(jobs), Numbers(Deleted(Doomed(builds), ok)))
                && (err <==> |Deleted(Doomed(builds), ok)| < |Doomed(builds)|)
    {
      hide Deleted, Excess, Marked;
      if builds == [] {
        return false;
      }
      var succeeded, failed: seq<Job> := [], [];
      var front := Front(builds);
      for i := 0 to |front|
        invariant succeeded == Select(front[..i], Succeeded) && failed == Select(front[..i], Lost)
        invariant jobs == old(jobs)
      {
        var j := front[i];
        assert front[..i + 1] == front[..i] + [j];
        SelectAppend(front[..i], j, Succeeded);
        SelectAppend(front[..i], j, Lost);
        if j.image != "" {
          succeeded := succeeded + [j];
        } else if j.failure != "" || j.failed {
          failed := failed + [j];
        }
      }
      assert front[..|front|] == front;
      err := DeleteOld(succeeded, SUCCESSFUL_BUILDS_KEPT, ok);
      DeleteInTwo(Excess(succeeded, SUCCESSFUL_BUILDS_KEPT), Excess(failed, FAILED_BUILDS_KEPT), ok);
      if err {
        return true;
      }
      MarkInTwo(old(jobs), Deleted(Excess(succeeded, SUCCESSFUL_BUILDS_KEPT), ok),
                Deleted(Excess(failed, FAILED_BUILDS_KEPT), ok));
      err := DeleteOld(failed, FAILED_BUILDS_KEPT, ok);
    }

    /** Judges a finished newest build, or reports the verdict it has. */
    method JudgeLatest(builds: seq<Job>, p: BuildPass) returns (st: Report, err: bool)
      requires Strict(jobs) && WellRead(p) && builds == Live(jobs) && builds != []
      modifies this
      ensures err <==> Judged(Last(builds), p) != Last(builds) && !p.annotateOk
      ensures jobs == if err then old(jobs) else JudgedAll(old(jobs), Last(builds).number, p)
      ensures st == if err then Unannotated(Judged(Last(builds), p))
                    else ReportOf(Judged(Last(builds), p), LastImage(Live(jobs)))
    {
      hide Live, JudgedAll, WithVerdict, LastImage, Strict;
      var latest := Last(builds);
      JudgedLatest(jobs, p);
      err := false;
      if latest.image != "" {
        Unjudged(jobs, p);
        return Report(latest.number, Yes, latest.image, latest.revision), false;
      }
      st := Report(latest.number, Unknown, "", "");
      if latest.failure != "" {
        Unjudged(jobs, p);
        st := st.(ready := No);
      } else if latest.succeeded {
        if p.outcome.None? {
          var failure := OrElse(p.message, "build finished without reporting an image");
          st := st.(ready := No);
          JudgedIsVerdict(jobs, p, "", "", failure);
          err := AnnotateJob(latest.number, "", "", failure, p.annotateOk);
          if err {
            return st, true;
          }
        } else {
          var built := p.outcome.value;
          JudgedIsVerdict(jobs, p, built.image, built.revision, "");
          err := AnnotateJob(latest.number, built.image, built.revision, "", p.annotateOk);
          if err {
            return st, true;
          }
          return st.(ready := Yes, image := built.image, revision := built.revision), false;
        }
      } else if latest.failed {
        var failure := OrElse(p.message, "build failed");
        st := st.(ready := No);
        JudgedIsVerdict(jobs, p, "", "", failure);
        err := AnnotateJob(latest.number, "", "", failure, p.annotateOk);
        if err {
          return st, true;
        }
      } else {
        Unjudged(jobs, p);
      }
      var fallback := NewestImage(Front(builds));
      return st.(image := fallback), false;
    }

    method ReconcileBuild(items: seq<Job>, p: BuildPass) returns (st: Report, err: bool)
      requires multiset(items) == multiset(jobs) && Strict(jobs) && WellRead(p)
      modifies this
      ensures var o := PassOf(old(jobs), p); jobs == o.jobs && err == o.err && st == o.report
    {
      hide Doomed, Deleted, Marked, Judged, JudgedAll, Live, LastImage, ReportOf, Unannotated;
      var builds := BuildJobs(items);
      if builds == [] || Last(builds).key != p.key {
        var n := 1;
        if builds != [] {
          n := Last(builds).number + 1;
        }
        var taken := n in Numbers(jobs);
        if !taken && !p.createOk {
          return NO_REPORT, true;
        }
        if !taken {
          jobs := jobs + [NewJob(n, p.key)];
        }
        var image := NewestImage(builds);
        return Report(n, Unknown, image, ""), false;
      }
      st, err := JudgeLatest(builds, p);
      if err {
        return st, true;
      }
      err := PruneBuildJobs(builds, p.deleteOk);
    }
  }

  lemma JudgedIsVerdict(jobs: seq<Job>, p: BuildPass, image: string, revision: string, failure: string)
    requires Strict(jobs) && Live(jobs) != []
    requires Judged(Last(Live(jobs)), p) == Annotated(Last(Live(jobs)), image, revision, failure)
    ensures var n := Last(Live(jobs)).number;
            JudgedAll(jobs, n, p) == WithVerdict(jobs, n, image, revision, failure)
  {
    hide Judged, Annotated, Live;
    LiveInJobs(jobs);
    OneOfItsNumber(jobs, Last(Live(jobs)));
  }

  lemma LiveInJobs(jobs: seq<Job>)
    requires Strict(jobs) && Live(jobs) != []
    ensures Last(Live(jobs)) in jobs && !Last(Live(jobs)).deleting
  {
    SelectStrict(jobs, Kept);
    assert Last(Live(jobs)) in Live(jobs);
  }

  lemma OneOfItsNumber(jobs: seq<Job>, latest: Job)
    requires Strict(jobs) && latest in jobs
    ensures forall i :: 0 <= i < |jobs| && jobs[i].number == latest.number ==> jobs[i] == latest
  {}

  lemma Unjudged(jobs: seq<Job>, p: BuildPass)
    requires Strict(jobs) && Live(jobs) != []
    requires var latest := Last(Live(jobs)); HasVerdict(latest) || !Finished(latest)
    ensures JudgedAll(jobs, Last(Live(jobs)).number, p) == jobs
  {
    SelectStrict(jobs, Kept);
    OneOfItsNumber(jobs, Last(Live(jobs)));
  }

  /** Judging the newest build changes the last of the live ones and no other. */
  lemma JudgedLatest(jobs: seq<Job>, p: BuildPass)
    requires Strict(jobs) && Live(jobs) != []
    ensures var latest := Last(Live(jobs));
            && Live(JudgedAll(jobs, latest.number, p)) == Front(Live(jobs)) + [Judged(latest, p)]
            && LastImage(Live(JudgedAll(jobs, latest.number, p))) ==
               if Judged(latest, p).image != "" then Judged(latest, p).image else LastImage(Front(Live(jobs)))
  {
    hide Judged;
    SelectStrict(jobs, Kept);
    JudgedLive(jobs, Last(Live(jobs)).number, p);
    assert Front(Front(Live(jobs)) + [Judged(Last(Live(jobs)), p)]) == Front(Live(jobs));
  }

  lemma {:induction false} JudgedLive(jobs: seq<Job>, n: int, p: BuildPass)
    ensures Live(JudgedAll(jobs, n, p)) == JudgedAll(Live(jobs), n, p)
  {
    if jobs != [] {
      JudgedLive(Front(jobs), n, p);
      assert Front(JudgedAll(jobs, n, p)) == JudgedAll(Front(jobs), n, p);
    }
  }

  lemma NoneMarked(jobs: seq<Job>)
    ensures Marked(jobs, Numbers([])) == jobs
  {}

  lemma ExcessStep(list: seq<Job>, keep: nat, ok: Job -> bool)
    requires |list| > keep
    ensures Excess(list, keep) == [list[0]] + Excess(list[1..], keep)
    ensures Deleted(Excess(list, keep), ok)
         == if ok(list[0]) then [list[0]] + Deleted(Excess(list[1..], keep), ok) else []
  {
    assert Excess(list, keep)[1..] == Excess(list[1..], keep);
  }

  lemma NoExcess(list: seq<Job>, keep: nat, ok: Job -> bool)
    requires |list| <= keep
    ensures Excess(list, keep) == [] && Deleted(Excess(list, keep), ok) == []
  {}

  lemma MarkOne(jobs: seq<Job>, gone: seq<Job>, j: Job)
    ensures Marked(Marked(jobs, Numbers(gone)), {j.number}) == Marked(jobs, Numbers(gone + [j]))
  {
    assert Numbers(gone + [j]) == Numbers(gone) + {j.number};
  }

  lemma MarkInTwo(jobs: seq<Job>, a: seq<Job>, b: seq<Job>)
    ensures Marked(Marked(jobs, Numbers(a)), Numbers(b)) == Marked(jobs, Numbers(a + b))
  {
    assert Numbers(a + b) == Numbers(a) + Numbers(b);
  }

  lemma DeletedStep(doomed: seq<Job>, ok: Job -> bool)
    ensures doomed == [] ==> Deleted(doomed, ok) == []
    ensures doomed != [] ==>
            Deleted(doomed, ok) == if ok(doomed[0]) then [doomed[0]] + Deleted(doomed[1..], ok) else []
  {}

  lemma {:induction false} DeleteInTwo(a: seq<Job>, b: seq<Job>, ok: Job -> bool)
    ensures |Deleted(a, ok)| <= |a|
    ensures |Deleted(a, ok)| < |a| ==> Deleted(a + b, ok) == Deleted(a, ok)
    ensures |Deleted(a, ok)| == |a| ==> Deleted(a + b, ok) == Deleted(a, ok) + Deleted(b, ok)
    decreases |a|
  {
    DeletedStep(a, ok);
    DeletedStep(a + b, ok);
    hide Deleted;
    if a == [] {
      assert a + b == b;
    } else {
      assert (a + b)[1..] == a[1..] + b;
      DeleteInTwo(a[1..], b, ok);
    }
  }
}
