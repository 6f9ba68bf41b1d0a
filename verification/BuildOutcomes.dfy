/** What one pass over the build Jobs does, in every reachable state, said of the Jobs
    themselves (internal/controller/dockerfile.go:52-157, 259-286). */
module BuildOutcomes {
  import opened Basics
  import opened BuildJobs
  import opened BuildRuns

  // ---------- a new key

  /** A pass starts a build exactly when the newest Job has another key, or there is no Job,
      and the creation goes through. The new Job has the key and the next number, and
      is reported as not decided; if its creation fails, nothing is, and the pass errs. */
  lemma NewKeyIsBuilt(s: Builds, p: BuildPass)
    requires Inv(s)
    ensures var t, o, n := Next(s, Pass(p)), PassOf(s.jobs, p), |s.created| + 1;
            var wanted := s.jobs == [] || s.jobs[|s.jobs| - 1].key != p.key;
            && (|t.created| > |s.created| <==> wanted && p.createOk)
            && (wanted && p.createOk ==>
                  && t.created == s.created + [n]
                  && t.jobs == s.jobs + [Job(n, p.key, "", "", "", false, false, false)]
                  && o.report.build == n && o.report.ready == Unknown && o.report.revision == "" && !o.err)
            && (wanted && !p.createOk ==> t == s && o.err && o.report == Report(0, Unknown, "", ""))
            && (!wanted ==> |t.jobs| == |s.jobs| && o.report.build == |s.created|)
  {
    NewestIsLive(s);
    hide Judged, Doomed, Deleted, Live, Marked, JudgedAll, LastImage;
    if s.jobs != [] {
      forall j: Job ensures Judged(j, p).number == j.number { JudgedKeeps(j, p); }
    }
  }

  // ---------- the newest build

  /** What a pass makes of the newest build, and reports of it, when its key is wanted: a
      verdict it has, or that it still runs, is reported; a success whose outcome could
      be read gets the image; any other end gets a failure, what the container said or
      else a word for it; and where the verdict cannot be written, none is. */
  lemma NewestIsJudged(s: Builds, p: BuildPass)
    requires Inv(s) && WellRead(p) && s.jobs != [] && s.jobs[|s.jobs| - 1].key == p.key
    ensures var j, t, o := s.jobs[|s.jobs| - 1], Next(s, Pass(p)), PassOf(s.jobs, p);
            |t.jobs| == |s.jobs| &&
            var after := t.jobs[|s.jobs| - 1];
            if j.image != "" then
              after == j && o.report.ready == Yes && o.report.image == j.image && o.report.revision == j.revision
            else if j.failure != "" then after == j && o.report.ready == No
            else if !j.succeeded && !j.failed then after == j && o.report.ready == Unknown
            else if !p.annotateOk then
              && t == s && o.err
              && o.report == Report(j.number, if j.succeeded && p.outcome.Some? then Unknown else No, "", "")
            else if j.succeeded && p.outcome.Some? then
              && after == j.(image := p.outcome.value.image, revision := p.outcome.value.revision)
              && o.report == Report(j.number, Yes, p.outcome.value.image, p.outcome.value.revision)
            else
              && after == j.(failure := if p.message != "" then p.message
                                        else if j.succeeded then "build finished without reporting an image"
                                        else "build failed")
              && o.report.ready == No && o.report.revision == ""
  {
    NewestIsLive(s);
    var j := Last(s.jobs);
    var gone := Numbers(Deleted(Doomed(Live(s.jobs)), p.deleteOk));
    NewestNotGone(s, p);
    hide Doomed, Deleted, Inv, Numbers;
    if !Stuck(s.jobs, p) {
      TouchedAll(s.jobs, |s.created|, gone, p);
      if Judged(j, p).image != "" { NewestImageIsLast(s, p); }
    }
  }

  lemma NewestImageIsLast(s: Builds, p: BuildPass)
    requires Inv(s) && s.jobs != [] && Judged(Last(s.jobs), p).image != ""
    ensures LastImage(Live(JudgedAll(s.jobs, |s.created|, p))) == Judged(Last(s.jobs), p).image
  {
    var all := JudgedAll(s.jobs, |s.created|, p);
    JudgedKeeps(Last(s.jobs), p);
    assert Last(all) == Judged(Last(s.jobs), p);
    hide Judged;
    LiveLast(all);
  }

  // ---------- pruning

  predicate IsLost(j: Job) { j.image == "" && (j.failure != "" || j.failed) }

  function Both(f: Job -> bool): Job -> bool { (j: Job) => !j.deleting && f(j) }

  lemma BothIs(f: Job -> bool, j: Job)
    ensures Both(f)(j) <==> !j.deleting && f(j)
  {}

  lemma {:induction false} SelectTwice(s: seq<Job>, f: Job -> bool)
    ensures Select(Select(s, Kept), f) == Select(s, Both(f))
  {
    if s != [] {
      SelectTwice(Front(s), f);
      var kept := Select(Front(s), Kept);
      if !Last(s).deleting {
        assert Front(kept + [Last(s)]) == kept && Last(kept + [Last(s)]) == Last(s);
      } else {
        assert kept + [] == kept;
      }
    }
  }

  /** Where a selected Job stands in the selection, and how many come after it. */
  lemma {:induction false} Rank(s: seq<Job>, g: Job -> bool, i: nat) returns (r: nat)
    requires i < |s| && g(s[i])
    ensures r < |Select(s, g)| && Select(s, g)[r] == s[i]
    ensures |Select(s, g)| - 1 - r == |set k | i < k < |s| && g(s[k])|
  {
    var later := set k | i < k < |s| && g(s[k]);
    if i == |s| - 1 {
      r := |Select(Front(s), g)|;
      assert later == {};
    } else {
      r := Rank(Front(s), g, i);
      var before := set k | i < k < |Front(s)| && g(Front(s)[k]);
      if g(Last(s)) {
        assert later == before + {|s| - 1};
      } else {
        assert later == before;
      }
    }
  }

  /** A Job is in the excess of a selection exactly when it is selected and keep others
      after it are. */
  lemma ExcessExactly(s: seq<Job>, g: Job -> bool, keep: nat, i: nat)
    requires Strict(s) && i < |s|
    ensures s[i] in Excess(Select(s, g), keep) <==> g(s[i]) && |set k | i < k < |s| && g(s[k])| >= keep
  {
    SelectStrict(s, g);
    var sel := Select(s, g);
    ExcessIsPart(sel, keep);
    hide Select;
    if g(s[i]) {
      var r := Rank(s, g, i);
      if s[i] in Excess(sel, keep) {
        var q: nat :| q < |sel| - keep && sel[q] == s[i];
        assert q == r;
      }
    }
  }

  lemma ExcessIsPart(s: seq<Job>, keep: nat)
    ensures forall j :: j in Excess(s, keep) ==> j in s
  {}

  lemma {:induction false} AllDeleted(doomed: seq<Job>, ok: Job -> bool)
    requires forall j :: ok(j)
    ensures Deleted(doomed, ok) == doomed
  {
    if doomed != [] { AllDeleted(doomed[1..], ok); }
  }

  /** The older Jobs after i that are live and have an image, or are lost. */
  lemma LaterOnes(jobs: seq<Job>, i: nat)
    requires jobs != []
    ensures var f, older := Front(jobs), |jobs| - 1;
            && (set k | i < k < |f| && Both(Succeeded)(f[k])) ==
               (set k | i < k < older && !jobs[k].deleting && jobs[k].image != "")
            && (set k | i < k < |f| && Both(Lost)(f[k])) ==
               (set k | i < k < older && !jobs[k].deleting && IsLost(jobs[k]))
  {
    var f, older := Front(jobs), |jobs| - 1;
    forall k | 0 <= k < older
      ensures Both(Succeeded)(f[k]) <==> !jobs[k].deleting && jobs[k].image != ""
      ensures Both(Lost)(f[k]) <==> !jobs[k].deleting && IsLost(jobs[k])
    {
      BothIs(Succeeded, f[k]);
      BothIs(Lost, f[k]);
    }
  }

  lemma DoomedOlder(jobs: seq<Job>)
    requires jobs != [] && !Last(jobs).deleting
    ensures Doomed(Live(jobs))
         == Excess(Select(Front(jobs), Both(Succeeded)), 10) + Excess(Select(Front(jobs), Both(Lost)), 5)
  {
    LiveLast(jobs);
    SelectTwice(Front(jobs), Succeeded);
    SelectTwice(Front(jobs), Lost);
  }

  lemma DoomedExactly(jobs: seq<Job>, i: nat)
    requires Strict(jobs) && jobs != [] && !Last(jobs).deleting && i < |jobs|
    ensures jobs[i].number in Numbers(Doomed(Live(jobs))) <==> Surplus(jobs, i)
  {
    var f := Front(jobs);
    var imaged, lost := Excess(Select(f, Both(Succeeded)), 10), Excess(Select(f, Both(Lost)), 5);
    DoomedOlder(jobs);
    InFront(f, imaged, Both(Succeeded), 10);
    InFront(f, lost, Both(Lost), 5);
    LaterOnes(jobs, i);
    if i < |f| {
      ExcessExactly(f, Both(Succeeded), 10, i);
      ExcessExactly(f, Both(Lost), 5, i);
      BothIs(Succeeded, f[i]);
      BothIs(Lost, f[i]);
      SameNumberSame(f, imaged + lost, i);
      hide Live, Doomed, Select, Excess, Numbers;
    } else {
      hide Live, Doomed, Select, Excess;
      forall j: Job | j in imaged + lost ensures j.number != jobs[i].number {
        var k: nat :| k < |f| && f[k] == j;
        assert jobs[k].number < jobs[i].number;
      }
    }
  }

  lemma InFront(s: seq<Job>, out: seq<Job>, g: Job -> bool, keep: nat)
    requires Strict(s) && out == Excess(Select(s, g), keep)
    ensures forall j :: j in out ==> j in s
  {
    SelectStrict(s, g);
  }

  lemma SameNumberSame(s: seq<Job>, out: seq<Job>, i: nat)
    requires Strict(s) && i < |s| && forall j :: j in out ==> j in s
    ensures s[i].number in Numbers(out) <==> s[i] in out
  {
    if j :| j in out && j.number == s[i].number {
      var k :| 0 <= k < |s| && s[k] == j;
      assert !(k < i) && !(i < k);
    }
  }

  /** The Job at i is older than the newest, live, and one too many: it has an image and ten
      newer older ones have one, or it failed and five newer older ones did. */
  predicate Surplus(jobs: seq<Job>, i: nat)
    requires i < |jobs|
  {
    var older := |jobs| - 1;
    i < older && !jobs[i].deleting
    && (|| (jobs[i].image != "" && |set k | i < k < older && !jobs[k].deleting && jobs[k].image != ""| >= 10)
        || (IsLost(jobs[i]) && |set k | i < k < older && !jobs[k].deleting && IsLost(jobs[k])| >= 5))
  }

  lemma JudgingPass(s: Builds, p: BuildPass)
    requires Inv(s) && s.jobs != [] && s.jobs[|s.jobs| - 1].key == p.key && p.annotateOk
    ensures var doomed, o := Doomed(Live(s.jobs)), PassOf(s.jobs, p);
            && o.jobs == Marked(JudgedAll(s.jobs, |s.created|, p), Numbers(Deleted(doomed, p.deleteOk)))
            && o.err == (|Deleted(doomed, p.deleteOk)| < |doomed|)
  {
    NewestIsLive(s);
    hide Judged, Doomed, Deleted, Live, Inv, Numbers, LastImage, ReportOf, Marked, JudgedAll;
  }

  lemma MarkedAt(jobs: seq<Job>, n: int, p: BuildPass, gone: set<int>, i: nat)
    requires i < |jobs|
    ensures var after := Marked(JudgedAll(jobs, n, p), gone);
            |after| == |jobs| && (after[i].deleting <==> jobs[i].deleting || jobs[i].number in gone)
  {
    JudgedKeeps(jobs[i], p);
    hide Judged;
  }

  /** Which Jobs a pass deletes when it judges and every delete goes through: older ones
      with an image when ten newer older ones have one, and older failed ones when five
      newer older ones failed. Those already on their way out do not count. */
  lemma PrunesExactly(s: Builds, p: BuildPass, i: nat)
    requires Inv(s) && s.jobs != [] && s.jobs[|s.jobs| - 1].key == p.key && i < |s.jobs|
    requires p.annotateOk && forall j :: p.deleteOk(j)
    ensures var t := Next(s, Pass(p));
            |t.jobs| == |s.jobs| && (t.jobs[i].deleting <==> s.jobs[i].deleting || Surplus(s.jobs, i))
  {
    JudgingPass(s, p);
    AllDeleted(Doomed(Live(s.jobs)), p.deleteOk);
    DoomedExactly(s.jobs, i);
    hide Doomed, Live, Deleted, PassOf, Marked, JudgedAll, Numbers, IsLost;
    MarkedAt(s.jobs, |s.created|, p, Numbers(Doomed(Live(s.jobs))), i);
  }

  lemma {:induction false} StopsAtFailure(doomed: seq<Job>, ok: Job -> bool)
    ensures |Deleted(doomed, ok)| <= |doomed|
    ensures |Deleted(doomed, ok)| < |doomed| <==> exists j :: j in doomed && !ok(j)
  {
    if doomed != [] && ok(doomed[0]) {
      StopsAtFailure(doomed[1..], ok);
      assert forall j :: j in doomed <==> j == doomed[0] || j in doomed[1..];
    }
  }

  lemma DoomedAreJobs(jobs: seq<Job>)
    requires Strict(jobs) && jobs != [] && !Last(jobs).deleting
    ensures forall j :: j in Doomed(Live(jobs)) ==> j in jobs
  {
    DoomedOlder(jobs);
    var f := Front(jobs);
    InFront(f, Excess(Select(f, Both(Succeeded)), 10), Both(Succeeded), 10);
    InFront(f, Excess(Select(f, Both(Lost)), 5), Both(Lost), 5);
    hide Excess, Select, Doomed, Live;
    assert jobs == f + [Last(jobs)];
  }

  /** A pass that judges returns an error exactly when deleting one of the surplus Jobs
      fails. */
  lemma FailedDeleteIsReturned(s: Builds, p: BuildPass)
    requires Inv(s) && s.jobs != [] && s.jobs[|s.jobs| - 1].key == p.key && p.annotateOk
    ensures PassOf(s.jobs, p).err <==> exists i: nat :: i < |s.jobs| && Surplus(s.jobs, i) && !p.deleteOk(s.jobs[i])
  {
    var doomed := Doomed(Live(s.jobs));
    JudgingPass(s, p);
    StopsAtFailure(doomed, p.deleteOk);
    DoomedAreJobs(s.jobs);
    hide Doomed, Live, Deleted, PassOf, Surplus;
    forall i: nat | i < |s.jobs| ensures s.jobs[i] in doomed <==> Surplus(s.jobs, i) {
      DoomedIsSurplus(s.jobs, i);
    }
    if j :| j in doomed && !p.deleteOk(j) {
      var i: nat :| i < |s.jobs| && s.jobs[i] == j;
      assert Surplus(s.jobs, i);
    }
  }

  lemma DoomedIsSurplus(jobs: seq<Job>, i: nat)
    requires Strict(jobs) && jobs != [] && !Last(jobs).deleting && i < |jobs|
    ensures jobs[i] in Doomed(Live(jobs)) <==> Surplus(jobs, i)
  {
    DoomedExactly(jobs, i);
    DoomedAreJobs(jobs);
    hide Doomed, Live;
    SameNumberSame(jobs, Doomed(Live(jobs)), i);
  }
}
