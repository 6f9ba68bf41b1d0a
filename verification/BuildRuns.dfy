/** What holds of Dockerfile builds over every run of passes, build progress and
    vanishing Jobs (internal/controller/dockerfile.go:52-157, 248-286). */
module BuildRuns {
  import opened Basics
  import opened BuildJobs

  /** The Jobs in number order; created lists the numbers ever created. */
  datatype Builds = Builds(jobs: seq<Job>, created: seq<int>)

  datatype Step =
    | Pass(p: BuildPass)
    | Progress(n: int, succeeded: bool, failed: bool)
    | Vanish(n: int)

  function Progressed(jobs: seq<Job>, n: int, succeeded: bool, failed: bool): seq<Job> {
    seq(|jobs|, i requires 0 <= i < |jobs| =>
      if jobs[i].number == n then jobs[i].(succeeded := succeeded, failed := failed) else jobs[i])
  }

  /** A Job that is being deleted goes. */
  function Without(jobs: seq<Job>, n: int): seq<Job> { Select(jobs, Stays(n)) }

  function Stays(n: int): Job -> bool { (j: Job) => !(j.deleting && j.number == n) }

  function Next(s: Builds, step: Step): Builds {
    match step
    case Pass(p) =>
      var after := PassOf(s.jobs, p).jobs;
      Builds(after, if |after| > |s.jobs| then s.created + [Last(after).number] else s.created)
    case Progress(n, succeeded, failed) => s.(jobs := Progressed(s.jobs, n, succeeded, failed))
    case Vanish(n) => s.(jobs := Without(s.jobs, n))
  }

  function Run(s: Builds, steps: seq<Step>): Builds
    decreases |steps|
  {
    if steps == [] then s else Run(Next(s, steps[0]), steps[1..])
  }

  const NO_BUILDS := Builds([], [])

  ghost predicate AllWellRead(steps: seq<Step>) {
    forall i :: 0 <= i < |steps| && steps[i].Pass? ==> WellRead(steps[i].p)
  }

  ghost predicate Inv(s: Builds) {
    && Strict(s.jobs)
    && (forall i :: 0 <= i < |s.created| ==> s.created[i] == i + 1)
    && (forall j :: j in s.jobs ==> 0 < j.number <= |s.created|)
    && (s.jobs == [] <==> s.created == [])
    && (s.jobs != [] ==> !Last(s.jobs).deleting && Last(s.jobs).number == |s.created|)
  }

  // ---------- the shape of a pass

  /** What a pass that starts no build does to one Job. */
  function Touched(j: Job, newest: int, gone: set<int>, p: BuildPass): Job {
    var judged := if j.number == newest then Judged(j, p) else j;
    if j.number in gone then judged.(deleting := true) else judged
  }

  lemma NewestIsLive(s: Builds)
    requires Inv(s)
    ensures s.jobs == [] ==> Live(s.jobs) == []
    ensures s.jobs != [] ==>
              Live(s.jobs) != [] && Last(Live(s.jobs)) == Last(s.jobs) && Last(s.jobs).number == |s.created|
    ensures NextNumber(Live(s.jobs)) == |s.created| + 1 && |s.created| + 1 !in Numbers(s.jobs)
  {
    if s.jobs != [] { LiveLast(s.jobs); }
  }

  lemma TouchedAll(jobs: seq<Job>, newest: int, gone: set<int>, p: BuildPass)
    ensures var after := Marked(JudgedAll(jobs, newest, p), gone);
            |after| == |jobs| && forall i :: 0 <= i < |after| ==> after[i] == Touched(jobs[i], newest, gone, p)
  {
    forall i | 0 <= i < |jobs| ensures Judged(jobs[i], p).number == jobs[i].number { JudgedKeeps(jobs[i], p); }
    hide Judged;
  }

  /** A pass changes nothing, appends one new build, or touches Jobs one by one. */
  lemma PassShape(s: Builds, p: BuildPass)
    requires Inv(s)
    ensures var after := PassOf(s.jobs, p).jobs;
            if NeedsBuild(Live(s.jobs), p.key) then
              after == s.jobs || after == s.jobs + [NewJob(|s.created| + 1, p.key)]
            else
              && s.jobs != [] && Last(Live(s.jobs)) == Last(s.jobs) && |after| == |s.jobs|
              && (after == s.jobs ||
                  var gone := Numbers(Deleted(Doomed(Live(s.jobs)), p.deleteOk));
                  forall i :: 0 <= i < |after| ==> after[i] == Touched(s.jobs[i], |s.created|, gone, p))
  {
    NewestIsLive(s);
    hide Judged, Doomed, Deleted, Live, Inv, Numbers, Marked, JudgedAll, Touched, LastImage, NextNumber;
    if !NeedsBuild(Live(s.jobs), p.key) {
      TouchedAll(s.jobs, |s.created|, Numbers(Deleted(Doomed(Live(s.jobs)), p.deleteOk)), p);
    }
  }

  /** What is deleted is older than the newest build, live, and judged or failed. */
  lemma DoomedAreOld(builds: seq<Job>, ok: Job -> bool)
    requires Strict(builds) && builds != []
    ensures forall j :: j in Deleted(Doomed(builds), ok) ==>
              j in builds && j.number < Last(builds).number && (Succeeded(j) || Lost(j))
  {
    var front := Front(builds);
    SelectStrict(front, Succeeded);
    SelectStrict(front, Lost);
    DeletedAreDoomed(Doomed(builds), ok);
    forall j | j in Doomed(builds) ensures j in front && (Succeeded(j) || Lost(j)) {
      assert j in Select(front, Succeeded) || j in Select(front, Lost);
    }
    forall j | j in front ensures j.number < Last(builds).number {
      var i :| 0 <= i < |front| && front[i] == j;
      assert builds[i] == j;
    }
  }

  lemma {:induction false} DeletedAreDoomed(doomed: seq<Job>, ok: Job -> bool)
    ensures forall j :: j in Deleted(doomed, ok) ==> j in doomed
  {
    if doomed != [] { DeletedAreDoomed(doomed[1..], ok); }
  }

  lemma LiveOf(jobs: seq<Job>)
    requires Strict(jobs)
    ensures Strict(Live(jobs))
    ensures forall j :: j in Live(jobs) <==> j in jobs && !j.deleting
  {
    SelectStrict(jobs, Kept);
  }

  lemma NewestNotGone(s: Builds, p: BuildPass)
    requires Inv(s) && s.jobs != []
    ensures |s.created| !in Numbers(Deleted(Doomed(Live(s.jobs)), p.deleteOk))
  {
    hide Doomed, Deleted;
    LiveLast(s.jobs);
    LiveOf(s.jobs);
    DoomedAreOld(Live(s.jobs), p.deleteOk);
  }

  // ---------- the invariant

  lemma JudgedKeeps(j: Job, p: BuildPass)
    ensures var t := Judged(j, p); t.number == j.number && t.key == j.key && t.deleting == j.deleting
    ensures HasVerdict(j) ==> Judged(j, p) == j
  {}

  /** A pass appends one new build or leaves numbers as they are, and marks no newest one. */
  lemma PassNumbers(s: Builds, p: BuildPass)
    requires Inv(s) && WellRead(p)
    ensures var after := PassOf(s.jobs, p).jobs;
            || after == s.jobs + [NewJob(|s.created| + 1, p.key)]
            || (&& |after| == |s.jobs|
                && (forall i :: 0 <= i < |after| ==> after[i].number == s.jobs[i].number)
                && (after != [] ==> Last(after).deleting == Last(s.jobs).deleting))
  {
    PassShape(s, p);
    if s.jobs != [] { NewestNotGone(s, p); }
    hide Judged, Doomed, Deleted, PassOf, Live, Numbers, NeedsBuild;
    forall i | 0 <= i < |s.jobs|
      ensures Judged(s.jobs[i], p).number == s.jobs[i].number && Judged(s.jobs[i], p).deleting == s.jobs[i].deleting
    {
      JudgedKeeps(s.jobs[i], p);
    }
  }

  lemma SameNumbersKeep(s: Builds, after: seq<Job>)
    requires Inv(s) && |after| == |s.jobs| && forall i :: 0 <= i < |after| ==> after[i].number == s.jobs[i].number
    requires after != [] ==> Last(after).deleting == Last(s.jobs).deleting
    ensures Inv(Builds(after, s.created))
  {
    forall j | j in after ensures 0 < j.number <= |s.created| {
      var i :| 0 <= i < |after| && after[i] == j;
      assert s.jobs[i] in s.jobs;
    }
  }

  lemma OneMoreKeeps(s: Builds, key: string)
    requires Inv(s)
    ensures Inv(Builds(s.jobs + [NewJob(|s.created| + 1, key)], s.created + [|s.created| + 1]))
  {
    var after := s.jobs + [NewJob(|s.created| + 1, key)];
    forall i, k | 0 <= i < k < |after| ensures after[i].number < after[k].number {
      assert s.jobs[i] in s.jobs;
    }
  }

  lemma PassKeeps(s: Builds, p: BuildPass)
    requires Inv(s) && WellRead(p)
    ensures Inv(Next(s, Pass(p)))
  {
    PassNumbers(s, p);
    hide PassOf, Inv;
    var after := PassOf(s.jobs, p).jobs;
    if |after| == |s.jobs| {
      SameNumbersKeep(s, after);
    } else {
      OneMoreKeeps(s, p.key);
      assert Last(after) == NewJob(|s.created| + 1, p.key);
    }
  }

  lemma SelectLast(s: seq<Job>, f: Job -> bool)
    requires s != []
    ensures Select(s, f) == Select(Front(s), f) + if f(Last(s)) then [Last(s)] else []
    ensures s == Front(s) + [Last(s)]
  {}

  lemma LiveEnd(s: seq<Job>)
    requires s != []
    ensures Live(s) == Live(Front(s)) + if Last(s).deleting then [] else [Last(s)]
  {}

  lemma ProgressedSame(jobs: seq<Job>, n: int, succeeded: bool, failed: bool)
    ensures var t := Progressed(jobs, n, succeeded, failed);
            && |t| == |jobs|
            && forall i :: 0 <= i < |t| ==> t[i].number == jobs[i].number && t[i].deleting == jobs[i].deleting
  {}

  lemma ProgressKeeps(s: Builds, n: int, succeeded: bool, failed: bool)
    requires Inv(s)
    ensures Inv(Next(s, Progress(n, succeeded, failed)))
  {
    ProgressedSame(s.jobs, n, succeeded, failed);
    hide Progressed, Inv;
    SameNumbersKeep(s, Progressed(s.jobs, n, succeeded, failed));
  }

  /** The last Job is not on its way out, so it stays the last. */
  lemma VanishedShape(jobs: seq<Job>, n: int)
    requires Strict(jobs) && jobs != [] && !Last(jobs).deleting
    ensures var t := Without(jobs, n);
            t != [] && Last(t) == Last(jobs) && Strict(t) && forall j :: j in t ==> j in jobs
  {
    SelectStrict(jobs, Stays(n));
    SelectLast(jobs, Stays(n));
    var front := Select(Front(jobs), Stays(n));
    hide Select, Strict;
    assert Stays(n)(Last(jobs));
    assert Without(jobs, n) == front + [Last(jobs)];
  }

  lemma VanishKeeps(s: Builds, n: int)
    requires Inv(s)
    ensures Inv(Next(s, Vanish(n)))
  {
    if s.jobs == [] {
      assert Without([], n) == [];
    } else {
      VanishedShape(s.jobs, n);
      hide Without, Strict;
    }
  }

  lemma StepKeeps(s: Builds, step: Step)
    requires Inv(s) && (step.Pass? ==> WellRead(step.p))
    ensures Inv(Next(s, step))
  {
    hide Inv, Next;
    match step {
      case Pass(p) => PassKeeps(s, p);
      case Progress(n, succeeded, failed) => ProgressKeeps(s, n, succeeded, failed);
      case Vanish(n) => VanishKeeps(s, n);
    }
  }

  lemma {:induction false} RunKeeps(s: Builds, steps: seq<Step>)
    requires Inv(s) && AllWellRead(steps)
    ensures Inv(Run(s, steps))
    decreases |steps|
  {
    hide Inv, Next;
    if steps != [] {
      StepKeeps(s, steps[0]);
      RunKeeps(Next(s, steps[0]), steps[1..]);
    }
  }

  /** Builds are numbered 1, 2, 3, ... in the order they are created, and no number
      comes twice, although old Jobs go. */
  lemma NumbersAreNeverReused(steps: seq<Step>)
    requires AllWellRead(steps)
    ensures var s := Run(NO_BUILDS, steps);
            && (forall i :: 0 <= i < |s.created| ==> s.created[i] == i + 1)
            && (s.created != [] ==> s.jobs != [] && Last(s.jobs).number == |s.created| && !Last(s.jobs).deleting)
  {
    RunKeeps(NO_BUILDS, steps);
  }

  // ---------- one job per key

  ghost predicate OneKey(steps: seq<Step>, key: string) {
    forall i :: 0 <= i < |steps| && steps[i].Pass? ==> steps[i].p.key == key
  }

  predicate Asked(s: Builds, key: string) { s.jobs != [] && Last(s.jobs).key == key }

  lemma LastStays(s: Builds, n: int)
    requires Inv(s) && s.jobs != []
    ensures Without(s.jobs, n) != [] && Last(Without(s.jobs, n)) == Last(s.jobs)
  {
    SelectLast(s.jobs, Stays(n));
  }

  lemma StepCreates(s: Builds, step: Step, key: string)
    requires Inv(s) && (step.Pass? ==> WellRead(step.p) && step.p.key == key)
    ensures var t := Next(s, step);
            && |s.created| <= |t.created| <= |s.created| + (if Asked(s, key) then 0 else 1)
            && (Asked(s, key) || |t.created| > |s.created| ==> Asked(t, key))
  {
    hide Judged, Doomed, Deleted, PassOf;
    match step {
      case Pass(p) =>
        PassShape(s, p);
        if s.jobs != [] {
          LiveLast(s.jobs);
          JudgedKeeps(Last(s.jobs), p);
        }
      case Progress(_, _, _) =>
      case Vanish(n) => if s.jobs != [] { LastStays(s, n); }
    }
  }

  /** While the build key stays the same, however often passes run, fail or are cut
      short, they create one Job at most. */
  lemma {:induction false} SameKeyOneJob(s: Builds, steps: seq<Step>, key: string)
    requires Inv(s) && AllWellRead(steps) && OneKey(steps, key)
    ensures |s.created| <= |Run(s, steps).created| <= |s.created| + if Asked(s, key) then 0 else 1
    decreases |steps|
  {
    hide Inv, Next;
    if steps != [] {
      StepKeeps(s, steps[0]);
      StepCreates(s, steps[0], key);
      SameKeyOneJob(Next(s, steps[0]), steps[1..], key);
    }
  }

  // ---------- verdicts

  function Find(jobs: seq<Job>, n: int): Option<Job> {
    if jobs == [] then None else if Last(jobs).number == n then Some(Last(jobs)) else Find(Front(jobs), n)
  }

  lemma {:induction false} FindExactly(jobs: seq<Job>, n: int)
    requires Strict(jobs)
    ensures forall j :: j in jobs && j.number == n ==> Find(jobs, n) == Some(j)
    ensures Find(jobs, n).Some? ==> Find(jobs, n).value in jobs && Find(jobs, n).value.number == n
  {
    if jobs != [] {
      assert jobs == Front(jobs) + [Last(jobs)];
      FindExactly(Front(jobs), n);
      forall j | j in jobs && j.number == n ensures Find(jobs, n) == Some(j) {
        if j in Front(jobs) {
          var i :| 0 <= i < |Front(jobs)| && Front(jobs)[i] == j;
          assert jobs[i] == j;
        }
      }
    }
  }

  /** What one step may do to a Job that stays. */
  predicate Follows(j: Job, t: Job, judgedNow: bool) {
    && t.number == j.number && t.key == j.key && (j.deleting ==> t.deleting)
    && (HasVerdict(j) || !judgedNow ==> t.image == j.image && t.revision == j.revision && t.failure == j.failure)
  }

  /** t is what became of a Job of s, or a new Job without a verdict. */
  ghost predicate Comes(s: Builds, t: Job, pass: bool) {
    || (t.number == |s.created| + 1 && !HasVerdict(t))
    || exists i :: 0 <= i < |s.jobs| && Follows(s.jobs[i], t, pass && s.jobs[i].number == |s.created|)
  }

  lemma TouchedFollows(j: Job, newest: int, gone: set<int>, p: BuildPass)
    ensures Follows(j, Touched(j, newest, gone, p), j.number == newest)
  {
    JudgedKeeps(j, p);
  }

  lemma PassFollows(s: Builds, p: BuildPass)
    requires Inv(s)
    ensures forall k :: 0 <= k < |PassOf(s.jobs, p).jobs| ==> Comes(s, PassOf(s.jobs, p).jobs[k], true)
  {
    hide Touched, PassOf, Follows, Live, Inv, Numbers, HasVerdict;
    PassShape(s, p);
    var after := PassOf(s.jobs, p).jobs;
    assert !HasVerdict(NewJob(|s.created| + 1, p.key)) by { NewIsOpen(|s.created| + 1, p.key); }
    forall k | 0 <= k < |after| ensures Comes(s, after[k], true) {
      if k < |s.jobs| {
        var j := s.jobs[k];
        Itself(j, j.number == |s.created|);
        if after[k] != j { TouchedFollows(j, |s.created|, Numbers(Deleted(Doomed(Live(s.jobs)), p.deleteOk)), p); }
        assert Follows(j, after[k], j.number == |s.created|);
      }
    }
  }

  lemma Itself(j: Job, now: bool)
    ensures Follows(j, j, now)
  {}

  lemma NewIsOpen(n: int, key: string)
    ensures !HasVerdict(NewJob(n, key)) && NewJob(n, key).number == n
  {}

  /** After any step each Job is an earlier one, judged at most if it was the newest,
      or a new one without a verdict. */
  lemma JobsFollow(s: Builds, step: Step)
    requires Inv(s)
    ensures forall k :: 0 <= k < |Next(s, step).jobs| ==> Comes(s, Next(s, step).jobs[k], step.Pass?)
  {
    hide PassOf, Inv, HasVerdict;
    var t := Next(s, step);
    match step {
      case Pass(p) => PassFollows(s, p);
      case Progress(n, succeeded, failed) =>
        forall k | 0 <= k < |t.jobs| ensures Comes(s, t.jobs[k], false) {
          assert Follows(s.jobs[k], t.jobs[k], false);
        }
      case Vanish(n) =>
        StrictOf(s);
        SelectStrict(s.jobs, Stays(n));
        forall k | 0 <= k < |t.jobs| ensures Comes(s, t.jobs[k], false) {
          assert t.jobs[k] in t.jobs;
          var i :| 0 <= i < |s.jobs| && s.jobs[i] == t.jobs[k];
          assert Follows(s.jobs[i], t.jobs[k], false);
        }
    }
  }

  lemma StrictOf(s: Builds)
    requires Inv(s)
    ensures Strict(s.jobs)
  {}

  /** A verdict is written once, and only while the build is the newest: a Job that has a
      verdict, or that a newer one has overtaken, keeps what it has as long as it
      exists. In particular an overtaken Job has a verdict later if and only if it
      had it then. */
  lemma {:induction false} VerdictIsFinal(s: Builds, steps: seq<Step>, n: int)
    requires Inv(s) && AllWellRead(steps)
    requires Find(s.jobs, n).Some? && (HasVerdict(Find(s.jobs, n).value) || n < |s.created|)
    ensures var before, after := Find(s.jobs, n).value, Find(Run(s, steps).jobs, n);
            after.Some? ==>
              && after.value.image == before.image && after.value.revision == before.revision
              && after.value.failure == before.failure
              && (HasVerdict(after.value) <==> HasVerdict(before))
    decreases |steps|
  {
    hide Next;
    FindExactly(s.jobs, n);
    if steps != [] {
      var t := Next(s, steps[0]);
      StepKeeps(s, steps[0]);
      FindExactly(t.jobs, n);
      CreatedGrows(s, steps[0]);
      if Find(t.jobs, n).Some? {
        FollowsFound(s, steps[0], n);
        VerdictIsFinal(t, steps[1..], n);
      } else {
        GoneForGood(t, steps[1..], n);
      }
    }
  }

  /** The pass comes to a verdict on build n, the newest, that succeeded. */
  ghost predicate JudgesSuccess(s: Builds, p: BuildPass, n: int) {
    && s.jobs != [] && n == |s.created| && Last(s.jobs).succeeded && !HasVerdict(Last(s.jobs))
    && !NeedsBuild(Live(s.jobs), p.key) && !Stuck(s.jobs, p)
  }

  lemma JudgedHere(s: Builds, p: BuildPass, n: int)
    requires Inv(s) && WellRead(p) && JudgesSuccess(s, p, n)
    ensures var t := Next(s, Pass(p)).jobs;
            && t != [] && Last(t).number == n && Find(t, n) == Some(Last(t))
            && HasVerdict(Last(t)) && (Last(t).image != "" <==> p.outcome.Some?)
  {
    NewestIsLive(s);
    NewestNotGone(s, p);
    PassShape(s, p);
    hide Doomed, Deleted, Live, Inv;
    var gone := Numbers(Deleted(Doomed(Live(s.jobs)), p.deleteOk));
    TouchedAll(s.jobs, n, gone, p);
  }

  /** A build that succeeded has an image, ever after, if and only if the pass that judged
      it could read what its pod reported: a failing list of pods is final. */
  lemma ImageExactlyIfRead(s: Builds, p: BuildPass, n: int, steps: seq<Step>)
    requires Inv(s) && WellRead(p) && JudgesSuccess(s, p, n) && AllWellRead(steps)
    ensures var after := Find(Run(Next(s, Pass(p)), steps).jobs, n);
            after.Some? ==> HasVerdict(after.value) && (after.value.image != "" <==> p.outcome.Some?)
  {
    JudgedHere(s, p, n);
    StepKeeps(s, Pass(p));
    hide Inv, Next, Run;
    VerdictIsFinal(Next(s, Pass(p)), steps, n);
  }

  /** A pass for the key whose calls go through, with this reading of the pod. */
  function Reading(key: string, outcome: Option<Built>): BuildPass {
    BuildPass(key, true, outcome, "", true, (j: Job) => true)
  }

  lemma RunStep(s: Builds, steps: seq<Step>, t: Builds)
    requires steps != [] && Next(s, steps[0]) == t
    ensures Run(s, steps) == Run(t, steps[1..])
  {
    hide Next;
  }

  lemma RunNone(s: Builds)
    ensures Run(s, []) == s
  {}

  lemma FirstPass(p: BuildPass)
    requires p.createOk
    ensures Next(NO_BUILDS, Pass(p)) == Builds([NewJob(1, p.key)], [1])
  {
    assert Live([]) == [];
    assert [] + [NewJob(1, p.key)] == [NewJob(1, p.key)];
    assert [] + [1] == [1];
  }

  lemma FirstProgress(key: string)
    ensures Next(Builds([NewJob(1, key)], [1]), Progress(1, true, false))
         == Builds([NewJob(1, key).(succeeded := true)], [1])
  {}

  /** A pass over one build of its key, whose annotation goes through, judges it. */
  lemma OneBuildPass(j: Job, p: BuildPass)
    requires !j.deleting && j.key == p.key && p.annotateOk && !Judged(j, p).deleting
    ensures PassOf([j], p) == Outcome([Judged(j, p)], ReportOf(Judged(j, p), Judged(j, p).image), false)
  {
    hide Judged;
    OneLive(j);
    OneLive(Judged(j, p));
    NoneDoomed(j);
    assert JudgedAll([j], j.number, p) == [Judged(j, p)];
    assert Deleted([], p.deleteOk) == [] && Numbers([]) == {};
    assert Marked([Judged(j, p)], {}) == [Judged(j, p)];
  }

  lemma OneLive(j: Job)
    requires !j.deleting
    ensures Live([j]) == [j] && LastImage([j]) == j.image
  {
    assert Front([j]) == [];
    assert Live([]) == [] && [] + [j] == [j];
  }

  lemma NoneDoomed(j: Job)
    ensures Doomed([j]) == []
  {
    assert Front([j]) == [];
    assert Select([], Succeeded) == [] && Select([], Lost) == [];
  }

  /** One failing read: the build succeeded and reported its image, the pass that judges
      it cannot list its pods, and no later pass reports the image. */
  lemma UnreadOutcomeLosesImage(key: string, built: Built)
    requires built.image != ""
    ensures var s := Run(NO_BUILDS, [Pass(Reading(key, None)), Progress(1, true, false), Pass(Reading(key, None))]);
            var later := PassOf(s.jobs, Reading(key, Some(built)));
            && |s.jobs| == 1 && s.jobs[0].succeeded && s.jobs[0].image == ""
            && s.jobs[0].failure == "build finished without reporting an image"
            && !later.err && later.report == Report(1, No, "", "") && later.jobs == s.jobs
  {
    hide Run, PassOf, Progressed;
    var p, q := Reading(key, None), Reading(key, Some(built));
    var steps := [Pass(p), Progress(1, true, false), Pass(p)];
    var j := NewJob(1, key).(succeeded := true);
    var lost := j.(failure := "build finished without reporting an image");
    FirstPass(p);
    FirstProgress(key);
    OneBuildPass(j, p);
    OneBuildPass(lost, q);
    assert Judged(j, p) == lost && Judged(lost, q) == lost;
    RunStep(NO_BUILDS, steps, Builds([NewJob(1, key)], [1]));
    RunStep(Builds([NewJob(1, key)], [1]), steps[1..], Builds([j], [1]));
    RunStep(Builds([j], [1]), steps[1..][1..], Builds([lost], [1]));
    assert steps[1..][1..][1..] == [];
    RunNone(Builds([lost], [1]));
  }

  lemma FollowsFound(s: Builds, step: Step, n: int)
    requires Inv(s) && (step.Pass? ==> WellRead(step.p)) && n <= |s.created|
    requires Find(Next(s, step).jobs, n).Some?
    ensures Find(s.jobs, n).Some?
    ensures Follows(Find(s.jobs, n).value, Find(Next(s, step).jobs, n).value, step.Pass? && n == |s.created|)
  {
    hide Next, Follows;
    var t := Next(s, step);
    StepKeeps(s, step);
    JobsFollow(s, step);
    FindExactly(s.jobs, n);
    FindExactly(t.jobs, n);
    var found := Find(t.jobs, n).value;
    var k :| 0 <= k < |t.jobs| && t.jobs[k] == found;
    assert Comes(s, found, step.Pass?);
    var i :| 0 <= i < |s.jobs| && Follows(s.jobs[i], found, step.Pass? && s.jobs[i].number == |s.created|);
    FollowsNumber(s.jobs[i], found, step.Pass? && s.jobs[i].number == |s.created|);
    assert s.jobs[i] in s.jobs;
  }

  lemma FollowsNumber(j: Job, t: Job, now: bool)
    requires Follows(j, t, now)
    ensures t.number == j.number
  {}

  lemma {:induction false} GoneForGood(s: Builds, steps: seq<Step>, n: int)
    requires Inv(s) && AllWellRead(steps) && n <= |s.created| && Find(s.jobs, n).None?
    ensures Find(Run(s, steps).jobs, n).None?
    decreases |steps|
  {
    hide Inv, Next;
    if steps != [] {
      var t := Next(s, steps[0]);
      StepKeeps(s, steps[0]);
      CreatedGrows(s, steps[0]);
      if Find(t.jobs, n).Some? { FollowsFound(s, steps[0], n); }
      GoneForGood(t, steps[1..], n);
    }
  }

  lemma CreatedGrows(s: Builds, step: Step)
    ensures |s.created| <= |Next(s, step).created|
  {
    hide PassOf;
  }

  // ---------- builds overtaken before they finished

  ghost predicate NeverFails(steps: seq<Step>, n: int) {
    forall i :: 0 <= i < |steps| && steps[i].Progress? && steps[i].n == n ==> !steps[i].failed
  }

  predicate Stranded(s: Builds, n: int) {
    && n < |s.created|
    && Find(s.jobs, n).Some?
    && var j := Find(s.jobs, n).value; !HasVerdict(j) && !j.failed && !j.deleting
  }

  lemma StrandedStays(s: Builds, step: Step, n: int)
    requires Inv(s) && (step.Pass? ==> WellRead(step.p)) && Stranded(s, n)
    requires step.Progress? && step.n == n ==> !step.failed
    ensures Stranded(Next(s, step), n)
  {
    hide Doomed, Deleted, PassOf, Judged;
    var t := Next(s, step);
    StepKeeps(s, step);
    FindExactly(s.jobs, n);
    FindExactly(t.jobs, n);
    var j := Find(s.jobs, n).value;
    var i :| 0 <= i < |s.jobs| && s.jobs[i] == j;
    match step {
      case Pass(p) =>
        PassShape(s, p);
        LiveLast(s.jobs);
        LiveOf(s.jobs);
        DoomedAreOld(Live(s.jobs), p.deleteOk);
        assert n !in Numbers(Deleted(Doomed(Live(s.jobs)), p.deleteOk)) by {
          NotAmong(s.jobs, j, Deleted(Doomed(Live(s.jobs)), p.deleteOk));
        }
        assert t.jobs[i] == j;
        assert t.jobs[i] in t.jobs;
      case Progress(m, succeeded, failed) =>
        assert t.jobs[i] in t.jobs;
      case Vanish(m) =>
        SelectStrict(s.jobs, Stays(m));
        assert j in t.jobs;
    }
  }

  lemma NotAmong(jobs: seq<Job>, j: Job, gone: seq<Job>)
    requires Strict(jobs) && j in jobs && !Succeeded(j) && !Lost(j)
    requires forall k :: k in gone ==> k in Live(jobs) && (Succeeded(k) || Lost(k))
    ensures j.number !in Numbers(gone)
  {
    LiveOf(jobs);
  }

  /** A build that had no verdict when a newer one was created, and that does not fail, is
      never pruned either: its Job stays, without a verdict, even if it succeeds. */
  lemma {:induction false} OvertakenBuildIsStranded(s: Builds, steps: seq<Step>, n: int)
    requires Inv(s) && AllWellRead(steps) && Stranded(s, n) && NeverFails(steps, n)
    ensures Stranded(Run(s, steps), n)
    decreases |steps|
  {
    hide Inv, Next, Stranded;
    if steps != [] {
      StrandedStays(s, steps[0], n);
      StepKeeps(s, steps[0]);
      OvertakenBuildIsStranded(Next(s, steps[0]), steps[1..], n);
    }
  }

  // ---------- the image to run

  lemma {:induction false} NewestImageExactly(s: seq<Job>)
    requires Strict(s) && forall j :: j in s ==> j.number > 0
    ensures ImageNumber(s) >= 0 && (ImageNumber(s) == 0 <==> LastImage(s) == "")
    ensures LastImage(s) == "" <==> forall j :: j in s ==> j.image == ""
    ensures LastImage(s) != "" ==> exists j :: j in s && j.image == LastImage(s) && j.number == ImageNumber(s)
    ensures forall j :: j in s && j.image != "" ==> j.number <= ImageNumber(s)
  {
    if s != [] {
      NewestImageExactly(Front(s));
      assert s == Front(s) + [Last(s)];
      forall j | j in Front(s) ensures j.number < Last(s).number {
        var i :| 0 <= i < |Front(s)| && Front(s)[i] == j;
        assert s[i] == j;
      }
    }
  }

  /** Marking builds other than the newest with an image leaves the newest image. */
  lemma {:induction false} MarkKeepsImage(jobs: seq<Job>, gone: set<int>)
    requires ImageNumber(Live(jobs)) !in gone || ImageNumber(Live(jobs)) == 0
    requires forall j :: j in jobs ==> j.number > 0
    ensures ImageNumber(Live(Marked(jobs, gone))) == ImageNumber(Live(jobs))
    ensures LastImage(Live(Marked(jobs, gone))) == LastImage(Live(jobs))
  {
    if jobs != [] {
      assert jobs == Front(jobs) + [Last(jobs)];
      MarkedLast(jobs, gone);
      ImageOfAppend(Live(Marked(Front(jobs), gone)), Last(jobs));
      ImageOfAppend(Live(Front(jobs)), Last(jobs));
      if !(!Last(jobs).deleting && Last(jobs).image != "") { MarkKeepsImage(Front(jobs), gone); }
    }
  }

  lemma MarkedLast(jobs: seq<Job>, gone: set<int>)
    requires jobs != []
    ensures var j := Last(jobs);
            Live(Marked(jobs, gone))
            == Live(Marked(Front(jobs), gone)) + if j.deleting || j.number in gone then [] else [j]
    ensures Live(jobs) == Live(Front(jobs)) + if Last(jobs).deleting then [] else [Last(jobs)]
  {
    assert Front(Marked(jobs, gone)) == Marked(Front(jobs), gone);
  }

  lemma ImageOfAppend(a: seq<Job>, j: Job)
    ensures LastImage(a + [j]) == if j.image != "" then j.image else LastImage(a)
    ensures ImageNumber(a + [j]) == if j.image != "" then j.number else ImageNumber(a)
    ensures a + [] == a
  {
    assert Front(a + [j]) == a;
  }

  lemma NewestSucceededStays(front: seq<Job>, j: Job)
    requires Strict(front) && j in Excess(Select(front, Succeeded), SUCCESSFUL_BUILDS_KEPT)
    ensures j.number < ImageNumber(front)
  {
    var succeeded := Select(front, Succeeded);
    SelectStrict(front, Succeeded);
    LastSelected(front);
    hide Select, ImageNumber;
    var i :| 0 <= i < |succeeded| - SUCCESSFUL_BUILDS_KEPT && succeeded[i] == j;
    assert j.number < Last(succeeded).number;
  }

  lemma LostHasNoImage(builds: seq<Job>, j: Job)
    requires Strict(builds) && (forall k :: k in builds ==> k.number > 0) && j in builds && Lost(j)
    ensures j.number != ImageNumber(builds)
  {
    NewestImageExactly(builds);
    hide LastImage, ImageNumber;
    if LastImage(builds) != "" {
      var k: Job :| k in builds && k.image == LastImage(builds) && k.number == ImageNumber(builds);
      assert j != k;
    }
  }

  /** The newest build with an image is never among the deleted. */
  lemma NewestImageStays(builds: seq<Job>, ok: Job -> bool)
    requires Strict(builds) && builds != [] && forall j :: j in builds ==> j.number > 0
    ensures ImageNumber(builds) !in Numbers(Deleted(Doomed(builds), ok))
  {
    DoomedAreOld(builds, ok);
    DeletedAreDoomed(Doomed(builds), ok);
    SelectStrict(Front(builds), Lost);
    var front := Front(builds);
    assert ImageNumber(builds) == if Last(builds).image != "" then Last(builds).number else ImageNumber(front);
    hide Select, ImageNumber, Deleted;
    forall j | j in Deleted(Doomed(builds), ok) ensures j.number != ImageNumber(builds) {
      if Last(builds).image == "" {
        if j in Excess(Select(front, Succeeded), SUCCESSFUL_BUILDS_KEPT) {
          NewestSucceededStays(front, j);
        } else {
          assert j in Select(front, Lost);
          LostHasNoImage(builds, j);
        }
      }
    }
  }

  lemma {:induction false} LastSelected(s: seq<Job>)
    ensures ImageNumber(s) == if Select(s, Succeeded) == [] then 0 else Last(Select(s, Succeeded)).number
  {
    if s != [] { LastSelected(Front(s)); }
  }

  lemma {:induction false} JudgedKeepsImage(jobs: seq<Job>, p: BuildPass)
    requires Strict(jobs) && jobs != [] && !Last(jobs).deleting
    ensures var judged := JudgedAll(jobs, Last(jobs).number, p);
            && Live(judged) == Front(Live(jobs)) + [Judged(Last(jobs), p)]
            && (ImageNumber(Live(judged)) == ImageNumber(Live(jobs)) || ImageNumber(Live(judged)) == Last(jobs).number)
  {
    hide Judged;
    LiveLast(jobs);
    JudgedLatest(jobs, p);
    JudgedKeeps(Last(jobs), p);
    assert Live(jobs) == Front(Live(jobs)) + [Last(jobs)];
  }

  /** What a pass that judges the newest build leaves: the newest image there is then,
      whatever was deleted, and no older than before. */
  lemma JudgingPassImage(s: Builds, p: BuildPass)
    requires Inv(s) && s.jobs != []
    ensures var judged := JudgedAll(s.jobs, |s.created|, p);
            var after := Marked(judged, Numbers(Deleted(Doomed(Live(s.jobs)), p.deleteOk)));
            && LastImage(Live(after)) == LastImage(Live(judged))
            && ImageNumber(Live(after)) == ImageNumber(Live(judged))
            && ImageNumber(Live(after)) >= ImageNumber(Live(s.jobs))
  {
    hide Judged, Doomed, Deleted, Live, LastImage, ImageNumber, Marked, JudgedAll, Numbers;
    NewestIsLive(s);
    var judged := JudgedAll(s.jobs, |s.created|, p);
    var gone := Numbers(Deleted(Doomed(Live(s.jobs)), p.deleteOk));
    LiveOf(s.jobs);
    JudgedKeepsImage(s.jobs, p);
    NewestNotGone(s, p);
    NewestImageStays(Live(s.jobs), p.deleteOk);
    JudgedPositive(s, p);
    MarkKeepsImage(judged, gone);
    OldestBound(s);
  }

  lemma JudgedPositive(s: Builds, p: BuildPass)
    requires Inv(s)
    ensures forall j :: j in JudgedAll(s.jobs, |s.created|, p) ==> j.number > 0
  {
    hide Judged;
    var judged := JudgedAll(s.jobs, |s.created|, p);
    forall j | j in judged ensures j.number > 0 {
      var i :| 0 <= i < |judged| && judged[i] == j;
      JudgedKeeps(s.jobs[i], p);
      assert s.jobs[i] in s.jobs;
    }
  }

  lemma OldestBound(s: Builds)
    requires Inv(s) && s.jobs != []
    ensures ImageNumber(Live(s.jobs)) <= Last(s.jobs).number
  {
    LiveLast(s.jobs);
    LiveOf(s.jobs);
    NewestImageExactly(Live(s.jobs));
    if LastImage(Live(s.jobs)) != "" {
      var j :| j in Live(s.jobs) && j.image == LastImage(Live(s.jobs)) && j.number == ImageNumber(Live(s.jobs));
      assert j in s.jobs;
    }
  }

  lemma StartingPassImage(s: Builds, key: string)
    requires Inv(s)
    ensures LastImage(Live(s.jobs + [NewJob(|s.created| + 1, key)])) == LastImage(Live(s.jobs))
    ensures ImageNumber(Live(s.jobs + [NewJob(|s.created| + 1, key)])) == ImageNumber(Live(s.jobs))
  {
    var j := NewJob(|s.created| + 1, key);
    SelectAppend(s.jobs, j, Kept);
    assert Front(Live(s.jobs) + [j]) == Live(s.jobs);
  }

  lemma PassImage(s: Builds, p: BuildPass)
    requires Inv(s)
    ensures var o := PassOf(s.jobs, p);
            && o.report.image == (if Stuck(s.jobs, p) then "" else LastImage(Live(o.jobs)))
            && ImageNumber(Live(o.jobs)) >= ImageNumber(Live(s.jobs))
  {
    NewestIsLive(s);
    StartingPassImage(s, p.key);
    hide Judged, Doomed, Deleted, Live, Inv, Numbers, Marked, JudgedAll, LastImage, ImageNumber, NextNumber;
    if !NeedsBuild(Live(s.jobs), p.key) { JudgingPassImage(s, p); }
  }

  /** In every run and on every return, a pass reports the image of the highest-numbered
      build that has one, or none if none has; only a stuck pass, which returns an
      error, reports none whatever there is. */
  lemma ReportsNewestImage(steps: seq<Step>, p: BuildPass)
    requires AllWellRead(steps) && WellRead(p)
    ensures var o, stuck := PassOf(Run(NO_BUILDS, steps).jobs, p), Stuck(Run(NO_BUILDS, steps).jobs, p);
            && (stuck ==> o.err && o.report.image == "" && o.jobs == Run(NO_BUILDS, steps).jobs)
            && (!stuck ==> (o.report.image == "" <==> forall j :: j in o.jobs && !j.deleting ==> j.image == ""))
            && (o.report.image != "" ==>
                  exists j :: j in o.jobs && !j.deleting && j.image == o.report.image
                              && forall k :: k in o.jobs && !k.deleting && k.image != "" ==> k.number <= j.number)
  {
    StuckChangesNothing(Run(NO_BUILDS, steps).jobs, p);
    hide PassOf, LastImage, ImageNumber, Live, Stuck;
    RunKeeps(NO_BUILDS, steps);
    var s := Run(NO_BUILDS, steps);
    PassImage(s, p);
    PassKeeps(s, p);
    var o := PassOf(s.jobs, p);
    assert Inv(Next(s, Pass(p)));
    LiveOf(o.jobs);
    NewestImageExactly(Live(o.jobs));
    if LastImage(Live(o.jobs)) != "" {
      var j :| j in Live(o.jobs) && j.image == LastImage(Live(o.jobs)) && j.number == ImageNumber(Live(o.jobs));
      assert forall k :: k in o.jobs && !k.deleting && k.image != "" ==> k in Live(o.jobs);
    }
  }

  lemma StuckChangesNothing(jobs: seq<Job>, p: BuildPass)
    ensures Stuck(jobs, p) ==> PassOf(jobs, p).err && PassOf(jobs, p).jobs == jobs
  {
    hide Judged, Doomed, Deleted, Live;
  }

  lemma {:induction false} ProgressKeepsImage(jobs: seq<Job>, n: int, a: bool, b: bool)
    ensures ImageNumber(Live(Progressed(jobs, n, a, b))) == ImageNumber(Live(jobs))
  {
    hide Live, ImageNumber, LastImage;
    if jobs != [] {
      var after := Progressed(jobs, n, a, b);
      ProgressKeepsImage(Front(jobs), n, a, b);
      assert Front(after) == Progressed(Front(jobs), n, a, b);
      LiveEnd(after);
      LiveEnd(jobs);
      ImageOfAppend(Live(Front(after)), Last(after));
      ImageOfAppend(Live(Front(jobs)), Last(jobs));
    } else {
      assert Progressed(jobs, n, a, b) == jobs;
    }
  }

  lemma {:induction false} VanishKeepsLive(jobs: seq<Job>, n: int)
    ensures Live(Without(jobs, n)) == Live(jobs)
  {
    if jobs != [] {
      VanishKeepsLive(Front(jobs), n);
      SelectAppend(Without(Front(jobs), n), Last(jobs), Kept);
      SelectLast(jobs, Stays(n));
      LiveEnd(jobs);
      hide Select;
      NothingMore(Without(Front(jobs), n));
    }
  }

  /** The build whose image is reported never gets older: through failed builds, new
      builds, pruning and progress, and so an image once there never goes away. */
  lemma {:induction false} ImageNeverGoesBack(s: Builds, steps: seq<Step>)
    requires Inv(s) && AllWellRead(steps)
    ensures ImageNumber(Live(Run(s, steps).jobs)) >= ImageNumber(Live(s.jobs))
    decreases |steps|
  {
    hide Inv, PassOf, ImageNumber, Live, Without, Progressed;
    if steps != [] {
      match steps[0] {
        case Pass(p) => PassImage(s, p);
        case Progress(n, a, b) => ProgressKeepsImage(s.jobs, n, a, b);
        case Vanish(n) => VanishKeepsLive(s.jobs, n);
      }
      StepKeeps(s, steps[0]);
      ImageNeverGoesBack(Next(s, steps[0]), steps[1..]);
    }
  }

  // ---------- pruning

  lemma {:induction false} AllDeleted(doomed: seq<Job>, ok: Job -> bool)
    requires |Deleted(doomed, ok)| == |doomed|
    ensures Deleted(doomed, ok) == doomed
  {
    if doomed != [] {
      DeletedNoLonger(doomed[1..], ok);
      AllDeleted(doomed[1..], ok);
    }
  }

  lemma {:induction false} DeletedNoLonger(doomed: seq<Job>, ok: Job -> bool)
    ensures |Deleted(doomed, ok)| <= |doomed|
  {
    if doomed != [] { DeletedNoLonger(doomed[1..], ok); }
  }

  /** The builds whose numbers are not in gone. */
  function Spared(gone: set<int>): Job -> bool { (j: Job) => j.number !in gone }

  lemma {:induction false} SelectMarked(jobs: seq<Job>, gone: set<int>, f: Job -> bool)
    ensures Select(Live(Marked(jobs, gone)), f) == Select(Select(Live(jobs), f), Spared(gone))
  {
    if jobs != [] {
      var front, j := Front(jobs), Last(jobs);
      SelectMarked(front, gone, f);
      MarkedLast(jobs, gone);
      LiveEnd(jobs);
      SelectAppend(Live(Marked(front, gone)), j, f);
      SelectAppend(Live(front), j, f);
      SelectAppend(Select(Live(front), f), j, Spared(gone));
      hide Live, Select, Marked;
      NothingMore(Live(Marked(front, gone)));
      NothingMore(Live(front));
      NothingMore(Select(Live(front), f));
      NothingMore(Select(Select(Live(front), f), Spared(gone)));
    }
  }

  lemma NothingMore(s: seq<Job>)
    ensures s + [] == s
  {}

  lemma {:induction false} SelectAll(s: seq<Job>, f: Job -> bool)
    requires forall j :: j in s ==> f(j)
    ensures Select(s, f) == s
  {
    if s != [] {
      SelectLast(s, f);
      SelectAll(Front(s), f);
      hide Select;
    }
  }

  lemma {:induction false} SelectNone(s: seq<Job>, f: Job -> bool)
    requires forall j :: j in s ==> !f(j)
    ensures Select(s, f) == []
  {
    if s != [] {
      SelectLast(s, f);
      SelectNone(Front(s), f);
      hide Select;
    }
  }

  lemma {:induction false} SelectConcat(a: seq<Job>, b: seq<Job>, f: Job -> bool)
    ensures Select(a + b, f) == Select(a, f) + Select(b, f)
  {
    if b == [] {
      assert a + b == a;
    } else {
      assert Front(a + b) == a + Front(b) && Last(a + b) == Last(b);
      SelectConcat(a, Front(b), f);
      SelectLast(a + b, f);
      SelectLast(b, f);
      hide Select;
    }
  }

  function Newest(s: seq<Job>, keep: nat): seq<Job> { if |s| > keep then s[|s| - keep..] else s }

  /** A list in number order loses its oldest to pruning and nothing else. */
  lemma PrunedToNewest(s: seq<Job>, keep: nat, gone: set<int>)
    requires Strict(s)
    requires forall j :: j in s ==> (j.number in gone <==> j in Excess(s, keep))
    ensures Select(s, Spared(gone)) == Newest(s, keep)
  {
    hide Select;
    var a, b := Excess(s, keep), Newest(s, keep);
    assert s == a + b;
    forall j | j in b ensures j !in a {
      var i :| 0 <= i < |b| && b[i] == j;
      assert s[|a| + i] == j;
    }
    assert forall j :: j in a ==> j in s;
    assert forall j :: j in b ==> j in s;
    SelectConcat(a, b, Spared(gone));
    SelectNone(a, Spared(gone));
    SelectAll(b, Spared(gone));
  }

  /** When every delete goes through, what stays besides the newest build is the ten
      newest with an image, the five newest failed ones, and every unfinished one. */
  lemma PruningKeepsNewest(s: Builds, p: BuildPass)
    requires Inv(s) && s.jobs != []
    requires |Deleted(Doomed(Live(s.jobs)), p.deleteOk)| == |Doomed(Live(s.jobs))|
    ensures var older := Front(Live(s.jobs));
            var after := Live(Marked(Front(s.jobs), Numbers(Deleted(Doomed(Live(s.jobs)), p.deleteOk))));
            && Select(after, Succeeded) == Newest(Select(older, Succeeded), SUCCESSFUL_BUILDS_KEPT)
            && Select(after, Lost) == Newest(Select(older, Lost), FAILED_BUILDS_KEPT)
            && Select(after, Open) == Select(older, Open)
  {
    AllDeleted(Doomed(Live(s.jobs)), p.deleteOk);
    LiveLast(s.jobs);
    OlderPruned(Front(s.jobs));
    hide Select, Live, Marked, Deleted;
  }

  lemma OlderPruned(front: seq<Job>)
    requires Strict(front)
    ensures var older := Live(front);
            var good, bad := Select(older, Succeeded), Select(older, Lost);
            var gone := Numbers(Excess(good, SUCCESSFUL_BUILDS_KEPT) + Excess(bad, FAILED_BUILDS_KEPT));
            var after := Live(Marked(front, gone));
            && Select(after, Succeeded) == Newest(good, SUCCESSFUL_BUILDS_KEPT)
            && Select(after, Lost) == Newest(bad, FAILED_BUILDS_KEPT)
            && Select(after, Open) == Select(older, Open)
  {
    hide Select, Marked, Excess, Newest;
    var older := Live(front);
    LiveOf(front);
    hide Live;
    var good, bad := Select(older, Succeeded), Select(older, Lost);
    var gone := Numbers(Excess(good, SUCCESSFUL_BUILDS_KEPT) + Excess(bad, FAILED_BUILDS_KEPT));
    SelectMarked(front, gone, Succeeded);
    SelectMarked(front, gone, Lost);
    SelectMarked(front, gone, Open);
    SelectStrict(older, Succeeded);
    SelectStrict(older, Lost);
    SelectStrict(older, Open);
    DoomedParts(older, good, bad);
    PrunedToNewest(good, SUCCESSFUL_BUILDS_KEPT, gone);
    PrunedToNewest(bad, FAILED_BUILDS_KEPT, gone);
    SelectAll(Select(older, Open), Spared(gone));
  }

  predicate Open(j: Job) { !Succeeded(j) && !Lost(j) }

  lemma DoomedParts(older: seq<Job>, good: seq<Job>, bad: seq<Job>)
    requires Strict(older)
    requires forall j :: j in good <==> j in older && Succeeded(j)
    requires forall j :: j in bad <==> j in older && Lost(j)
    ensures var gone := Numbers(Excess(good, SUCCESSFUL_BUILDS_KEPT) + Excess(bad, FAILED_BUILDS_KEPT));
            && (forall j :: j in good ==> (j.number in gone <==> j in Excess(good, SUCCESSFUL_BUILDS_KEPT)))
            && (forall j :: j in bad ==> (j.number in gone <==> j in Excess(bad, FAILED_BUILDS_KEPT)))
            && (forall j :: j in older && Open(j) ==> j.number !in gone)
  {
    var x, y := Excess(good, SUCCESSFUL_BUILDS_KEPT), Excess(bad, FAILED_BUILDS_KEPT);
    assert forall j :: j in x ==> j in good;
    assert forall j :: j in y ==> j in bad;
    forall j | j in older ensures j.number in Numbers(x + y) <==> j in x || j in y {
      if j.number in Numbers(x + y) {
        var k: Job :| k in x + y && k.number == j.number;
        assert k in older;
        SameNumberSame(older, j, k);
      }
      if j in x || j in y { assert j in x + y; }
    }
  }

  lemma SameNumberSame(jobs: seq<Job>, j: Job, k: Job)
    requires Strict(jobs) && j in jobs && k in jobs && j.number == k.number
    ensures j == k
  {}
}
