/** Triggers and runs of the registry collection interleaved call by call, in one
    server process that may be restarted (internal/controller/registrygc.go:117-143,
    189-224). */
module RegistryRuns {
  import opened RegistryGC

  /** running is the collector's flag, runs the runs in flight with the call each
      makes next, upcoming the next run's id. cut lists the runs a restart ended; no
      code reads it. */
  datatype State = State(w: World, running: bool, runs: map<nat, Pc>, upcoming: nat, cut: set<nat>)

  datatype Step =
    | Trigger
    | Advance(id: nat, a: Answer)
    | Return(id: nat)   // the run has returned; the flag is cleared
    | Restart
    | Ended(id: nat)    // this run's collector is done, or was ended

  function Next(s: State, step: Step): State {
    match step
    case Trigger =>
      if s.running then s
      else s.(running := true, runs := s.runs[s.upcoming := WriteConfig], upcoming := s.upcoming + 1)
    case Advance(id, a) =>
      if id !in s.runs then s else
      var t := Call(s.w, id, s.runs[id], a);
      s.(w := t.0, runs := s.runs[id := t.1])
    case Return(id) =>
      if id in s.runs && s.runs[id].End? then s.(running := false, runs := s.runs - {id}) else s
    case Restart => s.(running := false, runs := map[], cut := s.cut + s.runs.Keys)
    case Ended(id) => s.(w := s.w.(working := s.w.working - {id}))
  }

  function Run(s: State, steps: seq<Step>): State
    decreases |steps|
  {
    if steps == [] then s else Run(Next(s, steps[0]), steps[1..])
  }

  const INITIALLY := State(World(false, false, {}, map[]), false, map[], 0, {})

  predicate Collecting(pc: Pc) { pc.Node? || pc.CreateJob? || pc.WaitJob? || pc.DeleteJob? }

  ghost predicate Inv(s: State) {
    && (s.running <==> s.runs != map[])
    && (forall a, b :: a in s.runs && b in s.runs ==> a == b)
    && (forall id :: id in s.runs || id in s.w.working || id in s.w.log ==> id < s.upcoming)
    && (forall id :: id in s.runs ==> InOrder(s.w, id, s.runs[id]))
    && (forall id :: id in s.w.working ==> id in s.runs || LeftAlone(s, id))
    && (forall id :: id in s.cut ==> id < s.upcoming)
  }

  /** Nobody waits for this run's collector: a restart cut the run off, or its wait ended
      in an error while the collector worked. */
  predicate LeftAlone(s: State, id: nat) { id in s.cut || GaveUp in LogOf(s.w, id) }

  predicate InOrder(w: World, id: nat, pc: Pc) {
    && DoneBy(pc, LogOf(w, id))
    && (Collecting(pc) ==> w.readOnly && w.seen)
    && (pc.Poll? ==> w.readOnly == pc.on)
    && (id in w.working && GaveUp !in LogOf(w, id) ==> pc.WaitJob?)
  }

  lemma CallInOrder(w: World, id: nat, pc: Pc, a: Answer)
    requires InOrder(w, id, pc)
    ensures var t := Call(w, id, pc, a);
            && InOrder(t.0, id, t.1) && t.0.working <= w.working + {id} && t.0.log.Keys <= w.log.Keys + {id}
            && (forall j :: j != id ==> LogOf(t.0, j) == LogOf(w, j))
  {
    CallDoes(w, id, pc, a);
    var t := Call(w, id, pc, a);
    hide DoneBy;
    assert LogOf(w, id) <= LogOf(t.0, id);
    forall e | e in LogOf(w, id) ensures e in LogOf(t.0, id) {
      var i :| 0 <= i < |LogOf(w, id)| && LogOf(w, id)[i] == e;
      assert LogOf(t.0, id)[i] == e;
    }
  }

  lemma AdvanceKeeps(s: State, id: nat, a: Answer)
    requires Inv(s) && id in s.runs
    ensures Inv(Next(s, Advance(id, a)))
  {
    hide InOrder, Call, LogOf;
    CallInOrder(s.w, id, s.runs[id], a);
    assert id in Next(s, Advance(id, a)).runs;
  }

  lemma ReturnKeeps(s: State, id: nat)
    requires Inv(s) && id in s.runs && s.runs[id].End?
    ensures Inv(Next(s, Return(id)))
  {
    assert s.runs - {id} == map[] by { assert forall b :: b in s.runs ==> b == id; }
  }

  lemma StepKeeps(s: State, step: Step)
    requires Inv(s)
    ensures Inv(Next(s, step))
  {
    match step {
      case Trigger => assert s.upcoming in Next(s, Trigger).runs || s.running;
      case Advance(id, a) => if id in s.runs { AdvanceKeeps(s, id, a); }
      case Return(id) => if id in s.runs && s.runs[id].End? { ReturnKeeps(s, id); }
      case Restart =>
      case Ended(id) =>
    }
  }

  lemma {:induction false} RunKeeps(s: State, steps: seq<Step>)
    requires Inv(s)
    ensures Inv(Run(s, steps))
    decreases |steps|
  {
    hide Inv, Next;
    if steps != [] {
      StepKeeps(s, steps[0]);
      RunKeeps(Next(s, steps[0]), steps[1..]);
    }
  }

  /** However triggers and runs interleave, and whatever restarts come in between, one
      run at most is in flight, and while one is, no other can be started. */
  lemma OneRunAtMost(steps: seq<Step>, a: nat, b: nat)
    ensures var s := Run(INITIALLY, steps);
            && (a in s.runs && b in s.runs ==> a == b)
            && (a in s.runs ==> s.running && Next(s, Trigger) == s)
  {
    RunKeeps(INITIALLY, steps);
  }

  /** A trigger starts a run, from its first call, exactly when none is in flight, and one
      that has returned is not. */
  lemma StartsWhenFree(steps: seq<Step>)
    ensures var s := Run(INITIALLY, steps);
            if s.runs == map[] then Next(s, Trigger).runs == map[s.upcoming := WriteConfig]
            else Next(s, Trigger) == s
    ensures var s := Run(INITIALLY, steps);
            forall id :: id in s.runs && s.runs[id].End? ==>
              Next(s, Return(id)).runs == map[] && !Next(s, Return(id)).running
  {
    RunKeeps(INITIALLY, steps);
    var s := Run(INITIALLY, steps);
    hide Run;
    forall id | id in s.runs && s.runs[id].End?
      ensures Next(s, Return(id)).runs == map[] && !Next(s, Return(id)).running
    {
      assert forall b :: b in s.runs ==> b == id;
    }
  }

  /** Step n answers the wait of run id with an error while its collector works. */
  predicate WaitFails(steps: seq<Step>, n: nat, id: nat) {
    n < |steps| && steps[n] == Advance(id, Fail) &&
    var s := Run(INITIALLY, steps[..n]); id in s.runs && s.runs[id] == WaitJob && id in s.w.working
  }

  /** Step n is a restart that cuts run id off. */
  predicate CutsOff(steps: seq<Step>, n: nat, id: nat) {
    n < |steps| && steps[n] == Restart && id in Run(INITIALLY, steps[..n]).runs
  }

  lemma LastStep(steps: seq<Step>)
    requires steps != []
    ensures Run(INITIALLY, steps) == Next(Run(INITIALLY, steps[..|steps| - 1]), steps[|steps| - 1])
  {
    hide Next;
    var front, last := steps[..|steps| - 1], steps[|steps| - 1];
    RunInTwo(INITIALLY, front, [last]);
    RunOne(Run(INITIALLY, front), last);
    assert front + [last] == steps;
  }

  /** What a step adds to the two records. */
  lemma StepRecords(s: State, step: Step, id: nat)
    ensures GaveUp in LogOf(Next(s, step).w, id) <==>
            || GaveUp in LogOf(s.w, id)
            || (step == Advance(id, Fail) && id in s.runs && s.runs[id] == WaitJob && id in s.w.working)
    ensures id in Next(s, step).cut <==> id in s.cut || (step == Restart && id in s.runs)
  {
    if step.Advance? && step.id in s.runs {
      CallGivesUp(s.w, step.id, s.runs[step.id], step.a, id);
    }
  }

  /** A run gives up its collector exactly when its wait is answered with an error while
      the collector works: never for a poll that finds it not done yet. */
  lemma {:induction false} GaveUpExactly(steps: seq<Step>, id: nat)
    ensures GaveUp in LogOf(Run(INITIALLY, steps).w, id) <==> exists n :: WaitFails(steps, n, id)
    ensures id in Run(INITIALLY, steps).cut <==> exists n :: CutsOff(steps, n, id)
    decreases |steps|
  {
    if steps != [] {
      var m := |steps| - 1;
      var front := steps[..m];
      LastStep(steps);
      StepRecords(Run(INITIALLY, front), steps[m], id);
      GaveUpExactly(front, id);
      hide Run, Next, LogOf;
      SameRecords(steps, id);
      assert WaitFails(steps, m, id) <==>
        (&& steps[m] == Advance(id, Fail) && id in Run(INITIALLY, front).runs
         && Run(INITIALLY, front).runs[id] == WaitJob && id in Run(INITIALLY, front).w.working);
      assert CutsOff(steps, m, id) <==> steps[m] == Restart && id in Run(INITIALLY, front).runs;
    } else {
      assert forall n: nat :: !WaitFails([], n, id) && !CutsOff([], n, id);
    }
  }

  lemma SameRecords(steps: seq<Step>, id: nat)
    requires steps != []
    ensures var m := |steps| - 1;
            forall n: nat :: n < m ==> (WaitFails(steps, n, id) <==> WaitFails(steps[..m], n, id))
                                       && (CutsOff(steps, n, id) <==> CutsOff(steps[..m], n, id))
    ensures var m := |steps| - 1;
            forall n: nat :: n >= m ==> !WaitFails(steps[..m], n, id) && !CutsOff(steps[..m], n, id)
    ensures forall n: nat :: n >= |steps| ==> !WaitFails(steps, n, id) && !CutsOff(steps, n, id)
  {
    hide Run;
    var m := |steps| - 1;
    forall n: nat | n < m
      ensures (WaitFails(steps, n, id) <==> WaitFails(steps[..m], n, id))
              && (CutsOff(steps, n, id) <==> CutsOff(steps[..m], n, id))
    {
      assert steps[..m][..n] == steps[..n];
    }
  }

  lemma LeftAloneExactly(steps: seq<Step>, id: nat)
    ensures LeftAlone(Run(INITIALLY, steps), id) <==> exists n :: WaitFails(steps, n, id) || CutsOff(steps, n, id)
  {
    GaveUpExactly(steps, id);
    hide WaitFails, CutsOff, Run;
    if LeftAlone(Run(INITIALLY, steps), id) {
      if n :| WaitFails(steps, n, id) {
        assert WaitFails(steps, n, id) || CutsOff(steps, n, id);
      } else {
        var n :| CutsOff(steps, n, id);
        assert WaitFails(steps, n, id) || CutsOff(steps, n, id);
      }
    }
  }

  /** In every reachable state: a collector at work beside a registry that is not
      read-only and seen rolled out so had its run cut off by a restart, or its run's
      wait answered with an error while it worked. */
  lemma CollectorNeedsReadOnly(steps: seq<Step>, id: nat)
    ensures var s := Run(INITIALLY, steps);
            id in s.w.working && !(s.w.readOnly && s.w.seen) ==>
              exists n :: WaitFails(steps, n, id) || CutsOff(steps, n, id)
  {
    RunKeeps(INITIALLY, steps);
    LeftAloneExactly(steps, id);
    hide WaitFails, CutsOff;
  }

  lemma TurnsWritable(s: State, step: Step, id: nat)
    requires Inv(s) && id in s.w.working && s.w.readOnly
    ensures var t := Next(s, step);
            id in t.w.working && !t.w.readOnly <==>
              && step.Advance? && step.a == Ok && step.id in s.runs
              && s.runs[step.id].UpdateDeployment? && !s.runs[step.id].on && LeftAlone(s, id)
  {}

  /** The registry turns writable beside a collector at work if and only if the update of a
      run on its way back goes through and that collector's run was cut off by a
      restart, or had its wait answered with an error while the collector worked. */
  lemma TurnsWritableExactly(steps: seq<Step>, step: Step, id: nat)
    ensures var s := Run(INITIALLY, steps);
            var t := Next(s, step);
            id in s.w.working && s.w.readOnly ==>
              (id in t.w.working && !t.w.readOnly <==>
                && step.Advance? && step.a == Ok && step.id in s.runs
                && s.runs[step.id].UpdateDeployment? && !s.runs[step.id].on
                && exists n :: WaitFails(steps, n, id) || CutsOff(steps, n, id))
  {
    RunKeeps(INITIALLY, steps);
    LeftAloneExactly(steps, id);
    var s := Run(INITIALLY, steps);
    hide WaitFails, CutsOff, Run, Inv, Next, LeftAlone;
    if id in s.w.working && s.w.readOnly { TurnsWritable(s, step, id); }
  }

  /** A run in whose wait no error is answered, however often it is told to wait on, never
      switches the registry back beside its own collector. */
  lemma WaitsForOwnCollector(steps: seq<Step>, a: Answer, id: nat)
    requires forall n: nat :: !WaitFails(steps, n, id)
    ensures var s := Run(INITIALLY, steps);
            var t := Next(s, Advance(id, a));
            id in t.w.working && s.w.readOnly ==> t.w.readOnly
  {
    RunKeeps(INITIALLY, steps);
    GaveUpExactly(steps, id);
    hide WaitFails, CutsOff, Run;
    var s := Run(INITIALLY, steps);
    if id in s.runs && id in s.w.working { assert s.runs[id].WaitJob?; }
  }

  /** A collector starts only by the step of a run that had the registry read-only and
      seen rolled out. */
  lemma CreatedReadOnly(steps: seq<Step>, step: Step, id: nat)
    ensures var s := Run(INITIALLY, steps);
            var t := Next(s, step);
            id in t.w.working && id !in s.w.working ==>
              id in s.runs && s.runs[id].CreateJob? && s.w.readOnly && s.w.seen && t.w.readOnly
  {
    RunKeeps(INITIALLY, steps);
  }

  // ---------- both ways to leave a collector alone

  /** The calls of one run, answered one after the other, with nothing in between. */
  function Answered(id: nat, answers: seq<Answer>): seq<Step> {
    seq(|answers|, i requires 0 <= i < |answers| => Advance(id, answers[i]))
  }

  lemma {:induction false} RunInTwo(s: State, a: seq<Step>, b: seq<Step>)
    ensures Run(s, a + b) == Run(Run(s, a), b)
    decreases |a|
  {
    hide Next;
    if a == [] {
      assert a + b == b;
    } else {
      RunInTwo(Next(s, a[0]), a[1..], b);
      assert (a + b)[1..] == a[1..] + b;
    }
  }

  lemma RunStep(s: State, steps: seq<Step>, t: State)
    requires steps != [] && Next(s, steps[0]) == t
    ensures Run(s, steps) == Run(t, steps[1..])
  {
    hide Next;
  }

  lemma RunOne(s: State, step: Step)
    ensures Run(s, [step]) == Next(s, step)
  {
    assert Run(Next(s, step), []) == Next(s, step);
  }

  function At(w: World, pc: Pc): State { State(w, true, map[0 := pc], 1, {}) }

  /** The world once run 0 has created its job. */
  const COLLECTING := World(true, true, {0}, map[0 := [TurnedOn, Created]])

  lemma FirstRunCreates()
    ensures Run(INITIALLY, [Trigger] + Answered(0, [Ok, Ok, Ok, Ok, Ok, Ok])) == At(COLLECTING, WaitJob)
  {
    hide Run;
    var steps := Answered(0, [Ok, Ok, Ok, Ok, Ok, Ok]);
    var w := INITIALLY.w;
    var w1, w2 := w.(readOnly := true), w.(readOnly := true, seen := true, log := map[0 := [TurnedOn]]);
    assert ([Trigger] + steps)[1..] == steps && ([Trigger] + steps)[0] == Trigger;
    RunStep(INITIALLY, [Trigger] + steps, At(w, WriteConfig));
    RunStep(At(w, WriteConfig), steps, At(w, GetDeployment(true, false)));
    RunStep(At(w, GetDeployment(true, false)), steps[1..], At(w, UpdateDeployment(true, false)));
    RunStep(At(w, UpdateDeployment(true, false)), steps[1..][1..], At(w1, Poll(true, false)));
    assert LogOf(w1, 0) + [TurnedOn] == [TurnedOn];
    RunStep(At(w1, Poll(true, false)), steps[1..][1..][1..], At(w2, Node));
    RunStep(At(w2, Node), steps[1..][1..][1..][1..], At(w2, CreateJob));
    assert LogOf(w2, 0) + [Created] == [TurnedOn, Created];
    RunOne(At(w2, CreateJob), Advance(0, Ok));
    assert steps[1..][1..][1..][1..][1..] == [Advance(0, Ok)];
  }

  /** That run has given up and asked for the deletion. */
  const GIVEN_UP := World(true, true, {0}, map[0 := [TurnedOn, Created, GaveUp, DeleteAsked, BackBegun]])

  /** One run whose wait fails, at a read or at the deadline: whether or not its deletion is
      accepted, it switches the registry back while its collector works. */
  lemma FailedWaitLeavesCollector(deletion: Answer)
    ensures var s := Run(INITIALLY, [Trigger] + Answered(0, [Ok, Ok, Ok, Ok, Ok, Ok])
                                    + Answered(0, [Fail, deletion, Ok, Ok]));
            0 in s.w.working && !s.w.readOnly && s.cut == {}
  {
    FirstRunCreates();
    hide Run;
    var steps := Answered(0, [Fail, deletion, Ok, Ok]);
    RunInTwo(INITIALLY, [Trigger] + Answered(0, [Ok, Ok, Ok, Ok, Ok, Ok]), steps);
    var gaveUp := World(true, true, {0}, map[0 := [TurnedOn, Created, GaveUp]]);
    assert [TurnedOn, Created] + [GaveUp] == [TurnedOn, Created, GaveUp];
    RunStep(At(COLLECTING, WaitJob), steps, At(gaveUp, DeleteJob(true)));
    assert [TurnedOn, Created, GaveUp] + [DeleteAsked] + [BackBegun]
        == [TurnedOn, Created, GaveUp, DeleteAsked, BackBegun];
    RunStep(At(gaveUp, DeleteJob(true)), steps[1..], At(GIVEN_UP, GetDeployment(false, true)));
    RunStep(At(GIVEN_UP, GetDeployment(false, true)), steps[1..][1..],
            At(GIVEN_UP, UpdateDeployment(false, true)));
    RunOne(At(GIVEN_UP, UpdateDeployment(false, true)), Advance(0, Ok));
    assert steps[1..][1..][1..] == [Advance(0, Ok)];
  }

  function After(w: World, pc: Pc): State { State(w, true, map[1 := pc], 2, {0}) }

  /** A restart while the collector works: the next run finds the registry read-only,
      fails to find its node, and switches the registry back beside the first run's
      collector. */
  lemma RestartLeavesCollector()
    ensures var s := Run(INITIALLY, [Trigger] + Answered(0, [Ok, Ok, Ok, Ok, Ok, Ok])
                                    + ([Restart, Trigger] + Answered(1, [Ok, Ok, Ok, Fail, Ok, Ok])));
            0 in s.w.working && !s.w.readOnly && 0 !in s.runs && s.cut == {0}
  {
    FirstRunCreates();
    hide Run;
    var more := Answered(1, [Ok, Ok, Ok, Fail, Ok, Ok]);
    var steps := [Restart, Trigger] + more;
    RunInTwo(INITIALLY, [Trigger] + Answered(0, [Ok, Ok, Ok, Ok, Ok, Ok]), steps);
    var w := COLLECTING;
    RunStep(At(w, WaitJob), steps, State(w, false, map[], 1, {0}));
    RunStep(State(w, false, map[], 1, {0}), steps[1..], After(w, WriteConfig));
    assert steps[1..][1..] == more;
    SecondRunSwitchesBack(more);
  }

  lemma SecondRunSwitchesBack(steps: seq<Step>)
    requires steps == Answered(1, [Ok, Ok, Ok, Fail, Ok, Ok])
    ensures var s := Run(After(COLLECTING, WriteConfig), steps);
            0 in s.w.working && !s.w.readOnly && 0 !in s.runs && s.cut == {0}
  {
    hide Run;
    var w := COLLECTING;
    var w1 := w.(log := w.log[1 := [TurnedOn]]);
    var w2 := w.(log := w.log[1 := [TurnedOn, BackBegun]]);
    RunStep(After(w, WriteConfig), steps, After(w, GetDeployment(true, false)));
    RunStep(After(w, GetDeployment(true, false)), steps[1..], After(w, Poll(true, false)));
    assert LogOf(w, 1) + [TurnedOn] == [TurnedOn];
    RunStep(After(w, Poll(true, false)), steps[1..][1..], After(w1, Node));
    assert [TurnedOn] + [BackBegun] == [TurnedOn, BackBegun];
    assert w1.log[1 := [TurnedOn, BackBegun]] == w2.log;
    RunStep(After(w1, Node), steps[1..][1..][1..], After(w2, GetDeployment(false, true)));
    RunStep(After(w2, GetDeployment(false, true)), steps[1..][1..][1..][1..], After(w2, UpdateDeployment(false, true)));
    RunOne(After(w2, UpdateDeployment(false, true)), Advance(1, Ok));
    assert steps[1..][1..][1..][1..][1..] == [Advance(1, Ok)];
  }
}
