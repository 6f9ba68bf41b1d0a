/** The rollback request as a one-shot annotation on the App: posted by the API,
    carried out by the next pass, dropped by a patch after the status is written
    (pkg/api/apps.go:538-571, internal/controller/app_controller.go:156-203,
    229-239, 399-407, 703-711, internal/controller/snapshots.go:82-112).

    The controller makes one call at a time and anything may happen between two of
    them; everything from the restored config vars to the end of reconcile counts
    as one. Accepted requests are numbered 1, 2, 3, ... here; the program does not
    number them. */
module RollbackRequests {
  import opened Basics
  import opened ConfigHash

  datatype Request = Request(id: nat, target: int)

  /** What the App and the Secrets hold. unseen: the spec was edited since the last
      committed status; rolling: that status says a release is rolling out. last is
      the newest request. carried lists the requests in the order passes carried
      them out; no code reads these two. */
  datatype Cluster = Cluster(
    request: Option<Request>,
    note: bool,
    rv: nat,
    unseen: bool,
    rolling: bool,
    live: Vars,
    snapshots: map<int, map<string, string>>,
    last: nat,
    carried: seq<nat>)

  /** The controller's copy of the App, with the resource version it was loaded at. */
  datatype Copy = Copy(request: Option<Request>, note: bool, rv: nat)

  datatype Pc =
    | Idle
    | AtRestore(copy: Copy, r: Request)
    | AtFailed(copy: Copy)               // the restore failed
    | AtWork(copy: Copy)
    | AtCommit(copy: Copy, clear: bool, rolling: bool)
    | AtClear(copy: Copy)

  datatype State = State(c: Cluster, pc: Pc)

  // ---------- what the others do

  datatype Env =
    | Ask(target: int, spec: bool)      // a rollback; spec: it changes the spec
    | Edit(note: bool, spec: bool)      // another write to the App
    | SetVars(vars: Vars)
    | Snapshot(number: int, state: Option<map<string, string>>)

  /** No request is taken while a rollout is in progress. */
  predicate Accepts(c: Cluster) { !c.unseen && !c.rolling }

  function EnvStep(c: Cluster, e: Env): Cluster {
    match e
    case Ask(target, spec) =>
      if target <= 0 || !Accepts(c) then c
      else c.(request := Some(Request(c.last + 1, target)), note := true, rv := c.rv + 1,
              unseen := spec, last := c.last + 1)
    case Edit(note, spec) => c.(note := c.note || note, rv := c.rv + 1, unseen := c.unseen || spec)
    case SetVars(vars) => c.(live := vars)
    case Snapshot(n, None) => c.(snapshots := c.snapshots - {n})
    case Snapshot(n, Some(s)) => c.(snapshots := c.snapshots[n := s])
  }

  function EnvAll(c: Cluster, es: seq<Env>): Cluster
    decreases |es|
  {
    if es == [] then c else EnvAll(EnvStep(c, es[0]), es[1..])
  }

  // ---------- one call of the controller

  /** The answer to a call. The last two matter to AtWork only: did the image land
      (nothing to wait for before the request counts as used), and does the status
      say that a release is rolling out? */
  datatype Answer = Answer(write: Write, landed: bool, rolling: bool)

  function AfterLoad(c: Cluster): Pc {
    var copy := Copy(c.request, c.note, c.rv);
    if c.request.Some? && c.request.value.target > 0 then AtRestore(copy, c.request.value) else AtWork(copy)
  }

  predicate Labelled(copy: Copy) { copy.note || copy.request.Some? }

  /** A release without a snapshot leaves the vars alone. */
  function Restored(c: Cluster, target: int): Vars {
    if target in c.snapshots then Some(c.snapshots[target]) else c.live
  }

  /** The patch names the annotations of the copy, and removes what they are by now. */
  function Cleared(c: Cluster, copy: Copy): Cluster {
    c.(request := if copy.request.Some? then None else c.request,
       note := c.note && !copy.note,
       rv := c.rv + 1)
  }

  /** The status patch, locked. */
  function Committed(c: Cluster, copy: Copy, clear: bool, rolling: bool, a: Answer): State {
    if !a.write.Done? || c.rv != copy.rv then State(c, Idle)
    else State(c.(rv := c.rv + 1, unseen := false, rolling := rolling), if clear then AtClear(copy) else Idle)
  }

  function Call(s: State, a: Answer): State {
    var c := s.c;
    match s.pc
    case Idle => State(c, if a.write.Done? then AfterLoad(c) else Idle)
    case AtRestore(copy, r) =>
      if a.write.Conflict? then State(c, Idle)
      else if a.write.Failed? then State(c, AtFailed(copy))
      else State(c.(live := Restored(c, r.target), carried := c.carried + [r.id]), AtWork(copy))
    case AtWork(copy) =>
      State(c,
            if a.write.Conflict? then Idle
            else if a.write.Failed? then AtCommit(copy, false, false)
            else AtCommit(copy, a.landed && Labelled(copy), a.rolling))
    case AtFailed(copy) => Committed(c, copy, false, false, a)
    case AtCommit(copy, clear, rolling) => Committed(c, copy, clear, rolling, a)
    case AtClear(copy) => State(if a.write.Done? then Cleared(c, copy) else c, Idle)
  }

  // ---------- runs

  datatype Step = Controller(a: Answer) | Crash | Other(e: Env)

  function Next(s: State, step: Step): State {
    match step
    case Controller(a) => Call(s, a)
    case Crash => s.(pc := Idle)
    case Other(e) => s.(c := EnvStep(s.c, e))
  }

  function Run(s: State, steps: seq<Step>): State
    decreases |steps|
  {
    if steps == [] then s else Run(Next(s, steps[0]), steps[1..])
  }

  /** An App nobody has asked to roll back yet. */
  predicate Fresh(s: State) { s.pc.Idle? && s.c.request.None? && s.c.last == 0 && s.c.carried == [] }

  // ---------- one pass under interference

  /** What happens before one call of the controller, and its answer. */
  datatype Slot = Slot(before: seq<Env>, a: Answer)

  /** One pass from its current call on, until it ends or the slots run out. */
  function Pass(s: State, slots: seq<Slot>): State
    decreases |slots|
  {
    if slots == [] then s else
    var t := Call(State(EnvAll(s.c, slots[0].before), s.pc), slots[0].a);
    if t.pc.Idle? then t else Pass(t, slots[1..])
  }

  function Others(es: seq<Env>): seq<Step> {
    if es == [] then [] else [Other(es[0])] + Others(es[1..])
  }

  /** The pass as steps of a run. */
  function StepsOf(s: State, slots: seq<Slot>): seq<Step>
    decreases |slots|
  {
    if slots == [] then [] else
    var t := Call(State(EnvAll(s.c, slots[0].before), s.pc), slots[0].a);
    Others(slots[0].before) + [Controller(slots[0].a)] + (if t.pc.Idle? then [] else StepsOf(t, slots[1..]))
  }

  class AppReconciler {
    var cluster: Cluster

    method Meanwhile(es: seq<Env>)
      modifies this
      ensures cluster == EnvAll(old(cluster), es)
    {
      for i := 0 to |es|
        invariant EnvAll(cluster, es[i..]) == EnvAll(old(cluster), es)
      {
        cluster := EnvStep(cluster, es[i]);
      }
    }

    /** Copies the release's snapshot over the live vars, if there is one. */
    method RestoreRelease(r: Request)
      modifies this
      ensures cluster == old(cluster).(live := Restored(old(cluster), r.target),
                                       carried := old(cluster).carried + [r.id])
    {
      if r.target in cluster.snapshots {
        cluster := cluster.(live := Some(cluster.snapshots[r.target]));
      }
      cluster := cluster.(carried := cluster.carried + [r.id]);
    }

    /** Removes the one-shot annotations the copy has, whatever they are by now: this
        patch takes no lock. */
    method ClearReleaseNote(copy: Copy)
      modifies this
      ensures cluster == Cleared(old(cluster), copy)
    {
      var c := cluster;
      if copy.note {
        c := c.(note := false);
      }
      if copy.request.Some? {
        c := c.(request := None);
      }
      cluster := c.(rv := c.rv + 1);
    }

    /** The end of a pass: the locked status patch, then the clearing one. */
    method Conclude(copy: Copy, clear: bool, rolling: bool, slots: seq<Slot>)
      requires |slots| >= 2
      modifies this
      ensures State(cluster, Idle) == Pass(State(old(cluster), AtCommit(copy, clear, rolling)), slots)
      ensures !clear && !rolling ==> State(cluster, Idle) == Pass(State(old(cluster), AtFailed(copy)), slots)
    {
      Meanwhile(slots[0].before);
      if !slots[0].a.write.Done? || cluster.rv != copy.rv {
        return;
      }
      cluster := cluster.(rv := cluster.rv + 1, unseen := false, rolling := rolling);
      if clear {
        Meanwhile(slots[1].before);
        if slots[1].a.write.Done? {
          ClearReleaseNote(copy);
        }
      }
    }

    /** The rest of reconcile: does it leave the request to be cleared? */
    method Work(copy: Copy, slots: seq<Slot>)
      requires |slots| >= 3
      modifies this
      ensures State(cluster, Idle) == Pass(State(old(cluster), AtWork(copy)), slots)
    {
      Meanwhile(slots[0].before);
      if slots[0].a.write.Conflict? {
        return;
      }
      if slots[0].a.write.Failed? {
        Conclude(copy, false, false, slots[1..]);
        return;
      }
      Conclude(copy, slots[0].a.landed && (copy.note || copy.request.Some?), slots[0].a.rolling, slots[1..]);
    }

    /** One pass. At most five calls are made. */
    method Reconcile(slots: seq<Slot>)
      requires |slots| >= 5
      modifies this
      ensures State(cluster, Idle) == Pass(State(old(cluster), Idle), slots)
    {
      Meanwhile(slots[0].before);
      if !slots[0].a.write.Done? {
        return;
      }
      var copy := Copy(cluster.request, cluster.note, cluster.rv);
      var rest := slots[1..];
      if copy.request.Some? && copy.request.value.target > 0 {
        Meanwhile(rest[0].before);
        if rest[0].a.write.Conflict? {
          return;
        }
        if rest[0].a.write.Failed? {
          Conclude(copy, false, false, rest[1..]);
          return;
        }
        RestoreRelease(copy.request.value);
        rest := rest[1..];
      }
      Work(copy, rest);
    }
  }

  lemma {:induction false} RunInTwo(s: State, a: seq<Step>, b: seq<Step>)
    ensures Run(s, a + b) == Run(Run(s, a), b)
    decreases |a|
  {
    if a == [] {
      assert a + b == b;
    } else {
      RunInTwo(Next(s, a[0]), a[1..], b);
      assert (a + b)[1..] == a[1..] + b;
    }
  }

  lemma {:induction false} OthersRun(s: State, es: seq<Env>)
    ensures Run(s, Others(es)) == State(EnvAll(s.c, es), s.pc)
    decreases |es|
  {
    hide EnvStep;
    if es != [] {
      OthersRun(Next(s, Other(es[0])), es[1..]);
      assert Others(es)[1..] == Others(es[1..]);
    }
  }

  /** A pass under interference is a stretch of a run. */
  lemma {:induction false} PassIsRun(s: State, slots: seq<Slot>)
    ensures Run(s, StepsOf(s, slots)) == Pass(s, slots)
    decreases |slots|
  {
    hide Call, EnvStep;
    if slots != [] {
      var others, call := Others(slots[0].before), [Controller(slots[0].a)];
      var mid := State(EnvAll(s.c, slots[0].before), s.pc);
      var t := Call(mid, slots[0].a);
      var rest := if t.pc.Idle? then [] else StepsOf(t, slots[1..]);
      assert StepsOf(s, slots) == others + (call + rest);
      RunInTwo(s, others, call + rest);
      OthersRun(s, slots[0].before);
      assert Run(mid, call + rest) == Run(t, rest) by {
        assert (call + rest)[1..] == rest && (call + rest)[0] == call[0];
        assert Next(mid, call[0]) == t;
      }
      if !t.pc.Idle? { PassIsRun(t, slots[1..]); }
    }
  }

  lemma RunLast(start: State, steps: seq<Step>)
    requires steps != []
    ensures var front := steps[..|steps| - 1];
            Run(start, steps) == Next(Run(start, front), steps[|steps| - 1])
  {
    hide Next;
    var front, last := steps[..|steps| - 1], steps[|steps| - 1];
    RunInTwo(start, front, [last]);
    assert front + [last] == steps;
  }

  // ---------- the invariant

  predicate PastRestore(s: State, id: nat) {
    && (s.pc.AtWork? || s.pc.AtCommit? || s.pc.AtClear?)
    && s.pc.copy.request.Some? && s.pc.copy.request.value.id == id
  }

  ghost predicate CopyOk(copy: Copy, c: Cluster) {
    && copy.rv <= c.rv
    && (copy.rv == c.rv ==> copy.request == c.request)
    && (copy.request.Some? ==>
          && 0 < copy.request.value.id <= c.last && copy.request.value.target > 0
          && (forall m :: m in c.carried ==> m <= copy.request.value.id)
          && (c.request.Some? && c.request.value.id == copy.request.value.id ==> c.request == copy.request))
  }

  ghost predicate Inv(s: State) {
    && (s.c.request.Some? ==> s.c.request.value.id == s.c.last > 0 && s.c.request.value.target > 0)
    && (forall m :: m in s.c.carried ==> 0 < m <= s.c.last)
    && (s.pc.Idle? || CopyOk(s.pc.copy, s.c))
    && match s.pc
       case Idle => true
       case AtRestore(copy, r) => copy.request == Some(r)
       case AtWork(copy) => copy.request.Some? ==> copy.request.value.id in s.c.carried
       case AtFailed(copy) => true
       case AtCommit(copy, clear, _) => copy.request.Some? ==> copy.request.value.id in s.c.carried
       case AtClear(copy) =>
         && (copy.request.Some? ==>
               && copy.request.value.id in s.c.carried && s.c.request.Some?
               && s.c.request.value.id >= copy.request.value.id
               && (s.c.request != copy.request ==> !s.c.rolling))
  }

  lemma CallKeeps(s: State, a: Answer)
    requires Inv(s)
    ensures Inv(Call(s, a))
  {}

  lemma OtherKeeps(s: State, e: Env)
    requires Inv(s)
    ensures Inv(Next(s, Other(e)))
  {}

  lemma NextKeeps(s: State, step: Step)
    requires Inv(s)
    ensures Inv(Next(s, step))
  {
    match step {
      case Controller(a) => CallKeeps(s, a);
      case Crash =>
      case Other(e) => OtherKeeps(s, e);
    }
    hide Call, EnvStep, CopyOk;
  }

  lemma {:induction false} RunKeeps(s: State, steps: seq<Step>)
    requires Inv(s)
    ensures Inv(Run(s, steps))
    decreases |steps|
  {
    hide Inv, Next;
    if steps != [] {
      NextKeeps(s, steps[0]);
      RunKeeps(Next(s, steps[0]), steps[1..]);
    }
  }

  // ---------- what becomes of a request

  /** A pass that clears a request has carried out the one it read. What it drops is
      whatever request is there by then: one that was carried out exactly when no
      other was accepted since the status was written. That takes a status that
      showed no rollout. */
  lemma DroppedIsCarriedExactly(start: State, steps: seq<Step>)
    requires Fresh(start)
    ensures var s := Run(start, steps);
            s.pc.AtClear? && s.pc.copy.request.Some? ==>
              && s.c.request.Some? && s.pc.copy.request.value.id in s.c.carried
              && (s.c.request.value.id in s.c.carried <==> s.c.request == s.pc.copy.request)
              && (s.c.request.value.id !in s.c.carried ==> !s.c.rolling)
  {
    RunKeeps(start, steps);
  }

  /** Step n ends a pass that carried out request id, and does not clear it. */
  predicate Unfinished(start: State, steps: seq<Step>, n: nat, id: nat) {
    && n < |steps|
    && var s := Run(start, steps[..n]);
       PastRestore(s, id) && Leaves(s, steps[n])
  }

  /** The step ends the pass otherwise than by its clearing patch. */
  predicate Leaves(s: State, step: Step) {
    Next(s, step).pc.Idle? && !(s.pc.AtClear? && step.Controller? && step.a.write.Done?)
  }

  /** Nobody has the request any more. */
  predicate GoneFor(s: State, id: nat) {
    && id <= s.c.last
    && (s.c.request.Some? ==> s.c.request.value.id != id)
    && (!s.pc.Idle? && s.pc.copy.request.Some? ==> s.pc.copy.request.value.id != id)
  }

  lemma StepOfFate(s: State, step: Step, id: nat)
    requires Inv(s) && id in Next(s, step).c.carried
    requires id in s.c.carried ==> PastRestore(s, id) || GoneFor(s, id)
    ensures PastRestore(Next(s, step), id) || GoneFor(Next(s, step), id) || (PastRestore(s, id) && Leaves(s, step))
  {
    match step {
      case Controller(a) => CallOfFate(s, a, id);
      case Crash =>
      case Other(e) => EnvOfFate(s, e, id);
    }
    hide Call, EnvStep, Inv;
  }

  lemma CallOfFate(s: State, a: Answer, id: nat)
    requires Inv(s) && id in Call(s, a).c.carried
    requires id in s.c.carried ==> PastRestore(s, id) || GoneFor(s, id)
    ensures var t := Call(s, a);
            PastRestore(t, id) || GoneFor(t, id) || (PastRestore(s, id) && Leaves(s, Controller(a)))
  {
    match s.pc {
      case Idle => LoadOfFate(s, a, id);
      case AtRestore(_, _) => RestoreOfFate(s, a, id);
      case AtClear(_) => ClearOfFate(s, a, id);
      case _ => WorkOfFate(s, a, id);
    }
    hide Call, CopyOk;
  }

  lemma LoadOfFate(s: State, a: Answer, id: nat)
    requires Inv(s) && s.pc.Idle? && id in Call(s, a).c.carried && (id in s.c.carried ==> GoneFor(s, id))
    ensures GoneFor(Call(s, a), id)
  {}

  lemma RestoreOfFate(s: State, a: Answer, id: nat)
    requires Inv(s) && s.pc.AtRestore? && id in Call(s, a).c.carried
    requires id in s.c.carried ==> GoneFor(s, id)
    ensures PastRestore(Call(s, a), id) || GoneFor(Call(s, a), id)
  {
    hide EnvStep, AfterLoad, Cleared, Committed;
  }

  lemma WorkOfFate(s: State, a: Answer, id: nat)
    requires Inv(s) && (s.pc.AtWork? || s.pc.AtFailed? || s.pc.AtCommit?) && (PastRestore(s, id) || GoneFor(s, id))
    ensures PastRestore(Call(s, a), id) || GoneFor(Call(s, a), id) || (PastRestore(s, id) && Leaves(s, Controller(a)))
  {
    hide EnvStep, AfterLoad, Cleared, Restored;
  }

  lemma ClearOfFate(s: State, a: Answer, id: nat)
    requires Inv(s) && s.pc.AtClear? && (PastRestore(s, id) || GoneFor(s, id))
    ensures GoneFor(Call(s, a), id) || (PastRestore(s, id) && Leaves(s, Controller(a)))
  {}

  lemma EnvOfFate(s: State, e: Env, id: nat)
    requires PastRestore(s, id) || GoneFor(s, id)
    ensures PastRestore(Next(s, Other(e)), id) || GoneFor(Next(s, Other(e)), id)
  {}

  /** After a pass carried a request out, the pass is still on, or it ended without
      clearing the request, or the request is gone for good. */
  lemma {:induction false} Fate(start: State, steps: seq<Step>, id: nat)
    requires Fresh(start) && id in Run(start, steps).c.carried
    ensures || PastRestore(Run(start, steps), id) || GoneFor(Run(start, steps), id)
            || exists n :: Unfinished(start, steps, n, id)
    decreases |steps|
  {
    hide Next, Run, PastRestore, GoneFor, Leaves, Inv;
    assert steps != [] by { NothingYet(start); }
    RunLast(start, steps);
    var m := |steps| - 1;
    var front := steps[..m];
    var s := Run(start, front);
    FreshKeeps(start, front);
    if id in s.c.carried {
      Fate(start, front, id);
    }
    if n: nat :| Unfinished(start, front, n, id) {
      assert front[..n] == steps[..n];
      assert Unfinished(start, steps, n, id);
    } else {
      StepOfFate(s, steps[m], id);
      if PastRestore(s, id) && Leaves(s, steps[m]) {
        assert Unfinished(start, steps, m, id);
      }
    }
  }

  lemma NothingYet(start: State)
    requires Fresh(start)
    ensures Run(start, []).c.carried == []
  {}

  lemma FreshKeeps(start: State, steps: seq<Step>)
    requires Fresh(start)
    ensures Inv(Run(start, steps))
  {
    RunKeeps(start, steps);
  }

  lemma {:induction false} CarriedStays(s: State, steps: seq<Step>, id: nat)
    requires id in s.c.carried
    ensures id in Run(s, steps).c.carried
    decreases |steps|
  {
    if steps != [] { CarriedStays(Next(s, steps[0]), steps[1..], id); }
  }

  lemma PastMeansCarried(s: State, id: nat)
    requires Inv(s) && PastRestore(s, id)
    ensures id in s.c.carried
  {}

  /** A pass is about to carry out a request that was carried out before if and only
      if some earlier pass did so and did not end by clearing it: a conflict or an
      error after the restore, an image not there yet, a patch that failed, a crash. */
  lemma CarriedAgainExactly(start: State, steps: seq<Step>)
    requires Fresh(start) && Run(start, steps).pc.AtRestore?
    ensures var s := Run(start, steps);
            s.pc.r.id in s.c.carried <==> exists n :: Unfinished(start, steps, n, s.pc.r.id)
  {
    FreshKeeps(start, steps);
    var s := Run(start, steps);
    var id := s.pc.r.id;
    assert !PastRestore(s, id) && !GoneFor(s, id);
    hide Run, Inv, PastRestore, GoneFor, Leaves;
    if id in s.c.carried {
      Fate(start, steps, id);
    }
    if n: nat :| Unfinished(start, steps, n, id) {
      FreshKeeps(start, steps[..n]);
      PastMeansCarried(Run(start, steps[..n]), id);
      RunInTwo(start, steps[..n], steps[n..]);
      assert steps[..n] + steps[n..] == steps;
      CarriedStays(Run(start, steps[..n]), steps[n..], id);
    }
  }

  lemma StepCarries(s: State, step: Step)
    requires Inv(s)
    ensures Next(s, step).c.carried == s.c.carried
            || (&& s.pc.AtRestore? && Next(s, step).c.carried == s.c.carried + [s.pc.r.id]
                && forall m :: m in s.c.carried ==> m <= s.pc.r.id)
  {}

  ghost predicate PassesFinish(start: State, steps: seq<Step>) {
    forall n: nat, id: nat :: !Unfinished(start, steps, n, id)
  }

  /** Every request is carried out at most once, in the order of acceptance, as long
      as no pass leaves one it carried out. */
  lemma {:induction false} AtMostOnce(start: State, steps: seq<Step>)
    requires Fresh(start) && PassesFinish(start, steps)
    ensures Increasing(Run(start, steps).c.carried)
    decreases |steps|
  {
    hide Next, Run, Unfinished, Inv;
    if steps == [] {
      NothingYet(start);
    } else {
      RunLast(start, steps);
      var m := |steps| - 1;
      var front := steps[..m];
      var s := Run(start, front);
      FrontFinishes(start, steps);
      AtMostOnce(start, front);
      FreshKeeps(start, front);
      StepCarries(s, steps[m]);
      if Next(s, steps[m]).c.carried != s.c.carried {
        CarriedAgainExactly(start, front);
        AppendIncreasing(s.c.carried, s.pc.r.id);
      }
    }
  }

  lemma FrontFinishes(start: State, steps: seq<Step>)
    requires steps != [] && PassesFinish(start, steps)
    ensures PassesFinish(start, steps[..|steps| - 1])
  {
    hide PastRestore, Leaves, Run;
    var front := steps[..|steps| - 1];
    forall n: nat, id: nat ensures !Unfinished(start, front, n, id) {
      assert n < |front| ==> front[..n] == steps[..n];
      assert !Unfinished(start, steps, n, id);
    }
  }

  // ---------- runs of calls that go through

  /** A call that goes through, the image there, no rollout to show. */
  const THROUGH := Controller(Answer(Done, true, false))

  lemma RunStep(s: State, steps: seq<Step>, t: State)
    requires steps != [] && Next(s, steps[0]) == t
    ensures Run(s, steps) == Run(t, steps[1..])
  {}

  /** What the status patch of such a pass leaves: the request carried out, not yet cleared. */
  function CarriedOut(c: Cluster, r: Request): Cluster {
    c.(live := Restored(c, r.target), carried := c.carried + [r.id], rv := c.rv + 1, unseen := false, rolling := false)
  }

  lemma UpToClearing(c: Cluster, r: Request, rest: seq<Step>)
    requires c.request == Some(r) && r.target > 0
    ensures Run(State(c, Idle), [THROUGH, THROUGH, THROUGH, THROUGH] + rest)
         == Run(State(CarriedOut(c, r), AtClear(Copy(c.request, c.note, c.rv))), rest)
  {
    hide Run;
    var copy := Copy(c.request, c.note, c.rv);
    var c1 := c.(live := Restored(c, r.target), carried := c.carried + [r.id]);
    var steps := [THROUGH, THROUGH, THROUGH, THROUGH] + rest;
    RunStep(State(c, Idle), steps, State(c, AtRestore(copy, r)));
    RunStep(State(c, AtRestore(copy, r)), steps[1..], State(c1, AtWork(copy)));
    RunStep(State(c1, AtWork(copy)), steps[2..], State(c1, AtCommit(copy, true, false)));
    RunStep(State(c1, AtCommit(copy, true, false)), steps[3..], State(CarriedOut(c, r), AtClear(copy)));
    assert steps[1..][1..] == steps[2..] && steps[2..][1..] == steps[3..] && steps[3..][1..] == rest;
  }

  /** Any pending request is carried out and dropped by the next pass that goes through. */
  lemma NextPassCarriesOut(start: State, steps: seq<Step>)
    requires Fresh(start) && Run(start, steps).pc.Idle? && Run(start, steps).c.request.Some?
    ensures var s := Run(start, steps);
            var r := s.c.request.value;
            var t := Run(s, [THROUGH, THROUGH, THROUGH, THROUGH] + [THROUGH]);
            && t.pc.Idle? && t.c.request.None? && t.c.carried == s.c.carried + [r.id]
            && t.c.live == Restored(s.c, r.target)
  {
    FreshKeeps(start, steps);
    var s := Run(start, steps);
    var r := s.c.request.value;
    hide Run;
    UpToClearing(s.c, r, [THROUGH]);
    var copy := Copy(s.c.request, s.c.note, s.c.rv);
    var clearing := State(CarriedOut(s.c, r), AtClear(copy));
    RunStep(clearing, [THROUGH], State(Cleared(clearing.c, copy), Idle));
    assert [THROUGH][1..] == [];
    RunNone(State(Cleared(clearing.c, copy), Idle));
  }

  lemma RunNone(s: State)
    ensures Run(s, []) == s
  {}

  predicate AtRest(c: Cluster, n: int) {
    Fresh(State(c, Idle)) && Accepts(c) && n > 0 && n in c.snapshots
  }

  /** Without any error, and past the API's refusals, a rollback accepted between the
      status patch and the clearing patch of the one before is dropped: nobody
      carries it out. */
  lemma LateRollbackIsLost(c: Cluster, n: int, m: int)
    requires AtRest(c, n) && m > 0
    ensures var t := Run(State(c, Idle), [Other(Ask(n, false))] + ([THROUGH, THROUGH, THROUGH, THROUGH]
                                           + [Other(Ask(m, false)), THROUGH]));
            && t.pc.Idle? && t.c.last == 2 && t.c.request.None? && t.c.carried == [1]
            && t.c.live == Some(c.snapshots[n])
  {
    hide Run;
    var tail := [Other(Ask(m, false)), THROUGH];
    var steps := [Other(Ask(n, false))] + ([THROUGH, THROUGH, THROUGH, THROUGH] + tail);
    var c1, r := EnvStep(c, Ask(n, false)), Request(1, n);
    RunStep(State(c, Idle), steps, State(c1, Idle));
    assert steps[1..] == [THROUGH, THROUGH, THROUGH, THROUGH] + tail;
    UpToClearing(c1, r, tail);
    var copy := Copy(c1.request, c1.note, c1.rv);
    var c2 := CarriedOut(c1, r);
    var c3 := EnvStep(c2, Ask(m, false));
    RunStep(State(c2, AtClear(copy)), tail, State(c3, AtClear(copy)));
    RunStep(State(c3, AtClear(copy)), tail[1..], State(Cleared(c3, copy), Idle));
    assert tail[1..][1..] == [];
    RunNone(State(Cleared(c3, copy), Idle));
  }

  /** After a clearing patch that fails, the next pass carries the rollback out again,
      over config vars set in the meantime. */
  lemma UnclearedOverwritesVars(c: Cluster, n: int, vars: Vars)
    requires AtRest(c, n)
    ensures var t := Run(State(c, Idle), [Other(Ask(n, false))] + ([THROUGH, THROUGH, THROUGH, THROUGH]
                                           + [Controller(Answer(Failed, true, false)), Other(SetVars(vars))]));
            var u := Run(t, [THROUGH, THROUGH, THROUGH, THROUGH] + [THROUGH]);
            && t.pc.Idle? && t.c.live == vars && t.c.request == Some(Request(1, n))
            && u.c.live == Some(c.snapshots[n]) && u.c.carried == [1, 1] && u.c.request.None?
  {
    hide Run;
    var tail := [Controller(Answer(Failed, true, false)), Other(SetVars(vars))];
    var steps := [Other(Ask(n, false))] + ([THROUGH, THROUGH, THROUGH, THROUGH] + tail);
    var c1, r := EnvStep(c, Ask(n, false)), Request(1, n);
    RunStep(State(c, Idle), steps, State(c1, Idle));
    assert steps[1..] == [THROUGH, THROUGH, THROUGH, THROUGH] + tail;
    UpToClearing(c1, r, tail);
    var copy := Copy(c1.request, c1.note, c1.rv);
    var c2 := CarriedOut(c1, r);
    var c3 := c2.(live := vars);
    RunStep(State(c2, AtClear(copy)), tail, State(c2, Idle));
    RunStep(State(c2, Idle), tail[1..], State(c3, Idle));
    assert tail[1..][1..] == [];
    RunNone(State(c3, Idle));
    UpToClearing(c3, r, [THROUGH]);
    var copy2 := Copy(c3.request, c3.note, c3.rv);
    var c4 := CarriedOut(c3, r);
    RunStep(State(c4, AtClear(copy2)), [THROUGH], State(Cleared(c4, copy2), Idle));
    assert [THROUGH][1..] == [];
    RunNone(State(Cleared(c4, copy2), Idle));
  }
}
