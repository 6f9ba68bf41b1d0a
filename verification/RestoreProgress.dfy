/** A pending restore always moves forward: a lexicographic measure that no step
    raises and that the party whose turn it is lowers, until the request is
    dropped. Nobody's turn is the binding of the new claim
    (internal/controller/volume_controller.go:322-403,
    internal/controller/mounts.go:69, 117-125). */
module RestoreProgress {
  import opened Basics
  import opened RestoreProtocol
  import opened RestoreSafety

  predicate Waiting(c: Cluster) { c.vol.from != "" }

  /** The calls a pass has left, at most. */
  function CallsLeft(pc: Pc): nat {
    match pc
    case Idle => 0
    case AtClear(_, _) => 1
    case AtStatus(_, _) => 2
    case AtMountedBy(_, _) => 3
    case AtExisting(_, _) => 4
    case AtPlainCreate(_) => 4
    case AtPlainClaim(_) => 5
    case AtDelete(_, _) => 3
    case AtPods(_, _) => 4
    case AtCreate(_) => 3
    case AtClaim(_) => 5
    case AtCancel(_) => 3
    case AtSnapshot(_) => 6
  }

  /** A pass that did not read the request, or gave up on its snapshot. */
  predicate Behind(s: State) {
    !s.pc.Idle? && (s.pc.AtCancel? || s.pc.v.id != s.c.vol.id)
  }

  /** How far the claim is from being the request's: 4 the old one, 3 the old one on
      its way out, 2 none, 1 the new one, 0 the request is dropped. */
  function Stage(c: Cluster): nat {
    if !Waiting(c) then 0
    else if c.claim.None? then 2
    else if Matches(c.claim.value, c.vol) then 1
    else if c.claim.value.deleting then 3
    else 4
  }

  datatype Measure = Measure(behind: nat, stage: nat, asked: nat, pods: nat)

  function Distance(s: State): Measure {
    Measure(if Behind(s) then CallsLeft(s.pc) else 0,
            Stage(s.c),
            if s.c.replicas > 0 then 1 else 0,
            if s.c.replicas > 0 then 0 else Using(s.c.pods, PVCName(s.c.vol)))
  }

  predicate Less(a: Measure, b: Measure) {
    || a.behind < b.behind
    || (a.behind == b.behind && a.stage < b.stage)
    || (a.behind == b.behind && a.stage == b.stage && a.asked < b.asked)
    || (a.behind == b.behind && a.stage == b.stage && a.asked == b.asked && a.pods < b.pods)
  }

  predicate AtMost(a: Measure, b: Measure) { a == b || Less(a, b) }

  /** The environment in which a restore is bound to finish: no new request, the
      size stays valid, the snapshot stays ready, and a Deployment asked for no
      instances starts no pod. */
  predicate Calm(c: Cluster, e: Env) {
    match e
    case Ask(_) => false
    case Edit(size) => size
    case Snapshot(name, state) => name == c.vol.from ==> state == Some(true)
    case Pods(pods) => c.replicas == 0 ==> Using(pods, PVCName(c.vol)) <= Using(c.pods, PVCName(c.vol))
    case Settle(_) => true
    case Gone => true
    case AppPass(_) => true
  }

  predicate Ready(c: Cluster) { c.vol.sizeOk && c.vol.from in c.ready && c.ready[c.vol.from] }

  // ---------- nothing moves it back

  lemma EnvNeverBack(s: State, e: Env)
    requires Inv(s) && Waiting(s.c) && Calm(s.c, e)
    ensures AtMost(Distance(s.(c := EnvStep(s.c, e))), Distance(s))
    ensures EnvStep(s.c, e).vol.from == s.c.vol.from && EnvStep(s.c, e).vol.id == s.c.vol.id
    ensures Ready(s.c) ==> Ready(EnvStep(s.c, e))
  {
    hide Increasing, CopyOf;
  }

  lemma CallNeverBack(s: State, a: Write)
    requires Inv(s) && Waiting(s.c) && Ready(s.c)
    ensures AtMost(Distance(Call(s, a)), Distance(s))
  {
    hide Using, Increasing, CallsLeft;
    if !a.Done? {
      FailedCallNeverBack(s, a);
    } else {
      match s.pc {
        case AtCreate(v) => CallsLeftFalls(s, a);
        case AtPlainCreate(v) => CallsLeftFalls(s, a);
        case AtDelete(v, c) => CallsLeftFalls(s, a);
        case AtClear(v, err) => CallsLeftFalls(s, a);
        case AtStatus(v, err) => CallsLeftFalls(s, a);
        case AtCancel(v) => CallsLeftFalls(s, a);
        case _ => CallsLeftFalls(s, a);
      }
    }
  }

  lemma CallsLeftFalls(s: State, a: Write)
    ensures s.pc.Idle? || CallsLeft(Call(s, a).pc) < CallsLeft(s.pc)
    ensures CallsLeft(Idle) == 0
  {}

  lemma FailedCallNeverBack(s: State, a: Write)
    requires Inv(s) && Waiting(s.c) && !a.Done?
    ensures AtMost(Distance(Call(s, a)), Distance(s))
  {
    hide Using, Increasing, CallsLeft, Honoured;
    CallsLeftFalls(s, a);
  }

  lemma AtMostOn(a: Measure, b: Measure, c: Measure)
    requires AtMost(a, b) && AtMost(b, c)
    ensures AtMost(a, c)
  {}

  predicate CalmStep(s: State, step: Step) {
    match step
    case Controller(_) => true
    case Crash => true
    case Other(e) => Calm(s.c, e)
  }

  /** Calm steps taken while the request is pending and its snapshot ready. */
  predicate CalmRun(s: State, steps: seq<Step>)
    decreases |steps|
  {
    steps == [] || (Waiting(s.c) && Ready(s.c) && CalmStep(s, steps[0]) && CalmRun(Next(s, steps[0]), steps[1..]))
  }

  /** Nothing moves a pending restore back: not failing calls, nor crashes, nor passes
      that know nothing of it. */
  lemma {:induction false} NothingMovesItBack(s: State, steps: seq<Step>)
    requires Inv(s) && CalmRun(s, steps)
    ensures AtMost(Distance(Run(s, steps)), Distance(s))
    decreases |steps|
  {
    hide Inv, Call, EnvStep, Distance, Ready, Waiting, Calm;
    if steps != [] {
      var t := Next(s, steps[0]);
      match steps[0] {
        case Controller(a) =>
          CallNeverBack(s, a);
          CallKeeps(s, a);
        case Crash => CrashNeverBack(s);
        case Other(e) =>
          EnvNeverBack(s, e);
          EnvKeeps(s, e);
      }
      NothingMovesItBack(t, steps[1..]);
      AtMostOn(Distance(Run(s, steps)), Distance(t), Distance(s));
    }
  }

  lemma CrashNeverBack(s: State)
    requires Inv(s)
    ensures Inv(s.(pc := Idle)) && AtMost(Distance(s.(pc := Idle)), Distance(s))
  {
    hide Using;
  }

  // ---------- somebody can always move it forward

  /** The App controller's next pass stops the processes. */
  lemma AppPassForward(s: State, n: nat)
    requires Waiting(s.c) && s.c.replicas > 0
    ensures Less(Distance(s.(c := EnvStep(s.c, AppPass(n)))), Distance(s))
  {}

  /** With no instances asked for, a pod that ends is not replaced. */
  lemma PodEndsForward(s: State, pods: seq<Pod>)
    requires Waiting(s.c) && s.c.replicas == 0 && Using(pods, PVCName(s.c.vol)) < Using(s.c.pods, PVCName(s.c.vol))
    ensures Less(Distance(s.(c := EnvStep(s.c, Pods(pods)))), Distance(s))
  {}

  /** A claim on its way out goes once no pod mounts it. */
  lemma GoneForward(s: State)
    requires Waiting(s.c) && Stage(s.c) == 3 && Using(s.c.pods, PVCName(s.c.vol)) == 0
    ensures Less(Distance(s.(c := EnvStep(s.c, Gone))), Distance(s))
  {}

  /** Calm steps, none of them an edit of the spec once the new claim is there: the
      pass that finds it has to get its status written. */
  predicate Undisturbed(c: Cluster, es: seq<Env>)
    decreases |es|
  {
    es == [] || (Calm(c, es[0]) && (es[0].Edit? ==> Stage(c) > 1) && Undisturbed(EnvStep(c, es[0]), es[1..]))
  }

  /** What such steps leave as it was. */
  ghost predicate SameRequest(c: Cluster, d: Cluster) {
    && d.vol == c.vol.(sizeOk := d.vol.sizeOk, rv := d.vol.rv) && d.last == c.last && d.made == c.made
    && Stage(d) <= Stage(c) && (Stage(c) <= 1 ==> d.vol == c.vol)
    && (Ready(c) ==> Ready(d))
    && (c.replicas == 0 ==> d.replicas == 0 && Using(d.pods, PVCName(c.vol)) <= Using(c.pods, PVCName(c.vol)))
    && (c.claim.None? ==> d.claim.None?)
    && (c.claim.Some? && !c.claim.value.deleting ==> d.claim.Some?)
    && (c.claim.Some? && d.claim.Some? ==> d.claim.value == c.claim.value.(phase := d.claim.value.phase))
  }

  lemma StepUndisturbed(c: Cluster, e: Env)
    requires Sound(c) && Waiting(c) && Calm(c, e) && (e.Edit? ==> Stage(c) > 1)
    ensures SameRequest(c, EnvStep(c, e))
  {}

  lemma {:induction false} StaysUndisturbed(c: Cluster, es: seq<Env>)
    requires Sound(c) && Waiting(c) && Undisturbed(c, es)
    ensures SameRequest(c, EnvAll(c, es))
    decreases |es|
  {
    if es != [] {
      EnvKeeps(State(c, Idle), es[0]);
      StepUndisturbed(c, es[0]);
      StaysUndisturbed(EnvStep(c, es[0]), es[1..]);
    }
  }

  /** Every call goes through, and the others' steps before it leave the pass undisturbed. */
  predicate Smooth(s: State, slots: seq<Slot>)
    decreases |slots|
  {
    slots == [] ||
    (var c := EnvAll(s.c, slots[0].before);
     slots[0].a.Done? && Undisturbed(s.c, slots[0].before) &&
     (var t := Call(State(c, s.pc), Done);
      t.pc.Idle? || Smooth(t, slots[1..])))
  }

  /** Is it the controller's turn? The old claim is free, or there is none, or the
      new one is there; whether that one is bound does not matter. */
  predicate Turn(c: Cluster) {
    && Waiting(c) && Ready(c)
    && (Stage(c) == 4 ==> c.replicas == 0 && Using(c.pods, PVCName(c.vol)) == 0)
    && Stage(c) != 3
  }

  /** The controller on its way to act on a claim at the given stage. */
  predicate OnItsWay(s: State, stage: nat) {
    && Turn(s.c) && Stage(s.c) == stage
    && (s.pc.Idle? ||
        (&& s.pc.v.from == s.c.vol.from && s.pc.v.id == s.c.vol.id && s.pc.v.name == s.c.vol.name
         && (stage > 1 || s.pc.v.rv == s.c.vol.rv)))
    && match s.pc
       case Idle => true
       case AtSnapshot(_) => true
       case AtClaim(_) => true
       case AtPods(_, c) => stage == 4 && !c.deleting
       case AtDelete(_, _) => stage == 4
       case AtCreate(_) => stage == 2
       case AtStatus(v, err) => stage == 1 && Clears(v) && !err
       case AtClear(_, err) => stage == 1 && !err
       case _ => false
  }

  lemma WaitingStays(s: State, es: seq<Env>, stage: nat)
    requires Inv(s) && OnItsWay(s, stage) && Undisturbed(s.c, es)
    ensures OnItsWay(State(EnvAll(s.c, es), s.pc), stage)
  {
    hide EnvAll, Undisturbed, Using, Increasing;
    StaysUndisturbed(s.c, es);
  }

  /** The next call either acts, or brings the pass nearer to acting. */
  lemma CallForward(s: State, stage: nat)
    requires Inv(s) && OnItsWay(s, stage)
    ensures var t := Call(s, Done);
            || Stage(t.c) < stage
            || (OnItsWay(t, stage) && !t.pc.Idle? && (s.pc.Idle? || CallsLeft(t.pc) < CallsLeft(s.pc)))
  {
    hide Increasing;
  }

  lemma {:induction false} EnvAllKeeps(s: State, es: seq<Env>)
    requires Inv(s)
    ensures Inv(State(EnvAll(s.c, es), s.pc))
    decreases |es|
  {
    hide Inv;
    if es != [] {
      EnvKeeps(s, es[0]);
      EnvAllKeeps(State(EnvStep(s.c, es[0]), s.pc), es[1..]);
    }
  }

  /** A pass that read the request and met no error, in calm weather. */
  predicate Keeping(s: State) {
    && !Behind(s) && Ready(s.c) && Waiting(s.c)
    && (s.pc.AtStatus? || s.pc.AtClear? ==> !s.pc.err)
  }

  /** From c to d the request is still pending, or it was dropped and d's claim
      carries it; and stopped pods stay stopped. */
  predicate Follows(c: Cluster, d: Cluster) {
    && (if Waiting(d) then Ready(d) && d.vol.from == c.vol.from && d.vol.id == c.vol.id
        else Carries(d.claim, c.vol) && !d.claim.value.deleting)
    && d.vol.name == c.vol.name
    && (c.replicas == 0 ==> d.replicas == 0 && Using(d.pods, PVCName(c.vol)) <= Using(c.pods, PVCName(c.vol)))
  }

  lemma FollowsOn(a: Cluster, b: Cluster, c: Cluster)
    requires Follows(a, b) && Waiting(b) && Follows(b, c)
    ensures Follows(a, c)
  {}

  lemma EnvKeepsStage(s: State, es: seq<Env>)
    requires Inv(s) && Keeping(s) && Undisturbed(s.c, es)
    ensures var t := State(EnvAll(s.c, es), s.pc);
            Keeping(t) && Stage(t.c) <= Stage(s.c) && Follows(s.c, t.c)
  {
    hide EnvAll, Undisturbed, Using, Increasing;
    StaysUndisturbed(s.c, es);
  }

  lemma CallKeepsStage(s: State)
    requires Inv(s) && Keeping(s)
    ensures var t := Call(s, Done); (Keeping(t) || t.pc.Idle?) && Stage(t.c) <= Stage(s.c) && Follows(s.c, t.c)
  {
    hide Using, Increasing;
  }

  lemma {:induction false} RestKeepsStage(s: State, slots: seq<Slot>)
    requires Inv(s) && Keeping(s) && Smooth(s, slots)
    ensures Stage(Pass(s, slots).c) <= Stage(s.c)
    ensures Follows(s.c, Pass(s, slots).c)
    decreases |slots|
  {
    hide Inv, Call, Stage, EnvAll, Undisturbed, Using, Ready, Carries;
    if slots != [] {
      var m := State(EnvAll(s.c, slots[0].before), s.pc);
      EnvAllKeeps(s, slots[0].before);
      EnvKeepsStage(s, slots[0].before);
      CallKeeps(m, Done);
      CallKeepsStage(m);
      var t := Call(m, Done);
      FollowsOn(s.c, m.c, t.c);
      if !t.pc.Idle? {
        RestKeepsStage(t, slots[1..]);
        FollowsOn(s.c, t.c, Pass(s, slots).c);
      }
    }
  }

  /** A pass on its way that goes through smoothly lowers the stage. */
  lemma {:induction false} PassLowersStage(s: State, slots: seq<Slot>, stage: nat)
    requires Inv(s) && OnItsWay(s, stage) && Smooth(s, slots)
    requires |slots| >= if s.pc.Idle? then 7 else CallsLeft(s.pc)
    ensures Stage(Pass(s, slots).c) < stage
    ensures Follows(s.c, Pass(s, slots).c)
    decreases |slots|
  {
    hide Inv, OnItsWay, Call, Stage, EnvAll, Undisturbed, CallsLeft, Ready, Carries, Using;
    assert slots != [] by { OnItsWayHasCalls(s, stage); }
    var m := State(EnvAll(s.c, slots[0].before), s.pc);
    EnvAllKeeps(s, slots[0].before);
    WaitingStays(s, slots[0].before, stage);
    CallKeeps(m, Done);
    CallForward(m, stage);
    var t := Call(m, Done);
    OnItsWayKeeps(s, stage);
    EnvKeepsStage(s, slots[0].before);
    CallKeepsStage(m);
    FollowsOn(s.c, m.c, t.c);
    if t.pc.Idle? {
    } else if Stage(t.c) < stage {
      RestKeepsStage(t, slots[1..]);
      FollowsOn(s.c, t.c, Pass(s, slots).c);
    } else {
      AtMostSix(t.pc);
      PassLowersStage(t, slots[1..], stage);
      FollowsOn(s.c, t.c, Pass(s, slots).c);
    }
  }

  lemma AtMostSix(pc: Pc)
    ensures CallsLeft(pc) <= 6
  {}

  lemma OnItsWayHasCalls(s: State, stage: nat)
    requires OnItsWay(s, stage)
    ensures s.pc.Idle? || CallsLeft(s.pc) > 0
  {}

  lemma OnItsWayKeeps(s: State, stage: nat)
    requires OnItsWay(s, stage)
    ensures Keeping(s)
  {}

  /** The controller's turn: one pass whose calls go through, whatever calm steps come
      in between, lowers the measure; only an edit of the spec beside the new claim
      may make its status conflict. Seven calls are enough. */
  lemma PassForward(c: Cluster, slots: seq<Slot>)
    requires Inv(State(c, Idle)) && Turn(c) && Smooth(State(c, Idle), slots) && |slots| >= 7
    ensures var t := Pass(State(c, Idle), slots);
            t.pc.Idle? && Less(Distance(t), Distance(State(c, Idle)))
  {
    hide Pass, Smooth, Inv, Turn;
    assert OnItsWay(State(c, Idle), Stage(c));
    PassLowersStage(State(c, Idle), slots, Stage(c));
    assert CallsLeft(Idle) == 0;
    PassEnds(State(c, Idle), slots);
  }

  lemma {:induction false} PassEnds(s: State, slots: seq<Slot>)
    requires |slots| >= (if s.pc.Idle? then 7 else CallsLeft(s.pc))
    requires !s.pc.Idle? ==> CallsLeft(s.pc) > 0
    ensures Pass(s, slots).pc.Idle?
    decreases |slots|
  {
    hide Call, CallsLeft;
    var m := State(EnvAll(s.c, slots[0].before), s.pc);
    var t := Call(m, slots[0].a);
    CallsLeftFalls(m, slots[0].a);
    AtMostSix(t.pc);
    if !t.pc.Idle? {
      assert CallsLeft(t.pc) > 0 by { BusyHasCalls(t.pc); }
      PassEnds(t, slots[1..]);
    }
  }

  lemma BusyHasCalls(pc: Pc)
    requires !pc.Idle?
    ensures CallsLeft(pc) > 0
  {}

  /** One round: the App controller passes, the pods of a stopped Deployment end,
      the volume controller passes, a deleted claim goes. */
  function Round(c: Cluster, n: nat, pods: seq<Pod>, slots: seq<Slot>): Cluster {
    var stopped := EnvStep(EnvStep(c, AppPass(n)), Pods(pods));
    EnvStep(Pass(State(stopped, Idle), slots).c, Gone)
  }

  ghost predicate FairRound(c: Cluster, n: nat, pods: seq<Pod>, slots: seq<Slot>) {
    var stopped := EnvStep(EnvStep(c, AppPass(n)), Pods(pods));
    Using(pods, PVCName(c.vol)) == 0 && |slots| >= 7 && Smooth(State(stopped, Idle), slots)
  }

  lemma Stopped(c: Cluster, n: nat, pods: seq<Pod>)
    requires Inv(State(c, Idle)) && Waiting(c) && Ready(c) && Using(pods, PVCName(c.vol)) == 0
    ensures var d := EnvStep(EnvStep(c, AppPass(n)), Pods(pods));
            && Inv(State(d, Idle)) && d.vol == c.vol && Stage(d) == Stage(c) && Ready(d)
            && d.replicas == 0 && Using(d.pods, PVCName(d.vol)) == 0
  {
    hide Using;
    EnvKeeps(State(c, Idle), AppPass(n));
    EnvKeeps(State(EnvStep(c, AppPass(n)), Idle), Pods(pods));
  }

  lemma PassKeeps(c: Cluster, slots: seq<Slot>)
    requires Inv(State(c, Idle))
    ensures Inv(Pass(State(c, Idle), slots))
  {
    hide Inv;
    PassIsRun(State(c, Idle), slots);
    RunKeeps(State(c, Idle), StepsOf(State(c, Idle), slots));
  }

  lemma GoneLowers(c: Cluster)
    requires Inv(State(c, Idle)) && Using(c.pods, PVCName(c.vol)) == 0
    ensures var d := EnvStep(c, Gone);
            && Inv(State(d, Idle)) && d.vol == c.vol && Stage(d) <= Stage(c)
            && (Stage(c) == 3 ==> Stage(d) == 2)
            && (Ready(c) ==> Ready(d))
  {
    hide Using;
    EnvKeeps(State(c, Idle), Gone);
  }

  /** A fair round takes the claim at least one stage on, and from the old claim to
      none at all. */
  lemma RoundForward(c: Cluster, n: nat, pods: seq<Pod>, slots: seq<Slot>)
    requires Inv(State(c, Idle)) && Waiting(c) && Ready(c) && FairRound(c, n, pods, slots)
    ensures var d := Round(c, n, pods, slots);
            && Inv(State(d, Idle)) && Stage(d) < Stage(c) && (Stage(c) == 4 ==> Stage(d) <= 2)
            && (Waiting(d) ==> Ready(d) && d.vol.from == c.vol.from && d.vol.id == c.vol.id)
            && (!Waiting(d) ==> Carries(d.claim, c.vol))
  {
    hide Inv, Pass, Smooth, Using, Ready, Stage;
    Stopped(c, n, pods);
    var c1 := EnvStep(EnvStep(c, AppPass(n)), Pods(pods));
    var s1 := State(c1, Idle);
    assert Waiting(c1);
    if Stage(c1) == 3 {
      assert Keeping(s1);
      RestKeepsStage(s1, slots);
    } else {
      PassLowersStage(s1, slots, Stage(c1));
    }
    PassKeeps(c1, slots);
    assert CallsLeft(Idle) == 0;
    PassEnds(s1, slots);
    var c2 := Pass(s1, slots).c;
    GoneLowers(c2);
    AtMostFour(c2);
  }

  lemma AtMostFour(c: Cluster)
    ensures Stage(c) <= 4
    ensures Stage(c) == 0 <==> !Waiting(c)
  {}

  /** The pass in flight, if there is one, run to its end. */
  function Landed(s: State, slots: seq<Slot>): State {
    if s.pc.Idle? then s else Pass(s, slots)
  }

  lemma LandedKeeps(start: State, steps: seq<Step>, inFlight: seq<Slot>)
    requires Fresh(start) && |inFlight| >= CallsLeft(Run(start, steps).pc)
    ensures var s := Landed(Run(start, steps), inFlight); Inv(s) && s.pc.Idle?
  {
    RunKeeps(start, steps);
    var s := Run(start, steps);
    hide Run, Inv, CallsLeft;
    if !s.pc.Idle? {
      BusyHasCalls(s.pc);
      PassEnds(s, inFlight);
      PassIsRun(s, inFlight);
      RunKeeps(s, StepsOf(s, inFlight));
    }
  }

  /** Three fair rounds serve a pending request, wherever the claim is when they start and
      whatever pass was in flight before them, which may meet anything on its way to
      its end, so long as it leaves the request: the request is dropped and the claim
      that is there was made for it. */
  lemma ThreeRoundsServe(start: State, steps: seq<Step>, inFlight: seq<Slot>,
                         n: nat, pods: seq<seq<Pod>>, slots: seq<seq<Slot>>)
    requires Fresh(start) && |inFlight| >= CallsLeft(Run(start, steps).pc) && |pods| == |slots| == 3
    requires var c := Landed(Run(start, steps), inFlight).c; Waiting(c) && Ready(c)
    requires var c := Landed(Run(start, steps), inFlight).c;
             && FairRound(c, n, pods[0], slots[0])
             && var c1 := Round(c, n, pods[0], slots[0]);
                && FairRound(c1, n, pods[1], slots[1])
                && FairRound(Round(c1, n, pods[1], slots[1]), n, pods[2], slots[2])
    ensures var c := Landed(Run(start, steps), inFlight).c;
            var c1 := Round(c, n, pods[0], slots[0]);
            var c2 := Round(c1, n, pods[1], slots[1]);
            var c3 := Round(c2, n, pods[2], slots[2]);
            exists d :: d in [c1, c2, c3] && !Waiting(d) && Carries(d.claim, c.vol)
  {
    LandedKeeps(start, steps, inFlight);
    var c := Landed(Run(start, steps), inFlight).c;
    hide Run, Inv, Round, FairRound, Stage, Ready, Landed;
    AtMostFour(c);
    RoundForward(c, n, pods[0], slots[0]);
    var c1 := Round(c, n, pods[0], slots[0]);
    AtMostFour(c1);
    if Waiting(c1) {
      RoundForward(c1, n, pods[1], slots[1]);
      var c2 := Round(c1, n, pods[1], slots[1]);
      AtMostFour(c2);
      if Waiting(c2) {
        RoundForward(c2, n, pods[2], slots[2]);
        var c3 := Round(c2, n, pods[2], slots[2]);
        AtMostFour(c3);
        assert c3 in [c1, c2, c3] && !Waiting(c3) && Carries(c3.claim, c.vol);
      } else {
        assert c2 in [c1, c2, Round(c2, n, pods[2], slots[2])] && !Waiting(c2) && Carries(c2.claim, c.vol);
      }
    } else {
      var c2 := Round(c1, n, pods[1], slots[1]);
      assert c1 in [c1, c2, Round(c2, n, pods[2], slots[2])] && Carries(c1.claim, c.vol);
    }
  }

  function QuietSlots(n: nat): seq<Slot> { seq(n, _ => Slot([], Done)) }

  lemma {:induction false} QuietIsSmooth(s: State, n: nat)
    ensures Smooth(s, QuietSlots(n))
    decreases n
  {
    hide Call;
    if n > 0 {
      assert QuietSlots(n)[1..] == QuietSlots(n - 1);
      QuietIsSmooth(Call(State(EnvAll(s.c, []), s.pc), Done), n - 1);
    }
  }

  /** In particular, left to the controllers alone, every pending restore is served, unless
      the pass in flight drops it. */
  lemma LeftAloneIsServed(start: State, steps: seq<Step>, n: nat)
    requires Fresh(start)
    requires var c := Landed(Run(start, steps), QuietSlots(6)).c; Waiting(c) && Ready(c)
    ensures var c := Landed(Run(start, steps), QuietSlots(6)).c;
            var c1 := Round(c, n, [], QuietSlots(7));
            var c2 := Round(c1, n, [], QuietSlots(7));
            exists d :: d in [c1, c2, Round(c2, n, [], QuietSlots(7))] && !Waiting(d) && Carries(d.claim, c.vol)
  {
    AtMostSix(Run(start, steps).pc);
    hide Run, Round, Ready, Landed, CallsLeft;
    var c := Landed(Run(start, steps), QuietSlots(6)).c;
    var q := QuietSlots(7);
    var c1 := Round(c, n, [], q);
    var c2 := Round(c1, n, [], q);
    QuietIsFair(c, n);
    QuietIsFair(c1, n);
    QuietIsFair(c2, n);
    var pods: seq<seq<Pod>> := [[], [], []];
    ThreeRoundsServe(start, steps, QuietSlots(6), n, pods, [q, q, q]);
  }

  lemma QuietIsFair(c: Cluster, n: nat)
    ensures FairRound(c, n, [], QuietSlots(7))
  {
    hide Smooth;
    QuietIsSmooth(State(EnvStep(EnvStep(c, AppPass(n)), Pods([])), Idle), 7);
  }
}
