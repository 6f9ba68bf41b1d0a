/** Restoring a Volume in place from a snapshot, as a protocol between the volume
    controller, the API that posts requests, the App controller and the cluster
    (internal/controller/volume_controller.go:74-185, 322-434,
    pkg/api/snapshots.go:327-343).

    The controller makes one API call at a time and anything may happen between
    two of them. It loads the Volume fresh: a cached copy lags only behind writers
    that may as well come right after the load. Request ids are clock readings,
    here 1, 2, 3, ... in the order the requests reach the Volume; 0 is no id. */
module RestoreProtocol {
  import opened Basics

  datatype Phase = NoPhase | Pending | Bound | FailedPhase | Restoring

  /** A Volume: spec, the two restore annotations ("" and 0 for none), status, and
      the resource version. */
  datatype Volume = Volume(
    name: string,
    shared: bool,
    fromSnapshot: string,
    sizeOk: bool,
    from: string,
    id: nat,
    phase: Phase,
    restoredFrom: string,
    rv: nat)

  datatype ClaimPhase = ClaimPending | ClaimBound | ClaimLost

  /** The claim: its snapshot data source ("" for none) and the id stamped on it. */
  datatype Claim = Claim(source: string, id: nat, phase: ClaimPhase, deleting: bool)

  datatype Pod = Pod(ended: bool, claims: seq<string>)

  /** Everything outside the controller's memory. replicas counts the instances
      that Deployments mounting the volume ask for; last is the newest request
      id. made lists the ids claims were created for; no code reads it. */
  datatype Cluster = Cluster(
    vol: Volume,
    claim: Option<Claim>,
    ready: map<string, bool>,
    pods: seq<Pod>,
    replicas: nat,
    last: nat,
    made: seq<nat>)

  /** The call the controller makes next. v is its copy of the Volume, with the
      resource version it was loaded at, c the claim it read. */
  datatype Pc =
    | Idle
    | AtSnapshot(v: Volume)
    | AtCancel(v: Volume)
    | AtClaim(v: Volume)
    | AtCreate(v: Volume)
    | AtPods(v: Volume, c: Claim)
    | AtDelete(v: Volume, c: Claim)
    | AtPlainClaim(v: Volume)
    | AtPlainCreate(v: Volume)
    | AtExisting(v: Volume, c: Claim)
    | AtMountedBy(v: Volume, c: Claim)
    | AtStatus(v: Volume, err: bool)
    | AtClear(v: Volume, err: bool)

  datatype State = State(c: Cluster, pc: Pc)

  // ---------- what the others do

  datatype Env =
    | Ask(snapshot: string)                         // a restore request
    | Edit(size: bool)                              // another write to the spec
    | Snapshot(name: string, state: Option<bool>)   // appears, gets ready, goes
    | Pods(pods: seq<Pod>)
    | Settle(phase: ClaimPhase)                     // the claim is bound or lost
    | Gone                                          // a deleted, unmounted claim goes
    | AppPass(replicas: nat)

  function PVCName(v: Volume): string { "vol-" + v.name }

  predicate Uses(p: Pod, claim: string) { !p.ended && claim in p.claims }

  /** The number of pods that have not ended and mount the claim. */
  function Using(pods: seq<Pod>, claim: string): nat {
    if pods == [] then 0 else (if Uses(pods[0], claim) then 1 else 0) + Using(pods[1..], claim)
  }

  lemma {:induction false} UsingFrom(pods: seq<Pod>, claim: string, k: nat)
    requires k <= |pods|
    ensures Using(pods[k..], claim) == |set i | k <= i < |pods| && !pods[i].ended && claim in pods[i].claims|
    decreases |pods| - k
  {
    var here := set i | k <= i < |pods| && !pods[i].ended && claim in pods[i].claims;
    if k == |pods| {
      assert here == {};
    } else {
      UsingFrom(pods, claim, k + 1);
      var rest := set i | k + 1 <= i < |pods| && !pods[i].ended && claim in pods[i].claims;
      assert pods[k..][1..] == pods[k + 1..];
      if !pods[k].ended && claim in pods[k].claims {
        assert here == rest + {k};
      } else {
        assert here == rest;
      }
    }
  }

  /** The count is the number of pods that have not ended and list the claim; it is zero
      exactly when every pod has ended or does not list it. */
  lemma UsingCounts(pods: seq<Pod>, claim: string)
    ensures Using(pods, claim) == |set i | 0 <= i < |pods| && !pods[i].ended && claim in pods[i].claims|
    ensures Using(pods, claim) == 0 <==> forall i :: 0 <= i < |pods| ==> pods[i].ended || claim !in pods[i].claims
  {
    hide Using;
    UsingFrom(pods, claim, 0);
    assert pods[0..] == pods;
    var users := set i | 0 <= i < |pods| && !pods[i].ended && claim in pods[i].claims;
    if users != {} {
      var i :| i in users;
      assert |users| > 0;
    }
    if i :| 0 <= i < |pods| && !pods[i].ended && claim in pods[i].claims { assert i in users; }
  }

  /** Processes mounting v stop (internal/controller/mounts.go:69). */
  predicate Halts(v: Volume) { v.phase.Restoring? || v.from != "" }

  function EnvStep(c: Cluster, e: Env): Cluster {
    match e
    case Ask(snapshot) =>
      if snapshot == "" then c
      else c.(vol := c.vol.(from := snapshot, id := c.last + 1, rv := c.vol.rv + 1), last := c.last + 1)
    case Edit(size) => c.(vol := c.vol.(sizeOk := size, rv := c.vol.rv + 1))
    case Snapshot(name, None) => c.(ready := c.ready - {name})
    case Snapshot(name, Some(r)) => c.(ready := c.ready[name := r])
    case Pods(pods) => c.(pods := pods)
    case Settle(phase) => if c.claim.Some? then c.(claim := Some(c.claim.value.(phase := phase))) else c
    case Gone =>
      if c.claim.Some? && c.claim.value.deleting && Using(c.pods, PVCName(c.vol)) == 0 then c.(claim := None) else c
    case AppPass(n) => c.(replicas := if Halts(c.vol) then 0 else n)
  }

  function EnvAll(c: Cluster, es: seq<Env>): Cluster
    decreases |es|
  {
    if es == [] then c else EnvAll(EnvStep(c, es[0]), es[1..])
  }

  // ---------- what a pass makes of what it reads

  function Errored(v: Volume): Volume { v.(phase := FailedPhase) }

  function Dropped(v: Volume): Volume { v.(from := "", id := 0) }

  predicate Matches(c: Claim, v: Volume) { c.source == v.from && c.source != "" && c.id == v.id }

  function RestoreDone(v: Volume, c: Claim): Volume {
    v.(restoredFrom := v.from, phase := if c.phase.ClaimBound? then Bound else Pending)
  }

  function Observed(v: Volume, c: Claim): Volume {
    v.(restoredFrom := if c.source != "" then c.source else v.restoredFrom,
       phase := match c.phase case ClaimBound => Bound case ClaimLost => FailedPhase case ClaimPending => Pending)
  }

  /** The test before the request is dropped after the status is written. */
  predicate Clears(v: Volume) { v.from != "" && !v.phase.Restoring? && v.restoredFrom == v.from }

  function AfterLoad(v: Volume): Pc {
    if !v.sizeOk then AtStatus(Errored(v), true)
    else if v.from != "" then AtSnapshot(v)
    else AtPlainClaim(v)
  }

  // ---------- one call of the controller

  function FailedCall(pc: Pc): Pc {
    match pc
    case Idle => Idle
    case AtCancel(v) => AtStatus(Errored(Dropped(v)), true)
    case AtStatus(v, err) => Idle
    case AtClear(v, err) => Idle
    case _ => AtStatus(Errored(pc.v), true)
  }

  /** A conflict ends the pass without a status, except in the patch that cancels a
      request, whose errors are only logged. */
  function NotThrough(pc: Pc, a: Write): Pc {
    if a.Conflict? && !pc.AtCancel? then Idle else FailedCall(pc)
  }

  /** The next call and its answer. A call that does not go through changes nothing. */
  function Call(s: State, a: Write): State {
    var c := s.c;
    if !a.Done? then State(c, NotThrough(s.pc, a)) else
    match s.pc
    case Idle => State(c, AfterLoad(c.vol))
    case AtSnapshot(v) =>
      State(c,
            if v.from !in c.ready then AtCancel(v)
            else if !c.ready[v.from] then AtStatus(v.(phase := Restoring), false)
            else AtClaim(v))
    case AtCancel(v) =>
      State(c.(vol := Dropped(c.vol).(rv := c.vol.rv + 1)), AtStatus(Errored(Dropped(v)), true))
    case AtClaim(v) =>
      State(c,
            if c.claim.None? then AtCreate(v)
            else if Matches(c.claim.value, v) then AtStatus(RestoreDone(v, c.claim.value), false)
            else AtPods(v.(phase := Restoring), c.claim.value))
    case AtCreate(v) =>
      if c.claim.Some? then State(c, FailedCall(s.pc)) else
      State(c.(claim := Some(Claim(v.from, v.id, ClaimPending, false)), made := c.made + [v.id]),
            AtStatus(v.(phase := Restoring), false))
    case AtPods(v, claim) =>
      State(c,
            if Using(c.pods, PVCName(v)) > 0 || claim.deleting then AtStatus(v, false)
            else AtDelete(v, claim))
    case AtDelete(v, claim) =>
      State(if c.claim.None? then c else c.(claim := Some(c.claim.value.(deleting := true))), AtStatus(v, false))
    case AtPlainClaim(v) => State(c, if c.claim.None? then AtPlainCreate(v) else AtExisting(v, c.claim.value))
    case AtPlainCreate(v) =>
      if c.claim.Some? then State(c, FailedCall(s.pc)) else
      var claim := Claim(v.fromSnapshot, 0, ClaimPending, false);
      State(c.(claim := Some(claim)), AtMountedBy(v, claim))
    case AtExisting(v, claim) => State(c, AtMountedBy(v, claim))
    case AtMountedBy(v, claim) => State(c, AtStatus(Observed(v, claim), false))
    case AtStatus(v, err) =>
      if c.vol.rv != v.rv then State(c, Idle) else
      var vol := c.vol.(phase := v.phase, restoredFrom := v.restoredFrom, rv := c.vol.rv + 1);
      State(c.(vol := vol), if Clears(vol) then AtClear(vol, err) else Idle)
    case AtClear(v, err) => State(c.(vol := Dropped(c.vol).(rv := c.vol.rv + 1)), Idle)
  }

  // ---------- runs

  datatype Step = Controller(a: Write) | Crash | Other(e: Env)

  function Next(s: State, step: Step): State {
    match step
    case Controller(a) => Call(s, a)
    case Crash => s.(pc := Idle)
    case Other(e) => s.(c := EnvStep(s.c, e))
  }

  function Run(s: State, steps: seq<Step>): State
    decreases |steps|
  {
    if steps == [] then s else Run(Next(s, steps[0]), steps[1..])
  }

  /** A Volume nothing has touched yet. */
  predicate Fresh(s: State) {
    && s.pc.Idle? && s.c.claim.None? && s.c.made == [] && s.c.last == 0
    && s.c.vol.from == "" && s.c.vol.id == 0 && s.c.vol.restoredFrom == "" && s.c.vol.phase.NoPhase?
  }

  // ---------- one pass under interference

  /** What happens before one call of the controller, and its answer. */
  datatype Slot = Slot(before: seq<Env>, a: Write)

  /** One pass from its current call on, until it ends or the slots run out. */
  function Pass(s: State, slots: seq<Slot>): State
    decreases |slots|
  {
    if slots == [] then s else
    var t := Call(State(EnvAll(s.c, slots[0].before), s.pc), slots[0].a);
    if t.pc.Idle? then t else Pass(t, slots[1..])
  }

  /** The pass as steps of a run. */
  function StepsOf(s: State, slots: seq<Slot>): seq<Step>
    decreases |slots|
  {
    if slots == [] then [] else
    var t := Call(State(EnvAll(s.c, slots[0].before), s.pc), slots[0].a);
    Others(slots[0].before) + [Controller(slots[0].a)] + (if t.pc.Idle? then [] else StepsOf(t, slots[1..]))
  }

  function Others(es: seq<Env>): seq<Step> {
    if es == [] then [] else [Other(es[0])] + Others(es[1..])
  }

  lemma {:induction false} RunInTwo(s: State, a: seq<Step>, b: seq<Step>)
    ensures Run(s, a + b) == Run(Run(s, a), b)
    decreases |a|
  {
    if a == [] {
      assert a + b == b;
    } else {
      RunInTwo(Next(s, a[0]), a[1..], b);
      assert (a + b)[1..] == a[1..] + b;
    }
  }

  lemma {:induction false} OthersRun(s: State, es: seq<Env>)
    ensures Run(s, Others(es)) == State(EnvAll(s.c, es), s.pc)
    decreases |es|
  {
    if es != [] {
      OthersRun(Next(s, Other(es[0])), es[1..]);
      assert Others(es)[1..] == Others(es[1..]);
    }
  }

  /** A pass under interference is a stretch of a run: what holds over all runs
      holds over all passes. */
  lemma {:induction false} PassIsRun(s: State, slots: seq<Slot>)
    ensures Run(s, StepsOf(s, slots)) == Pass(s, slots)
    decreases |slots|
  {
    hide Call;
    if slots != [] {
      var others, call := Others(slots[0].before), [Controller(slots[0].a)];
      var mid := State(EnvAll(s.c, slots[0].before), s.pc);
      var t := Call(mid, slots[0].a);
      var rest := if t.pc.Idle? then [] else StepsOf(t, slots[1..]);
      assert StepsOf(s, slots) == others + (call + rest);
      RunInTwo(s, others, call + rest);
      OthersRun(s, slots[0].before);
      assert Run(mid, call + rest) == Run(t, rest) by {
        assert (call + rest)[1..] == rest && (call + rest)[0] == call[0];
        assert Next(mid, call[0]) == t;
      }
      if !t.pc.Idle? { PassIsRun(t, slots[1..]); }
    }
  }
}
