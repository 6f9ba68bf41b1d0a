/** What holds over every interleaving of restore requests, controller calls,
    crashes and cluster steps (internal/controller/volume_controller.go:74-185,
    322-413). */
module RestoreSafety {
  import opened Basics
  import opened RestoreProtocol

  /** id, if it names a request at all, has a claim as soon as one was made for it,
      restored from the requested snapshot and not on its way out. */
  ghost predicate Honoured(c: Cluster, id: nat, from: string) {
    id > 0 ==>
      && (id in c.made ==> c.claim.Some? && c.claim.value.id == id)
      && (c.claim.Some? && c.claim.value.id == id ==>
            c.claim.value.source == from && !c.claim.value.deleting && id in c.made)
  }

  ghost predicate Sound(c: Cluster) {
    && (c.vol.id == 0 <==> c.vol.from == "")
    && (c.vol.id == 0 || c.vol.id == c.last)
    && Increasing(c.made)
    && (forall m :: m in c.made ==> 0 < m <= c.last)
    && (c.claim.Some? ==> c.claim.value.id <= c.last)
    && Honoured(c, c.vol.id, c.vol.from)
  }

  /** v is a copy of the Volume as some earlier moment had it. */
  ghost predicate CopyOf(v: Volume, c: Cluster) {
    && (v.id == 0 <==> v.from == "")
    && v.id <= c.last
    && (v.id > 0 && v.id == c.vol.id ==> v.from == c.vol.from)
    && v.rv <= c.vol.rv
    && Honoured(c, v.id, v.from)
    && (v.id > 0 ==> forall m :: m in c.made ==> m <= v.id)
    && (v.id > 0 && c.claim.Some? ==> c.claim.value.id <= v.id)
  }

  predicate Current(v: Volume, c: Cluster) {
    v.rv == c.vol.rv ==> v.id == c.vol.id && v.from == c.vol.from
  }

  predicate Untouched(v: Volume, c: Cluster) {
    v.rv == c.vol.rv ==> v.restoredFrom == c.vol.restoredFrom
  }

  /** The claim read as c is still the one there, if any is. */
  predicate Still(claim: Option<Claim>, c: Claim) {
    claim.Some? ==> claim.value.id == c.id && claim.value.source == c.source
  }

  predicate Carries(claim: Option<Claim>, v: Volume) { claim.Some? && Matches(claim.value, v) }

  ghost predicate Inv(s: State) {
    Sound(s.c) && (s.pc.Idle? || CopyOf(s.pc.v, s.c)) &&
    match s.pc
    case Idle => true
    case AtSnapshot(v) => v.id > 0 && Current(v, s.c) && Untouched(v, s.c)
    case AtCancel(v) => v.id > 0 && Untouched(v, s.c)
    case AtClaim(v) => v.id > 0 && Current(v, s.c) && Untouched(v, s.c)
    case AtCreate(v) => v.id > 0 && Current(v, s.c) && Untouched(v, s.c) && s.c.claim.None?
    case AtPods(v, c) =>
      v.id > 0 && Current(v, s.c) && Untouched(v, s.c) && v.phase.Restoring? && Still(s.c.claim, c) && !Matches(c, v)
    case AtDelete(v, c) =>
      v.id > 0 && Current(v, s.c) && Untouched(v, s.c) && v.phase.Restoring? && Still(s.c.claim, c) && !Matches(c, v)
    case AtPlainClaim(v) => v.id == 0 && Current(v, s.c) && Untouched(v, s.c)
    case AtPlainCreate(v) => v.id == 0 && Current(v, s.c) && Untouched(v, s.c)
    case AtExisting(v, c) => v.id == 0 && Current(v, s.c) && Untouched(v, s.c)
    case AtMountedBy(v, c) => v.id == 0 && Current(v, s.c) && Untouched(v, s.c)
    case AtStatus(v, err) =>
      && (!err ==> Current(v, s.c) && (Clears(v) ==> Carries(s.c.claim, v)))
      && (err ==> v.phase.FailedPhase? && Untouched(v, s.c))
    case AtClear(v, err) => Clears(v) && s.c.vol.id > 0 && v.id > 0 && (!err ==> Carries(s.c.claim, v))
  }

  // ---------- the invariant is kept

  lemma EnvKeeps(s: State, e: Env)
    requires Inv(s)
    ensures Inv(s.(c := EnvStep(s.c, e)))
  {
    hide Using;
  }

  lemma FailedCallKeeps(s: State)
    requires Inv(s)
    ensures Inv(State(s.c, FailedCall(s.pc)))
  {
    hide Honoured, Matches, Increasing;
    match s.pc {
      case AtCancel(v) => assert Honoured(s.c, 0, "") by { NoRequestHonoured(s.c); }
      case _ =>
    }
  }

  lemma NoRequestHonoured(c: Cluster)
    ensures Honoured(c, 0, "")
  {}

  lemma ReadKeeps(s: State)
    requires Inv(s) && !s.pc.AtCreate? && !s.pc.AtPlainCreate? && !s.pc.AtDelete?
    requires !s.pc.AtStatus? && !s.pc.AtClear? && !s.pc.AtCancel?
    ensures Inv(Call(s, Done))
  {
    hide Using, Honoured, Increasing;
  }

  lemma CreateKeeps(s: State)
    requires Inv(s) && (s.pc.AtCreate? || s.pc.AtPlainCreate?) && s.c.claim.None?
    ensures Inv(Call(s, Done))
  {
    match s.pc {
      case AtCreate(v) =>
        forall m | m in s.c.made ensures m < v.id { assert m != v.id; }
        AppendIncreasing(s.c.made, v.id);
        hide Increasing;
      case AtPlainCreate(v) =>
    }
  }

  lemma DeleteKeeps(s: State)
    requires Inv(s) && s.pc.AtDelete?
    ensures Inv(Call(s, Done))
  {
    hide Increasing;
  }

  lemma WriteKeeps(s: State)
    requires Inv(s) && (s.pc.AtStatus? || s.pc.AtClear? || s.pc.AtCancel?)
    ensures Inv(Call(s, Done))
  {
    hide Increasing;
  }

  lemma IdleKeeps(s: State)
    requires Inv(s)
    ensures Inv(State(s.c, Idle))
  {}

  lemma CallKeeps(s: State, a: Write)
    requires Inv(s)
    ensures Inv(Call(s, a))
  {
    hide Inv;
    if !a.Done? && a.Conflict? && !s.pc.AtCancel? {
      IdleKeeps(s);
    } else if !a.Done? || ((s.pc.AtCreate? || s.pc.AtPlainCreate?) && s.c.claim.Some?) {
      FailedCallKeeps(s);
    } else {
      match s.pc {
        case AtCreate(_) => CreateKeeps(s);
        case AtPlainCreate(_) => CreateKeeps(s);
        case AtDelete(_, _) => DeleteKeeps(s);
        case AtStatus(_, _) => WriteKeeps(s);
        case AtClear(_, _) => WriteKeeps(s);
        case AtCancel(_) => WriteKeeps(s);
        case _ => ReadKeeps(s);
      }
    }
  }

  lemma {:induction false} RunKeeps(s: State, steps: seq<Step>)
    requires Inv(s)
    ensures Inv(Run(s, steps))
    decreases |steps|
  {
    if steps != [] {
      match steps[0] {
        case Controller(a) => CallKeeps(s, a);
        case Crash =>
        case Other(e) => EnvKeeps(s, e);
      }
      RunKeeps(Next(s, steps[0]), steps[1..]);
    }
  }

  // ---------- request identity

  /** A pass that ended without error drops a request only while the live claim
      carries the snapshot and the id of the request the pass read, and was
      created for it. */
  lemma RestoreIdentity(start: State, steps: seq<Step>)
    requires Fresh(start)
    ensures var s := Run(start, steps);
            s.pc.AtClear? && !s.pc.err ==>
              && s.c.claim.Some? && !s.c.claim.value.deleting
              && s.c.claim.value.source == s.pc.v.from && s.c.claim.value.id == s.pc.v.id
              && s.pc.v.id in s.c.made
  {
    RunKeeps(start, steps);
  }

  /** The request that goes, though, is whatever the Volume asks for by then: it is
      the one just served exactly when no other was posted since the status was
      written. The patch takes no lock, so nothing checks that. */
  lemma DroppedIsServedExactly(start: State, steps: seq<Step>)
    requires Fresh(start)
    ensures var s := Run(start, steps);
            s.pc.AtClear? && !s.pc.err ==>
              && s.c.vol.from != ""
              && (Carries(s.c.claim, s.c.vol) <==> s.c.vol.id == s.pc.v.id)
  {
    RunKeeps(start, steps);
  }

  /** Whatever pass drops it, a request is dropped served exactly when a claim was
      created for its id. */
  lemma DroppedIsServedIfMade(start: State, steps: seq<Step>)
    requires Fresh(start)
    ensures var s := Run(start, steps);
            s.pc.AtClear? ==> (Carries(s.c.claim, s.c.vol) <==> s.c.vol.id in s.c.made)
  {
    RunKeeps(start, steps);
  }

  /** A pass that ended in an error and gets its status written goes on to drop
      the request exactly when the status already named the requested snapshot:
      a leftover of an earlier restore. */
  lemma ErroredPassDropsExactly(start: State, steps: seq<Step>)
    requires Fresh(start)
    ensures var s := Run(start, steps);
            s.pc.AtStatus? && s.pc.err && s.c.vol.rv == s.pc.v.rv ==>
              (Call(s, Done).pc.AtClear? <==> s.c.vol.from != "" && s.c.vol.restoredFrom == s.c.vol.from)
  {
    RunKeeps(start, steps);
  }

  /** No request has two claims made for it, and they are made in the order asked. */
  lemma OneClaimPerRequest(start: State, steps: seq<Step>)
    requires Fresh(start)
    ensures Increasing(Run(start, steps).c.made)
  {
    RunKeeps(start, steps);
  }

  // ---------- ordering

  /** All the controller ever does to the claim, by the call it makes: it creates
      one where there is none, from the snapshot and with the id of the request
      it read if it read one; and it asks for the deletion of a claim that is not
      the one of the request it read. */
  lemma ClaimChangesExactly(start: State, steps: seq<Step>, a: Write)
    requires Fresh(start)
    ensures var s := Run(start, steps);
            var before, after := s.c.claim, Call(s, a).c.claim;
            before != after ==>
              && !s.pc.Idle? && after.Some?
              && (before.None? ==>
                    && after.value.source == (if s.pc.v.id > 0 then s.pc.v.from else s.pc.v.fromSnapshot)
                    && after.value.id == s.pc.v.id && !after.value.deleting)
              && (before.Some? ==>
                    && s.pc.AtDelete? && after == Some(before.value.(deleting := true))
                    && s.pc.v.id > 0 && before.value.id != s.pc.v.id
                    && (s.c.vol.id > 0 ==> before.value.id != s.c.vol.id))
  {
    hide Using;
    RunKeeps(start, steps);
    var s := Run(start, steps);
    hide Run;
    if s.pc.AtDelete? && s.c.claim.Some? && s.c.vol.id > 0 {
      assert s.c.claim.value.id <= s.pc.v.id <= s.c.last;
    }
  }

  lemma AboutToDelete(s: State, step: Step)
    requires Next(s, step).pc.AtDelete?
    ensures match step
            case Other(_) => s.pc == Next(s, step).pc
            case Crash => false
            case Controller(a) =>
              && a.Done? && s.pc.AtPods? && Using(s.c.pods, PVCName(s.pc.v)) == 0
              && !s.pc.c.deleting && s.pc.v == Next(s, step).pc.v
  {}

  predicate OnlyOthers(steps: seq<Step>) { forall i :: 0 <= i < |steps| ==> steps[i].Other? }

  /** The step looks at the pods and finds each ended or without the claim, which is not
      on its way out. */
  predicate CountsNone(s: State, step: Step) {
    && step == Controller(Done) && s.pc.AtPods? && !s.pc.c.deleting
    && forall i :: 0 <= i < |s.c.pods| ==> s.c.pods[i].ended || "vol-" + s.pc.v.name !in s.c.pods[i].claims
  }

  /** Step n is such a count, and only the others have moved since. */
  predicate CountedAt(start: State, steps: seq<Step>, n: nat) {
    n < |steps| && CountsNone(Run(start, steps[..n]), steps[n]) && OnlyOthers(steps[n + 1..])
  }

  lemma RunLast(start: State, steps: seq<Step>)
    requires steps != []
    ensures var front := steps[..|steps| - 1];
            Run(start, steps) == Next(Run(start, front), steps[|steps| - 1])
  {
    hide Next;
    var front, last := steps[..|steps| - 1], steps[|steps| - 1];
    RunInTwo(start, front, [last]);
    assert front + [last] == steps;
  }

  /** The deletion is asked for only in a pass that has counted, as its last call, and
      found no pod left on a claim that was not on its way out. */
  lemma {:induction false} DeletesAfterCountingNone(start: State, steps: seq<Step>)
    requires start.pc.Idle? && Run(start, steps).pc.AtDelete?
    ensures exists n :: CountedAt(start, steps, n)
    decreases |steps|
  {
    assert steps != [];
    RunLast(start, steps);
    hide Next, Run, CountsNone;
    var m := |steps| - 1;
    var front := steps[..m];
    AboutToDelete(Run(start, front), steps[m]);
    if steps[m].Other? {
      DeletesAfterCountingNone(start, front);
      var n: nat :| CountedAt(start, front, n);
      assert front[..n] == steps[..n];
      assert steps[n + 1..] == front[n + 1..] + [steps[m]];
      assert CountedAt(start, steps, n);
    } else {
      assert CountsNone(Run(start, front), steps[m]) by { CountsNoneIs(Run(start, front), steps[m]); }
      assert steps[m + 1..] == [];
      assert CountedAt(start, steps, m);
    }
  }

  lemma CountsNoneIs(s: State, step: Step)
    requires !step.Other? && Next(s, step).pc.AtDelete?
    ensures CountsNone(s, step)
  {
    AboutToDelete(s, step);
    UsingCounts(s.c.pods, PVCName(s.pc.v));
  }

  // ---------- a snapshot that is not there

  lemma {:induction false} VersionGrows(c: Cluster, es: seq<Env>)
    ensures EnvAll(c, es).vol.rv >= c.vol.rv
    decreases |es|
  {
    if es != [] { VersionGrows(EnvStep(c, es[0]), es[1..]); }
  }

  /** Cancelling for a missing snapshot moves the resource version, so the status
      that says so is never written: the pass ends in a conflict. */
  lemma CancelIsNeverReported(start: State, steps: seq<Step>, es: seq<Env>, a: Write)
    requires Fresh(start)
    requires Run(start, steps).pc.AtCancel?
    ensures var s := Call(Run(start, steps), Done);
            var t := State(EnvAll(s.c, es), s.pc);
            s.c.vol.from == "" && s.pc.AtStatus? && Call(t, a) == State(t.c, Idle)
  {
    RunKeeps(start, steps);
    VersionGrows(Call(Run(start, steps), Done).c, es);
  }

  // ---------- what does go wrong

  /** A pass of up to n calls that nobody interferes with and that all go through. */
  function Quiet(s: State, n: nat): State
    decreases n
  {
    if n == 0 then s else
    var t := Call(s, Done);
    if t.pc.Idle? then t else Quiet(t, n - 1)
  }

  lemma {:induction false} QuietIsPass(s: State, n: nat)
    ensures Quiet(s, n) == Pass(s, seq(n, _ => Slot([], Done)))
    decreases n
  {
    hide Call;
    if n > 0 {
      var slots := seq(n, _ => Slot([], Done));
      assert slots[1..] == seq(n - 1, _ => Slot([], Done));
      var t := Call(s, Done);
      assert State(EnvAll(s.c, slots[0].before), s.pc) == s;
      if !t.pc.Idle? { QuietIsPass(t, n - 1); }
    }
  }

  lemma QuietStep(s: State, n: nat, t: State)
    requires n > 0 && t == Call(s, Done)
    ensures Quiet(s, n) == if t.pc.Idle? then t else Quiet(t, n - 1)
  {
    hide Call;
  }

  lemma QuietNone(s: State)
    ensures Quiet(s, 0) == s
  {}

  predicate AtRest(c: Cluster, snapshot: string) {
    && Fresh(State(c, Idle)) && c.vol.sizeOk && c.vol.fromSnapshot == ""
    && snapshot != "" && snapshot in c.ready && c.ready[snapshot] && c.pods == []
  }

  predicate Asked(c: Cluster) { c.vol.sizeOk && c.vol.from != "" && c.vol.from in c.ready && c.ready[c.vol.from] }

  lemma CreatingPass(c: Cluster)
    requires Asked(c) && c.claim.None?
    ensures Quiet(State(c, Idle), 5) ==
            State(c.(vol := c.vol.(phase := Restoring, rv := c.vol.rv + 1),
                     claim := Some(Claim(c.vol.from, c.vol.id, ClaimPending, false)),
                     made := c.made + [c.vol.id]), Idle)
  {
    hide Quiet;
    var v := c.vol.(phase := Restoring);
    var c2 := c.(claim := Some(Claim(c.vol.from, c.vol.id, ClaimPending, false)), made := c.made + [c.vol.id]);
    QuietStep(State(c, Idle), 5, State(c, AtSnapshot(c.vol)));
    QuietStep(State(c, AtSnapshot(c.vol)), 4, State(c, AtClaim(c.vol)));
    QuietStep(State(c, AtClaim(c.vol)), 3, State(c, AtCreate(c.vol)));
    QuietStep(State(c, AtCreate(c.vol)), 2, State(c2, AtStatus(v, false)));
    QuietStep(State(c2, AtStatus(v, false)), 1, State(c2.(vol := v.(rv := v.rv + 1)), Idle));
  }

  lemma ServingCalls(c: Cluster, claim: Claim)
    requires Asked(c) && c.claim == Some(claim) && Matches(claim, c.vol)
    ensures Call(State(c, Idle), Done) == State(c, AtSnapshot(c.vol))
    ensures Call(State(c, AtSnapshot(c.vol)), Done) == State(c, AtClaim(c.vol))
    ensures Call(State(c, AtClaim(c.vol)), Done) == State(c, AtStatus(RestoreDone(c.vol, claim), false))
  {}

  lemma ServingStatus(c: Cluster, claim: Claim)
    requires Asked(c) && Matches(claim, c.vol) && claim.phase.ClaimPending?
    ensures var w := c.vol.(phase := Pending, restoredFrom := c.vol.from, rv := c.vol.rv + 1);
            Call(State(c, AtStatus(RestoreDone(c.vol, claim), false)), Done) == State(c.(vol := w), AtClear(w, false))
  {}

  lemma ServingPass(c: Cluster, claim: Claim)
    requires Asked(c) && c.claim == Some(claim) && Matches(claim, c.vol) && claim.phase.ClaimPending?
    ensures var v := c.vol.(phase := Pending, restoredFrom := c.vol.from, rv := c.vol.rv + 1);
            Quiet(State(c, Idle), 4) == State(c.(vol := v), AtClear(v, false))
  {
    hide Quiet, Call, RestoreDone;
    ServingCalls(c, claim);
    ServingStatus(c, claim);
    var v := RestoreDone(c.vol, claim);
    var w := c.vol.(phase := Pending, restoredFrom := c.vol.from, rv := c.vol.rv + 1);
    QuietStep(State(c, Idle), 4, State(c, AtSnapshot(c.vol)));
    QuietStep(State(c, AtSnapshot(c.vol)), 3, State(c, AtClaim(c.vol)));
    QuietStep(State(c, AtClaim(c.vol)), 2, State(c, AtStatus(v, false)));
    QuietStep(State(c, AtStatus(v, false)), 1, State(c.(vol := w), AtClear(w, false)));
    QuietNone(State(c.(vol := w), AtClear(w, false)));
  }

  lemma DeletingPass(c: Cluster, claim: Claim)
    requires Asked(c) && c.pods == []
    requires c.claim == Some(claim) && !claim.deleting && !Matches(claim, c.vol)
    ensures Quiet(State(c, Idle), 6) ==
            State(c.(vol := c.vol.(phase := Restoring, rv := c.vol.rv + 1),
                     claim := Some(claim.(deleting := true))), Idle)
  {
    hide Quiet;
    var v := c.vol.(phase := Restoring);
    var c2 := c.(claim := Some(claim.(deleting := true)));
    QuietStep(State(c, Idle), 6, State(c, AtSnapshot(c.vol)));
    QuietStep(State(c, AtSnapshot(c.vol)), 5, State(c, AtClaim(c.vol)));
    QuietStep(State(c, AtClaim(c.vol)), 4, State(c, AtPods(v, claim)));
    QuietStep(State(c, AtPods(v, claim)), 3, State(c, AtDelete(v, claim)));
    QuietStep(State(c, AtDelete(v, claim)), 2, State(c2, AtStatus(v, false)));
    QuietStep(State(c2, AtStatus(v, false)), 1, State(c2.(vol := v.(rv := v.rv + 1)), Idle));
  }

  lemma BlankPass(c: Cluster)
    requires c.vol.sizeOk && c.vol.from == "" && c.vol.fromSnapshot == "" && c.claim.None?
    ensures var t := Quiet(State(c, Idle), 5);
            t.pc.Idle? && t.c.claim == Some(Claim("", 0, ClaimPending, false))
  {
    hide Quiet;
    var blank := Claim("", 0, ClaimPending, false);
    var c2 := c.(claim := Some(blank));
    var v := Observed(c.vol, blank);
    QuietStep(State(c, Idle), 5, State(c, AtPlainClaim(c.vol)));
    QuietStep(State(c, AtPlainClaim(c.vol)), 4, State(c, AtPlainCreate(c.vol)));
    QuietStep(State(c, AtPlainCreate(c.vol)), 3, State(c2, AtMountedBy(c.vol, blank)));
    QuietStep(State(c2, AtMountedBy(c.vol, blank)), 2, State(c2, AtStatus(v, false)));
    QuietStep(State(c2, AtStatus(v, false)), 1, State(c2.(vol := v.(rv := v.rv + 1)), Idle));
  }

  /** The first restore of a Volume, up to the clearing patch. */
  lemma FirstRestore(c: Cluster, snapshot: string)
    requires AtRest(c, snapshot)
    ensures var v := c.vol.(from := snapshot, id := 1, phase := Pending, restoredFrom := snapshot, rv := c.vol.rv + 3);
            Quiet(Quiet(State(EnvStep(c, Ask(snapshot)), Idle), 5), 4) ==
            State(c.(vol := v, claim := Some(Claim(snapshot, 1, ClaimPending, false)), last := 1, made := [1]),
                  AtClear(v, false))
  {
    hide Quiet, Call;
    var c1 := EnvStep(c, Ask(snapshot));
    CreatingPass(c1);
    var claim := Claim(snapshot, 1, ClaimPending, false);
    var c2 := c1.(vol := c1.vol.(phase := Restoring, rv := c1.vol.rv + 1), claim := Some(claim), made := [1]);
    assert c1.made + [1] == [1];
    ServingPass(c2, claim);
  }

  /** A request posted between the status and the clearing patch is dropped and
      never served, by a pass that met no error. */
  lemma LateRequestIsLost(c: Cluster, snapshot: string, other: string)
    requires AtRest(c, snapshot) && other != "" && other != snapshot
    ensures var clearing := Quiet(Quiet(State(EnvStep(c, Ask(snapshot)), Idle), 5), 4);
            var posted := State(EnvStep(clearing.c, Ask(other)), clearing.pc);
            var done := Call(posted, Done);
            && posted.c.vol.from == other && posted.c.vol.id == 2 && !posted.c.vol.phase.Restoring?
            && done.pc.Idle? && done.c.vol.from == "" && done.c.last == 2 && done.c.made == [1]
            && done.c.claim == Some(Claim(snapshot, 1, ClaimPending, false))
  {
    hide Quiet;
    FirstRestore(c, snapshot);
  }

  /** The call that fails here is the read of the snapshot. */
  function FailingPass(s: State): State { Quiet(Call(Call(s, Done), Failed), 2) }

  lemma FailingPassDrops(c: Cluster)
    requires c.vol.sizeOk && c.vol.from != "" && c.vol.restoredFrom == c.vol.from
    ensures FailingPass(State(c, Idle))
         == State(c.(vol := Dropped(c.vol).(phase := FailedPhase, rv := c.vol.rv + 2)), Idle)
  {
    hide Quiet;
    var v := Errored(c.vol);
    var w := v.(rv := v.rv + 1);
    assert Call(Call(State(c, Idle), Done), Failed) == State(c, AtStatus(v, true));
    QuietStep(State(c, AtStatus(v, true)), 2, State(c.(vol := w), AtClear(w, true)));
    QuietStep(State(c.(vol := w), AtClear(w, true)), 1, State(c.(vol := Dropped(w).(rv := w.rv + 1)), Idle));
  }

  /** A second restore of the same snapshot whose pass meets one failing call after
      the old claim went: the request is dropped, and the next pass, which no longer
      sees it, puts an empty claim in its place. */
  lemma ErroredPassLosesTheDisk(c: Cluster, snapshot: string)
    requires AtRest(c, snapshot)
    ensures var served := Call(Quiet(Quiet(State(EnvStep(c, Ask(snapshot)), Idle), 5), 4), Done);
            var deleted := Quiet(State(EnvStep(served.c, Ask(snapshot)), Idle), 6);
            var dropped := FailingPass(State(EnvStep(deleted.c, Gone), deleted.pc));
            var blank := Quiet(dropped, 5);
            && dropped.pc.Idle? && dropped.c.vol.from == "" && dropped.c.made == [1] && dropped.c.last == 2
            && blank.pc.Idle? && blank.c.claim == Some(Claim("", 0, ClaimPending, false))
  {
    hide Quiet, FailingPass;
    FirstRestore(c, snapshot);
    var first := Claim(snapshot, 1, ClaimPending, false);
    var v := c.vol.(from := snapshot, id := 1, phase := Pending, restoredFrom := snapshot, rv := c.vol.rv + 3);
    var c1 := c.(vol := Dropped(v).(rv := v.rv + 1), claim := Some(first), last := 1, made := [1]);
    assert Call(State(c.(vol := v, claim := Some(first), last := 1, made := [1]), AtClear(v, false)), Done)
        == State(c1, Idle);
    hide Call;
    var c2 := EnvStep(c1, Ask(snapshot));
    DeletingPass(c2, first);
    var c3 := c2.(vol := c2.vol.(phase := Restoring, rv := c2.vol.rv + 1), claim := Some(first.(deleting := true)));
    var c4 := EnvStep(c3, Gone);
    assert c4 == c3.(claim := None);
    FailingPassDrops(c4);
    BlankPass(c4.(vol := Dropped(c4.vol).(phase := FailedPhase, rv := c4.vol.rv + 2)));
  }
}
