/** What one pass of the volume controller comes to when nobody interferes, for every
    cluster it may meet, field by field (internal/controller/volume_controller.go:74-185,
    322-434). */
module RestoreOutcomes {
  import opened Basics
  import opened RestoreProtocol
  import opened RestoreSafety

  /** One pass alone, every call answered. Seven calls are enough. */
  function PassAlone(c: Cluster): State { Quiet(State(c, Idle), 7) }

  /** A size that is not positive is reported; nothing else happens, but that a request
      whose snapshot the status still names is dropped. */
  lemma BadSizePass(c: Cluster)
    requires !c.vol.sizeOk
    ensures PassAlone(c) == State(
              c.(vol := if c.vol.from != "" && c.vol.restoredFrom == c.vol.from
                        then c.vol.(phase := FailedPhase, from := "", id := 0, rv := c.vol.rv + 2)
                        else c.vol.(phase := FailedPhase, rv := c.vol.rv + 1)), Idle)
  {
    hide Quiet;
    var v := c.vol.(phase := FailedPhase);
    var w := v.(rv := v.rv + 1);
    QuietStep(State(c, Idle), 7, State(c, AtStatus(v, true)));
    if c.vol.from != "" && c.vol.restoredFrom == c.vol.from {
      QuietStep(State(c, AtStatus(v, true)), 6, State(c.(vol := w), AtClear(w, true)));
      QuietStep(State(c.(vol := w), AtClear(w, true)), 5,
                State(c.(vol := w.(from := "", id := 0, rv := w.rv + 1)), Idle));
    } else {
      QuietStep(State(c, AtStatus(v, true)), 6, State(c.(vol := w), Idle));
    }
  }

  /** A request for a snapshot that is not there is dropped, and no status says so; one for
      a snapshot that is not ready waits. */
  lemma SnapshotNotReadyPass(c: Cluster)
    requires c.vol.sizeOk && c.vol.from != ""
    ensures c.vol.from !in c.ready ==>
              PassAlone(c) == State(c.(vol := c.vol.(from := "", id := 0, rv := c.vol.rv + 1)), Idle)
    ensures c.vol.from in c.ready && !c.ready[c.vol.from] ==>
              PassAlone(c) == State(c.(vol := c.vol.(phase := Restoring, rv := c.vol.rv + 1)), Idle)
  {
    hide Quiet;
    QuietStep(State(c, Idle), 7, State(c, AtSnapshot(c.vol)));
    if c.vol.from !in c.ready {
      var d := c.(vol := c.vol.(from := "", id := 0, rv := c.vol.rv + 1));
      var v := c.vol.(from := "", id := 0, phase := FailedPhase);
      QuietStep(State(c, AtSnapshot(c.vol)), 6, State(c, AtCancel(c.vol)));
      QuietStep(State(c, AtCancel(c.vol)), 5, State(d, AtStatus(v, true)));
      QuietStep(State(d, AtStatus(v, true)), 4, State(d, Idle));
    } else if !c.ready[c.vol.from] {
      var v := c.vol.(phase := Restoring);
      QuietStep(State(c, AtSnapshot(c.vol)), 6, State(c, AtStatus(v, false)));
      QuietStep(State(c, AtStatus(v, false)), 5, State(c.(vol := v.(rv := v.rv + 1)), Idle));
    }
  }

  lemma ReadsClaim(c: Cluster)
    requires Asked(c)
    ensures PassAlone(c) == Quiet(State(c, AtClaim(c.vol)), 5)
  {
    hide Quiet;
    QuietStep(State(c, Idle), 7, State(c, AtSnapshot(c.vol)));
    QuietStep(State(c, AtSnapshot(c.vol)), 6, State(c, AtClaim(c.vol)));
  }

  /** With the snapshot ready and no claim, one is created from the snapshot, with the
      request's id. */
  lemma MissingClaimPass(c: Cluster)
    requires Asked(c) && c.claim.None?
    ensures PassAlone(c) == State(
              c.(vol := c.vol.(phase := Restoring, rv := c.vol.rv + 1),
                 claim := Some(Claim(c.vol.from, c.vol.id, ClaimPending, false)),
                 made := c.made + [c.vol.id]), Idle)
  {
    ReadsClaim(c);
    hide Quiet;
    var v := c.vol.(phase := Restoring);
    var d := c.(claim := Some(Claim(c.vol.from, c.vol.id, ClaimPending, false)), made := c.made + [c.vol.id]);
    QuietStep(State(c, AtClaim(c.vol)), 5, State(c, AtCreate(c.vol)));
    QuietStep(State(c, AtCreate(c.vol)), 4, State(d, AtStatus(v, false)));
    QuietStep(State(d, AtStatus(v, false)), 3, State(d.(vol := v.(rv := v.rv + 1)), Idle));
  }

  /** The request's own claim ends the restore: its snapshot and phase are reported and the
      request is dropped. */
  lemma OwnClaimPass(c: Cluster, claim: Claim)
    requires Asked(c) && c.claim == Some(claim) && claim.source == c.vol.from && claim.id == c.vol.id
    ensures PassAlone(c) == State(
              c.(vol := c.vol.(phase := if claim.phase == ClaimBound then Bound else Pending,
                               restoredFrom := c.vol.from, from := "", id := 0, rv := c.vol.rv + 2)), Idle)
  {
    ReadsClaim(c);
    hide Quiet;
    var v := c.vol.(phase := if claim.phase == ClaimBound then Bound else Pending, restoredFrom := c.vol.from);
    var w := v.(rv := v.rv + 1);
    QuietStep(State(c, AtClaim(c.vol)), 5, State(c, AtStatus(v, false)));
    QuietStep(State(c, AtStatus(v, false)), 4, State(c.(vol := w), AtClear(w, false)));
    QuietStep(State(c.(vol := w), AtClear(w, false)), 3,
              State(c.(vol := w.(from := "", id := 0, rv := w.rv + 1)), Idle));
  }

  /** Any other claim is let go: deleted if no pod that has not ended lists it, and left
      alone while one does or while it is on its way out. */
  lemma OldClaimPass(c: Cluster, claim: Claim)
    requires Asked(c) && c.claim == Some(claim) && !(claim.source == c.vol.from && claim.id == c.vol.id)
    ensures var free := forall i :: 0 <= i < |c.pods| ==> c.pods[i].ended || "vol-" + c.vol.name !in c.pods[i].claims;
            PassAlone(c) == State(
              c.(vol := c.vol.(phase := Restoring, rv := c.vol.rv + 1),
                 claim := if free then Some(claim.(deleting := true)) else c.claim), Idle)
  {
    ReadsClaim(c);
    hide Quiet;
    UsingCounts(c.pods, PVCName(c.vol));
    var v := c.vol.(phase := Restoring);
    var n := Using(c.pods, PVCName(c.vol));
    hide Using;
    QuietStep(State(c, AtClaim(c.vol)), 5, State(c, AtPods(v, claim)));
    if n > 0 || claim.deleting {
      QuietStep(State(c, AtPods(v, claim)), 4, State(c, AtStatus(v, false)));
      QuietStep(State(c, AtStatus(v, false)), 3, State(c.(vol := v.(rv := v.rv + 1)), Idle));
    } else {
      var d := c.(claim := Some(claim.(deleting := true)));
      QuietStep(State(c, AtPods(v, claim)), 4, State(c, AtDelete(v, claim)));
      QuietStep(State(c, AtDelete(v, claim)), 3, State(d, AtStatus(v, false)));
      QuietStep(State(d, AtStatus(v, false)), 2, State(d.(vol := v.(rv := v.rv + 1)), Idle));
    }
  }

  /** Without a request a missing claim is created from the Volume's own snapshot, if it
      names one, and what is there is reported. */
  lemma PlainPass(c: Cluster)
    requires c.vol.sizeOk && c.vol.from == ""
    ensures c.claim.None? ==>
              PassAlone(c) == State(
                c.(vol := c.vol.(phase := Pending, rv := c.vol.rv + 1,
                                 restoredFrom := if c.vol.fromSnapshot != "" then c.vol.fromSnapshot
                                                 else c.vol.restoredFrom),
                   claim := Some(Claim(c.vol.fromSnapshot, 0, ClaimPending, false))), Idle)
    ensures c.claim.Some? ==>
              var claim := c.claim.value;
              PassAlone(c) == State(
                c.(vol := c.vol.(phase := if claim.phase == ClaimBound then Bound
                                          else if claim.phase == ClaimLost then FailedPhase else Pending,
                                 rv := c.vol.rv + 1,
                                 restoredFrom := if claim.source != "" then claim.source
                                                 else c.vol.restoredFrom)), Idle)
  {
    hide Quiet;
    QuietStep(State(c, Idle), 7, State(c, AtPlainClaim(c.vol)));
    if c.claim.None? {
      var claim := Claim(c.vol.fromSnapshot, 0, ClaimPending, false);
      var d := c.(claim := Some(claim));
      QuietStep(State(c, AtPlainClaim(c.vol)), 6, State(c, AtPlainCreate(c.vol)));
      QuietStep(State(c, AtPlainCreate(c.vol)), 5, State(d, AtMountedBy(c.vol, claim)));
      PlainEnd(d, claim, 4);
    } else {
      var claim := c.claim.value;
      QuietStep(State(c, AtPlainClaim(c.vol)), 6, State(c, AtExisting(c.vol, claim)));
      QuietStep(State(c, AtExisting(c.vol, claim)), 5, State(c, AtMountedBy(c.vol, claim)));
      PlainEnd(c, claim, 4);
    }
  }

  lemma PlainEnd(c: Cluster, claim: Claim, n: nat)
    requires n >= 2 && c.vol.from == ""
    ensures Quiet(State(c, AtMountedBy(c.vol, claim)), n) == State(
              c.(vol := c.vol.(phase := if claim.phase == ClaimBound then Bound
                                        else if claim.phase == ClaimLost then FailedPhase else Pending,
                               rv := c.vol.rv + 1,
                               restoredFrom := if claim.source != "" then claim.source else c.vol.restoredFrom)), Idle)
  {
    hide Quiet;
    var v := c.vol.(phase := if claim.phase == ClaimBound then Bound
                             else if claim.phase == ClaimLost then FailedPhase else Pending,
                    restoredFrom := if claim.source != "" then claim.source else c.vol.restoredFrom);
    QuietStep(State(c, AtMountedBy(c.vol, claim)), n, State(c, AtStatus(v, false)));
    QuietStep(State(c, AtStatus(v, false)), n - 1, State(c.(vol := v.(rv := v.rv + 1)), Idle));
  }

  /** A call that fails before the status is written changes nothing, and if nobody wrote
      the Volume since it was loaded, the status reports it; a conflict ends the pass
      without a word. Only the patch that cancels a request is not told apart. */
  lemma FailedCallReported(start: State, steps: seq<Step>)
    requires Fresh(start)
    ensures var s := Run(start, steps);
            !s.pc.Idle? && !s.pc.AtStatus? && !s.pc.AtClear? && !s.pc.AtCancel? ==>
              && Call(s, Conflict) == State(s.c, Idle)
              && Call(s, Failed).c == s.c
              && (s.pc.v.rv == s.c.vol.rv ==>
                    Call(Call(s, Failed), Done).c
                    == s.c.(vol := s.c.vol.(phase := FailedPhase, rv := s.c.vol.rv + 1)))
  {
    RunKeeps(start, steps);
  }
}
