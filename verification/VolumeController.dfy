/** The volume controller's pass as it runs, one API call after the other, with
    the environment free to move before each (internal/controller/
    volume_controller.go:74-185, 322-434). Each method is proved to be the
    matching stretch of the protocol's pass. */
module VolumeController {
  import opened Basics
  import opened RestoreProtocol

  /** What is left of the pass when an operation returns to Reconcile: on a conflict
      nothing, else the status, with any other error in it. */
  function Ended(c: Cluster, v: Volume, out: Write, rest: seq<Slot>): State {
    if out.Conflict? then State(c, Idle)
    else Pass(State(c, AtStatus(if out.Failed? then Errored(v) else v, out.Failed?)), rest)
  }

  class VolumeReconciler {
    var cluster: Cluster

    /** What the others do before the next call. */
    method Meanwhile(es: seq<Env>)
      modifies this
      ensures cluster == EnvAll(old(cluster), es)
    {
      for i := 0 to |es|
        invariant EnvAll(cluster, es[i..]) == EnvAll(old(cluster), es)
      {
        cluster := EnvStep(cluster, es[i]);
      }
    }

    /** Counts the pods that have not ended and mount the claim. */
    method PodsUsing(claim: string) returns (n: nat)
      ensures n == Using(cluster.pods, claim)
      ensures var ps := cluster.pods;
              n == |set i | 0 <= i < |ps| && !ps[i].ended && claim in ps[i].claims|
    {
      UsingCounts(cluster.pods, claim);
      n := 0;
      var pods := cluster.pods;
      for i := 0 to |pods|
        invariant n + Using(pods[i..], claim) == Using(pods, claim)
      {
        if pods[i].ended {
          continue;
        }
        var volumes := pods[i].claims;
        for j := 0 to |volumes|
          invariant claim !in volumes[..j]
          invariant n + Using(pods[i..], claim) == Using(pods, claim)
        {
          if volumes[j] == claim {
            n := n + 1;
            break;
          }
        }
      }
    }

    /** Removes the request, whatever it is by now: this patch takes no lock. */
    method ClearRestore(v: Volume, a: Write) returns (w: Volume)
      modifies this
      ensures w == Dropped(v)
      ensures cluster ==
              if a.Done? then old(cluster).(vol := Dropped(old(cluster).vol).(rv := old(cluster).vol.rv + 1))
              else old(cluster)
    {
      w := Dropped(v);
      if a.Done? {
        cluster := cluster.(vol := Dropped(cluster.vol).(rv := cluster.vol.rv + 1));
      }
    }

    method RestoreInPlace(v0: Volume, slots: seq<Slot>) returns (v: Volume, out: Write, rest: seq<Slot>)
      requires |slots| >= 4
      modifies this
      ensures |rest| >= |slots| - 4
      ensures Pass(State(old(cluster), AtSnapshot(v0)), slots) == Ended(cluster, v, out, rest)
    {
      v, rest := v0, slots[1..];
      Meanwhile(slots[0].before);
      if !slots[0].a.Done? {
        return v, slots[0].a, rest;
      }
      if v.from !in cluster.ready {
        Meanwhile(rest[0].before);
        v := ClearRestore(v, rest[0].a);
        return v, Failed, rest[1..];
      }
      if !cluster.ready[v.from] {
        v := v.(phase := Restoring);
        return v, Done, rest;
      }
      v, out, rest := ReplaceClaim(v, rest);
    }

    /** restoreInPlace from the read of the claim on. */
    method ReplaceClaim(v0: Volume, slots: seq<Slot>) returns (v: Volume, out: Write, rest: seq<Slot>)
      requires |slots| >= 3
      modifies this
      ensures |rest| >= |slots| - 3
      ensures Pass(State(old(cluster), AtClaim(v0)), slots) == Ended(cluster, v, out, rest)
    {
      v, rest := v0, slots[1..];
      Meanwhile(slots[0].before);
      if !slots[0].a.Done? {
        return v, slots[0].a, rest;
      }
      if cluster.claim.None? {
        Meanwhile(rest[0].before);
        if !rest[0].a.Done? || cluster.claim.Some? {
          return v, if rest[0].a.Done? then Failed else rest[0].a, rest[1..];
        }
        cluster := cluster.(claim := Some(Claim(v.from, v.id, ClaimPending, false)), made := cluster.made + [v.id]);
        return v.(phase := Restoring), Done, rest[1..];
      }
      var pvc := cluster.claim.value;
      if pvc.source != "" && pvc.source == v.from && pvc.id == v.id {
        v := v.(restoredFrom := v.from);
        if pvc.phase.ClaimBound? {
          v := v.(phase := Bound);
        } else {
          v := v.(phase := Pending);
        }
        return v, Done, rest;
      }
      v := v.(phase := Restoring);
      out, rest := RemoveOld(v, pvc, rest);
    }

    /** Waits for the old claim's users to stop, then deletes it. */
    method RemoveOld(v: Volume, pvc: Claim, slots: seq<Slot>) returns (out: Write, rest: seq<Slot>)
      requires |slots| >= 2
      modifies this
      ensures |rest| >= |slots| - 2
      ensures Pass(State(old(cluster), AtPods(v, pvc)), slots) == Ended(cluster, v, out, rest)
    {
      rest := slots[1..];
      Meanwhile(slots[0].before);
      if !slots[0].a.Done? {
        return slots[0].a, rest;
      }
      var users := PodsUsing(PVCName(v));
      if users > 0 {
        return Done, rest;
      }
      if !pvc.deleting {
        Meanwhile(rest[0].before);
        if !rest[0].a.Done? {
          return rest[0].a, rest[1..];
        }
        if cluster.claim.Some? {
          cluster := cluster.(claim := Some(cluster.claim.value.(deleting := true)));
        }
        return Done, rest[1..];
      }
      return Done, rest;
    }

    /** Creates the claim if there is none, else applies what may change. */
    method EnsureClaim(v: Volume, slots: seq<Slot>) returns (pvc: Claim, out: Write, rest: seq<Slot>)
      requires |slots| >= 2
      modifies this
      ensures |rest| >= |slots| - 2
      ensures Pass(State(old(cluster), AtPlainClaim(v)), slots)
           == if out.Done? then Pass(State(cluster, AtMountedBy(v, pvc)), rest) else Ended(cluster, v, out, rest)
    {
      pvc, rest := Claim(v.fromSnapshot, 0, ClaimPending, false), slots[1..];
      Meanwhile(slots[0].before);
      if !slots[0].a.Done? {
        return pvc, slots[0].a, rest;
      }
      if cluster.claim.None? {
        Meanwhile(rest[0].before);
        if !rest[0].a.Done? || cluster.claim.Some? {
          return pvc, if rest[0].a.Done? then Failed else rest[0].a, rest[1..];
        }
        cluster := cluster.(claim := Some(pvc));
        return pvc, Done, rest[1..];
      }
      pvc := cluster.claim.value;
      Meanwhile(rest[0].before);
      return pvc, rest[0].a, rest[1..];
    }

    /** reconcile when no restore is asked for. */
    method KeepClaim(v0: Volume, slots: seq<Slot>) returns (v: Volume, out: Write, rest: seq<Slot>)
      requires |slots| >= 3
      modifies this
      ensures |rest| >= |slots| - 3
      ensures Pass(State(old(cluster), AtPlainClaim(v0)), slots) == Ended(cluster, v, out, rest)
    {
      v := v0;
      var pvc;
      pvc, out, rest := EnsureClaim(v0, slots);
      if !out.Done? {
        return v, out, rest;
      }
      Meanwhile(rest[0].before);
      if !rest[0].a.Done? {
        return v, rest[0].a, rest[1..];
      }
      if pvc.source != "" {
        v := v.(restoredFrom := pvc.source);
      }
      match pvc.phase {
        case ClaimBound => v := v.(phase := Bound);
        case ClaimLost => v := v.(phase := FailedPhase);
        case ClaimPending => v := v.(phase := Pending);
      }
      return v, Done, rest[1..];
    }

    /** reconcile: which of the two it is. */
    method Apply(v0: Volume, slots: seq<Slot>) returns (v: Volume, out: Write, rest: seq<Slot>)
      requires |slots| >= 4
      modifies this
      ensures |rest| >= |slots| - 4
      ensures Pass(State(old(cluster), AfterLoad(v0)), slots) == Ended(cluster, v, out, rest)
    {
      hide Pass;
      if !v0.sizeOk {
        return v0, Failed, slots;
      }
      if v0.from != "" {
        v, out, rest := RestoreInPlace(v0, slots);
      } else {
        v, out, rest := KeepClaim(v0, slots);
      }
    }

    /** Writes the status under the lock taken at the load, then drops a finished request. */
    method Conclude(v0: Volume, err: bool, slots: seq<Slot>)
      requires |slots| >= 2
      modifies this
      ensures State(cluster, Idle) == Pass(State(old(cluster), AtStatus(v0, err)), slots)
    {
      Meanwhile(slots[0].before);
      if !slots[0].a.Done? || cluster.vol.rv != v0.rv {
        return;
      }
      cluster := cluster.(
        vol := cluster.vol.(phase := v0.phase, restoredFrom := v0.restoredFrom, rv := cluster.vol.rv + 1));
      var v := cluster.vol;
      if v.from != "" && !v.phase.Restoring? && v.restoredFrom == v.from {
        Meanwhile(slots[1].before);
        var _ := ClearRestore(v, slots[1].a);
      }
    }

    /** One pass. At most seven calls are made. */
    method Reconcile(slots: seq<Slot>)
      requires |slots| >= 7
      modifies this
      ensures State(cluster, Idle) == Pass(State(old(cluster), Idle), slots)
    {
      var rest := slots[1..];
      Meanwhile(slots[0].before);
      if !slots[0].a.Done? {
        return;
      }
      var v, out;
      v, out, rest := Apply(cluster.vol, rest);
      if out.Conflict? {
        return;
      }
      if out.Failed? {
        v := v.(phase := FailedPhase);
      }
      Conclude(v, out.Failed?, rest);
    }
  }
}
