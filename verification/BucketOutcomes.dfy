/** What becomes of a bucket: who takes it from the store and who does not, over every
    run, and what a pass alone leaves
    (internal/controller/objectbucket_controller.go:103-224). */
module BucketOutcomes {
  import opened Buckets
  import opened BucketKeys

  // ---------- who removes a bucket

  /** A worker about to delete a bucket loaded policy Delete. */
  ghost predicate PolicyRead(s: State) {
    forall k :: k in s.workers ==> s.workers[k].DeleteBucket? ==> !s.workers[k].r.retain
  }

  lemma StepPolicyRead(s: State, step: Step)
    requires PolicyRead(s)
    ensures PolicyRead(Next(s, step))
  {
    hide BucketName;
  }

  lemma {:induction false} RunPolicyRead(s: State, steps: seq<Step>)
    requires PolicyRead(s)
    ensures PolicyRead(Run(s, steps))
    decreases |steps|
  {
    hide PolicyRead, Next;
    if steps != [] {
      StepPolicyRead(s, steps[0]);
      RunPolicyRead(Next(s, steps[0]), steps[1..]);
    }
  }

  lemma CallTakesBucket(w: World, j: Key, pc: Pc, a: Answer, name: string)
    requires name in w.buckets && name !in Call(w, j, pc, a).0.buckets
    ensures name == BucketName(j) && pc.DeleteBucket? && a == Ok
  {
    hide BucketName;
  }

  /** Over every run: a bucket leaves the store exactly by the step of its own resource's
      worker that deletes it, in a cleanup that loaded the resource with policy Delete. */
  lemma BucketLeavesExactly(names: set<Key>, steps: seq<Step>, step: Step, k: Key)
    requires OwnNames(names) && k in names && AllAbout(steps + [step], names)
    ensures var s := Run(NOTHING, steps);
            BucketName(k) in s.w.buckets ==>
              (BucketName(k) !in Next(s, step).w.buckets <==>
                step == Work(k, Ok) && PcOf(s, k).DeleteBucket? && !PcOf(s, k).r.retain)
  {
    hide BucketName;
    var s := Run(NOTHING, steps);
    RunPolicyRead(NOTHING, steps);
    assert (steps + [step])[|steps|] == step;
    if BucketName(k) in s.w.buckets && BucketName(k) !in Next(s, step).w.buckets {
      match step {
        case Work(j, a) => CallTakesBucket(s.w, j, PcOf(s, j), a, BucketName(k));
        case Other(e) => EnvTakesNoBucket(s.w, e);
        case Crash =>
      }
    }
  }

  lemma EnvTakesNoBucket(w: World, e: Env)
    ensures EnvStep(w, e).buckets == w.buckets
  {}

  // ---------- policy Retain

  /** A worker in a cleanup that loaded policy Retain. */
  predicate Retaining(pc: Pc) {
    (pc.ReadForCleanup? || pc.DeleteUser? || pc.DeleteBucket? || pc.RemoveFinalizer?) && pc.r.retain
  }

  lemma CallElsewhereBuckets(w: World, j: Key, pc: Pc, a: Answer, k: Key)
    requires BucketName(j) != BucketName(k)
    ensures BucketName(k) in Call(w, j, pc, a).0.buckets <==> BucketName(k) in w.buckets
  {
    hide BucketName;
  }

  lemma RetainingStep(s: State, step: Step, k: Key, names: set<Key>)
    requires PolicyRead(s) && OwnNames(names) && k in names && About(step, names) && Retaining(PcOf(s, k))
    ensures BucketName(k) in Next(s, step).w.buckets <==> BucketName(k) in s.w.buckets
  {
    match step {
      case Work(j, a) =>
        if j != k {
          assert BucketName(j) != BucketName(k);
          CallElsewhereBuckets(s.w, j, PcOf(s, j), a, k);
        }
      case Other(e) => assert EnvStep(s.w, e).buckets == s.w.buckets;
      case Crash =>
    }
    hide BucketName;
  }

  /** From step m to the end the worker of k is in a cleanup under policy Retain. */
  ghost predicate RetainingFrom(steps: seq<Step>, m: nat, k: Key) {
    forall l: nat :: m <= l <= |steps| ==> Retaining(PcAt(steps, l, k))
  }

  /** Through a whole cleanup that loaded policy Retain, to the step with which the
      resource goes, its bucket stays in the store if it was there. */
  lemma {:induction false} RetainKeepsBucket(names: set<Key>, steps: seq<Step>, step: Step, m: nat, k: Key)
    requires OwnNames(names) && k in names && AllAbout(steps + [step], names)
    requires m <= |steps| && RetainingFrom(steps, m, k)
    ensures BucketName(k) in Next(Run(NOTHING, steps), step).w.buckets
            <==> BucketName(k) in Run(NOTHING, steps[..m]).w.buckets
    decreases |steps|
  {
    var n := |steps|;
    assert (steps + [step])[n] == step;
    RunPolicyRead(NOTHING, steps);
    assert steps[..n] == steps && Retaining(PcAt(steps, n, k));
    hide Next, BucketName, PolicyRead;
    RetainingStep(Run(NOTHING, steps), step, k, names);
    if m < n {
      var front, last := steps[..n - 1], steps[n - 1];
      assert front + [last] == steps && front[..m] == steps[..m];
      RunLast(NOTHING, steps);
      hide Run, Retaining;
      forall i | 0 <= i < n ensures About(steps[i], names) { assert (steps + [step])[i] == steps[i]; }
      forall l: nat | m <= l <= |front| ensures Retaining(PcAt(front, l, k)) {
        assert front[..l] == steps[..l];
        assert Retaining(PcAt(steps, l, k));
      }
      RetainKeepsBucket(names, front, last, m, k);
    }
  }

  // ---------- a pass alone

  function Fine(n: nat): seq<Slot> { seq(n, _ => Slot([], Ok)) }

  lemma OneCall(w: World, k: Key, pc: Pc, n: nat)
    requires n > 0
    ensures var t := Call(w, k, pc, Ok);
            Pass(w, k, pc, Fine(n)) == if t.1.Idle? then t.0 else Pass(t.0, k, t.1, Fine(n - 1))
  {
    hide Call;
    assert Fine(n)[1..] == Fine(n - 1);
  }

  /** Provided for: the finalizer, the bucket, a key that opens it, the one in the Secret or
      else a new one, and the Secret that holds it. */
  lemma ProvidePass(w: World, k: Key)
    requires k in w.resources && !w.resources[k].deleting && 0 !in w.secrets.Values
    ensures var r, name := w.resources[k], "shpyrd-" + k.namespace + "-" + k.name;
            var w1 := if r.finalizer then w
                      else w.(resources := w.resources[k := Resource(false, true, r.retain, w.clock + 1)],
                              clock := w.clock + 1);
            var w2 := if k in w.secrets then w1.(keys := w.keys[w.secrets[k] := name])
                      else w1.(keys := w.keys[w.nextKey := name], owner := w.owner[w.nextKey := k],
                               secrets := w.secrets[k := w.nextKey], nextKey := w.nextKey + 1);
            Pass(w, k, Idle, Fine(7)) == w2.(buckets := w.buckets + {name})
  {
    hide Pass;
    var r, name := w.resources[k], BucketName(k);
    var w1 := if r.finalizer then w
              else w.(resources := w.resources[k := Resource(false, true, r.retain, w.clock + 1)],
                      clock := w.clock + 1);
    OneCall(w, k, Idle, 7);
    if r.finalizer {
      Provided(w, k, 6);
    } else {
      OneCall(w, k, AddFinalizer(r), 6);
      Provided(w1, k, 5);
    }
  }

  lemma Provided(w: World, k: Key, n: nat)
    requires n >= 5 && 0 !in w.secrets.Values
    ensures var name := "shpyrd-" + k.namespace + "-" + k.name;
            var w2 := if k in w.secrets then w.(keys := w.keys[w.secrets[k] := name])
                      else w.(keys := w.keys[w.nextKey := name], owner := w.owner[w.nextKey := k],
                              secrets := w.secrets[k := w.nextKey], nextKey := w.nextKey + 1);
            Pass(w, k, EnsureBucket, Fine(n)) == w2.(buckets := w.buckets + {name})
  {
    hide Pass;
    var name := BucketName(k);
    assert name == "shpyrd-" + k.namespace + "-" + k.name;
    hide BucketName;
    var wb := w.(buckets := w.buckets + {name});
    var ak := if k in w.secrets then w.secrets[k] else 0;
    var cred := if k in w.secrets then w.secrets[k] else w.nextKey;
    assert k in w.secrets ==> w.secrets[k] in w.secrets.Values;
    OneCall(w, k, EnsureBucket, n);
    OneCall(wb, k, ReadSecret, n - 1);
    OneCall(wb, k, EnsureUser(ak), n - 2);
    assert UserKey(wb, ak) == cred && BucketName(k) in wb.buckets;
    assert Call(w, k, EnsureBucket, Ok) == (wb, ReadSecret);
    assert Call(wb, k, ReadSecret, Ok) == (wb, EnsureUser(ak));
    assert Call(wb, k, EnsureUser(ak), Ok) == (WithUser(wb, k, ak), WriteSecret(cred));
    hide WithUser, Call;
    Stored(w, wb, k, cred, n - 3);
  }

  lemma Stored(w: World, wb: World, k: Key, cred: nat, n: nat)
    requires n >= 2 && 0 !in w.secrets.Values
    requires wb == w.(buckets := w.buckets + {BucketName(k)})
    requires cred == if k in w.secrets then w.secrets[k] else w.nextKey
    ensures var name := BucketName(k);
            var w2 := if k in w.secrets then w.(keys := w.keys[w.secrets[k] := name])
                      else w.(keys := w.keys[w.nextKey := name], owner := w.owner[w.nextKey := k],
                              secrets := w.secrets[k := w.nextKey], nextKey := w.nextKey + 1);
            Pass(WithUser(wb, k, if k in w.secrets then cred else 0), k, WriteSecret(cred), Fine(n))
            == w2.(buckets := w.buckets + {name})
  {
    hide Pass, BucketName;
    var wu := WithUser(wb, k, if k in w.secrets then cred else 0);
    OneCall(wu, k, WriteSecret(cred), n);
    OneCall(wu.(secrets := wu.secrets[k := cred]), k, Status, n - 1);
    if k in w.secrets {
      assert w.secrets[k] in w.secrets.Values;
      assert w.secrets[k := w.secrets[k]] == w.secrets;
    }
  }

  /** Cleaned up: the Secret's key goes, the bucket too unless policy Retain keeps it, and
      with the finalizer the resource. */
  lemma CleanupPass(w: World, k: Key)
    requires k in w.resources && w.resources[k].deleting && w.resources[k].finalizer && 0 !in w.keys
    ensures var r, name := w.resources[k], "shpyrd-" + k.namespace + "-" + k.name;
            Pass(w, k, Idle, Fine(5)) ==
            w.(resources := w.resources - {k},
               keys := if k in w.secrets then w.keys - {w.secrets[k]} else w.keys,
               buckets := if r.retain then w.buckets else w.buckets - {name},
               retained := if r.retain then w.retained + {k} else w.retained - {k})
  {
    hide Pass;
    var r, name := w.resources[k], BucketName(k);
    assert name == "shpyrd-" + k.namespace + "-" + k.name;
    hide BucketName;
    var ak := if k in w.secrets then w.secrets[k] else 0;
    OneCall(w, k, Idle, 5);
    OneCall(w, k, ReadForCleanup(r), 4);
    OneCall(w, k, DeleteUser(r, ak), 3);
    var wu := w.(keys := if k in w.secrets then w.keys - {w.secrets[k]} else w.keys);
    assert ak == 0 ==> wu.keys == w.keys;
    BucketGoes(wu, k, r);
  }

  lemma BucketGoes(w: World, k: Key, r: Resource)
    requires k in w.resources && w.resources[k] == r
    ensures Pass(w, k, if r.retain then RemoveFinalizer(r) else DeleteBucket(r), Fine(2)) ==
            w.(resources := w.resources - {k},
               buckets := if r.retain then w.buckets else w.buckets - {BucketName(k)},
               retained := if r.retain then w.retained + {k} else w.retained - {k})
  {
    hide Pass, BucketName;
    if r.retain {
      OneCall(w, k, RemoveFinalizer(r), 2);
    } else {
      OneCall(w, k, DeleteBucket(r), 2);
      OneCall(w.(buckets := w.buckets - {BucketName(k)}, retained := w.retained - {k}), k, RemoveFinalizer(r), 1);
    }
  }

  /** A resource that is gone, or on its way without the finalizer, is left alone. */
  lemma NothingToDoPass(w: World, k: Key)
    requires k !in w.resources || (w.resources[k].deleting && !w.resources[k].finalizer)
    ensures Pass(w, k, Idle, Fine(7)) == w
  {
    hide Pass;
    OneCall(w, k, Idle, 7);
  }

  /** Any call that fails ends the pass and changes nothing, but for the reads of the
      Secret, which count as finding none, and the user call without a key, which is
      none. So does a patch of the finalizers when the resource was written since it was
      loaded, and a key for a bucket that is not there. */
  lemma FailEndsPass(w: World, k: Key, pc: Pc)
    ensures Call(w, k, pc, Fail) ==
              if pc.ReadSecret? then (w, EnsureUser(0))
              else if pc.ReadForCleanup? then (w, DeleteUser(pc.r, 0))
              else if pc.DeleteUser? && pc.ak == 0 then
                (w, if pc.r.retain then RemoveFinalizer(pc.r) else DeleteBucket(pc.r))
              else (w, Idle)
    ensures (pc.AddFinalizer? || pc.RemoveFinalizer?) && !(k in w.resources && w.resources[k].rv == pc.r.rv) ==>
              Call(w, k, pc, Ok) == (w, Idle)
    ensures pc.EnsureUser? && "shpyrd-" + k.namespace + "-" + k.name !in w.buckets ==> Call(w, k, pc, Ok) == (w, Idle)
  {}
}
