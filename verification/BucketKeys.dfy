/** The access keys of object buckets: what a cleanup leaves of them, over every run
    (internal/controller/objectbucket_controller.go:103-146, 148-163, 209-224). */
module BucketKeys {
  import opened Buckets

  function KeysOf(w: World, k: Key): set<nat> { set ak | ak in w.keys && w.keys[ak] == BucketName(k) }

  /** The key a read of the Secret gives; a read that fails gives none. */
  function KeyRead(w: World, k: Key, a: Answer): nat { if a.Ok? && k in w.secrets then w.secrets[k] else 0 }

  // ---------- keys belong to one resource

  ghost predicate KeysOwned(w: World) {
    && w.nextKey > 0
    && (forall ak :: ak in w.owner ==> 0 < ak < w.nextKey)
    && (forall ak :: ak in w.keys ==> ak in w.owner && w.keys[ak] == BucketName(w.owner[ak]))
    && (forall k :: k in w.secrets ==> w.secrets[k] in w.owner && w.owner[w.secrets[k]] == k)
  }

  /** The key a worker holds was made for its resource. */
  predicate HoldsOwn(w: World, k: Key, pc: Pc) {
    match pc
    case EnsureUser(ak) => ak == 0 || (ak in w.owner && w.owner[ak] == k)
    case WriteSecret(ak) => ak in w.owner && w.owner[ak] == k
    case DeleteUser(_, ak) => ak == 0 || (ak in w.owner && w.owner[ak] == k)
    case _ => true
  }

  ghost predicate Owned(s: State) {
    KeysOwned(s.w) && forall k :: k in s.workers ==> HoldsOwn(s.w, k, s.workers[k])
  }

  lemma CallOwned(w: World, k: Key, pc: Pc, a: Answer)
    requires KeysOwned(w) && HoldsOwn(w, k, pc)
    ensures KeysOwned(Call(w, k, pc, a).0) && HoldsOwn(Call(w, k, pc, a).0, k, Call(w, k, pc, a).1)
    ensures var after := Call(w, k, pc, a).0;
            forall ak :: ak in w.owner ==> ak in after.owner && after.owner[ak] == w.owner[ak]
  {
    hide BucketName;
  }

  lemma HoldsOn(w: World, t: World, k: Key, pc: Pc)
    requires HoldsOwn(w, k, pc) && forall ak :: ak in w.owner ==> ak in t.owner && t.owner[ak] == w.owner[ak]
    ensures HoldsOwn(t, k, pc)
  {}

  lemma StepOwned(s: State, step: Step)
    requires Owned(s)
    ensures Owned(Next(s, step))
  {
    hide BucketName, KeysOwned, HoldsOwn, Call;
    match step {
      case Work(k, a) =>
        assert HoldsOwn(s.w, k, PcOf(s, k)) by { IdleHolds(s.w, k); }
        CallOwned(s.w, k, PcOf(s, k), a);
        var t := Call(s.w, k, PcOf(s, k), a).0;
        forall j | j in s.workers ensures HoldsOwn(t, j, s.workers[j]) { HoldsOn(s.w, t, j, s.workers[j]); }
      case Other(e) =>
        EnvOwned(s.w, e);
        forall j | j in s.workers ensures HoldsOwn(EnvStep(s.w, e), j, s.workers[j]) {
          HoldsOn(s.w, EnvStep(s.w, e), j, s.workers[j]);
        }
      case Crash =>
    }
  }

  lemma IdleHolds(w: World, k: Key)
    ensures HoldsOwn(w, k, Idle)
  {}

  lemma EnvOwned(w: World, e: Env)
    requires KeysOwned(w)
    ensures KeysOwned(EnvStep(w, e)) && EnvStep(w, e).owner == w.owner
  {
    hide BucketName;
  }

  lemma {:induction false} RunOwned(s: State, steps: seq<Step>)
    requires Owned(s)
    ensures Owned(Run(s, steps))
    decreases |steps|
  {
    hide Owned, Next;
    if steps != [] {
      StepOwned(s, steps[0]);
      RunOwned(Next(s, steps[0]), steps[1..]);
    }
  }

  lemma NothingOwned()
    ensures Owned(NOTHING)
  {}

  /** A call of another worker touches no key of k's bucket. */
  lemma CallApartKeys(w: World, j: Key, pc: Pc, a: Answer, k: Key)
    requires KeysOwned(w) && HoldsOwn(w, j, pc) && BucketName(j) != BucketName(k)
    ensures KeysOf(Call(w, j, pc, a).0, k) == KeysOf(w, k)
  {
    hide BucketName;
  }

  // ---------- the key a cleanup reads, and what the user call leaves

  /** What the user call of a cleanup leaves when the cleanup goes on: the bucket has no
      key left exactly when it had none but the one that was read. */
  lemma UserCallExactly(w: World, k: Key, r: Resource, ak: nat, a: Answer)
    requires 0 !in w.keys && !Call(w, k, DeleteUser(r, ak), a).1.Idle?
    ensures var t := Call(w, k, DeleteUser(r, ak), a).0;
            && KeysOf(t, k) == KeysOf(w, k) - {ak}
            && (KeysOf(t, k) == {} <==> KeysOf(w, k) <= {ak})
  {
    hide BucketName;
    var t := Call(w, k, DeleteUser(r, ak), a).0;
    forall x ensures x in KeysOf(t, k) <==> x in KeysOf(w, k) - {ak} {}
  }

  /** Step m of the run is the read of the Secret, and it gave ak. */
  ghost predicate ReadStep(steps: seq<Step>, m: nat, k: Key, ak: nat) {
    m < |steps| && var s := Run(NOTHING, steps[..m]);
    && steps[m].Work? && steps[m].k == k && PcOf(s, k).ReadForCleanup? && ak == KeyRead(s.w, k, steps[m].a)
  }

  /** Step n is the user call for ak, and the cleanup goes on. */
  ghost predicate UserStep(steps: seq<Step>, n: nat, k: Key, ak: nat) {
    n < |steps| && var s := Run(NOTHING, steps[..n]);
    && steps[n].Work? && steps[n].k == k && PcOf(s, k).DeleteUser? && PcOf(s, k).ak == ak
    && !PcOf(Run(NOTHING, steps[..n + 1]), k).Idle?
  }

  predicate PastUser(pc: Pc) { pc.DeleteBucket? || pc.RemoveFinalizer? }

  /** Where the worker of k is after l steps. */
  function PcAt(steps: seq<Step>, l: nat, k: Key): Pc
    requires l <= |steps|
  {
    PcOf(Run(NOTHING, steps[..l]), k)
  }

  /** From step m to step n the worker of k is at its user call for ak. */
  ghost predicate AtUserCall(steps: seq<Step>, m: nat, n: nat, k: Key, ak: nat) {
    forall l: nat :: m < l <= n && l <= |steps| ==> PcAt(steps, l, k).DeleteUser? && PcAt(steps, l, k).ak == ak
  }

  /** From step n to the end the worker of k is past that call. */
  ghost predicate PastUserFrom(steps: seq<Step>, n: nat, k: Key) {
    forall l: nat :: n < l <= |steps| ==> PastUser(PcAt(steps, l, k))
  }

  /** The cleanup that is on at the end of the run read ak at step m, and its user call was
      step n. */
  ghost predicate CleanupSteps(steps: seq<Step>, m: nat, n: nat, k: Key, ak: nat) {
    && m < n && ReadStep(steps, m, k, ak) && AtUserCall(steps, m, n, k, ak)
    && UserStep(steps, n, k, ak) && PastUserFrom(steps, n, k)
  }

  lemma {:induction false} RunInTwo(s: State, a: seq<Step>, b: seq<Step>)
    ensures Run(s, a + b) == Run(Run(s, a), b)
    decreases |a|
  {
    hide Next;
    if a == [] {
      assert a + b == b;
    } else {
      RunInTwo(Next(s, a[0]), a[1..], b);
      assert (a + b)[1..] == a[1..] + b;
    }
  }

  lemma RunLast(s: State, steps: seq<Step>)
    requires steps != []
    ensures Run(s, steps) == Next(Run(s, steps[..|steps| - 1]), steps[|steps| - 1])
  {
    hide Next;
    var front, last := steps[..|steps| - 1], steps[|steps| - 1];
    RunInTwo(s, front, [last]);
    assert front + [last] == steps;
  }

  lemma BeforeUserCall(s: State, step: Step, k: Key)
    requires PcOf(Next(s, step), k).DeleteUser?
    ensures var pc := PcOf(Next(s, step), k);
            if step.Work? && step.k == k then PcOf(s, k).ReadForCleanup? && pc.ak == KeyRead(s.w, k, step.a)
            else PcOf(s, k) == pc
  {}

  lemma {:induction false} UserCallHasRead(steps: seq<Step>, k: Key)
    requires PcOf(Run(NOTHING, steps), k).DeleteUser?
    ensures var ak := PcOf(Run(NOTHING, steps), k).ak;
            exists m: nat :: ReadStep(steps, m, k, ak) && AtUserCall(steps, m, |steps|, k, ak)
    decreases |steps|
  {
    assert steps != [];
    var last := |steps| - 1;
    var front := steps[..last];
    RunLast(NOTHING, steps);
    BeforeUserCall(Run(NOTHING, front), steps[last], k);
    hide Run, Next, KeyRead;
    var ak := PcOf(Run(NOTHING, steps), k).ak;
    assert steps[..|steps|] == steps;
    if steps[last].Work? && steps[last].k == k {
      assert ReadStep(steps, last, k, ak);
      assert AtUserCall(steps, last, |steps|, k, ak);
    } else {
      UserCallHasRead(front, k);
      var m: nat :| ReadStep(front, m, k, ak) && AtUserCall(front, m, |front|, k, ak);
      assert front[..m] == steps[..m];
      assert ReadStep(steps, m, k, ak);
      forall l: nat | m < l <= |steps| ensures PcAt(steps, l, k).DeleteUser? && PcAt(steps, l, k).ak == ak {
        if l <= last {
          assert front[..l] == steps[..l];
          assert PcAt(front, l, k) == PcAt(steps, l, k);
        }
      }
    }
  }

  /** What a step makes of the keys of a bucket whose cleanup is past the user call. */
  lemma KeysPastUser(s: State, step: Step, k: Key, names: set<Key>)
    requires Owned(s) && OwnNames(names) && k in names && About(step, names) && PastUser(PcOf(Next(s, step), k))
    ensures var t := Next(s, step);
            if step.Work? && step.k == k && PcOf(s, k).DeleteUser? then
              KeysOf(t.w, k) == KeysOf(s.w, k) - {PcOf(s, k).ak}
            else PastUser(PcOf(s, k)) && KeysOf(t.w, k) == KeysOf(s.w, k)
  {
    hide BucketName;
    match step {
      case Work(j, a) =>
        if j == k {
          if PcOf(s, k).DeleteUser? { UserCallExactly(s.w, k, PcOf(s, k).r, PcOf(s, k).ak, a); }
        } else {
          assert BucketName(j) != BucketName(k);
          assert HoldsOwn(s.w, j, PcOf(s, j));
          CallApartKeys(s.w, j, PcOf(s, j), a, k);
        }
      case Other(e) => assert EnvStep(s.w, e).keys == s.w.keys;
      case Crash =>
    }
  }

  ghost predicate AllAbout(steps: seq<Step>, names: set<Key>) {
    forall i :: 0 <= i < |steps| ==> About(steps[i], names)
  }

  /** Step n is the user call of the cleanup that is on, and took ak from the keys. */
  ghost predicate TookKey(steps: seq<Step>, n: nat, k: Key, ak: nat) {
    && UserStep(steps, n, k, ak) && PastUserFrom(steps, n, k)
    && KeysOf(Run(NOTHING, steps).w, k) == KeysOf(Run(NOTHING, steps[..n]).w, k) - {ak}
  }

  lemma PastUserGoesOn(steps: seq<Step>, n: nat, k: Key)
    requires steps != [] && PastUserFrom(steps[..|steps| - 1], n, k) && PastUser(PcOf(Run(NOTHING, steps), k))
    ensures PastUserFrom(steps, n, k)
  {
    hide Run, PastUser, PcOf;
    var front := steps[..|steps| - 1];
    assert steps[..|steps|] == steps;
    forall l: nat | n < l <= |steps| ensures PastUser(PcAt(steps, l, k)) {
      if l < |steps| {
        assert front[..l] == steps[..l];
        assert PcAt(front, l, k) == PcAt(steps, l, k);
      }
    }
  }

  lemma {:induction false} CleanupHasUserCall(steps: seq<Step>, k: Key, names: set<Key>)
    requires OwnNames(names) && k in names && AllAbout(steps, names) && PastUser(PcOf(Run(NOTHING, steps), k))
    ensures exists n: nat, ak: nat :: TookKey(steps, n, k, ak)
    decreases |steps|
  {
    assert steps != [];
    var last := |steps| - 1;
    var front := steps[..last];
    NothingOwned();
    RunOwned(NOTHING, front);
    RunLast(NOTHING, steps);
    KeysPastUser(Run(NOTHING, front), steps[last], k, names);
    hide Run, Next, KeysOf, OwnNames, About, Owned;
    if steps[last].Work? && steps[last].k == k && PcOf(Run(NOTHING, front), k).DeleteUser? {
      assert steps[..last + 1] == steps;
      assert steps[..|steps|] == steps;
      assert UserStep(steps, last, k, PcOf(Run(NOTHING, front), k).ak);
      assert TookKey(steps, last, k, PcOf(Run(NOTHING, front), k).ak);
    } else {
      CleanupHasUserCall(front, k, names);
      var n: nat, ak: nat :| TookKey(front, n, k, ak);
      assert front[..n] == steps[..n] && front[..n + 1] == steps[..n + 1];
      assert UserStep(steps, n, k, ak);
      PastUserGoesOn(steps, n, k);
      assert TookKey(steps, n, k, ak);
    }
  }

  lemma CleanupHasBoth(steps: seq<Step>, k: Key, names: set<Key>)
    requires OwnNames(names) && k in names && AllAbout(steps, names) && PastUser(PcOf(Run(NOTHING, steps), k))
    ensures exists m: nat, n: nat, ak: nat :: CleanupSteps(steps, m, n, k, ak)
              && KeysOf(Run(NOTHING, steps).w, k) == KeysOf(Run(NOTHING, steps[..n]).w, k) - {ak}
  {
    hide Run, Next, KeysOf, OwnNames, About, KeyRead;
    CleanupHasUserCall(steps, k, names);
    var n: nat, ak: nat :| TookKey(steps, n, k, ak);
    var front := steps[..n];
    UserCallHasRead(front, k);
    var m: nat :| ReadStep(front, m, k, ak) && AtUserCall(front, m, |front|, k, ak);
    assert front[..m] == steps[..m];
    forall l: nat | m < l <= n ensures PcAt(steps, l, k).DeleteUser? && PcAt(steps, l, k).ak == ak {
      assert front[..l] == steps[..l];
      assert PcAt(front, l, k) == PcAt(steps, l, k);
    }
    assert CleanupSteps(steps, m, n, k, ak);
  }

  lemma ResourceGoes(s: State, step: Step, k: Key)
    requires Finalized(s.w, k) && k !in Next(s, step).w.resources
    ensures step.Work? && step.k == k && PcOf(s, k).RemoveFinalizer?
  {
    if step.Work? {
      CallRemoves(s.w, step.k, PcOf(s, step.k), step.a, k);
    }
    hide Call, PcOf, BucketName;
  }

  /** The only call that takes a resource away. */
  lemma CallRemoves(w: World, j: Key, pc: Pc, a: Answer, k: Key)
    requires k in w.resources && k !in Call(w, j, pc, a).0.resources
    ensures j == k && pc.RemoveFinalizer?
  {
    hide BucketName;
  }

  lemma RemovedClean(w: World, k: Key, pc: Pc, a: Answer)
    requires pc.RemoveFinalizer? && InPlace(w, k, pc) && k !in Call(w, k, pc, a).0.resources
    ensures var t := Call(w, k, pc, a).0;
            (BucketName(k) !in t.buckets || k in t.retained) && KeysOf(t, k) == KeysOf(w, k)
  {
    hide BucketName;
  }

  /** A resource that had its finalizer goes only by the last step of a cleanup, over
      every run with crashes and other workers. Its bucket is gone, or kept by policy.
      Its keys are gone if and only if, at the cleanup's user call, the bucket had no
      key but the one the cleanup had read from the Secret: none if that read failed
      or found no Secret. */
  lemma GoneMeansCleaned(names: set<Key>, steps: seq<Step>, step: Step, k: Key)
    requires OwnNames(names) && k in names && AllAbout(steps, names)
    requires Finalized(Run(NOTHING, steps).w, k) && k !in Next(Run(NOTHING, steps), step).w.resources
    ensures step.Work? && step.k == k && PcOf(Run(NOTHING, steps), k).RemoveFinalizer?
    ensures var w := Next(Run(NOTHING, steps), step).w; BucketName(k) !in w.buckets || k in w.retained
    ensures exists m: nat, n: nat, ak: nat :: CleanupSteps(steps, m, n, k, ak)
              && (KeysOf(Next(Run(NOTHING, steps), step).w, k) == {} <==> KeysOf(Run(NOTHING, steps[..n]).w, k) <= {ak})
  {
    hide BucketName, Run, Call, InPlace, EnvStep, OwnNames, About, Kept, KeysOf, ReadStep, AtUserCall, PastUserFrom;
    RunKeeps(NOTHING, steps, names);
    var s := Run(NOTHING, steps);
    ResourceGoes(s, step, k);
    RemovedClean(s.w, k, PcOf(s, k), step.a);
    CleanupHasBoth(steps, k, names);
    var m: nat, n: nat, ak: nat :| CleanupSteps(steps, m, n, k, ak)
      && KeysOf(s.w, k) == KeysOf(Run(NOTHING, steps[..n]).w, k) - {ak};
    assert KeysOf(Next(s, step).w, k) == KeysOf(s.w, k);
  }

  // ---------- a cleanup under interference

  lemma {:induction false} EnvAllKeepsKeys(w: World, es: seq<Env>)
    ensures EnvAll(w, es).keys == w.keys
    decreases |es|
  {
    if es != [] { EnvAllKeepsKeys(EnvStep(w, es[0]), es[1..]); }
  }

  lemma EnvKeepsFinalized(w: World, e: Env, k: Key)
    requires Finalized(w, k)
    ensures Finalized(EnvStep(w, e), k)
  {}

  lemma {:induction false} EnvAllKeepsFinalized(w: World, es: seq<Env>, k: Key)
    requires Finalized(w, k)
    ensures Finalized(EnvAll(w, es), k)
    decreases |es|
  {
    hide EnvStep;
    if es != [] {
      EnvKeepsFinalized(w, es[0], k);
      EnvAllKeepsFinalized(EnvStep(w, es[0]), es[1..], k);
    }
  }

  lemma {:induction false} RestOfCleanup(w: World, k: Key, pc: Pc, slots: seq<Slot>)
    requires PastUser(pc)
    ensures KeysOf(Pass(w, k, pc, slots), k) == KeysOf(w, k)
    decreases |slots|
  {
    hide BucketName;
    if slots != [] {
      EnvAllKeepsKeys(w, slots[0].before);
      var t := Call(EnvAll(w, slots[0].before), k, pc, slots[0].a);
      if !t.1.Idle? { RestOfCleanup(t.0, k, t.1, slots[1..]); }
    }
  }

  lemma FromUserCall(w: World, k: Key, r: Resource, ak: nat, slots: seq<Slot>)
    requires Finalized(w, k) && 0 !in w.keys && slots != []
    requires k !in Pass(w, k, DeleteUser(r, ak), slots).resources
    ensures KeysOf(Pass(w, k, DeleteUser(r, ak), slots), k) == {} <==> KeysOf(w, k) <= {ak}
  {
    hide BucketName, KeysOf, EnvStep, EnvAll;
    EnvAllKeepsKeys(w, slots[0].before);
    EnvAllKeepsFinalized(w, slots[0].before, k);
    var w1 := EnvAll(w, slots[0].before);
    var t := Call(w1, k, DeleteUser(r, ak), slots[0].a);
    assert !t.1.Idle?;
    UserCallExactly(w1, k, r, ak, slots[0].a);
    SameKeys(w, w1, k);
    RestOfCleanup(t.0, k, t.1, slots[1..]);
  }

  /** Whatever the others do before each call and whichever calls fail: a cleanup that
      ends with the resource gone leaves no key of the bucket if and only if the key it
      read was the only one; it reads none if the read fails or finds no Secret. */
  lemma CleanupRemovesKeysExactly(w: World, k: Key, r: Resource, slots: seq<Slot>)
    requires Finalized(w, k) && 0 !in w.keys && |slots| >= 2
    requires k !in Pass(w, k, ReadForCleanup(r), slots).resources
    ensures var ak := KeyRead(EnvAll(w, slots[0].before), k, slots[0].a);
            KeysOf(Pass(w, k, ReadForCleanup(r), slots), k) == {} <==> KeysOf(w, k) <= {ak}
  {
    hide BucketName, KeysOf, EnvStep, EnvAll;
    EnvAllKeepsKeys(w, slots[0].before);
    EnvAllKeepsFinalized(w, slots[0].before, k);
    var w1 := EnvAll(w, slots[0].before);
    SameKeys(w, w1, k);
    FromUserCall(w1, k, r, KeyRead(w1, k, slots[0].a), slots[1..]);
  }

  lemma SameKeys(w: World, v: World, k: Key)
    requires v.keys == w.keys
    ensures KeysOf(v, k) == KeysOf(w, k)
  {}

  lemma RunStep(s: State, steps: seq<Step>, t: State)
    requires steps != [] && Next(s, steps[0]) == t
    ensures Run(s, steps) == Run(t, steps[1..])
  {
    hide Next;
  }

  function Provide(k: Key): seq<Step> {
    [Other(Create(k, false)), Work(k, Ok), Work(k, Ok), Work(k, Ok), Work(k, Ok), Work(k, Ok), Work(k, Ok), Work(k, Ok)]
  }

  function Remove(k: Key, read: Answer): seq<Step> {
    [Other(Delete(k)), Work(k, Ok), Work(k, read), Work(k, Ok), Work(k, Ok), Work(k, Ok)]
  }

  /** A resource provided for, the first in the store. */
  function Provided(k: Key): World {
    World(map[k := Resource(false, true, false, 2)], map[k := 1], {BucketName(k)}, map[1 := BucketName(k)], 2, 2, {},
          map[1 := k])
  }

  lemma ProvideRuns(k: Key)
    ensures Run(NOTHING, Provide(k)) == State(Provided(k), map[k := Idle])
  {
    hide BucketName, Run;
    var steps, name := Provide(k), BucketName(k);
    var r1, r2 := Resource(false, false, false, 1), Resource(false, true, false, 2);
    var w1 := NOTHING.w.(resources := map[k := r1], clock := 1);
    var w2 := w1.(resources := map[k := r2], clock := 2);
    var w3 := w2.(buckets := {name});
    var w4 := w3.(keys := map[1 := name], nextKey := 2, owner := map[1 := k]);
    var w5 := w4.(secrets := map[k := 1]);
    RunStep(NOTHING, steps, State(w1, map[]));
    RunStep(State(w1, map[]), steps[1..], State(w1, map[k := AddFinalizer(r1)]));
    RunStep(State(w1, map[k := AddFinalizer(r1)]), steps[1..][1..], State(w2, map[k := EnsureBucket]));
    var rest := steps[1..][1..][1..];
    assert rest == [Work(k, Ok), Work(k, Ok), Work(k, Ok), Work(k, Ok), Work(k, Ok)];
    RunStep(State(w2, map[k := EnsureBucket]), rest, State(w3, map[k := ReadSecret]));
    RunStep(State(w3, map[k := ReadSecret]), rest[1..], State(w3, map[k := EnsureUser(0)]));
    RunStep(State(w3, map[k := EnsureUser(0)]), rest[1..][1..], State(w4, map[k := WriteSecret(1)]));
    RunStep(State(w4, map[k := WriteSecret(1)]), rest[1..][1..][1..], State(w5, map[k := Status]));
    RunStep(State(w5, map[k := Status]), rest[1..][1..][1..][1..], State(w5, map[k := Idle]));
    assert rest[1..][1..][1..][1..][1..] == [];
    RunNone(State(w5, map[k := Idle]));
  }

  lemma RunNone(s: State)
    ensures Run(s, []) == s
  {}

  lemma RemoveRuns(k: Key)
    ensures Run(State(Provided(k), map[k := Idle]), Remove(k, Fail)) ==
            State(Provided(k).(resources := map[], clock := 3, buckets := {}), map[k := Idle])
  {
    hide BucketName, Run;
    var steps, w := Remove(k, Fail), Provided(k);
    var r := Resource(true, true, false, 3);
    var w1 := w.(resources := map[k := r], clock := 3);
    RunStep(State(w, map[k := Idle]), steps, State(w1, map[k := Idle]));
    RunStep(State(w1, map[k := Idle]), steps[1..], State(w1, map[k := ReadForCleanup(r)]));
    assert steps[1..][1..] == [Work(k, Fail), Work(k, Ok), Work(k, Ok), Work(k, Ok)];
    RemoveReads(k, w1, r, steps[1..][1..]);
  }

  lemma RemoveReads(k: Key, w: World, r: Resource, rest: seq<Step>)
    requires rest == [Work(k, Fail), Work(k, Ok), Work(k, Ok), Work(k, Ok)] && w.resources == map[k := r] && !r.retain
    requires w.buckets == {BucketName(k)} && w.retained == {}
    ensures Run(State(w, map[k := ReadForCleanup(r)]), rest) ==
            State(w.(resources := map[], buckets := {}), map[k := Idle])
  {
    hide BucketName, Run;
    RunStep(State(w, map[k := ReadForCleanup(r)]), rest, State(w, map[k := DeleteUser(r, 0)]));
    RunStep(State(w, map[k := DeleteUser(r, 0)]), rest[1..], State(w, map[k := DeleteBucket(r)]));
    assert rest[1..][1..] == [Work(k, Ok), Work(k, Ok)];
    RemoveEnds(k, w, r, rest[1..][1..]);
  }

  lemma RemoveEnds(k: Key, w: World, r: Resource, rest: seq<Step>)
    requires rest == [Work(k, Ok), Work(k, Ok)] && w.resources == map[k := r] && !r.retain
    requires w.buckets == {BucketName(k)} && w.retained == {}
    ensures Run(State(w, map[k := DeleteBucket(r)]), rest) ==
            State(w.(resources := map[], buckets := {}), map[k := Idle])
  {
    hide BucketName, Run;
    var w2 := w.(buckets := {});
    var w3 := w2.(resources := map[]);
    RunStep(State(w, map[k := DeleteBucket(r)]), rest, State(w2, map[k := RemoveFinalizer(r)]));
    RunStep(State(w2, map[k := RemoveFinalizer(r)]), rest[1..], State(w3, map[k := Idle]));
    assert rest[1..][1..] == [];
    RunNone(State(w3, map[k := Idle]));
  }

  /** One failing read of the Secret is enough: from nothing, a resource is created and
      provided for, then deleted; the read of its Secret fails, every other call goes
      through, and resource and bucket are gone while its only key stays. */
  lemma FailedReadLeavesKey(k: Key)
    ensures var provided := Run(NOTHING, Provide(k));
            var w := Run(provided, Remove(k, Fail)).w;
            && provided.w.secrets == map[k := 1] && KeysOf(provided.w, k) == {1}
            && k !in w.resources && BucketName(k) !in w.buckets && KeysOf(w, k) == {1}
  {
    ProvideRuns(k);
    RemoveRuns(k);
    hide BucketName, Run;
    SameKeys(Provided(k), Provided(k).(resources := map[], clock := 3, buckets := {}), k);
    assert KeysOf(Provided(k), k) == {1};
  }

  /** A pass cut short between the user and the Secret is enough: the next one makes a
      second key, and the first is never deleted. */
  lemma InterruptedPassLeaksKey(w: World, k: Key)
    requires BucketName(k) in w.buckets && k !in w.secrets && 0 < w.nextKey
    requires forall ak :: ak in w.keys ==> ak < w.nextKey && w.keys[ak] != BucketName(k)
    ensures var cut := Call(w, k, EnsureUser(0), Ok).0;
            var second := Call(cut, k, EnsureUser(0), Ok);
            var done := Call(second.0, k, second.1, Ok).0;
            && done.secrets[k] == w.nextKey + 1
            && KeysOf(done, k) == {w.nextKey, w.nextKey + 1}
  {
    hide BucketName;
    var twice := Call(Call(w, k, EnsureUser(0), Ok).0, k, EnsureUser(0), Ok).0;
    var done := Call(twice, k, WriteSecret(w.nextKey + 1), Ok).0;
    assert done.keys == w.keys[w.nextKey := BucketName(k)][w.nextKey + 1 := BucketName(k)];
    forall ak ensures ak in KeysOf(done, k) <==> ak in {w.nextKey, w.nextKey + 1} {}
  }

  // ---------- names that collide

  /** A quiet cleanup: every call goes through, nobody else moves. */
  function CleanedUp(w: World, k: Key, r: Resource): World {
    Pass(w, k, ReadForCleanup(r), seq(4, _ => Slot([], Ok)))
  }

  lemma QuietCall(w: World, k: Key, pc: Pc, n: nat)
    requires n > 0
    ensures var slots: seq<Slot> := seq(n, _ => Slot([], Ok));
            var t := Call(w, k, pc, Ok);
            Pass(w, k, pc, slots) == if t.1.Idle? then t.0 else Pass(t.0, k, t.1, seq(n - 1, _ => Slot([], Ok)))
  {
    hide Call;
    var slots: seq<Slot> := seq(n, _ => Slot([], Ok));
    assert slots[1..] == seq(n - 1, _ => Slot([], Ok));
  }

  lemma NamesCollide()
    ensures Key("a-b", "c") != Key("a", "b-c")
    ensures BucketName(Key("a-b", "c")) == BucketName(Key("a", "b-c")) == "shpyrd-a-b-c"
  {
    assert BucketName(Key("a-b", "c")) == "shpyrd-a-b-c" == BucketName(Key("a", "b-c"));
  }

  /** Where names collide, as they do for c in a-b and b-c in a, removing one resource
      takes the other's bucket from under it. */
  lemma SharedNameLosesBucket(w: World, a: Key, b: Key, r: Resource)
    requires BucketName(a) == BucketName(b) && a != b && b in w.resources
    requires a in w.resources && w.resources[a] == r && !r.retain
    ensures var t := CleanedUp(w, a, r);
            b in t.resources && t.resources[b] == w.resources[b] && BucketName(b) !in t.buckets
  {
    hide Pass, BucketName;
    var ak := if a in w.secrets then w.secrets[a] else 0;
    QuietCall(w, a, ReadForCleanup(r), 4);
    QuietCall(w, a, DeleteUser(r, ak), 3);
    var w1 := if ak == 0 then w else w.(keys := w.keys - {ak});
    QuietCall(w1, a, DeleteBucket(r), 2);
    QuietCall(w1.(buckets := w1.buckets - {BucketName(a)}, retained := w1.retained - {a}), a, RemoveFinalizer(r), 1);
  }
}
