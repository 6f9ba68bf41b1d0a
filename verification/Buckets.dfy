/** ObjectBuckets against an external store: the finalizer protocol, one API call at
    a time (internal/controller/objectbucket_controller.go:103-224,
    pkg/objectstore/store.go:170-280, api/v1alpha1/objectbucket_types.go:95). */
module Buckets {

  datatype Key = Key(namespace: string, name: string)

  /** A resource: being deleted, with the finalizer, policy Retain; rv is its
      resource version. */
  datatype Resource = Resource(deleting: bool, finalizer: bool, retain: bool, rv: nat)

  /** resources, their credential Secrets (an access key each), the store's buckets,
      and its access keys with the bucket each opens. clock gives resource versions,
      nextKey access keys; 0 is no key. retained lists the resources that went under
      policy Retain and whose bucket was not deleted since, owner the resource each
      key was made for; no code reads these two. */
  datatype World = World(
    resources: map<Key, Resource>,
    secrets: map<Key, nat>,
    buckets: set<string>,
    keys: map<nat, string>,
    clock: nat,
    nextKey: nat,
    retained: set<Key>,
    owner: map<nat, Key>)

  /** The call a worker makes next, with the copy it loaded and the key it holds. */
  datatype Pc =
    | Idle
    | AddFinalizer(r: Resource)
    | EnsureBucket
    | ReadSecret
    | EnsureUser(ak: nat)
    | WriteSecret(ak: nat)
    | Status
    | ReadForCleanup(r: Resource)
    | DeleteUser(r: Resource, ak: nat)
    | DeleteBucket(r: Resource)
    | RemoveFinalizer(r: Resource)

  /** Half: the key was made, but the call failed after. */
  datatype Answer = Ok | Fail | Half

  function BucketName(k: Key): string { "shpyrd-" + k.namespace + "-" + k.name }

  predicate Finalized(w: World, k: Key) { k in w.resources && w.resources[k].finalizer }

  predicate Unchanged(w: World, k: Key, r: Resource) { k in w.resources && w.resources[k].rv == r.rv }

  function WithResource(w: World, k: Key, r: Resource): World {
    w.(resources := w.resources[k := r.(rv := w.clock + 1)], clock := w.clock + 1)
  }

  /** What the worker does with the resource it loads. */
  function AfterLoad(r: Resource): Pc {
    if r.deleting then (if r.finalizer then ReadForCleanup(r) else Idle)
    else if !r.finalizer then AddFinalizer(r)
    else EnsureBucket
  }

  /** The key the store gives a user: the one asked for, or a new one. */
  function UserKey(w: World, ak: nat): nat { if ak != 0 then ak else w.nextKey }

  function WithUser(w: World, k: Key, ak: nat): World {
    var w1 := w.(keys := w.keys[UserKey(w, ak) := BucketName(k)]);
    if ak != 0 then w1 else w1.(nextKey := w.nextKey + 1, owner := w.owner[w.nextKey := k])
  }

  /** One call of the worker of k. Any failure ends the pass. */
  function Call(w: World, k: Key, pc: Pc, a: Answer): (World, Pc) {
    match pc
    case Idle => (w, if a.Ok? && k in w.resources then AfterLoad(w.resources[k]) else Idle)
    case AddFinalizer(r) =>
      if a.Ok? && Unchanged(w, k, r) then (WithResource(w, k, w.resources[k].(finalizer := true)), EnsureBucket)
      else (w, Idle)
    case EnsureBucket =>
      // Half: the bucket was created, and the call failed after.
      (if a.Fail? then w else w.(buckets := w.buckets + {BucketName(k)}), if a.Ok? then ReadSecret else Idle)
    case ReadSecret =>
      // A read that fails counts as no Secret.
      (w, EnsureUser(if a.Ok? && k in w.secrets then w.secrets[k] else 0))
    case EnsureUser(ak) =>
      if a.Fail? || BucketName(k) !in w.buckets then (w, Idle)
      else (WithUser(w, k, ak), if a.Ok? then WriteSecret(UserKey(w, ak)) else Idle)
    case WriteSecret(ak) => if a.Ok? then (w.(secrets := w.secrets[k := ak]), Status) else (w, Idle)
    case Status => (w, Idle)
    case ReadForCleanup(r) => (w, DeleteUser(r, if a.Ok? && k in w.secrets then w.secrets[k] else 0))
    case DeleteUser(r, ak) =>
      // Without a key there is nothing to call.
      if ak == 0 then (w, if r.retain then RemoveFinalizer(r) else DeleteBucket(r))
      else if a.Ok? then (w.(keys := w.keys - {ak}), if r.retain then RemoveFinalizer(r) else DeleteBucket(r))
      else (w, Idle)
    case DeleteBucket(r) =>
      if a.Ok? then (w.(buckets := w.buckets - {BucketName(k)}, retained := w.retained - {k}), RemoveFinalizer(r))
      else (w, Idle)
    case RemoveFinalizer(r) =>
      if a.Ok? && Unchanged(w, k, r) then
        (w.(resources := w.resources - {k}, retained := if r.retain then w.retained + {k} else w.retained), Idle)
      else (w, Idle)
  }

  // ---------- everybody else

  datatype Env =
    | Create(k: Key, retain: bool)
    | Delete(k: Key)
    | Edit(k: Key, retain: bool)
    | SecretGone(k: Key)

  function EnvStep(w: World, e: Env): World {
    match e
    case Create(k, retain) => if k in w.resources then w else WithResource(w, k, Resource(false, false, retain, 0))
    case Delete(k) =>
      if k !in w.resources || w.resources[k].deleting then w
      else if w.resources[k].finalizer then WithResource(w, k, w.resources[k].(deleting := true))
      else w.(resources := w.resources - {k})
    case Edit(k, retain) => if k in w.resources then WithResource(w, k, w.resources[k].(retain := retain)) else w
    case SecretGone(k) => w.(secrets := w.secrets - {k})
  }

  datatype State = State(w: World, workers: map<Key, Pc>)

  datatype Step = Work(k: Key, a: Answer) | Other(e: Env) | Crash

  function PcOf(s: State, k: Key): Pc { if k in s.workers then s.workers[k] else Idle }

  function Next(s: State, step: Step): State {
    match step
    case Work(k, a) => var t := Call(s.w, k, PcOf(s, k), a); State(t.0, s.workers[k := t.1])
    case Other(e) => s.(w := EnvStep(s.w, e))
    case Crash => s.(workers := map[])
  }

  function Run(s: State, steps: seq<Step>): State
    decreases |steps|
  {
    if steps == [] then s else Run(Next(s, steps[0]), steps[1..])
  }

  const NOTHING := State(World(map[], map[], {}, map[], 0, 1, {}, map[]), map[])

  // ---------- a pass as the controller runs it

  /** What the others do before a call, and its answer. */
  datatype Slot = Slot(before: seq<Env>, a: Answer)

  function EnvAll(w: World, es: seq<Env>): World
    decreases |es|
  {
    if es == [] then w else EnvAll(EnvStep(w, es[0]), es[1..])
  }

  /** A pass from its current call until it ends or the slots run out. */
  function Pass(w: World, k: Key, pc: Pc, slots: seq<Slot>): World
    decreases |slots|
  {
    if slots == [] then w else
    var t := Call(EnvAll(w, slots[0].before), k, pc, slots[0].a);
    if t.1.Idle? then t.0 else Pass(t.0, k, t.1, slots[1..])
  }

  class ObjectBucketReconciler {
    var w: World

    method Meanwhile(es: seq<Env>)
      modifies this
      ensures w == EnvAll(old(w), es)
    {
      for i := 0 to |es|
        invariant EnvAll(w, es[i..]) == EnvAll(old(w), es)
      {
        w := EnvStep(w, es[i]);
      }
    }

    /** Finalizer first, then the bucket. */
    method Reconcile(k: Key, slots: seq<Slot>)
      requires |slots| >= 7
      modifies this
      ensures w == Pass(old(w), k, Idle, slots)
    {
      hide WithResource, WithUser;
      Meanwhile(slots[0].before);
      if !slots[0].a.Ok? || k !in w.resources {
        return;
      }
      var b := w.resources[k];
      var rest := slots[1..];
      if b.deleting {
        if b.finalizer {
          Cleanup(k, b, rest);
        }
        return;
      }
      if !b.finalizer {
        Meanwhile(rest[0].before);
        if !rest[0].a.Ok? || !Unchanged(w, k, b) {
          return;
        }
        w := WithResource(w, k, w.resources[k].(finalizer := true));
        rest := rest[1..];
      }
      Provide(k, rest);
    }

    /** reconcile: bucket, user, Secret, status. */
    method Provide(k: Key, slots: seq<Slot>)
      requires |slots| >= 5
      modifies this
      ensures w == Pass(old(w), k, EnsureBucket, slots)
    {
      hide WithUser;
      var rest := slots[1..];
      Meanwhile(slots[0].before);
      if !slots[0].a.Fail? {
        w := w.(buckets := w.buckets + {BucketName(k)});
      }
      if !slots[0].a.Ok? {
        return;
      }
      Meanwhile(rest[0].before);
      var ak := 0;
      if rest[0].a.Ok? && k in w.secrets {
        ak := w.secrets[k];
      }
      assert Pass(old(w), k, EnsureBucket, slots) == Pass(w, k, EnsureUser(ak), rest[1..]);
      Credential(k, ak, rest[1..]);
    }

    method Credential(k: Key, ak: nat, slots: seq<Slot>)
      requires |slots| >= 3
      modifies this
      ensures w == Pass(old(w), k, EnsureUser(ak), slots)
    {
      var rest := slots[1..];
      Meanwhile(slots[0].before);
      if slots[0].a.Fail? || BucketName(k) !in w.buckets {
        return;
      }
      var cred := UserKey(w, ak);
      w := WithUser(w, k, ak);
      if !slots[0].a.Ok? {
        return;
      }
      assert Pass(old(w), k, EnsureUser(ak), slots) == Pass(w, k, WriteSecret(cred), rest);
      Meanwhile(rest[0].before);
      if !rest[0].a.Ok? {
        return;
      }
      w := w.(secrets := w.secrets[k := cred]);
      rest := rest[1..];
      assert Pass(old(w), k, EnsureUser(ak), slots) == Pass(w, k, Status, rest);
      Meanwhile(rest[0].before);
    }

    /** cleanup, the user part; then the rest. */
    method Cleanup(k: Key, b: Resource, slots: seq<Slot>)
      requires |slots| >= 4
      modifies this
      ensures w == Pass(old(w), k, ReadForCleanup(b), slots)
    {
      var rest := slots[1..];
      Meanwhile(slots[0].before);
      var ak := 0;
      if slots[0].a.Ok? && k in w.secrets {
        ak := w.secrets[k];
      }
      assert Pass(old(w), k, ReadForCleanup(b), slots) == Pass(w, k, DeleteUser(b, ak), rest);
      ghost var w1 := w;
      Meanwhile(rest[0].before);
      if ak != 0 {
        if !rest[0].a.Ok? {
          return;
        }
        w := w.(keys := w.keys - {ak});
      }
      assert Pass(w1, k, DeleteUser(b, ak), rest)
          == Pass(w, k, if b.retain then RemoveFinalizer(b) else DeleteBucket(b), rest[1..]);
      CleanupBucket(k, b, rest[1..]);
    }

    /** The bucket unless it is kept, then the finalizer. */
    method CleanupBucket(k: Key, b: Resource, slots: seq<Slot>)
      requires |slots| >= 2
      modifies this
      ensures w == Pass(old(w), k, if b.retain then RemoveFinalizer(b) else DeleteBucket(b), slots)
    {
      var rest := slots;
      if !b.retain {
        Meanwhile(rest[0].before);
        if !rest[0].a.Ok? {
          return;
        }
        w := w.(buckets := w.buckets - {BucketName(k)}, retained := w.retained - {k});
        rest := rest[1..];
        assert Pass(old(w), k, DeleteBucket(b), slots) == Pass(w, k, RemoveFinalizer(b), rest);
      }
      Meanwhile(rest[0].before);
      if rest[0].a.Ok? && Unchanged(w, k, b) {
        w := w.(resources := w.resources - {k}, retained := if b.retain then w.retained + {k} else w.retained);
      }
    }
  }

  // ---------- names

  lemma SameName(a: Key, b: Key)
    requires BucketName(a) == BucketName(b)
    ensures a.namespace + "-" + a.name == b.namespace + "-" + b.name
  {
    var p, q := a.namespace + "-" + a.name, b.namespace + "-" + b.name;
    assert BucketName(a) == "shpyrd-" + p && BucketName(b) == "shpyrd-" + q;
    assert BucketName(a)[7..] == p && BucketName(b)[7..] == q;
  }

  lemma SameNameSplits(a: Key, b: Key)
    requires |a.namespace| <= |b.namespace| && BucketName(a) == BucketName(b)
    ensures a == b || exists t :: b.namespace == a.namespace + "-" + t && a.name == t + "-" + b.name
  {
    SameName(a, b);
    hide BucketName;
    var p, q := a.namespace + "-" + a.name, b.namespace + "-" + b.name;
    if |a.namespace| == |b.namespace| {
      assert a.namespace == p[..|a.namespace|] && b.namespace == q[..|a.namespace|];
      assert a.name == p[|a.namespace| + 1..] && b.name == q[|a.namespace| + 1..];
    } else {
      var t := b.namespace[|a.namespace| + 1..];
      assert b.namespace == q[..|b.namespace|] == p[..|b.namespace|];
      assert p[|a.namespace|] == '-';
      assert b.namespace == a.namespace + "-" + t;
      assert a.name == p[|a.namespace| + 1..] == q[|a.namespace| + 1..] == t + "-" + b.name;
    }
  }

  /** Two resources share a bucket name exactly when one's namespace is the other's
      followed by a dash and the front of the other's name. */
  lemma SameBucketExactly(a: Key, b: Key)
    requires |a.namespace| <= |b.namespace|
    ensures BucketName(a) == BucketName(b) <==>
            a == b || exists t :: b.namespace == a.namespace + "-" + t && a.name == t + "-" + b.name
  {
    if BucketName(a) == BucketName(b) { SameNameSplits(a, b); }
    if t :| b.namespace == a.namespace + "-" + t && a.name == t + "-" + b.name { SplitsJoin(a, b, t); }
  }

  lemma SplitsJoin(a: Key, b: Key, t: string)
    requires b.namespace == a.namespace + "-" + t && a.name == t + "-" + b.name
    ensures BucketName(a) == BucketName(b)
  {
    assert BucketName(a) == "shpyrd-" + a.namespace + "-" + t + "-" + b.name == BucketName(b);
  }

  // ---------- the finalizer holds

  /** All resources that ever come up have bucket names of their own. */
  ghost predicate OwnNames(names: set<Key>) {
    forall a, b :: a in names && b in names && BucketName(a) == BucketName(b) ==> a == b
  }

  predicate About(step: Step, names: set<Key>) {
    match step
    case Work(k, _) => k in names
    case Other(e) => e.k in names
    case Crash => true
  }

  /** The bucket of k may be there. */
  predicate Kept(w: World, k: Key) { Finalized(w, k) || k in w.retained }

  predicate Loaded(w: World, k: Key, r: Resource) {
    r.rv <= w.clock && (Unchanged(w, k, r) ==> w.resources[k].retain == r.retain)
  }

  /** A worker past the finalizer still has it; one at the end of a cleanup removed the
      bucket or is to keep it. */
  predicate InPlace(w: World, k: Key, pc: Pc) {
    match pc
    case Idle => true
    case AddFinalizer(r) => Loaded(w, k, r)
    case ReadForCleanup(r) => Finalized(w, k) && Loaded(w, k, r)
    case DeleteUser(r, _) => Finalized(w, k) && Loaded(w, k, r)
    case DeleteBucket(r) => Finalized(w, k) && Loaded(w, k, r)
    case RemoveFinalizer(r) => Finalized(w, k) && Loaded(w, k, r) && (BucketName(k) !in w.buckets || r.retain)
    case _ => Finalized(w, k)
  }

  ghost predicate Inv(s: State, names: set<Key>) {
    && (forall k :: k in names && BucketName(k) in s.w.buckets ==> Kept(s.w, k))
    && (forall k :: k in s.workers ==> k in names && InPlace(s.w, k, s.workers[k]))
    && (forall k :: k in s.w.resources ==> s.w.resources[k].rv <= s.w.clock)
  }

  /** A call of k's worker leaves the others where they were. */
  lemma CallElsewhere(w: World, k: Key, pc: Pc, a: Answer, other: Key)
    requires other != k && BucketName(other) != BucketName(k)
    ensures var t := Call(w, k, pc, a).0;
            && (other in t.resources <==> other in w.resources)
            && (other in w.resources ==> t.resources[other] == w.resources[other])
            && (other in t.retained <==> other in w.retained)
            && (BucketName(other) in t.buckets <==> BucketName(other) in w.buckets)
            && t.clock >= w.clock
  {
    hide BucketName;
  }

  lemma CallApart(w: World, k: Key, pc: Pc, a: Answer, names: set<Key>, other: Key, pc2: Pc)
    requires OwnNames(names) && k in names && other in names && other != k && InPlace(w, other, pc2)
    ensures InPlace(Call(w, k, pc, a).0, other, pc2)
    ensures BucketName(other) in Call(w, k, pc, a).0.buckets <==> BucketName(other) in w.buckets
    ensures Kept(w, other) ==> Kept(Call(w, k, pc, a).0, other)
  {
    assert BucketName(other) != BucketName(k);
    CallElsewhere(w, k, pc, a, other);
    hide BucketName, Call;
  }

  lemma CallInPlace(w: World, k: Key, pc: Pc, a: Answer)
    requires InPlace(w, k, pc) && (BucketName(k) in w.buckets ==> Kept(w, k))
    requires k in w.resources ==> w.resources[k].rv <= w.clock
    ensures var t := Call(w, k, pc, a);
            InPlace(t.0, k, t.1) && (BucketName(k) in t.0.buckets ==> Kept(t.0, k))
  {
    hide BucketName;
  }

  lemma CallVersions(w: World, k: Key, pc: Pc, a: Answer)
    requires forall j :: j in w.resources ==> w.resources[j].rv <= w.clock
    ensures var t := Call(w, k, pc, a).0; forall j :: j in t.resources ==> t.resources[j].rv <= t.clock
  {
    hide BucketName;
  }

  lemma WorkKeeps(s: State, k: Key, a: Answer, names: set<Key>)
    requires Inv(s, names) && OwnNames(names) && k in names
    ensures Inv(Next(s, Work(k, a)), names)
  {
    hide BucketName, OwnNames, InPlace, Kept, Call;
    var pc := PcOf(s, k);
    assert InPlace(s.w, k, pc) by { IdleInPlace(s.w, k); }
    CallInPlace(s.w, k, pc, a);
    CallVersions(s.w, k, pc, a);
    forall j | j in names && j != k
      ensures j in s.workers ==> InPlace(Call(s.w, k, pc, a).0, j, s.workers[j])
      ensures BucketName(j) in Call(s.w, k, pc, a).0.buckets ==> Kept(Call(s.w, k, pc, a).0, j)
    {
      IdleInPlace(s.w, j);
      CallApart(s.w, k, pc, a, names, j, PcOf(s, j));
    }
  }

  lemma IdleInPlace(w: World, k: Key)
    ensures InPlace(w, k, Idle)
  {}

  lemma EnvInPlace(w: World, e: Env, k: Key, pc: Pc)
    requires InPlace(w, k, pc) && (k in w.resources ==> w.resources[k].rv <= w.clock)
    ensures InPlace(EnvStep(w, e), k, pc)
    ensures Kept(w, k) ==> Kept(EnvStep(w, e), k)
    ensures k in EnvStep(w, e).resources ==> EnvStep(w, e).resources[k].rv <= EnvStep(w, e).clock
  {
    hide BucketName;
  }

  lemma EnvKeeps(s: State, e: Env, names: set<Key>)
    requires Inv(s, names)
    ensures Inv(Next(s, Other(e)), names)
  {
    hide BucketName, InPlace, Kept;
    assert EnvStep(s.w, e).buckets == s.w.buckets;
    forall k
      ensures k in s.workers ==> InPlace(EnvStep(s.w, e), k, s.workers[k])
      ensures Kept(s.w, k) ==> Kept(EnvStep(s.w, e), k)
      ensures k in EnvStep(s.w, e).resources ==> EnvStep(s.w, e).resources[k].rv <= EnvStep(s.w, e).clock
    {
      IdleInPlace(s.w, k);
      EnvInPlace(s.w, e, k, PcOf(s, k));
    }
  }

  lemma {:induction false} RunKeeps(s: State, steps: seq<Step>, names: set<Key>)
    requires Inv(s, names) && OwnNames(names) && forall i :: 0 <= i < |steps| ==> About(steps[i], names)
    ensures Inv(Run(s, steps), names)
    decreases |steps|
  {
    hide OwnNames, EnvStep, Call;
    if steps != [] {
      assert About(steps[0], names);
      match steps[0] {
        case Work(k, a) => WorkKeeps(s, k, a, names);
        case Other(e) => EnvKeeps(s, e, names);
        case Crash =>
      }
      hide Inv, Next;
      RunKeeps(Next(s, steps[0]), steps[1..], names);
    }
  }

  /** Over every run, with crashes between any two calls: the bucket of a resource is in
      the store only while the resource exists with its finalizer, or after it went
      under policy Retain and until a later cleanup deletes the bucket. */
  lemma BucketNeedsResource(names: set<Key>, steps: seq<Step>, k: Key)
    requires OwnNames(names) && k in names && forall i :: 0 <= i < |steps| ==> About(steps[i], names)
    ensures var w := Run(NOTHING, steps).w;
            BucketName(k) in w.buckets ==> (k in w.resources && w.resources[k].finalizer) || k in w.retained
  {
    RunKeeps(NOTHING, steps, names);
  }
}
