/** Which process maps are accepted and what is rendered for a process, said of its mounts
    and Volumes themselves (internal/controller/mounts.go:32-129,
    internal/controller/desired.go:369-378, 427-445). */
module MountOutcomes {
  import opened Basics
  import opened RestoreProtocol
  import opened Mounts

  // ---------- cleaned paths

  lemma {:induction false} SplitAppends(p: string, d: string)
    requires '/' !in d
    ensures Split(p + "/" + d) == Split(p) + [d]
  {
    if p == "" {
      assert p + "/" + d == "/" + d && ("/" + d)[1..] == d;
      SplitName(d, "");
      assert d + "" == d;
    } else {
      assert p + "/" + d == [p[0]] + (p[1..] + "/" + d);
      SplitAppends(p[1..], d);
    }
  }

  lemma {:induction false} WalkInTwo(a: seq<string>, b: seq<string>, at: seq<string>)
    ensures Walk(a + b, at) == Walk(b, Walk(a, at))
    decreases |a|
  {
    if a == [] {
      assert a + b == b;
    } else {
      assert (a + b)[1..] == a[1..] + b;
      WalkInTwo(a[1..], b,
                if a[0] == "" || a[0] == "." then at
                else if a[0] == ".." then (if at == [] then [] else at[..|at| - 1])
                else at + [a[0]]);
    }
  }

  /** Cleaning goes name by name: an empty name and a dot stay where they are, two dots go
      up, but not above the root, and any other name goes down. */
  lemma CleanAppends(p: string, d: string)
    requires '/' !in d
    ensures Clean("") == []
    ensures Clean(p + "/" + d) ==
              if d == "" || d == "." then Clean(p)
              else if d == ".." then (if Clean(p) == [] then [] else Clean(p)[..|Clean(p)| - 1])
              else Clean(p) + [d]
  {
    SplitAppends(p, d);
    WalkInTwo(Split(p), [d], []);
  }

  // ---------- what is accepted

  /** A mount to a Volume that is there, at an absolute path below the root. */
  predicate Fine(m: VolumeMount, lookup: string -> Lookup) {
    m.path != "" && m.path[0] == '/' && Clean(m.path) != [] && lookup(m.name).Found?
  }

  /** A process on its own is accepted if and only if all its mounts are fine, no two at one
      place, and beside a single-instance Volume it asks for one instance at most. */
  lemma ProcessAcceptedExactly(p: Process, lookup: string -> Lookup)
    ensures ProcessOk(p, lookup) <==>
            && (forall k :: 0 <= k < |p.volumes| ==>
                  && Fine(p.volumes[k], lookup)
                  && (!lookup(p.volumes[k].name).vol.shared ==> p.replicas == None || p.replicas.value <= 1))
            && (forall k, l :: 0 <= k < l < |p.volumes| ==> Clean(p.volumes[k].path) != Clean(p.volumes[l].path))
  {
    hide Clean;
    if ProcessOk(p, lookup) {
      forall k | 0 <= k < |p.volumes|
        ensures Fine(p.volumes[k], lookup)
        ensures !lookup(p.volumes[k].name).vol.shared ==> p.replicas == None || p.replicas.value <= 1
      {
        assert p.volumes[k] in p.volumes && GoodPath(p.volumes[k]);
        if Single(p.volumes[k], lookup) { assert p.volumes[k].name in SinglesOf(p, lookup); }
      }
    }
    if forall k :: 0 <= k < |p.volumes| ==>
         Fine(p.volumes[k], lookup)
         && (!lookup(p.volumes[k].name).vol.shared ==> p.replicas == None || p.replicas.value <= 1)
    {
      forall m | m in p.volumes ensures GoodPath(m) && lookup(m.name).Found? {
        var k :| 0 <= k < |p.volumes| && p.volumes[k] == m;
      }
      if SinglesOf(p, lookup) != {} {
        var v :| v in SinglesOf(p, lookup);
        var m :| m in p.volumes && Single(m, lookup) && m.name == v;
        var k :| 0 <= k < |p.volumes| && p.volumes[k] == m;
      }
    }
  }

  lemma SingleOf(p: Process, k: nat, lookup: string -> Lookup)
    requires k < |p.volumes|
    ensures lookup(p.volumes[k].name).Found? && !lookup(p.volumes[k].name).vol.shared ==>
              p.volumes[k].name in SinglesOf(p, lookup)
  {
    assert p.volumes[k] in p.volumes;
  }

  /** Processes whose Volumes are there keep single-instance Volumes apart if and only if no
      two of them mount one. */
  lemma ExclusiveExactly(ps: seq<Process>, lookup: string -> Lookup)
    ensures Exclusive(ps, lookup) <==>
            forall i, j, k, l :: 0 <= i < j < |ps| && 0 <= k < |ps[i].volumes| && 0 <= l < |ps[j].volumes|
                                 && ps[i].volumes[k].name == ps[j].volumes[l].name
                                 && lookup(ps[i].volumes[k].name).Found? ==>
              lookup(ps[i].volumes[k].name).vol.shared
  {
    if Exclusive(ps, lookup) {
      forall i, j, k, l | 0 <= i < j < |ps| && 0 <= k < |ps[i].volumes| && 0 <= l < |ps[j].volumes|
                          && ps[i].volumes[k].name == ps[j].volumes[l].name
                          && lookup(ps[i].volumes[k].name).Found?
        ensures lookup(ps[i].volumes[k].name).vol.shared
      {
        SingleOf(ps[i], k, lookup);
        SingleOf(ps[j], l, lookup);
      }
    } else {
      var i, j :| 0 <= i < j < |ps| && !(SinglesOf(ps[i], lookup) !! SinglesOf(ps[j], lookup));
      var v :| v in SinglesOf(ps[i], lookup) && v in SinglesOf(ps[j], lookup);
      var m :| m in ps[i].volumes && Single(m, lookup) && m.name == v;
      var n :| n in ps[j].volumes && Single(n, lookup) && n.name == v;
      var k :| 0 <= k < |ps[i].volumes| && ps[i].volumes[k] == m;
      var l :| 0 <= l < |ps[j].volumes| && ps[j].volumes[l] == n;
    }
  }

  // ---------- what is rendered

  /** At place k the Deployment has the pod volume, the claim and the cleaned path of m. */
  predicate Shows(d: Rendered, k: nat, m: VolumeMount, lookup: string -> Lookup)
    requires k < |d.volumes| == |d.claims| == |d.paths|
  {
    && lookup(m.name).Found?
    && d.volumes[k] == "vol-" + m.name
    && d.claims[k] == "vol-" + lookup(m.name).vol.name
    && d.paths[k] == Clean(m.path)
  }

  /** Some mount of the process is what the Deployment shows at place k. */
  predicate Taken(d: Rendered, k: nat, p: Process, lookup: string -> Lookup)
    requires k < |d.volumes| == |d.claims| == |d.paths|
  {
    exists m :: m in p.volumes && Shows(d, k, m, lookup)
  }

  /** The mount is shown somewhere. */
  predicate Shown(d: Rendered, m: VolumeMount, lookup: string -> Lookup)
    requires |d.volumes| == |d.claims| == |d.paths|
  {
    exists k: nat :: k < |d.paths| && Shows(d, k, m, lookup)
  }

  lemma IsShown(d: Rendered, k: nat, m: VolumeMount, lookup: string -> Lookup)
    requires k < |d.volumes| == |d.claims| == |d.paths| && Shows(d, k, m, lookup)
    ensures Shown(d, m, lookup)
  {}

  lemma IsTaken(d: Rendered, k: nat, p: Process, i: nat, lookup: string -> Lookup)
    requires k < |d.volumes| == |d.claims| == |d.paths| && i < |p.volumes| && Shows(d, k, p.volumes[i], lookup)
    ensures Taken(d, k, p, lookup)
  {
    assert p.volumes[i] in p.volumes;
  }

  lemma RendersSorted(p: Process, lookup: string -> Lookup, sort: ResolvedSort)
    requires Known(p, lookup)
    ensures var d, ms := Render(p, MountsOf(p, lookup), sort), MountsOf(p, lookup);
            var out := sort(ms);
            && |d.volumes| == |d.claims| == |d.paths| == |p.volumes| == |out| == |ms|
            && (forall i :: 0 <= i < |ms| ==> ms[i] in out) && (forall k :: 0 <= k < |out| ==> out[k] in ms)
            && forall k, l :: 0 <= k < l < |out| ==> LexLe(out[k].name, out[l].name)
  {
    hide Clean;
    var ms := MountsOf(p, lookup);
    var out := sort(ms);
    assert |out| == |multiset(out)| == |multiset(ms)| == |ms|;
    forall r ensures r in out <==> r in ms { SortKeepsElements(ms, sort, ResolvedName, r); }
    assert SortedBy(out, ByNameOf(ResolvedName));
    forall k, l | 0 <= k < l < |out| ensures LexLe(out[k].name, out[l].name) {
      NamesInOrder(out, ResolvedName, k, l);
      assert ResolvedName(out[k]) == out[k].name && ResolvedName(out[l]) == out[l].name;
    }
  }

  lemma ShowsResolved(p: Process, lookup: string -> Lookup, sort: ResolvedSort, i: nat, k: nat)
    requires Known(p, lookup)
    requires var d, ms := Render(p, MountsOf(p, lookup), sort), MountsOf(p, lookup);
             |d.volumes| == |d.claims| == |d.paths| == |sort(ms)| && i < |ms| && k < |sort(ms)| && sort(ms)[k] == ms[i]
    ensures Shows(Render(p, MountsOf(p, lookup), sort), k, p.volumes[i], lookup)
  {
    hide Clean;
    assert p.volumes[i] in p.volumes;
  }

  /** Every mount of an accepted process is rendered, and nothing else, each under its own
      path, in the order of the Volumes' names. */
  lemma RendersMounts(p: Process, lookup: string -> Lookup, sort: ResolvedSort)
    requires ProcessOk(p, lookup)
    ensures var d := DeploymentOf(p, lookup, sort);
            && |d.volumes| == |d.claims| == |d.paths| == |p.volumes|
            && (forall m :: m in p.volumes ==> Shown(d, m, lookup))
            && (forall k :: 0 <= k < |d.paths| ==> Taken(d, k, p, lookup))
            && (forall k, l :: 0 <= k < l < |d.volumes| ==> LexLe(d.volumes[k], d.volumes[l]))
  {
    KnownFromOk(p, lookup);
    RendersSorted(p, lookup, sort);
    hide Clean, ProcessOk, Shows, Known, SortsByName, LexLe, ByNameOf, AnySingle, AnyRestoring, Shown, Taken;
    var d, ms := DeploymentOf(p, lookup, sort), MountsOf(p, lookup);
    var out := sort(ms);
    forall m | m in p.volumes ensures Shown(d, m, lookup) {
      var i: nat :| i < |p.volumes| && p.volumes[i] == m;
      var k: nat :| k < |out| && out[k] == ms[i];
      ShowsResolved(p, lookup, sort, i, k);
      IsShown(d, k, m, lookup);
    }
    forall k: nat | k < |d.paths| ensures Taken(d, k, p, lookup) {
      var i: nat :| i < |ms| && ms[i] == out[k];
      ShowsResolved(p, lookup, sort, i, k);
      IsTaken(d, k, p, i, lookup);
    }
    forall k, l | 0 <= k < l < |d.volumes| ensures LexLe(d.volumes[k], d.volumes[l]) {
      PrefixedInOrder("vol-", out[k].name, out[l].name);
    }
  }

  lemma {:induction false} PrefixedInOrder(p: string, a: string, b: string)
    requires LexLe(a, b)
    ensures LexLe(p + a, p + b)
  {
    if p == "" {
      assert p + a == a && p + b == b;
    } else {
      PrefixedInOrder(p[1..], a, b);
      assert (p + a)[1..] == p[1..] + a && (p + b)[1..] == p[1..] + b;
    }
  }

  /** How many instances an accepted process gets, and how it rolls out: none while a Volume
      of its is being restored or asked to be, else one beside a Volume of one instance,
      else what it asks for, one if it does not say. */
  lemma RendersInstances(p: Process, lookup: string -> Lookup, sort: ResolvedSort)
    requires ProcessOk(p, lookup)
    ensures var d := DeploymentOf(p, lookup, sort);
            var restoring := exists m :: m in p.volumes
                                         && (lookup(m.name).vol.phase == Restoring || lookup(m.name).vol.from != "");
            var single := exists m :: m in p.volumes && !lookup(m.name).vol.shared;
            && d.replicas == (if restoring then 0 else if single then 1
                              else if p.replicas == None then 1 else p.replicas.value)
            && d.strategy == if single then Recreate else RollingUpdate(Some((1, 0)))
  {
    hide Clean, PathsDiffer, GoodPath, ProcessOk;
    KnownFromOk(p, lookup);
    var ms := MountsOf(p, lookup);
    forall m | m in p.volumes
      ensures Halts(lookup(m.name).vol) ==> AnyRestoring(ms)
      ensures !lookup(m.name).vol.shared ==> AnySingle(ms)
    {
      var i :| 0 <= i < |p.volumes| && p.volumes[i] == m;
      assert ms[i] in ms;
    }
    if r :| r in ms && r.restoring {
      var i :| 0 <= i < |ms| && ms[i] == r;
      assert p.volumes[i] in p.volumes;
    }
    if r :| r in ms && !r.shared {
      var i :| 0 <= i < |ms| && ms[i] == r;
      assert p.volumes[i] in p.volumes;
    }
  }
}
