/** Volumes in process Deployments: which process maps are accepted, and what is
    rendered for them (internal/controller/mounts.go:32-129,
    internal/controller/desired.go:369-378, 427-445). */
module Mounts {
  import opened Basics
  import opened RestoreProtocol

  datatype VolumeMount = VolumeMount(name: string, path: string)

  datatype Process = Process(name: string, replicas: Option<int>, volumes: seq<VolumeMount>)

  /** A mount with its claim. */
  datatype Resolved = Resolved(name: string, path: seq<string>, claim: string, shared: bool, restoring: bool)

  /** What reading a Volume by its name gives. */
  datatype Lookup = Found(vol: Volume) | NotFound | Unreadable

  datatype Problem =
    | BadPath(p: Process, m: VolumeMount)
    | TwoAtOnePath(p: Process, path: seq<string>)
    | NoVolume(p: Process, m: VolumeMount)
    | NotRead(p: Process, m: VolumeMount)
    | TwoProcesses(other: string, p: Process, m: VolumeMount)
    | TooManyInstances(p: Process, m: VolumeMount)

  datatype Result<T> = Ok(value: T) | Err(problem: Problem)

  function Replicas(p: Process): int { if p.replicas.Some? then p.replicas.value else 1 }

  // ---------- paths

  function Split(p: string): (dirs: seq<string>)
    ensures dirs != []
  {
    if p == "" then [""] else
    var rest := Split(p[1..]);
    if p[0] == '/' then [""] + rest else [[p[0]] + rest[0]] + rest[1..]
  }

  function Walk(dirs: seq<string>, at: seq<string>): seq<string> {
    if dirs == [] then at else
    Walk(dirs[1..],
         if dirs[0] == "" || dirs[0] == "." then at
         else if dirs[0] == ".." then (if at == [] then [] else at[..|at| - 1])
         else at + [dirs[0]])
  }

  /** path.Clean of a rooted path, as the directories from the root. */
  function Clean(p: string): seq<string> { Walk(Split(p), []) }

  function Rooted(dirs: seq<string>): string {
    if dirs == [] then "" else "/" + dirs[0] + Rooted(dirs[1..])
  }

  predicate Plain(dir: string) { dir != "" && dir != "." && dir != ".." && '/' !in dir }

  lemma {:induction false} WalkStaysPlain(dirs: seq<string>, at: seq<string>)
    requires (forall d :: d in dirs ==> '/' !in d) && (forall d :: d in at ==> Plain(d))
    ensures forall d :: d in Walk(dirs, at) ==> Plain(d)
    decreases |dirs|
  {
    if dirs != [] {
      assert dirs[0] in dirs;
      WalkStaysPlain(dirs[1..],
                     if dirs[0] == "" || dirs[0] == "." then at
                     else if dirs[0] == ".." then (if at == [] then [] else at[..|at| - 1])
                     else at + [dirs[0]]);
    }
  }

  lemma {:induction false} SplitHasNoSlash(p: string)
    ensures forall d :: d in Split(p) ==> '/' !in d
  {
    if p != "" {
      SplitHasNoSlash(p[1..]);
      assert Split(p[1..])[0] in Split(p[1..]);
    }
  }

  lemma {:induction false} SplitName(d: string, rest: string)
    requires '/' !in d
    ensures rest == "" || rest[0] == '/' ==> Split(d + rest) == [d] + (if rest == "" then [] else Split(rest[1..]))
  {
    if d == "" {
      assert d + rest == rest;
    } else {
      assert (d + rest)[1..] == d[1..] + rest && (d + rest)[0] == d[0];
      SplitName(d[1..], rest);
      if rest == "" || rest[0] == '/' { assert [d[0]] + d[1..] == d; }
    }
  }

  lemma {:induction false} SplitNames(dirs: seq<string>)
    requires dirs != [] && forall d :: d in dirs ==> Plain(d)
    ensures Split(dirs[0] + Rooted(dirs[1..])) == dirs
  {
    hide Split;
    assert Plain(dirs[0]);
    var more := Rooted(dirs[1..]);
    SplitName(dirs[0], more);
    if |dirs| == 1 {
      assert dirs == [dirs[0]];
    } else {
      assert more[1..] == dirs[1..][0] + Rooted(dirs[1..][1..]);
      SplitNames(dirs[1..]);
      assert dirs == [dirs[0]] + dirs[1..];
    }
  }

  lemma SplitRooted(dirs: seq<string>)
    requires dirs != [] && forall d :: d in dirs ==> Plain(d)
    ensures Split(Rooted(dirs)) == [""] + dirs
  {
    var rest := dirs[0] + Rooted(dirs[1..]);
    SplitNames(dirs);
    SplitRoot(rest);
    hide Split, Plain;
    assert Rooted(dirs) == "/" + rest;
  }

  lemma SplitRoot(rest: string)
    ensures Split("/" + rest) == [""] + Split(rest)
  {
    assert ("/" + rest)[1..] == rest;
  }

  lemma {:induction false} WalkPlain(dirs: seq<string>, at: seq<string>)
    requires forall d :: d in dirs ==> Plain(d)
    ensures Walk(dirs, at) == at + dirs
    decreases |dirs|
  {
    if dirs != [] {
      assert dirs[0] in dirs;
      WalkPlain(dirs[1..], at + [dirs[0]]);
      assert at + [dirs[0]] + dirs[1..] == at + dirs;
    }
  }

  /** A cleaned path is plain directories only, and cleaning it again changes nothing:
      two mounts of a process clash exactly when their paths name one place. */
  lemma CleanIsCanonical(p: string)
    ensures forall d :: d in Clean(p) ==> Plain(d)
    ensures Clean(Rooted(Clean(p))) == Clean(p)
  {
    hide Split, Walk;
    SplitHasNoSlash(p);
    WalkStaysPlain(Split(p), []);
    var dirs := Clean(p);
    if dirs == [] {
      EmptyPath();
    } else {
      SplitRooted(dirs);
      WalkRoot(dirs);
      WalkPlain(dirs, []);
    }
  }

  lemma EmptyPath()
    ensures Clean("") == [] && Rooted([]) == ""
  {}

  lemma WalkRoot(dirs: seq<string>)
    ensures Walk([""] + dirs, []) == Walk(dirs, [])
  {
    assert ([""] + dirs)[1..] == dirs;
  }

  predicate IsAbs(p: string) { p != "" && p[0] == '/' }

  // ---------- what is accepted

  predicate GoodPath(m: VolumeMount) { IsAbs(m.path) && Clean(m.path) != [] }

  predicate Single(m: VolumeMount, lookup: string -> Lookup) {
    lookup(m.name).Found? && !lookup(m.name).vol.shared
  }

  predicate Uses(p: Process, volume: string) { exists m :: m in p.volumes && m.name == volume }

  /** The single-instance Volumes a process mounts. */
  function SinglesOf(p: Process, lookup: string -> Lookup): set<string> {
    set m | m in p.volumes && Single(m, lookup) :: m.name
  }

  predicate PathsDiffer(ms: seq<VolumeMount>) {
    forall i, j :: 0 <= i < j < |ms| ==> Clean(ms[i].path) != Clean(ms[j].path)
  }

  predicate Known(p: Process, lookup: string -> Lookup) { forall m :: m in p.volumes ==> lookup(m.name).Found? }

  /** The process on its own: good paths, each used once, to Volumes that are
      there, and one instance at most beside a single-instance Volume. */
  predicate ProcessOk(p: Process, lookup: string -> Lookup) {
    && (forall m :: m in p.volumes ==> GoodPath(m))
    && PathsDiffer(p.volumes)
    && Known(p, lookup)
    && (SinglesOf(p, lookup) != {} ==> Replicas(p) <= 1)
  }

  /** No single-instance Volume has two processes. */
  predicate Exclusive(ps: seq<Process>, lookup: string -> Lookup) {
    forall i, j :: 0 <= i < j < |ps| ==> SinglesOf(ps[i], lookup) !! SinglesOf(ps[j], lookup)
  }

  predicate Acceptable(ps: seq<Process>, lookup: string -> Lookup) {
    (forall p :: p in ps ==> ProcessOk(p, lookup)) && Exclusive(ps, lookup)
  }

  function ResolvedOf(m: VolumeMount, lookup: string -> Lookup): Resolved
    requires lookup(m.name).Found?
  {
    var vol := lookup(m.name).vol;
    Resolved(m.name, Clean(m.path), PVCName(vol), vol.shared, Halts(vol))
  }

  function MountsOf(p: Process, lookup: string -> Lookup): seq<Resolved>
    requires Known(p, lookup)
  {
    seq(|p.volumes|, i requires 0 <= i < |p.volumes| => ResolvedOf(p.volumes[i], lookup))
  }

  /** The fault a problem names is there in the process. */
  predicate Explains(e: Problem, lookup: string -> Lookup) {
    match e
    case BadPath(p, m) => m in p.volumes && !GoodPath(m)
    case TwoAtOnePath(p, path) =>
      exists i, j :: 0 <= i < j < |p.volumes| && Clean(p.volumes[i].path) == path == Clean(p.volumes[j].path)
    case NoVolume(p, m) => m in p.volumes && lookup(m.name).NotFound?
    case NotRead(p, m) => m in p.volumes && lookup(m.name).Unreadable?
    case TwoProcesses(other, p, m) => m in p.volumes && Single(m, lookup)
    case TooManyInstances(p, m) => m in p.volumes && Single(m, lookup) && Replicas(p) > 1
  }

  lemma FaultRejects(e: Problem, lookup: string -> Lookup)
    requires Explains(e, lookup) && !e.TwoProcesses?
    ensures !ProcessOk(e.p, lookup)
  {
    hide Clean, IsAbs;
    if e.TooManyInstances? { assert e.m.name in SinglesOf(e.p, lookup); }
  }

  // ---------- checking a process map

  /** Which process has each single-instance Volume. */
  function Owners(ps: seq<Process>, lookup: string -> Lookup): map<string, string> {
    if ps == [] then map[] else
    var p := ps[|ps| - 1];
    Owners(ps[..|ps| - 1], lookup) + map v | v in SinglesOf(p, lookup) :: p.name
  }

  lemma {:induction false} OwnersExactly(ps: seq<Process>, lookup: string -> Lookup, v: string)
    ensures v in Owners(ps, lookup) ==>
              exists i :: 0 <= i < |ps| && v in SinglesOf(ps[i], lookup) && ps[i].name == Owners(ps, lookup)[v]
    ensures (exists i :: 0 <= i < |ps| && v in SinglesOf(ps[i], lookup)) ==> v in Owners(ps, lookup)
  {
    hide SinglesOf;
    if ps != [] {
      var front := ps[..|ps| - 1];
      OwnersExactly(front, lookup, v);
      forall i | 0 <= i < |ps| && v in SinglesOf(ps[i], lookup) ensures v in Owners(ps, lookup) {
        assert i < |front| ==> front[i] == ps[i];
      }
      if v in Owners(ps, lookup) && v !in SinglesOf(ps[|ps| - 1], lookup) {
        var i :| 0 <= i < |front| && v in SinglesOf(front[i], lookup) && front[i].name == Owners(front, lookup)[v];
        assert ps[i] == front[i];
      }
    }
  }

  function Front(p: Process, i: nat): Process
    requires i <= |p.volumes|
  {
    p.(volumes := p.volumes[..i])
  }

  lemma NextMount(p: Process, i: nat, lookup: string -> Lookup)
    requires i < |p.volumes| && ProcessOk(Front(p, i), lookup)
    requires var m := p.volumes[i];
             && GoodPath(m) && lookup(m.name).Found? && (Single(m, lookup) ==> Replicas(p) <= 1)
             && forall k :: 0 <= k < i ==> Clean(p.volumes[k].path) != Clean(m.path)
    ensures ProcessOk(Front(p, i + 1), lookup)
    ensures var m := p.volumes[i];
            SinglesOf(Front(p, i + 1), lookup)
            == SinglesOf(Front(p, i), lookup) + if Single(m, lookup) then {m.name} else {}
    ensures MountsOf(Front(p, i + 1), lookup) == MountsOf(Front(p, i), lookup) + [ResolvedOf(p.volumes[i], lookup)]
  {
    hide Clean, IsAbs, Single, GoodPath, Halts;
    assert p.volumes[..i + 1] == p.volumes[..i] + [p.volumes[i]];
  }

  /** The owners once the process's first i mounts are through. */
  function OwnersWith(users: map<string, string>, p: Process, lookup: string -> Lookup): map<string, string> {
    users + map v | v in SinglesOf(p, lookup) :: p.name
  }

  predicate Free(users: map<string, string>, p: Process, lookup: string -> Lookup) {
    forall v :: v in SinglesOf(p, lookup) && v in users ==> users[v] == p.name
  }

  /** The state of the inner loop after i mounts. */
  ghost predicate SoFar(p: Process, i: nat, lookup: string -> Lookup, users0: map<string, string>,
                        users: map<string, string>, mounts: seq<Resolved>, paths: set<seq<string>>) {
    && i <= |p.volumes|
    && ProcessOk(Front(p, i), lookup) && Free(users0, Front(p, i), lookup)
    && Known(Front(p, i), lookup) && mounts == MountsOf(Front(p, i), lookup)
    && users == OwnersWith(users0, Front(p, i), lookup)
    && paths == set k | 0 <= k < i :: Clean(p.volumes[k].path)
  }

  lemma Advance(p: Process, i: nat, lookup: string -> Lookup, users0: map<string, string>,
                users: map<string, string>, mounts: seq<Resolved>, paths: set<seq<string>>)
    requires SoFar(p, i, lookup, users0, users, mounts, paths) && i < |p.volumes|
    requires var m := p.volumes[i];
             && GoodPath(m) && Clean(m.path) !in paths && lookup(m.name).Found?
             && (Single(m, lookup) ==> Replicas(p) <= 1 && (m.name in users ==> users[m.name] == p.name))
    ensures var m := p.volumes[i];
            SoFar(p, i + 1, lookup, users0, if Single(m, lookup) then users[m.name := p.name] else users,
                  mounts + [ResolvedOf(m, lookup)], paths + {Clean(m.path)})
  {
    hide Clean, IsAbs, Single, GoodPath, Halts, SinglesOf, ProcessOk, MountsOf, ResolvedOf, OwnersWith, Free;
    NextMount(p, i, lookup);
    KnownFromOk(Front(p, i + 1), lookup);
    assert (set k | 0 <= k < i + 1 :: Clean(p.volumes[k].path)) == paths + {Clean(p.volumes[i].path)};
    SinglesGrow(users0, Front(p, i), Front(p, i + 1), p.volumes[i], lookup);
  }

  lemma SinglesGrow(users: map<string, string>, p: Process, q: Process, m: VolumeMount, lookup: string -> Lookup)
    requires q.name == p.name && Free(users, p, lookup)
    requires SinglesOf(q, lookup) == SinglesOf(p, lookup) + if Single(m, lookup) then {m.name} else {}
    requires Single(m, lookup) && m.name in OwnersWith(users, p, lookup) ==>
               OwnersWith(users, p, lookup)[m.name] == p.name
    ensures Free(users, q, lookup)
    ensures OwnersWith(users, q, lookup) ==
            if Single(m, lookup) then OwnersWith(users, p, lookup)[m.name := p.name] else OwnersWith(users, p, lookup)
  {
    hide SinglesOf, Single;
  }

  lemma Taken(p: Process, i: nat, lookup: string -> Lookup, users0: map<string, string>,
              users: map<string, string>, mounts: seq<Resolved>, paths: set<seq<string>>)
    requires SoFar(p, i, lookup, users0, users, mounts, paths) && i < |p.volumes|
    requires var m := p.volumes[i]; Single(m, lookup) && m.name in users && users[m.name] != p.name
    ensures var m := p.volumes[i];
            m.name in users0 && users0[m.name] == users[m.name] && !Free(users0, p, lookup)
  {
    hide Clean, IsAbs, Single, GoodPath, Halts, ProcessOk, MountsOf, ResolvedOf;
    assert p.volumes[i].name in SinglesOf(p, lookup);
  }

  lemma AlreadyThere(p: Process, i: nat, lookup: string -> Lookup, users0: map<string, string>,
                     users: map<string, string>, mounts: seq<Resolved>, paths: set<seq<string>>)
    requires SoFar(p, i, lookup, users0, users, mounts, paths) && i < |p.volumes|
    requires Clean(p.volumes[i].path) in paths
    ensures Explains(TwoAtOnePath(p, Clean(p.volumes[i].path)), lookup)
  {
    hide Clean, IsAbs, Single, GoodPath, Halts, ProcessOk, MountsOf, ResolvedOf, SinglesOf;
  }

  lemma AllThrough(p: Process, lookup: string -> Lookup, users0: map<string, string>,
                   users: map<string, string>, mounts: seq<Resolved>, paths: set<seq<string>>)
    requires SoFar(p, |p.volumes|, lookup, users0, users, mounts, paths)
    ensures ProcessOk(p, lookup) && Free(users0, p, lookup)
    ensures mounts == MountsOf(p, lookup) && users == OwnersWith(users0, p, lookup)
  {
    hide Clean, ProcessOk, MountsOf, SinglesOf;
    assert Front(p, |p.volumes|) == p;
  }

  lemma NothingYet(p: Process, lookup: string -> Lookup, users0: map<string, string>)
    ensures SoFar(p, 0, lookup, users0, users0, [], {})
  {
    hide Clean, IsAbs, Single, GoodPath, Halts;
    NoMounts(p, lookup);
  }

  /** One process: the inner loop. */
  method ResolveProcess(p: Process, lookup: string -> Lookup, users0: map<string, string>)
      returns (r: Result<seq<Resolved>>, users: map<string, string>)
    ensures r.Ok? <==> ProcessOk(p, lookup) && Free(users0, p, lookup)
    ensures r.Ok? ==> r.value == MountsOf(p, lookup) && users == OwnersWith(users0, p, lookup)
    ensures r.Err? ==> r.problem.p == p && Explains(r.problem, lookup)
    ensures r.Err? && r.problem.TwoProcesses? ==>
              r.problem.m.name in users0 && users0[r.problem.m.name] == r.problem.other != p.name
  {
    hide Clean, IsAbs, GoodPath, Halts, SinglesOf, ProcessOk, SoFar, Free, OwnersWith, MountsOf;
    users := users0;
    var mounts: seq<Resolved> := [];
    var paths: set<seq<string>> := {};
    NothingYet(p, lookup, users0);
    for i := 0 to |p.volumes|
      invariant SoFar(p, i, lookup, users0, users, mounts, paths)
    {
      var m := p.volumes[i];
      if !GoodPath(m) {
        FaultRejects(BadPath(p, m), lookup);
        return Err(BadPath(p, m)), users;
      }
      var clean := Clean(m.path);
      if clean in paths {
        AlreadyThere(p, i, lookup, users0, users, mounts, paths);
        FaultRejects(TwoAtOnePath(p, clean), lookup);
        return Err(TwoAtOnePath(p, clean)), users;
      }
      if lookup(m.name).NotFound? {
        FaultRejects(NoVolume(p, m), lookup);
        return Err(NoVolume(p, m)), users;
      }
      if lookup(m.name).Unreadable? {
        FaultRejects(NotRead(p, m), lookup);
        return Err(NotRead(p, m)), users;
      }
      var vol := lookup(m.name).vol;
      ghost var before := users;
      if !vol.shared {
        if m.name in users && users[m.name] != p.name {
          Taken(p, i, lookup, users0, users, mounts, paths);
          return Err(TwoProcesses(users[m.name], p, m)), users;
        }
        users := users[m.name := p.name];
        if Replicas(p) > 1 {
          FaultRejects(TooManyInstances(p, m), lookup);
          return Err(TooManyInstances(p, m)), users;
        }
      }
      Advance(p, i, lookup, users0, before, mounts, paths);
      paths := paths + {clean};
      mounts := mounts + [Resolved(m.name, clean, PVCName(vol), vol.shared, Halts(vol))];
    }
    AllThrough(p, lookup, users0, users, mounts, paths);
    return Ok(mounts), users;
  }

  lemma NoMounts(p: Process, lookup: string -> Lookup)
    ensures ProcessOk(Front(p, 0), lookup) && SinglesOf(Front(p, 0), lookup) == {}
  {}

  /** out holds the mounts of the processes that have any. */
  ghost predicate Gathered(out: map<string, seq<Resolved>>, ps: seq<Process>, lookup: string -> Lookup) {
    && out.Keys == (set p | p in ps && p.volumes != [] :: p.name)
    && (forall p :: p in ps && p.volumes != [] ==>
          Known(p, lookup) && p.name in out && out[p.name] == MountsOf(p, lookup))
  }

  lemma GatherOne(out: map<string, seq<Resolved>>, ps: seq<Process>, p: Process, lookup: string -> Lookup)
    requires Gathered(out, ps, lookup) && (forall q :: q in ps ==> q.name != p.name)
    requires p.volumes != [] ==> Known(p, lookup)
    ensures Gathered(if p.volumes == [] then out else out[p.name := MountsOf(p, lookup)], ps + [p], lookup)
  {
    hide MountsOf, Known;
  }

  /** Validates the Volumes of every process; an accepted map gives the mounts of
      each process that has any. */
  method ResolveMounts(ps: seq<Process>, lookup: string -> Lookup) returns (r: Result<map<string, seq<Resolved>>>)
    requires DistinctNames(ps, (p: Process) => p.name)
    ensures r.Ok? <==> Acceptable(ps, lookup)
    ensures r.Ok? ==> Gathered(r.value, ps, lookup)
    ensures r.Err? ==> r.problem.p in ps && Explains(r.problem, lookup)
    ensures r.Err? && r.problem.TwoProcesses? ==>
              exists q :: q in ps && q.name == r.problem.other != r.problem.p.name
                          && r.problem.m.name in SinglesOf(q, lookup)
  {
    hide ProcessOk, SinglesOf, Explains, Acceptable, Gathered, Known, Free;
    var out: map<string, seq<Resolved>> := map[];
    var users: map<string, string> := map[];
    assert Acceptable(ps[..0], lookup) && Gathered(out, ps[..0], lookup) by { NoProcesses(lookup); }
    for i := 0 to |ps|
      invariant Acceptable(ps[..i], lookup)
      invariant users == Owners(ps[..i], lookup)
      invariant Gathered(out, ps[..i], lookup)
    {
      var p := ps[i];
      assert ps[..i + 1] == ps[..i] + [p];
      assert ps[..i + 1][..i] == ps[..i];
      EarlierNames(ps, i);
      OneMore(ps, i, lookup);
      GatherOneIfOk(out, ps[..i], p, lookup);
      if p.volumes == [] {
        FreeOfMounts(users, p, lookup);
        continue;
      }
      var mounts, users2 := ResolveProcess(p, lookup, users);
      if mounts.Err? {
        if mounts.problem.TwoProcesses? { FirstUser(ps, i, lookup, mounts.problem.m.name); }
        return Err(mounts.problem);
      }
      out := out[p.name := mounts.value];
      users := users2;
    }
    assert ps[..|ps|] == ps;
    return Ok(out);
  }

  lemma NoProcesses(lookup: string -> Lookup)
    ensures Acceptable([], lookup) && Gathered(map[], [], lookup)
  {}

  lemma GatherOneIfOk(out: map<string, seq<Resolved>>, ps: seq<Process>, p: Process, lookup: string -> Lookup)
    requires Gathered(out, ps, lookup) && (forall q :: q in ps ==> q.name != p.name)
    ensures ProcessOk(p, lookup) ==> Known(p, lookup)
    ensures ProcessOk(p, lookup) ==>
              Gathered(if p.volumes == [] then out else out[p.name := MountsOf(p, lookup)], ps + [p], lookup)
  {
    hide Gathered, MountsOf;
    if ProcessOk(p, lookup) { GatherOne(out, ps, p, lookup); }
  }

  lemma FreeOfMounts(users: map<string, string>, p: Process, lookup: string -> Lookup)
    requires p.volumes == []
    ensures ProcessOk(p, lookup) && Free(users, p, lookup)
    ensures users == OwnersWith(users, p, lookup)
  {}

  lemma FirstUser(ps: seq<Process>, i: nat, lookup: string -> Lookup, v: string)
    requires i <= |ps| && v in Owners(ps[..i], lookup)
    ensures exists q :: q in ps && q.name == Owners(ps[..i], lookup)[v] && v in SinglesOf(q, lookup)
  {
    hide SinglesOf;
    OwnersExactly(ps[..i], lookup, v);
    var k :| 0 <= k < i && v in SinglesOf(ps[..i][k], lookup) && ps[..i][k].name == Owners(ps[..i], lookup)[v];
    assert ps[k] in ps;
  }

  lemma KnownFromOk(p: Process, lookup: string -> Lookup)
    requires ProcessOk(p, lookup)
    ensures Known(p, lookup)
  {}

  lemma EarlierNames(ps: seq<Process>, i: nat)
    requires i < |ps| && DistinctNames(ps, (p: Process) => p.name)
    ensures forall q :: q in ps[..i] ==> q.name != ps[i].name
  {
    forall q | q in ps[..i] ensures q.name != ps[i].name {
      var k :| 0 <= k < i && ps[k] == q;
      assert ((p: Process) => p.name)(ps[k]) != ((p: Process) => p.name)(ps[i]);
    }
  }

  /** Process i joins the accepted ones exactly when it is fine on its own and finds
      its single-instance Volumes free; if it does not, the map is refused. */
  lemma OneMore(ps: seq<Process>, i: nat, lookup: string -> Lookup)
    requires i < |ps| && Acceptable(ps[..i], lookup)
    requires forall q :: q in ps[..i] ==> q.name != ps[i].name
    ensures ProcessOk(ps[i], lookup) && Free(Owners(ps[..i], lookup), ps[i], lookup)
            <==> Acceptable(ps[..i + 1], lookup)
    ensures Acceptable(ps, lookup) ==> Acceptable(ps[..i + 1], lookup)
  {
    hide ProcessOk, SinglesOf;
    var p, done := ps[i], ps[..i];
    assert ps[..i + 1] == done + [p];
    if Free(Owners(done, lookup), p, lookup) {
      forall k | 0 <= k < i ensures SinglesOf(done[k], lookup) !! SinglesOf(p, lookup) {
        forall v | v in SinglesOf(done[k], lookup) ensures v !in SinglesOf(p, lookup) {
          OwnersExactly(done, lookup, v);
          assert done[k] in done;
          var j :| 0 <= j < |done| && v in SinglesOf(done[j], lookup) && done[j].name == Owners(done, lookup)[v];
          assert done[j] in done;
        }
      }
    }
    if Acceptable(ps[..i + 1], lookup) {
      forall v | v in SinglesOf(p, lookup) ensures v !in Owners(done, lookup) {
        OwnersExactly(done, lookup, v);
        assert forall k :: 0 <= k < i ==> ps[..i + 1][k] == done[k];
        assert ps[..i + 1][i] == p;
      }
    }
  }

  // ---------- rendering

  datatype Strategy = Recreate | RollingUpdate(limits: Option<(nat, nat)>)

  /** What a Deployment has of it. A pod volume has a name and a claim; a mount names its
      pod volume and has a path. */
  datatype Rendered = Rendered(
    replicas: int,
    strategy: Strategy,
    volumes: seq<string>,
    claims: seq<string>,
    paths: seq<seq<string>>)

  predicate AnySingle(mounts: seq<Resolved>) { exists m :: m in mounts && !m.shared }

  predicate AnyRestoring(mounts: seq<Resolved>) { exists m :: m in mounts && m.restoring }

  function ResolvedName(r: Resolved): string { r.name }

  function MountedName(m: VolumeMount): string { m.name }

  /** What sort.Slice does with mounts. */
  type ResolvedSort = f: seq<Resolved> -> seq<Resolved> | SortsByName(f, ResolvedName)
    ghost witness (StableSortSorts(ResolvedName); StableSort(ResolvedName))

  function PodVolume(name: string): string { "vol-" + name }

  /** The names of the pod volumes, used again by the mounts. */
  function PodVolumesOf(mounts: seq<Resolved>): seq<string> {
    seq(|mounts|, i requires 0 <= i < |mounts| => PodVolume(mounts[i].name))
  }

  function ClaimsOf(mounts: seq<Resolved>): seq<string> {
    seq(|mounts|, i requires 0 <= i < |mounts| => mounts[i].claim)
  }

  function PathsOf(mounts: seq<Resolved>): seq<seq<string>> {
    seq(|mounts|, i requires 0 <= i < |mounts| => mounts[i].path)
  }

  function Render(p: Process, mounts: seq<Resolved>, sort: ResolvedSort): Rendered {
    Rendered(
      if AnyRestoring(mounts) then 0 else if AnySingle(mounts) then 1 else Replicas(p),
      if AnySingle(mounts) then Recreate else RollingUpdate(Some((1, 0))),
      PodVolumesOf(sort(mounts)),
      ClaimsOf(sort(mounts)),
      PathsOf(sort(mounts)))
  }

  method RolloutStrategy(mounts: seq<Resolved>) returns (s: Strategy)
    ensures s == if AnySingle(mounts) then Recreate else RollingUpdate(Some((1, 0)))
  {
    for i := 0 to |mounts|
      invariant forall k :: 0 <= k < i ==> mounts[k].shared
    {
      if !mounts[i].shared {
        return Recreate;
      }
    }
    return RollingUpdate(Some((1, 0)));
  }

  class Deployment {
    var replicas: int
    var strategy: Strategy
    var volumes: seq<string>
    var claims: seq<string>
    var paths: seq<seq<string>>

    ghost function Value(): Rendered
      reads this
    {
      Rendered(replicas, strategy, volumes, claims, paths)
    }

    /** Adds claims and mounts; a single-instance volume pins one replica and a
        Recreate rollout, a restore stops the process. */
    method ApplyMounts(mounts0: seq<Resolved>, sort: ResolvedSort)
      modifies this
      ensures volumes == PodVolumesOf(sort(mounts0))
      ensures claims == ClaimsOf(sort(mounts0)) && paths == PathsOf(sort(mounts0))
      ensures replicas == if AnyRestoring(mounts0) then 0 else if AnySingle(mounts0) then 1 else old(replicas)
      ensures AnySingle(mounts0) ==> strategy.Recreate?
      ensures !AnySingle(mounts0) ==> strategy == if old(strategy).Recreate? then RollingUpdate(None) else old(strategy)
    {
      var mounts := sort(mounts0);
      forall m ensures m in mounts <==> m in mounts0 {
        SortKeepsElements(mounts0, sort, ResolvedName, m);
      }
      var names: seq<string>, vols: seq<string>, vms: seq<seq<string>> := [], [], [];
      var single, restoring := false, false;
      for i := 0 to |mounts|
        invariant names == PodVolumesOf(mounts)[..i]
        invariant vols == ClaimsOf(mounts)[..i] && vms == PathsOf(mounts)[..i]
        invariant single <==> AnySingle(mounts[..i])
        invariant restoring <==> AnyRestoring(mounts[..i])
      {
        var m := mounts[i];
        assert mounts[..i + 1] == mounts[..i] + [m];
        names := names + [PodVolume(m.name)];
        vols := vols + [m.claim];
        vms := vms + [m.path];
        if !m.shared {
          single := true;
          assert m in mounts[..i + 1];
        }
        if m.restoring {
          restoring := true;
          assert m in mounts[..i + 1];
        }
      }
      assert mounts[..|mounts|] == mounts;
      volumes, claims, paths := names, vols, vms;
      if single {
        replicas := 1;
      }
      if restoring {
        replicas := 0;
      }
      if single && !strategy.Recreate? {
        strategy := Recreate;
      }
      if !single && strategy.Recreate? {
        strategy := RollingUpdate(None);
      }
    }

    method MutateDeployment(p: Process, mounts: seq<Resolved>, sort: ResolvedSort)
      modifies this
      ensures Value() == Render(p, mounts, sort)
    {
      replicas := Replicas(p);
      strategy := RolloutStrategy(mounts);
      ApplyMounts(mounts, sort);
    }
  }

  // ---------- what accepted maps render to

  /** Reading a Volume by a name gives the Volume of that name. */
  ghost predicate ByItsName(lookup: string -> Lookup) {
    forall n :: lookup(n).Found? ==> lookup(n).vol.name == n
  }

  /** The Deployment of a process of an accepted map. */
  function DeploymentOf(p: Process, lookup: string -> Lookup, sort: ResolvedSort): Rendered
    requires ProcessOk(p, lookup)
  {
    Render(p, MountsOf(p, lookup), sort)
  }

  /** The instances all Deployments of a map ask for that mount a claim. */
  function Instances(ps: seq<Process>, lookup: string -> Lookup, sort: ResolvedSort, claim: string): int
    requires forall p :: p in ps ==> ProcessOk(p, lookup)
  {
    if ps == [] then 0 else
    var d := DeploymentOf(ps[0], lookup, sort);
    (if claim in d.claims then d.replicas else 0) + Instances(ps[1..], lookup, sort, claim)
  }

  lemma ClaimsMembers(ms: seq<Resolved>, claim: string)
    ensures claim in ClaimsOf(ms) <==> exists m :: m in ms && m.claim == claim
  {
    forall m | m in ms && m.claim == claim ensures claim in ClaimsOf(ms) {
      var i :| 0 <= i < |ms| && ms[i] == m;
      assert ClaimsOf(ms)[i] == claim;
    }
  }

  lemma MountsMembers(p: Process, lookup: string -> Lookup, v: Volume)
    requires Known(p, lookup) && ByItsName(lookup)
    ensures (exists r :: r in MountsOf(p, lookup) && r.claim == PVCName(v)) <==> Uses(p, v.name)
  {
    hide Clean, Halts;
    var mounts := MountsOf(p, lookup);
    forall r | r in mounts && r.claim == PVCName(v) ensures Uses(p, v.name) {
      var k :| 0 <= k < |mounts| && mounts[k] == r;
      SamePrefix("vol-", lookup(p.volumes[k].name).vol.name, v.name);
      assert p.volumes[k] in p.volumes && p.volumes[k].name == v.name;
    }
    forall m | m in p.volumes && m.name == v.name ensures exists r :: r in mounts && r.claim == PVCName(v) {
      var k :| 0 <= k < |p.volumes| && p.volumes[k] == m;
      assert mounts[k] in mounts && mounts[k].claim == PVCName(v);
    }
  }

  /** A Deployment mounts a Volume's claim exactly when its process uses the Volume. */
  lemma ClaimOfVolume(p: Process, lookup: string -> Lookup, sort: ResolvedSort, v: Volume)
    requires ProcessOk(p, lookup) && ByItsName(lookup)
    ensures PVCName(v) in DeploymentOf(p, lookup, sort).claims <==> Uses(p, v.name)
  {
    hide Clean, Halts, MountsOf, ClaimsOf, PathsOf, PathsDiffer, GoodPath, PVCName, Uses;
    hide AnySingle, AnyRestoring;
    forall r ensures r in sort(MountsOf(p, lookup)) <==> r in MountsOf(p, lookup) {
      SortKeepsElements(MountsOf(p, lookup), sort, ResolvedName, r);
    }
    ClaimsMembers(sort(MountsOf(p, lookup)), PVCName(v));
    MountsMembers(p, lookup, v);
  }

  lemma SamePrefix(p: string, a: string, b: string)
    requires p + a == p + b
    ensures a == b
  {
    assert (p + a)[|p|..] == a && (p + b)[|p|..] == b;
  }

  /** A process of an accepted map that uses a single-instance Volume rolls out with
      Recreate and asks for one instance, or for none while one of its Volumes is
      being restored; one whose Volume is being restored asks for none. */
  lemma PinnedProcess(p: Process, lookup: string -> Lookup, sort: ResolvedSort, v: string)
    requires ProcessOk(p, lookup) && Uses(p, v)
    ensures !lookup(v).vol.shared ==>
              DeploymentOf(p, lookup, sort).strategy.Recreate?
              && DeploymentOf(p, lookup, sort).replicas == if AnyRestoring(MountsOf(p, lookup)) then 0 else 1
    ensures Halts(lookup(v).vol) ==> DeploymentOf(p, lookup, sort).replicas == 0
  {
    var m :| m in p.volumes && m.name == v;
    var k :| 0 <= k < |p.volumes| && p.volumes[k] == m;
    assert MountsOf(p, lookup)[k] in MountsOf(p, lookup);
  }

  lemma {:induction false} NoUserNoInstances(ps: seq<Process>, lookup: string -> Lookup, sort: ResolvedSort, v: Volume)
    requires ByItsName(lookup) && forall p :: p in ps ==> ProcessOk(p, lookup) && !Uses(p, v.name)
    ensures Instances(ps, lookup, sort, PVCName(v)) == 0
  {
    if ps != [] {
      ClaimOfVolume(ps[0], lookup, sort, v);
      NoUserNoInstances(ps[1..], lookup, sort, v);
    }
  }

  /** While a Volume is being restored, everything rendered for its users has no
      instances, shared or not: what the restore protocol takes an App pass to do. */
  lemma {:induction false} RestoreStopsUsers(ps: seq<Process>, lookup: string -> Lookup, sort: ResolvedSort, v: Volume)
    requires ByItsName(lookup) && forall p :: p in ps ==> ProcessOk(p, lookup)
    requires lookup(v.name) == Found(v) && Halts(v)
    ensures Instances(ps, lookup, sort, PVCName(v)) == 0
  {
    if ps != [] {
      ClaimOfVolume(ps[0], lookup, sort, v);
      if Uses(ps[0], v.name) { PinnedProcess(ps[0], lookup, sort, v.name); }
      RestoreStopsUsers(ps[1..], lookup, sort, v);
    }
  }

  ghost predicate Mounted(ps: seq<Process>, v: string) { exists p :: p in ps && Uses(p, v) }

  predicate NothingRestoring(ps: seq<Process>, lookup: string -> Lookup) {
    forall p, m :: p in ps && m in p.volumes && lookup(m.name).Found? ==> !Halts(lookup(m.name).vol)
  }

  lemma OthersDoNotUse(ps: seq<Process>, lookup: string -> Lookup, v: string)
    requires ps != [] && Acceptable(ps, lookup) && DistinctNames(ps, (p: Process) => p.name)
    requires Uses(ps[0], v) && lookup(v).Found? && !lookup(v).vol.shared
    ensures forall q :: q in ps[1..] ==> !Uses(q, v)
  {
    hide ProcessOk;
    assert v in SinglesOf(ps[0], lookup);
    forall q | q in ps[1..] ensures !Uses(q, v) {
      var k :| 0 <= k < |ps[1..]| && ps[1..][k] == q;
      assert q == ps[k + 1];
      UserOfSingle(q, lookup, v);
    }
  }

  lemma UserOfSingle(p: Process, lookup: string -> Lookup, v: string)
    requires lookup(v).Found? && !lookup(v).vol.shared
    ensures Uses(p, v) <==> v in SinglesOf(p, lookup)
  {}

  lemma TailAcceptable(ps: seq<Process>, lookup: string -> Lookup)
    requires ps != [] && Acceptable(ps, lookup) && DistinctNames(ps, (p: Process) => p.name)
    ensures Acceptable(ps[1..], lookup) && DistinctNames(ps[1..], (p: Process) => p.name)
  {
    assert forall p :: p in ps[1..] ==> p in ps;
  }

  /** Over the whole App, a single-instance Volume is mounted by one instance at
      most; by exactly one if some process uses it and no restore is on. */
  lemma {:induction false} ExclusiveVolume(ps: seq<Process>, lookup: string -> Lookup, sort: ResolvedSort, v: Volume)
    requires ByItsName(lookup) && Acceptable(ps, lookup) && DistinctNames(ps, (p: Process) => p.name)
    requires lookup(v.name) == Found(v) && !v.shared
    ensures 0 <= Instances(ps, lookup, sort, PVCName(v)) <= 1
    ensures NothingRestoring(ps, lookup) ==>
              Instances(ps, lookup, sort, PVCName(v)) == if Mounted(ps, v.name) then 1 else 0
  {
    hide ProcessOk, Halts, ByItsName, DistinctNames, Acceptable;
    if ps != [] {
      AcceptedProcesses(ps, lookup);
      ClaimOfVolume(ps[0], lookup, sort, v);
      TailAcceptable(ps, lookup);
      if Uses(ps[0], v.name) {
        PinnedProcess(ps[0], lookup, sort, v.name);
        OthersDoNotUse(ps, lookup, v.name);
        NoUserNoInstances(ps[1..], lookup, sort, v);
        assert Mounted(ps, v.name);
        if NothingRestoring(ps, lookup) { NoneRestoring(ps, lookup); }
      } else {
        ExclusiveVolume(ps[1..], lookup, sort, v);
        assert Mounted(ps, v.name) <==> Mounted(ps[1..], v.name);
      }
    }
  }

  lemma AcceptedProcesses(ps: seq<Process>, lookup: string -> Lookup)
    requires Acceptable(ps, lookup)
    ensures forall p :: p in ps ==> ProcessOk(p, lookup)
  {}

  lemma NoneRestoring(ps: seq<Process>, lookup: string -> Lookup)
    requires ps != [] && ProcessOk(ps[0], lookup) && NothingRestoring(ps, lookup)
    ensures !AnyRestoring(MountsOf(ps[0], lookup))
  {}

  /** The check covers one App. Two Apps of a namespace keep to one instance of a
      single-instance Volume exactly when they do not both mount it. */
  lemma ExclusiveAcrossAppsExactly(ps: seq<Process>, qs: seq<Process>, lookup: string -> Lookup, sort: ResolvedSort,
                                   v: Volume)
    requires ByItsName(lookup) && lookup(v.name) == Found(v) && !v.shared
    requires Acceptable(ps, lookup) && DistinctNames(ps, (p: Process) => p.name) && NothingRestoring(ps, lookup)
    requires Acceptable(qs, lookup) && DistinctNames(qs, (p: Process) => p.name) && NothingRestoring(qs, lookup)
    ensures Instances(ps, lookup, sort, PVCName(v)) + Instances(qs, lookup, sort, PVCName(v)) <= 1
       <==> !(Mounted(ps, v.name) && Mounted(qs, v.name))
  {
    ExclusiveVolume(ps, lookup, sort, v);
    ExclusiveVolume(qs, lookup, sort, v);
  }

  /** A Volume of the process is being restored. */
  predicate Stopping(p: Process, lookup: string -> Lookup)
    requires Known(p, lookup)
  {
    exists m :: m in p.volumes && Halts(lookup(m.name).vol)
  }

  lemma RestoringTells(p: Process, lookup: string -> Lookup)
    requires Known(p, lookup)
    ensures AnyRestoring(MountsOf(p, lookup)) <==> Stopping(p, lookup)
  {
    hide Clean, Halts;
    var mounts := MountsOf(p, lookup);
    if m :| m in p.volumes && Halts(lookup(m.name).vol) {
      var k :| 0 <= k < |p.volumes| && p.volumes[k] == m;
      assert mounts[k] in mounts && mounts[k].restoring;
    }
    if r :| r in mounts && r.restoring {
      var k :| 0 <= k < |mounts| && mounts[k] == r;
      assert p.volumes[k] in p.volumes && Halts(lookup(p.volumes[k].name).vol);
    }
  }

  lemma SingleTells(p: Process, lookup: string -> Lookup)
    requires Known(p, lookup)
    ensures AnySingle(MountsOf(p, lookup)) <==> SinglesOf(p, lookup) != {}
  {
    hide Clean, Halts;
    var mounts := MountsOf(p, lookup);
    if v :| v in SinglesOf(p, lookup) {
      var m :| m in p.volumes && Single(m, lookup) && m.name == v;
      var k :| 0 <= k < |p.volumes| && p.volumes[k] == m;
      assert mounts[k] in mounts && !mounts[k].shared;
    }
    if r :| r in mounts && !r.shared {
      var k :| 0 <= k < |mounts| && mounts[k] == r;
      assert p.volumes[k] in p.volumes && Single(p.volumes[k], lookup);
      assert p.volumes[k].name in SinglesOf(p, lookup);
    }
  }

  /** When the Deployment of an accepted process runs what the process asks for: if one of
      its Volumes is being restored, only when it asks for none; beside a single-instance
      Volume, only when it asks for one, since asking for none still gives one. */
  lemma RunsWhatIsAskedExactly(p: Process, lookup: string -> Lookup, sort: ResolvedSort)
    requires ProcessOk(p, lookup)
    ensures DeploymentOf(p, lookup, sort).replicas == Replicas(p) <==>
            (if Stopping(p, lookup) then Replicas(p) == 0
             else SinglesOf(p, lookup) == {} || Replicas(p) == 1)
  {
    hide PathsDiffer, GoodPath, MountsOf, Stopping, SinglesOf, AnySingle, AnyRestoring;
    RestoringTells(p, lookup);
    SingleTells(p, lookup);
  }

  /** The rendered pod volumes have names of their own exactly when the process mounts no
      Volume twice; acceptance does not ask for that. */
  lemma PodVolumesDifferExactly(p: Process, lookup: string -> Lookup, sort: ResolvedSort)
    requires ProcessOk(p, lookup)
    ensures Distinct(DeploymentOf(p, lookup, sort).volumes) <==> DistinctNames(p.volumes, MountedName)
  {
    hide ProcessOk, PathsDiffer, GoodPath;
    KnownFromOk(p, lookup);
    var mounts := MountsOf(p, lookup);
    assert |mounts| == |p.volumes| && forall i :: 0 <= i < |mounts| ==> mounts[i].name == p.volumes[i].name;
    SortKeepsDistinct(mounts, sort, ResolvedName);
    PodVolumesDistinct(sort(mounts));
  }

  lemma PodVolumesDistinct(ms: seq<Resolved>)
    ensures Distinct(PodVolumesOf(ms)) <==> DistinctNames(ms, ResolvedName)
  {
    forall i, j | 0 <= i < j < |ms| ensures PodVolumesOf(ms)[i] == PodVolumesOf(ms)[j] <==> ms[i].name == ms[j].name {
      if PodVolume(ms[i].name) == PodVolume(ms[j].name) { SamePrefix("vol-", ms[i].name, ms[j].name); }
    }
  }
}
