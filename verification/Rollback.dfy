/** Rolling an App back to an earlier release: what the API writes on the App
    (pkg/api/apps.go:538-571, 702-721), what the next pass makes of it
    (internal/controller/app_controller.go:229-239, 548-561), and that together
    they bring the release back. */
module Rollback {
  import opened Basics
  import opened ConfigHash
  import opened ConfigIdentity
  import opened Releases
  import opened ReleasePass
  import opened ReleaseRuns

  /** A process type: its size name, whether explicit resources override the
      size, and its mounts. */
  datatype Process = Process(size: string, overridden: bool, volumes: seq<Mount>)

  datatype Phase = Pending | Building | Deploying | Running | FailedPhase

  /** The App as the API reads and writes it. rollbackTo is the annotation, 0 for none. */
  datatype App = App(
    image: Image,
    processes: map<string, Process>,
    bindings: seq<string>,
    rollbackTo: int,
    generation: int,
    observedGeneration: int,
    phase: Phase,
    releases: seq<Release>)

  datatype Refusal = NoSuchRelease | AlreadyCurrent | StillRollingOut

  const CUSTOM := "custom"
  const WEB := "web"
  const NEW_PROCESS := Process("", false, [])

  function ReleaseByNumber(rs: seq<Release>, n: int): Option<Release> {
    if rs == [] then None else if rs[0].number == n then Some(rs[0]) else ReleaseByNumber(rs[1..], n)
  }

  predicate RolloutInProgress(a: App) {
    a.observedGeneration < a.generation || a.phase.Deploying? || a.phase.Building?
  }

  function Refused(a: App, n: int): Option<Refusal> {
    if ReleaseByNumber(a.releases, n).None? then Some(NoSuchRelease)
    else if a.releases[|a.releases| - 1].number == n then Some(AlreadyCurrent)
    else if RolloutInProgress(a) then Some(StillRollingOut)
    else None
  }

  function Process0(ps: map<string, Process>, name: string): Process {
    if name in ps then ps[name] else NEW_PROCESS
  }

  function Resized(p: Process, size: string): Process {
    if size == CUSTOM then p else p.(size := size, overridden := false)
  }

  /** The processes after restoreSizes: known ones, and the web process. */
  function SizesRestored(ps: map<string, Process>, sizes: map<string, string>): map<string, Process> {
    map name | name in ps.Keys + (sizes.Keys * {WEB}) ::
      if name in sizes then Resized(Process0(ps, name), sizes[name]) else Process0(ps, name)
  }

  function RolledBack(a: App, target: Release): App {
    a.(image := target.image,
       processes := SizesRestored(a.processes, target.sizes),
       bindings := target.bindings,
       rollbackTo := target.number)
  }

  // ---------- the API's side, as it edits the App

  class AppObject {
    var image: Image
    var processes: map<string, Process>
    var bindings: seq<string>
    var rollbackTo: int
    const generation: int
    const observedGeneration: int
    const phase: Phase
    const releases: seq<Release>

    ghost function Value(): App
      reads this
    {
      App(image, processes, bindings, rollbackTo, generation, observedGeneration, phase, releases)
    }

    constructor (a: App)
      ensures Value() == a
    {
      image, processes, bindings, rollbackTo := a.image, a.processes, a.bindings, a.rollbackTo;
      generation, observedGeneration, phase, releases := a.generation, a.observedGeneration, a.phase, a.releases;
    }

    method FindRelease(n: int) returns (r: Option<Release>)
      ensures r == ReleaseByNumber(releases, n)
    {
      for i := 0 to |releases|
        invariant ReleaseByNumber(releases, n) == ReleaseByNumber(releases[i..], n)
      {
        if releases[i].number == n {
          return Some(releases[i]);
        }
      }
      return None;
    }

    /** Puts back the sizes a release ran with, in whatever order the map yields them. */
    method RestoreSizes(rel: Release)
      modifies this`processes
      ensures processes == SizesRestored(old(processes), rel.sizes)
    {
      var sizes := rel.sizes;
      var rest := sizes.Keys;
      ghost var done: set<string> := {};
      while rest != {}
        invariant rest <= sizes.Keys && done == sizes.Keys - rest
        invariant processes == SizesRestored(old(processes), map k | k in sizes && k in done :: sizes[k])
        decreases rest
      {
        var proc :| proc in rest;
        rest := rest - {proc};
        done := done + {proc};
        if proc !in processes && proc != WEB {
          continue;
        }
        var p := if proc in processes then processes[proc] else NEW_PROCESS;
        if sizes[proc] != CUSTOM {
          p := p.(size := sizes[proc], overridden := false);
        }
        processes := processes[proc := p];
      }
      assert sizes == map k | k in sizes && k in done :: sizes[k];
    }

    method Rollback(n: int) returns (err: Option<Refusal>)
      modifies this
      ensures err == Refused(old(Value()), n)
      ensures err.Some? ==> Value() == old(Value())
      ensures err.None? ==> Value() == RolledBack(old(Value()), ReleaseByNumber(releases, n).value)
    {
      var target := FindRelease(n);
      if target.None? {
        return Some(NoSuchRelease);
      }
      FoundIsNamed(releases, n);
      if releases[|releases| - 1].number == target.value.number {
        return Some(AlreadyCurrent);
      }
      if observedGeneration < generation || phase.Deploying? || phase.Building? {
        return Some(StillRollingOut);
      }
      image := target.value.image;
      RestoreSizes(target.value);
      bindings := target.value.bindings;
      rollbackTo := n;
      return None;
    }
  }

  lemma {:induction false} FoundIsNamed(rs: seq<Release>, n: int)
    requires ReleaseByNumber(rs, n).Some?
    ensures rs != [] && ReleaseByNumber(rs, n).value.number == n
    ensures exists i :: 0 <= i < |rs| && rs[i] == ReleaseByNumber(rs, n).value
  {
    if rs[0].number != n {
      FoundIsNamed(rs[1..], n);
      var i :| 0 <= i < |rs[1..]| && rs[1..][i] == ReleaseByNumber(rs[1..], n).value;
      assert rs[i + 1] == ReleaseByNumber(rs, n).value;
    }
  }

  // ---------- the controller's side, as it reads the App

  /** The size catalog: its default and its names. A catalog size resolves to its
      own name; explicit resources make it "custom". */
  datatype Catalog = Catalog(default: string, names: set<string>)

  function EffectiveProcesses(ps: map<string, Process>): map<string, Process> {
    if ps == map[] then map[WEB := NEW_PROCESS] else ps
  }

  function SizeOf(p: Process, c: Catalog): string {
    var name := if p.size == "" then c.default else p.size;
    if name in c.names then (if p.overridden then CUSTOM else name)
    else if p.size != "" then p.size else CUSTOM
  }

  function ProcessSizes(ps: map<string, Process>, c: Catalog): map<string, string> {
    var eff := EffectiveProcesses(ps);
    map name | name in eff :: SizeOf(eff[name], c)
  }

  function VolumesOf(ps: map<string, Process>): map<string, seq<Mount>> {
    map name | name in ps :: ps[name].volumes
  }

  /** What the pass after the rollback reads off the App: the pinned image, the
      request, the attached resources, the sizes and the mounts. */
  predicate Reads(p: Pass, a: App, c: Catalog) {
    && p.image == a.image
    && p.rollbackTo == a.rollbackTo
    && p.attached == a.bindings
    && p.config.sizes == ProcessSizes(a.processes, c)
    && p.config.processes == VolumesOf(a.processes)
  }

  /** Nothing on its way fails, and the status is committed. */
  predicate GoesThrough(p: Pass) {
    p.restore.Done? && p.workloads.Done? && !p.snapshot.Conflict? && p.commit.Done?
  }

  /** Restored sizes resolve to what the release recorded. */
  lemma RestoredSizesResolve(ps: map<string, Process>, sizes: map<string, string>, c: Catalog)
    requires EffectiveProcesses(ps).Keys == sizes.Keys
    requires forall k :: k in sizes ==> sizes[k] != CUSTOM && sizes[k] != ""
    ensures ProcessSizes(SizesRestored(ps, sizes), c) == sizes
  {
    var after := SizesRestored(ps, sizes);
    assert after.Keys == sizes.Keys;
    assert WEB in sizes || ps != map[];
    if ps != map[] {
      var k :| k in ps;
      assert k in after;
    } else {
      assert WEB in after;
    }
  }

  lemma RestoringKeepsMounts(ps: map<string, Process>, sizes: map<string, string>, c: Config, d: Config)
    requires c.processes == VolumesOf(ps) && d.processes == VolumesOf(SizesRestored(ps, sizes))
    ensures forall q, m :: Mounts(c, q, m) <==> Mounts(d, q, m)
  {}

  /** Apart from sizes and config vars, the project is as it was when the release
      was hashed from `was`: same bound values, globals, environment and mounts. */
  ghost predicate AsItWas(p: Pass, a: App, was: Config) {
    && Data(p.config.bindings) == Data(was.bindings)
    && Data(p.config.globals) == Data(was.globals)
    && (forall e :: e in p.config.env <==> e in was.env)
    && (forall q, m :: Mounts(p.config.(processes := VolumesOf(a.processes)), q, m) <==> Mounts(was, q, m))
  }

  ghost predicate CollisionFree(f: Fingerprint) {
    forall s, t :: f.digest(s) == f.digest(t) ==> s == t
  }

  lemma TargetInLog(w: World, n: int)
    requires HistoryOk(w) && ReleaseByNumber(w.history.releases, n).Some?
    ensures 0 < n <= |w.log| && w.log[n - 1].release == ReleaseByNumber(w.history.releases, n).value
  {
    var rs := w.history.releases;
    FoundIsNamed(rs, n);
    var i :| 0 <= i < |rs| && rs[i] == ReleaseByNumber(rs, n).value;
    assert EntryOk(w.log, |w.log| - |rs| + i);
  }

  /** The rollback to n is accepted, n's snapshot is there, the pass reads the App
      as rolled back and goes through, the project is otherwise as it was, with
      the same processes, and no size of n was "custom". */
  ghost predicate Faithful(w: World, a: App, n: int, c: Catalog, p: Pass) {
    && a.releases == w.history.releases && Refused(a, n).None?
    && 0 < n <= |w.log| && HasSnapshot(w, n)
    && var target, was := ReleaseByNumber(a.releases, n).value, w.log[n - 1].config;
       && Reads(p, RolledBack(a, target), c) && GoesThrough(p) && AsItWas(p, a, was)
       && EffectiveProcesses(a.processes).Keys == target.sizes.Keys
       && (forall k :: k in target.sizes ==> target.sizes[k] != CUSTOM && target.sizes[k] != "")
       && WellFormed(was) && WellFormed(ConfigOf(Restored(w, p), p))
  }

  /** The pass then meets the very configuration of the target release. */
  lemma MeetsTargetConfig(w: World, a: App, n: int, c: Catalog, p: Pass)
    requires HistoryOk(w) && Faithful(w, a, n, c, p)
    ensures var now, target := ConfigOf(Restored(w, p), p), w.log[n - 1];
            && ReleaseByNumber(a.releases, n) == Some(target.release)
            && p.image == target.release.image && p.image != NO_IMAGE
            && p.attached == target.release.bindings
            && p.config.sizes == target.release.sizes
            && SameConfig(now, target.config)
            && Data(Restored(w, p).live) == Data(target.config.vars)
  {
    hide WellFormed, EntryOk, HistoryOk;
    var target, was := ReleaseByNumber(a.releases, n).value, w.log[n - 1].config;
    var now := ConfigOf(Restored(w, p), p);
    TargetInLog(w, n);
    SizesAreConfig(w, n);
    RestoredSizesResolve(a.processes, target.sizes, c);
    RestoringKeepsMounts(a.processes, target.sizes, p.config.(processes := VolumesOf(a.processes)), now);
    FoundIsNamed(a.releases, n);
  }

  lemma SizesAreConfig(w: World, n: int)
    requires HistoryOk(w) && 0 < n <= |w.log|
    ensures w.log[n - 1].release.sizes == w.log[n - 1].config.sizes
    ensures w.log[n - 1].release.number == n && w.log[n - 1].release.image != NO_IMAGE
  {
    assert EntryOk(w.log, n - 1);
  }

  lemma SameConfigSameHash(c: Config, d: Config, f: Fingerprint)
    requires WellFormed(c) && WellFormed(d) && SameConfig(c, d)
    ensures HashOf(c, f) == HashOf(d, f)
  {
    SameItems(c, d, f.sorts);
  }

  lemma SameHashSameSizes(c: Config, d: Config, f: Fingerprint)
    requires CollisionFree(f) && GoodJson(f.json) && WellFormed(c) && WellFormed(d)
    requires HashOf(c, f) == HashOf(d, f)
    ensures c.sizes == d.sizes
  {
    StreamIdentifies(c, d, f.json, f.sorts);
  }

  /** The round trip: after a rollback to release n and one pass that goes
      through, the current release has n's image and fingerprint, and the live
      config vars are those n was released with. It has n's sizes and attached
      resources too when the pass recorded it; when the release before was
      already equal to n, its sizes are n's unless the hash collides. */
  lemma RollbackRoundTrip(w: World, a: App, n: int, c: Catalog, p: Pass, f: Fingerprint)
    requires HistoryOk(w) && Hashed(w, f) && Faithful(w, a, n, c, p)
    ensures var w2, target := PassStep(w, p, f), ReleaseByNumber(a.releases, n).value;
            var rs := w2.history.releases;
            && rs != []
            && rs[|rs| - 1].image == target.image
            && rs[|rs| - 1].hash == target.hash
            && Data(w2.live) == Data(w.log[n - 1].config.vars)
            && (w2.log != w.log ==> rs[|rs| - 1].sizes == target.sizes && rs[|rs| - 1].bindings == target.bindings)
            && (w2.log == w.log && CollisionFree(f) && GoodJson(f.json) && WellFormed(w.log[|w.log| - 1].config)
                ==> rs[|rs| - 1].sizes == target.sizes)
  {
    hide Faithful, HashOf, EntryOk, Removed, StaleAfter, SnapshotsAfter, WellFormed, SameConfig, Record;
    assert 0 < n <= |w.log| && GoesThrough(p) by { FaithfulGoesThrough(w, a, n, c, p); }
    MeetsTargetConfig(w, a, n, c, p);
    var w1, target := Restored(w, p), w.log[n - 1];
    var now := ConfigOf(w1, p);
    var hash := HashOf(now, f);
    FaithfulIsWellFormed(w, a, n, c, p);
    SameConfigSameHash(now, target.config, f);
    if Records(w1, p, hash) {
      LastRecorded(w1.history, p.image, hash, p.config.sizes, p.attached);
    } else {
      UnrecordedHistory(w1, p, hash);
      SizesAreConfig(w, |w.log|);
      SizesAreConfig(w, n);
      var last := w.log[|w.log| - 1];
      if CollisionFree(f) && GoodJson(f.json) && WellFormed(last.config) {
        SameHashSameSizes(last.config, target.config, f);
      }
    }
  }

  lemma FaithfulGoesThrough(w: World, a: App, n: int, c: Catalog, p: Pass)
    requires Faithful(w, a, n, c, p)
    ensures 0 < n <= |w.log| && GoesThrough(p)
  {}

  lemma FaithfulIsWellFormed(w: World, a: App, n: int, c: Catalog, p: Pass)
    requires Faithful(w, a, n, c, p)
    ensures WellFormed(w.log[n - 1].config) && WellFormed(ConfigOf(Restored(w, p), p))
  {}
}
