/** One reconcile pass of an App as a transaction: it edits an in-memory history,
    writes and prunes config snapshots and images on the way, and only then
    commits the status, which may conflict
    (internal/controller/app_controller.go:166-194, 229-249, 276-277, 383-398,
    internal/controller/snapshots.go:25-112).

    A pass reads the controller's own last committed status, and a write that
    does not succeed changes nothing. */
module ReleasePass {
  import opened Basics
  import opened ConfigHash
  import opened Releases

  /** The parts of the fingerprint that are library calls. */
  datatype Fingerprint = Fingerprint(json: EnvVar -> string, sorts: Sorts, digest: string -> string)

  ghost function HashOf(c: Config, f: Fingerprint): string { f.digest(Stream(c, f.json, f.sorts)) }

  /** A release that became durable, with the configuration it was hashed from. */
  datatype Entry = Entry(release: Release, config: Config)

  /** What outlives a pass: the committed status, the live config vars, the
      config snapshots, the manifests removed from the registry. The log lists
      every release ever committed; no code reads it. */
  datatype World = World(
    history: History,
    live: Vars,
    snapshots: map<int, map<string, string>>,
    deleted: set<Manifest>,
    log: seq<Entry>)

  /** What a pass meets: the rollback request (0 for none), the configuration
      apart from the live vars, the image to run, the snapshots the API lists (none
      when that call fails) and which of them can be deleted, and the outcome of
      each write.
      workloads stands for everything between the hash and the release that may
      return an error. */
  datatype Pass = Pass(
    rollbackTo: int,
    restore: Write,
    config: Config,
    attached: seq<string>,
    image: Image,
    workloads: Write,
    snapshot: Write,
    listed: seq<int>,
    deleteOk: int -> bool,
    registry: Registry,
    commit: Write)

  // ---------- the pass as a function

  function Restored(w: World, p: Pass): World {
    if p.rollbackTo > 0 && p.restore.Done? && p.rollbackTo in w.snapshots
    then w.(live := Some(w.snapshots[p.rollbackTo]))
    else w
  }

  predicate StopsEarly(p: Pass) {
    (p.rollbackTo > 0 && !p.restore.Done?) || p.image == NO_IMAGE || !p.workloads.Done?
  }

  function ConfigOf(w: World, p: Pass): Config { p.config.(vars := w.live) }

  predicate Records(w: World, p: Pass, hash: string) {
    !IsCurrent(w.history.releases, p.image, hash)
  }

  /** The history the pass holds in memory after recordRelease. */
  function InMemory(w: World, p: Pass, hash: string): History {
    Record(w.history, p.image, hash, p.config.sizes, p.attached)
  }

  function Numbers(rs: seq<Release>): set<int> { set i | 0 <= i < |rs| :: rs[i].number }

  /** What PruneSnapshots leaves: it deletes those listed that no release in rs
      has, where the delete goes through. */
  function Kept(snapshots: map<int, map<string, string>>, rs: seq<Release>, listed: seq<int>, ok: int -> bool)
    : map<int, map<string, string>>
  {
    map n | n in snapshots && !(n in listed && n !in Numbers(rs) && ok(n)) :: snapshots[n]
  }

  predicate Commits(w: World, p: Pass, hash: string) {
    && !StopsEarly(p)
    && p.commit.Done?
    && (Records(w, p, hash) ==> !p.snapshot.Conflict?)
  }

  /** Does the pass get as far as pruning? */
  predicate Prunes(w: World, p: Pass, hash: string) {
    !StopsEarly(p) && (Records(w, p, hash) ==> p.snapshot.Done?)
  }

  function SnapshotsAfter(w: World, p: Pass, hash: string): map<int, map<string, string>> {
    if !Prunes(w, p, hash) || !Records(w, p, hash) then w.snapshots else
    var rs := InMemory(w, p, hash).releases;
    var taken := w.snapshots[NextNumber(w.history.releases) := Data(w.live)];
    Kept(taken, rs, p.listed, p.deleteOk)
  }

  /** What is left of the pass once restoreRelease is through. */
  function Finish(w: World, p: Pass, hash: string): World {
    var h := InMemory(w, p, hash);
    World(
      if !Commits(w, p, hash) then w.history
      else if Prunes(w, p, hash) then h.(stale := StaleAfter(h.stale, p.registry))
      else h,
      w.live,
      SnapshotsAfter(w, p, hash),
      if Prunes(w, p, hash) then w.deleted + Removed(h.stale, p.registry) else w.deleted,
      if Commits(w, p, hash) && Records(w, p, hash)
      then w.log + [Entry(Release(NextNumber(w.history.releases), p.image, hash, p.config.sizes, p.attached),
                          ConfigOf(w, p))]
      else w.log)
  }

  lemma StopsHere(w: World, p: Pass, hash: string)
    requires StopsEarly(p)
    ensures Finish(w, p, hash) == w
  {}

  ghost function PassStep(w: World, p: Pass, f: Fingerprint): World {
    var w1 := Restored(w, p);
    Finish(w1, p, HashOf(ConfigOf(w1, p), f))
  }

  // ---------- the pass as the controller runs it

  class AppReconciler {
    var releases: seq<Release>
    var staleImages: seq<Image>
    var live: Vars
    var snapshots: map<int, map<string, string>>
    var deleted: set<Manifest>
    ghost var log: seq<Entry>

    ghost function Value(): World
      reads this
    {
      World(History(releases, staleImages), live, snapshots, deleted, log)
    }

    /** Copies the snapshot of release n over the live vars; no snapshot, no change. */
    method RestoreRelease(n: int, write: Write) returns (err: Write)
      modifies this`live
      ensures err == write
      ensures live == if write.Done? && n in snapshots then Some(snapshots[n]) else old(live)
    {
      if write.Done? && n in snapshots {
        live := Some(snapshots[n]);
      }
      return write;
    }

    method SnapshotRelease(n: int, secret: Vars, write: Write) returns (err: Write)
      modifies this`snapshots
      ensures err == write
      ensures snapshots == if write.Done? then old(snapshots)[n := Data(secret)] else old(snapshots)
    {
      if write.Done? {
        snapshots := snapshots[n := Data(secret)];
      }
      return write;
    }

    /** Deletes the listed snapshots of releases that left the history. */
    method PruneSnapshots(rs: seq<Release>, listed: seq<int>, ok: int -> bool)
      modifies this`snapshots
      ensures snapshots == Kept(old(snapshots), rs, listed, ok)
    {
      var keep: set<int> := {};
      for k := 0 to |rs|
        invariant snapshots == old(snapshots) && keep == Numbers(rs[..k])
      {
        keep := keep + {rs[k].number};
        assert rs[..k + 1] == rs[..k] + [rs[k]];
      }
      assert rs[..|rs|] == rs;
      for k := 0 to |listed|
        invariant snapshots == Kept(old(snapshots), rs, listed[..k], ok)
      {
        var n := listed[k];
        assert listed[..k + 1] == listed[..k] + [n];
        if n in keep || !ok(n) {
          continue;
        }
        snapshots := snapshots - {n};
      }
      assert listed[..|listed|] == listed;
    }

    /** Status().Patch with optimistic locking: all or nothing. */
    method Commit(app: AppStatus, ghost added: seq<Entry>, commit: Write)
      modifies this`releases, this`staleImages, this`log
      ensures Value() == if commit.Done? then old(Value()).(history := app.Value(), log := old(log) + added)
                         else old(Value())
    {
      if commit.Done? {
        releases, staleImages := app.releases, app.staleImages;
        log := log + added;
      }
    }

    method Reconcile(p: Pass, f: Fingerprint)
      modifies this
      ensures Value() == PassStep(old(Value()), p, f)
    {
      hide HashOf, InMemory, SnapshotsAfter, Removed, StaleAfter, Kept;
      if p.rollbackTo > 0 {
        var err := RestoreRelease(p.rollbackTo, p.restore);
        if !err.Done? {
          StopsHere(Value(), p, HashOf(ConfigOf(Value(), p), f));
          return;
        }
      }
      assert Value() == Restored(old(Value()), p);
      var config := p.config.(vars := live);
      var stream := ConfigStream(config, f.json, f.sorts);
      var hash := f.digest(stream);
      HashIs(config, f);
      if p.image == NO_IMAGE || !p.workloads.Done? {
        StopsHere(Value(), p, hash);
        return;
      }
      RecordAndCommit(p, live, hash);
    }

    /** The end of the pass: release, snapshot, prune, then commit. */
    method RecordAndCommit(p: Pass, secret: Vars, hash: string)
      requires secret == live && !StopsEarly(p)
      modifies this
      ensures Value() == Finish(old(Value()), p, hash)
    {
      hide Kept, Removed, StaleAfter, Record;
      ghost var w := Value();
      var app := new AppStatus(releases, staleImages);
      var recorded := app.RecordRelease(p.image, hash, p.config.sizes, p.attached);
      assert app.Value() == InMemory(w, p, hash);
      ghost var added: seq<Entry> := [];
      if recorded {
        LastRecorded(w.history, p.image, hash, p.config.sizes, p.attached);
        var last := app.releases[|app.releases| - 1];
        added := [Entry(last, ConfigOf(w, p))];
        var err := SnapshotRelease(last.number, secret, p.snapshot);
        if err.Conflict? {
          return;
        }
        if err.Failed? {
          Commit(app, added, p.commit);
          return;
        }
        PruneSnapshots(app.releases, p.listed, p.deleteOk);
      }
      assert snapshots == SnapshotsAfter(w, p, hash);
      var removed := app.PruneImages(p.registry);
      deleted := deleted + removed;
      Commit(app, added, p.commit);
      assert w.log + [] == w.log;
    }
  }

  lemma HashIs(c: Config, f: Fingerprint)
    ensures f.digest(Stream(c, f.json, f.sorts)) == HashOf(c, f)
  {}

  lemma LastRecorded(h: History, image: Image, hash: string, sizes: map<string, string>, bindings: seq<string>)
    requires !IsCurrent(h.releases, image, hash)
    ensures var rs := Record(h, image, hash, sizes, bindings).releases;
            rs != [] && rs[|rs| - 1] == Release(NextNumber(h.releases), image, hash, sizes, bindings)
  {}
}
