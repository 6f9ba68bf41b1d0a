/** What every run of passes keeps: the numbering of the history, a config
    snapshot for each release, and the images the history needs. */
module ReleaseRuns {
  import opened ConfigHash
  import opened ConfigIdentity
  import opened Releases
  import opened ReleasePass

  /** A pass, or somebody editing the live config vars between passes. */
  datatype Step = Reconcile(pass: Pass) | SetVars(vars: Vars)

  ghost function After(w: World, s: Step, f: Fingerprint): World {
    match s
    case Reconcile(p) => PassStep(w, p, f)
    case SetVars(v) => w.(live := v)
  }

  ghost function Run(w: World, steps: seq<Step>, f: Fingerprint): World {
    if steps == [] then w else After(Run(w, steps[..|steps| - 1], f), steps[|steps| - 1], f)
  }

  function NewApp(live: Vars): World { World(History([], []), live, map[], {}, []) }

  // ---------- durable history

  predicate Differ(a: Release, b: Release) { a.image != b.image || a.hash != b.hash }

  predicate EntryOk(log: seq<Entry>, i: nat)
    requires i < |log|
  {
    var r := log[i].release;
    && r.number == i + 1
    && r.image != NO_IMAGE
    && r.sizes == log[i].config.sizes
    && (i > 0 ==> Differ(log[i - 1].release, r))
  }

  /** The status holds the last twenty releases ever committed, and those were
      numbered one, two, three, ... without a gap or a repetition, each
      differing from the one before. */
  ghost predicate HistoryOk(w: World) {
    var rs, first := w.history.releases, |w.log| - |w.history.releases|;
    && |rs| == (if |w.log| <= MAX_RELEASES then |w.log| else MAX_RELEASES)
    && (forall i :: 0 <= i < |rs| ==> rs[i] == w.log[first + i].release)
    && (forall i :: 0 <= i < |w.log| ==> EntryOk(w.log, i))
  }

  /** Every release ever committed carries the fingerprint of its configuration. */
  ghost predicate Hashed(w: World, f: Fingerprint) {
    forall i :: 0 <= i < |w.log| ==> w.log[i].release.hash == HashOf(w.log[i].config, f)
  }

  lemma NextAfterLog(w: World)
    requires HistoryOk(w)
    ensures NextNumber(w.history.releases) == |w.log| + 1
  {
    if w.history.releases != [] { assert EntryOk(w.log, |w.log| - 1); }
  }

  lemma FinishKeepsHistory(w: World, p: Pass, hash: string)
    requires HistoryOk(w)
    ensures HistoryOk(Finish(w, p, hash))
    ensures w.log <= Finish(w, p, hash).log
  {
    hide SnapshotsAfter, Removed, StaleAfter, Record, Prunes;
    var w2 := Finish(w, p, hash);
    if Commits(w, p, hash) && Records(w, p, hash) {
      NextAfterLog(w);
      RecordWindow(w.history, p.image, hash, p.config.sizes, p.attached);
      forall i | 0 <= i < |w2.log| ensures EntryOk(w2.log, i) {
        if i < |w.log| { assert EntryOk(w.log, i); }
      }
    } else {
      UnrecordedHistory(w, p, hash);
    }
  }

  lemma UnrecordedHistory(w: World, p: Pass, hash: string)
    requires !(Commits(w, p, hash) && Records(w, p, hash))
    ensures Finish(w, p, hash).history.releases == w.history.releases
    ensures Finish(w, p, hash).log == w.log
  {}

  /** Every run from a new App: the window over a faultless numbering, each
      release fingerprinted from its configuration, and none ever taken back. */
  lemma {:induction false} DurableHistory(live: Vars, steps: seq<Step>, f: Fingerprint, k: nat)
    requires k <= |steps|
    ensures HistoryOk(Run(NewApp(live), steps, f)) && Hashed(Run(NewApp(live), steps, f), f)
    ensures Run(NewApp(live), steps[..k], f).log <= Run(NewApp(live), steps, f).log
  {
    hide Finish, HashOf;
    if steps == [] {
    } else {
      var n := |steps| - 1;
      DurableHistory(live, steps[..n], f, if k <= n then k else n);
      var w := Run(NewApp(live), steps[..n], f);
      match steps[n] {
        case Reconcile(p) =>
          var w1 := Restored(w, p);
          FinishKeepsHistory(w1, p, HashOf(ConfigOf(w1, p), f));
          FinishKeepsHashed(w1, p, f);
        case SetVars(_) =>
      }
      if k == |steps| { assert steps[..k] == steps; } else { assert steps[..n][..k] == steps[..k]; }
    }
  }

  lemma FinishKeepsHashed(w: World, p: Pass, f: Fingerprint)
    requires Hashed(w, f)
    ensures Hashed(Finish(w, p, HashOf(ConfigOf(w, p), f)), f)
  {
    hide SnapshotsAfter, Removed, StaleAfter, Record, HashOf;
  }

  /** Nothing to release: a pass that finds the image and a configuration equal
      to the ones the current release was made from commits the history as it
      was, however its maps and lists are ordered. */
  lemma SameInputsSameHistory(w: World, p: Pass, f: Fingerprint)
    requires HistoryOk(w) && Hashed(w, f) && w.log != []
    requires var now, last := ConfigOf(Restored(w, p), p), w.log[|w.log| - 1];
             && p.image == last.release.image
             && WellFormed(now) && WellFormed(last.config) && SameConfig(now, last.config)
    ensures PassStep(w, p, f).history.releases == w.history.releases
    ensures PassStep(w, p, f).log == w.log
  {
    hide Items, Written, SnapshotsAfter, Removed, StaleAfter, Record;
    var now, last := ConfigOf(Restored(w, p), p), w.log[|w.log| - 1];
    SameItems(now, last.config, f.sorts);
    assert IsCurrent(w.history.releases, p.image, HashOf(now, f));
    UnrecordedHistory(Restored(w, p), p, HashOf(now, f));
  }

  // ---------- a snapshot for every release

  /** The release at i is the oldest of a full history: the one the next release
      pushes out, whose snapshot and image a pass may prune before it commits. */
  predicate NextOut(rs: seq<Release>, i: int) { i == 0 && |rs| == MAX_RELEASES }

  predicate HasSnapshot(w: World, n: int)
    requires 0 < n <= |w.log|
  {
    n in w.snapshots && w.snapshots[n] == Data(w.log[n - 1].config.vars)
  }

  /** Release number n is in the history, and not the next one out. */
  predicate Secure(w: World, n: int) {
    var first := |w.log| - |w.history.releases|;
    first < n <= |w.log| && !NextOut(w.history.releases, n - 1 - first)
  }

  ghost predicate Covered(w: World) {
    && |w.history.releases| <= |w.log|
    && forall n :: Secure(w, n) ==> HasSnapshot(w, n)
  }

  /** Secure releases stay in the in-memory history of the next pass. */
  lemma SecureIsKept(w: World, p: Pass, hash: string, n: int)
    requires HistoryOk(w) && Records(w, p, hash) && (Secure(w, n) || n == |w.log| + 1)
    ensures n in Numbers(InMemory(w, p, hash).releases)
  {
    hide Record;
    NextAfterLog(w);
    RecordWindow(w.history, p.image, hash, p.config.sizes, p.attached);
    var rs, out := InMemory(w, p, hash).releases, |PushedOut(w.history.releases)|;
    if n == |w.log| + 1 {
      assert rs[|rs| - 1].number == n;
    } else {
      var k := n - 1 - (|w.log| - |w.history.releases|);
      assert EntryOk(w.log, n - 1);
      assert w.history.releases[k].number == n;
      assert rs[k - out].number == n;
    }
  }

  lemma FinishKeepsCovered(w: World, p: Pass, hash: string)
    requires HistoryOk(w) && Covered(w) && !p.snapshot.Failed?
    ensures Covered(Finish(w, p, hash))
  {
    hide Removed, StaleAfter, Record, Numbers, Prunes, Commits, EntryOk;
    var w2 := Finish(w, p, hash);
    FinishKeepsHistory(w, p, hash);
    NextAfterLog(w);
    forall n | Secure(w2, n) ensures HasSnapshot(w2, n) {
      if n <= |w.log| { StaysSecure(w, p, hash, n); assert HasSnapshot(w, n); }
      SnapshotStays(w, p, hash, n);
    }
  }

  lemma StaysSecure(w: World, p: Pass, hash: string, n: int)
    requires HistoryOk(w) && n <= |w.log| && Secure(Finish(w, p, hash), n)
    ensures Secure(w, n)
  {
    hide Removed, StaleAfter, Record, SnapshotsAfter, Prunes, EntryOk;
    if Commits(w, p, hash) && Records(w, p, hash) {
      RecordWindow(w.history, p.image, hash, p.config.sizes, p.attached);
    } else {
      UnrecordedHistory(w, p, hash);
    }
  }

  /** A pass keeps the snapshots of secure releases and takes the new one's. */
  lemma SnapshotStays(w: World, p: Pass, hash: string, n: int)
    requires HistoryOk(w) && !p.snapshot.Failed? && 0 < n <= |Finish(w, p, hash).log|
    requires n <= |w.log| ==> Secure(w, n) && HasSnapshot(w, n)
    ensures HasSnapshot(Finish(w, p, hash), n)
  {
    hide Removed, StaleAfter, Record, Numbers, Restored, EntryOk;
    NextAfterLog(w);
    if Records(w, p, hash) && n <= |w.log| + 1 { SecureIsKept(w, p, hash, n); }
  }

  ghost predicate SnapshotsNeverFail(steps: seq<Step>) {
    forall i :: 0 <= i < |steps| && steps[i].Reconcile? ==> !steps[i].pass.snapshot.Failed?
  }

  /** Every run whose snapshot writes succeed or conflict: each committed release
      has the config vars it was hashed from, except perhaps the next one out. */
  lemma {:induction false} SnapshotCoverage(live: Vars, steps: seq<Step>, f: Fingerprint)
    requires SnapshotsNeverFail(steps)
    ensures Covered(Run(NewApp(live), steps, f))
  {
    hide Finish, HashOf, HistoryOk;
    if steps != [] {
      var n := |steps| - 1;
      SnapshotCoverage(live, steps[..n], f);
      DurableHistory(live, steps[..n], f, n);
      var w := Run(NewApp(live), steps[..n], f);
      match steps[n] {
        case Reconcile(p) =>
          var w1 := Restored(w, p);
          LiveDoesNotMatter(w, w1);
          FinishKeepsCovered(w1, p, HashOf(ConfigOf(w1, p), f));
        case SetVars(v) => LiveDoesNotMatter(w, w.(live := v));
      }
    }
  }

  lemma LiveDoesNotMatter(w: World, v: World)
    requires v == w.(live := v.live)
    ensures HistoryOk(w) <==> HistoryOk(v)
    ensures Covered(w) ==> Covered(v)
  {
    if Covered(w) {
      forall n | Secure(v, n) ensures HasSnapshot(v, n) { assert Secure(w, n); assert HasSnapshot(w, n); }
    }
  }

  /** Which releases are committed with the config vars they were hashed from in their
      snapshot: all but those whose snapshot write failed outright while no earlier
      pass had left the same vars under the number. The status is committed all the
      same. */
  lemma BareRelease(w: World, p: Pass, hash: string)
    requires HistoryOk(w) && Finish(w, p, hash).log != w.log
    ensures |Finish(w, p, hash).log| == |w.log| + 1
    ensures HasSnapshot(Finish(w, p, hash), |w.log| + 1) <==>
            !p.snapshot.Failed? || (|w.log| + 1 in w.snapshots && w.snapshots[|w.log| + 1] == Data(w.live))
  {
    hide Removed, StaleAfter, Record, Numbers;
    NextAfterLog(w);
    if Records(w, p, hash) { SecureIsKept(w, p, hash, |w.log| + 1); }
  }

  // ---------- the next one out

  /** The oldest release of a full history, the one the next release pushes out. */
  predicate IsNextOut(w: World, n: int) {
    |w.history.releases| == MAX_RELEASES <= |w.log| && n == |w.log| - MAX_RELEASES + 1
  }

  lemma NextOutLeaves(w: World, p: Pass, hash: string, n: int)
    requires HistoryOk(w) && IsNextOut(w, n) && Records(w, p, hash)
    ensures n !in Numbers(InMemory(w, p, hash).releases)
    ensures w.history.releases[0].number == n && NextNumber(w.history.releases) == |w.log| + 1
  {
    NextAfterLog(w);
    RecordWindow(w.history, p.image, hash, p.config.sizes, p.attached);
    hide Record;
    assert EntryOk(w.log, n - 1);
    var rs := InMemory(w, p, hash).releases;
    forall i | 0 <= i < |rs| ensures rs[i].number != n {
      if i < |rs| - 1 { assert EntryOk(w.log, n + i); }
    }
  }

  /** When the next one out loses its snapshot: exactly when a pass that records and
      gets as far as pruning lists it and its delete goes through. The release is
      then still in the committed history unless the pass commits. */
  lemma NextOutSnapshotExactly(w: World, p: Pass, hash: string, n: int)
    requires HistoryOk(w) && IsNextOut(w, n) && HasSnapshot(w, n)
    ensures n <= |Finish(w, p, hash).log|
    ensures HasSnapshot(Finish(w, p, hash), n) <==>
            !(Records(w, p, hash) && Prunes(w, p, hash) && n in p.listed && p.deleteOk(n))
    ensures n in Numbers(Finish(w, p, hash).history.releases) <==> !(Records(w, p, hash) && Commits(w, p, hash))
  {
    hide Removed, StaleAfter, Record, Numbers, EntryOk, Commits, Prunes;
    FinishKeepsHistory(w, p, hash);
    if Records(w, p, hash) { NextOutLeaves(w, p, hash, n); }
    if !(Records(w, p, hash) && Commits(w, p, hash)) {
      UnrecordedHistory(w, p, hash);
      FirstIsNextOut(w, n);
    }
  }

  lemma FirstIsNextOut(w: World, n: int)
    requires HistoryOk(w) && IsNextOut(w, n)
    ensures n in Numbers(w.history.releases)
  {
    assert EntryOk(w.log, n - 1);
    assert w.history.releases[0].number == n;
  }
}
