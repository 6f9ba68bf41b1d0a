/** What one pass leaves of everything a release consists of, for every world and every
    outcome of its calls, said of the fields themselves
    (internal/controller/app_controller.go:156-194, 229-239, 357-398,
    internal/controller/registry.go:77-103, internal/controller/snapshots.go:57-112). */
module ReleaseOutcomes {
  import opened Basics
  import opened ConfigHash
  import opened Releases
  import opened ReleasePass
  import opened ReleaseRuns

  /** The config vars the pass hashes: a requested rollback puts the snapshot's in their
      place. */
  function VarsMet(w: World, p: Pass): Vars {
    if p.rollbackTo > 0 && p.restore == Done && p.rollbackTo in w.snapshots then Some(w.snapshots[p.rollbackTo])
    else w.live
  }

  ghost function HashMet(w: World, p: Pass, f: Fingerprint): string {
    f.digest(Stream(p.config.(vars := VarsMet(w, p)), f.json, f.sorts))
  }

  /** A pass that cannot restore the vars it was asked to, has no image to run, or fails on
      the workloads leaves everything as it was but the restored vars. */
  lemma StoppedPassLeavesAll(w: World, p: Pass, f: Fingerprint)
    requires (p.rollbackTo > 0 && p.restore != Done) || p.image == Image("", "", "", "") || p.workloads != Done
    ensures PassStep(w, p, f) == w.(live := VarsMet(w, p))
  {
    var w1 := Restored(w, p);
    StopsHere(w1, p, HashOf(ConfigOf(w1, p), f));
  }

  /** A release is recorded and committed exactly when the restore, if one was asked for,
      went through, there is an image, the workloads were applied, the snapshot met no
      conflict and the status no refusal, and the image or the fingerprint is not that
      of the last release; and then this is the release. */
  lemma RecordsExactly(w: World, p: Pass, f: Fingerprint)
    requires HistoryOk(w)
    ensures var w2, n := PassStep(w, p, f), |w.log|;
            && w2.live == VarsMet(w, p)
            && (w2.log != w.log <==>
                  && (p.rollbackTo > 0 ==> p.restore == Done)
                  && p.image != Image("", "", "", "") && p.workloads == Done
                  && p.snapshot != Conflict && p.commit == Done
                  && (n == 0 || w.log[n - 1].release.image != p.image || w.log[n - 1].release.hash != HashMet(w, p, f)))
            && (w2.log != w.log ==>
                  w2.log == w.log + [Entry(Release(n + 1, p.image, HashMet(w, p, f), p.config.sizes, p.attached),
                                           p.config.(vars := VarsMet(w, p)))])
  {
    hide SnapshotsAfter, Removed, StaleAfter, Record, Stream;
    var w1 := Restored(w, p);
    NextAfterLog(w1);
    CurrentIsLast(w, p.image, HashMet(w, p, f));
    assert HashOf(ConfigOf(w1, p), f) == HashMet(w, p, f);
  }

  lemma CurrentIsLast(w: World, image: Image, hash: string)
    requires HistoryOk(w)
    ensures var n := |w.log|;
            !IsCurrent(w.history.releases, image, hash) <==>
            n == 0 || w.log[n - 1].release.image != image || w.log[n - 1].release.hash != hash
  {
    var rs := w.history.releases;
    if rs != [] { assert rs[|rs| - 1] == w.log[|w.log| - 1].release; }
  }

  /** The status holds the last twenty releases of the log before and after. */
  lemma HistoryIsEndOfLog(w: World, p: Pass, f: Fingerprint)
    requires HistoryOk(w)
    ensures var w2 := PassStep(w, p, f);
            var rs, n := w2.history.releases, |w2.log|;
            && |rs| == (if n <= 20 then n else 20)
            && forall i :: 0 <= i < |rs| ==> rs[i] == w2.log[n - |rs| + i].release && rs[i].number == n - |rs| + i + 1
  {
    hide Finish, HashOf, EntryOk;
    var w1 := Restored(w, p);
    FinishKeepsHistory(w1, p, HashOf(ConfigOf(w1, p), f));
    var w2 := PassStep(w, p, f);
    forall i | 0 <= i < |w2.log| ensures w2.log[i].release.number == i + 1 {
      assert EntryOk(w2.log, i);
      NumberAt(w2.log, i);
    }
  }

  lemma NumberAt(log: seq<Entry>, i: nat)
    requires i < |log| && EntryOk(log, i)
    ensures log[i].release.number == i + 1
  {}

  /** The snapshots after a pass: one that meets a new image or configuration and can
      write snapshots takes that of the new release, committed or not, and drops those
      the API lists, outside the last twenty, whose delete goes through. */
  lemma SnapshotsExactly(w: World, p: Pass, f: Fingerprint, m: int)
    requires HistoryOk(w)
    ensures var w2, n := PassStep(w, p, f), |w.log|;
            var takes :=
              && (p.rollbackTo > 0 ==> p.restore == Done)
              && p.image != Image("", "", "", "") && p.workloads == Done && p.snapshot == Done
              && (n == 0 || w.log[n - 1].release.image != p.image || w.log[n - 1].release.hash != HashMet(w, p, f));
            if takes then
              && (m in w2.snapshots <==>
                    && (m in w.snapshots || m == n + 1)
                    && !(m in p.listed && p.deleteOk(m) && !(n + 1 - 20 < m <= n + 1 && m > 0)))
              && (m in w2.snapshots ==> w2.snapshots[m] == if m == n + 1 then Data(VarsMet(w, p)) else w.snapshots[m])
            else w2.snapshots == w.snapshots
  {
    hide Removed, StaleAfter, Record, Stream, InMemory;
    var w1, hash := Restored(w, p), HashMet(w, p, f);
    assert HashOf(ConfigOf(w1, p), f) == hash;
    NextAfterLog(w1);
    CurrentIsLast(w, p.image, hash);
    if Records(w1, p, hash) {
      KeptNumbers(w1, p, hash, m);
    }
  }

  lemma KeptNumbers(w: World, p: Pass, hash: string, m: int)
    requires HistoryOk(w) && Records(w, p, hash)
    ensures m in Numbers(InMemory(w, p, hash).releases) <==> |w.log| + 1 - 20 < m <= |w.log| + 1 && m > 0
  {
    hide EntryOk;
    RecordWindow(w.history, p.image, hash, p.config.sizes, p.attached);
    NextAfterLog(w);
    hide Record;
    var rs, n := InMemory(w, p, hash).releases, |w.log|;
    forall i | 0 <= i < |w.log| ensures w.log[i].release.number == i + 1 {
      assert EntryOk(w.log, i);
      NumberAt(w.log, i);
    }
    assert forall i :: 0 <= i < |rs| ==> rs[i].number == n + 1 - |rs| + 1 + i;
    if n + 1 - 20 < m <= n + 1 && m > 0 { assert rs[m - (n + 1 - |rs| + 1)].number == m; }
  }

  /** What deleting retired images takes from the registry and leaves on the list, in
      every case. */
  lemma PruneExactly(stale: seq<Image>, reg: Registry, img: Image, m: Manifest)
    ensures img in StaleAfter(stale, reg) <==>
            && reg.deletes
            && (if reg.host == None then img in stale
                else exists i: nat :: i < |stale| && stale[i] == img && !reg.ok(i)
                                      && stale[i].host == reg.host.value && stale[i].digest != "")
    ensures m in Removed(stale, reg) <==>
            && reg.deletes && reg.host != None
            && exists i: nat :: i < |stale| && reg.ok(i) && stale[i].host == reg.host.value && stale[i].digest != ""
                                && stale[i].repo == m.repo && stale[i].digest == m.digest
  {
    if reg.host.Some? { RemainingExactly(stale, reg.host.value, reg.ok, img); }
    if i: nat :| i < |stale| && stale[i] == img && !reg.ok(i) && reg.host.Some?
                 && stale[i].host == reg.host.value && stale[i].digest != "" {
      assert RemainsAt(stale, i, reg.host.value, reg.ok);
    }
    if i: nat :| i < |stale| && reg.deletes && reg.host.Some? && reg.ok(i) && stale[i].host == reg.host.value
                 && stale[i].digest != "" && stale[i].repo == m.repo && stale[i].digest == m.digest {
      assert DeletesAt(stale, i, reg) && ManifestOf(stale[i]) == m;
    }
  }

  /** When a pass deletes retired images at all, and when it commits what is left of the
      list: what it deletes from is the committed list and the image its release pushes
      out of a full history, if no kept release has it. */
  lemma RetiresExactly(w: World, p: Pass, f: Fingerprint)
    requires HistoryOk(w)
    ensures var w2, n, rs := PassStep(w, p, f), |w.log|, w.history.releases;
            var through := (p.rollbackTo > 0 ==> p.restore == Done)
                           && p.image != Image("", "", "", "") && p.workloads == Done;
            var recorded := n == 0 || w.log[n - 1].release.image != p.image
                            || w.log[n - 1].release.hash != HashMet(w, p, f);
            var out := if recorded && |rs| == 20 && rs[0].image != Image("", "", "", "") && rs[0].image != p.image
                          && (forall i :: 1 <= i < 20 ==> rs[i].image != rs[0].image) then [rs[0].image] else [];
            var list := w.history.stale + out;
            && w2.deleted == w.deleted + (if through && (recorded ==> p.snapshot == Done) then Removed(list, p.registry)
                                          else {})
            && w2.history.stale == (if !through || p.commit != Done || (recorded && p.snapshot == Conflict)
                                    then w.history.stale
                                    else if recorded && p.snapshot == Failed then list
                                    else StaleAfter(list, p.registry))
  {
    hide Removed, StaleAfter, Stream, SnapshotsAfter;
    var w1, hash := Restored(w, p), HashMet(w, p, f);
    assert HashOf(ConfigOf(w1, p), f) == hash;
    CurrentIsLast(w, p.image, hash);
    PushesOut(w, p, hash);
    hide Record;
  }

  lemma PushesOut(w: World, p: Pass, hash: string)
    requires HistoryOk(w)
    ensures var rs := w.history.releases;
            InMemory(w, p, hash).stale == w.history.stale +
              if Records(w, p, hash) && |rs| == 20 && rs[0].image != Image("", "", "", "") && rs[0].image != p.image
                 && (forall i :: 1 <= i < 20 ==> rs[i].image != rs[0].image) then [rs[0].image] else []
  {
    var rs := w.history.releases;
    if !Records(w, p, hash) {
      assert w.history.stale + [] == w.history.stale;
      return;
    }
    RecordWindow(w.history, p.image, hash, p.config.sizes, p.attached);
    var next := InMemory(w, p, hash).releases;
    hide Record, EntryOk;
    if |rs| == 20 {
      var img := rs[0].image;
      assert rs[..1][..0] == [] && Unreferenced([], ImagesOf(next)) == [];
      assert next[19].image == p.image && forall i :: 1 <= i < 20 ==> next[i - 1] == rs[i];
      assert UsedBy(next, img) <==> img == p.image || exists i :: 1 <= i < 20 && rs[i].image == img by {
        if i :| 0 <= i < 20 && next[i].image == img { if i < 19 { assert rs[i + 1].image == img; } }
        if i :| 1 <= i < 20 && rs[i].image == img { assert next[i - 1].image == img; }
        if img == p.image { assert next[19].image == img; }
      }
      assert rs[..1][0] == rs[0];
      assert Unreferenced(rs[..1], ImagesOf(next)) == if img == NO_IMAGE || img in ImagesOf(next) then [] else [img];
    } else {
      assert Unreferenced([], ImagesOf(next)) == [];
    }
  }
}
