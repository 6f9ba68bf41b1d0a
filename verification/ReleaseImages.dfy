/** What happens to the images of an App's releases: none is forgotten, and none
    that the history needs is deleted (internal/controller/status.go:209-234,
    internal/controller/registry.go:74-102). */
module ReleaseImages {
  import opened Basics
  import opened ConfigHash
  import opened Releases
  import opened ReleasePass
  import opened ReleaseRuns

  // ---------- conservation

  /** The image is in a kept release, listed for deletion, deleted, or nothing
      this registry could delete. */
  ghost predicate Accounted(w: World, host: string, img: Image) {
    || UsedBy(w.history.releases, img)
    || img in w.history.stale
    || ManifestOf(img) in w.deleted
    || !Deletable(img, host)
  }

  ghost predicate AllAccounted(w: World, host: string) {
    forall i :: 0 <= i < |w.log| ==> Accounted(w, host, w.log[i].release.image)
  }

  /** Deletes are on, and a client, when there is one, reaches this registry. */
  predicate Deletes(reg: Registry, host: string) {
    reg.deletes && (reg.host.Some? ==> reg.host.value == host)
  }

  /** Pruning takes a deletable image off the list only by deleting it. */
  lemma PruningAccounts(stale: seq<Image>, reg: Registry, host: string, img: Image)
    requires Deletes(reg, host) && img in stale && Deletable(img, host)
    ensures img in StaleAfter(stale, reg) || ManifestOf(img) in Removed(stale, reg)
  {
    var i: nat :| i < |stale| && stale[i] == img;
    if reg.host.Some? {
      RemainingExactly(stale, host, reg.ok, img);
      if reg.ok(i) { assert DeletesAt(stale, i, reg); } else { assert RemainsAt(stale, i, host, reg.ok); }
    }
  }

  /** Recording accounts for every image the old history used or had listed. */
  lemma RecordingAccounts(h: History, image: Image, hash: string, sizes: map<string, string>, bindings: seq<string>,
                          img: Image)
    requires |h.releases| <= MAX_RELEASES && img != NO_IMAGE
    requires UsedBy(h.releases, img) || img in h.stale || img == image
    ensures var next := Record(h, image, hash, sizes, bindings);
            UsedBy(next.releases, img) || img in next.stale
  {
    var next := Record(h, image, hash, sizes, bindings);
    if IsCurrent(h.releases, image, hash) {
      if img == image { assert h.releases[|h.releases| - 1].image == img; }
    } else {
      hide Record;
      RecordWindow(h, image, hash, sizes, bindings);
      var out, rs := PushedOut(h.releases), next.releases;
      UnreferencedExactly(out, ImagesOf(rs), img);
      if img == image {
        assert rs[|rs| - 1].image == img;
      } else if UsedBy(h.releases, img) {
        var i :| 0 <= i < |h.releases| && h.releases[i].image == img;
        if i < |out| { assert out[i].image == img; } else { assert rs[i - |out|].image == img; }
      }
    }
  }

  lemma FinishKeepsAccounted(w: World, p: Pass, hash: string, host: string)
    requires HistoryOk(w) && AllAccounted(w, host) && Deletes(p.registry, host)
    ensures AllAccounted(Finish(w, p, hash), host)
  {
    hide Record, Removed, StaleAfter, SnapshotsAfter, Deletable;
    var w2 := Finish(w, p, hash);
    FinishKeepsHistory(w, p, hash);
    forall i | 0 <= i < |w2.log| ensures Accounted(w2, host, w2.log[i].release.image) {
      assert EntryOk(w2.log, i);
      if i < |w.log| { assert Accounted(w, host, w.log[i].release.image); }
      OneImageAccounted(w, p, hash, host, w2.log[i].release.image);
    }
  }

  lemma OneImageAccounted(w: World, p: Pass, hash: string, host: string, img: Image)
    requires HistoryOk(w) && Deletes(p.registry, host) && img != NO_IMAGE
    requires Accounted(w, host, img) || (Commits(w, p, hash) && img == p.image)
    ensures Accounted(Finish(w, p, hash), host, img)
  {
    hide Record, Removed, StaleAfter, SnapshotsAfter, EntryOk, Deletable;
    if Commits(w, p, hash) && (UsedBy(w.history.releases, img) || img in w.history.stale || img == p.image) {
      RecordingAccounts(w.history, p.image, hash, p.config.sizes, p.attached, img);
      var h := InMemory(w, p, hash);
      if Deletable(img, host) && img in h.stale { PruningAccounts(h.stale, p.registry, host, img); }
    }
  }

  ghost predicate DeletesThroughout(steps: seq<Step>, host: string) {
    forall i :: 0 <= i < |steps| && steps[i].Reconcile? ==> Deletes(steps[i].pass.registry, host)
  }

  /** Every run with registry deletes on: no image ever released is forgotten. */
  lemma {:induction false} ImageConservation(live: Vars, steps: seq<Step>, f: Fingerprint, host: string)
    requires DeletesThroughout(steps, host)
    ensures AllAccounted(Run(NewApp(live), steps, f), host)
  {
    hide Finish, HashOf, HistoryOk, Accounted;
    if steps != [] {
      var n := |steps| - 1;
      ImageConservation(live, steps[..n], f, host);
      DurableHistory(live, steps[..n], f, n);
      var w := Run(NewApp(live), steps[..n], f);
      match steps[n] {
        case Reconcile(p) =>
          var w1 := Restored(w, p);
          LiveDoesNotMatter(w, w1);
          SameAccounts(w, w1, host);
          FinishKeepsAccounted(w1, p, HashOf(ConfigOf(w1, p), f), host);
        case SetVars(v) => SameAccounts(w, w.(live := v), host);
      }
    }
  }

  lemma SameAccounts(w: World, v: World, host: string)
    requires v == w.(live := v.live) && AllAccounted(w, host)
    ensures AllAccounted(v, host)
  {
    forall i | 0 <= i < |v.log| ensures Accounted(v, host, v.log[i].release.image) {
      assert Accounted(w, host, w.log[i].release.image);
    }
  }

  // ---------- safety

  predicate Lost(w: World, host: string, img: Image) {
    Deletable(img, host) && ManifestOf(img) in w.deleted
  }

  /** Some release in rs names the manifest, by whatever tag. */
  ghost predicate Named(rs: seq<Release>, host: string, m: Manifest) {
    exists i :: 0 <= i < |rs| && Deletable(rs[i].image, host) && ManifestOf(rs[i].image) == m
  }

  ghost predicate Listed(stale: seq<Image>, host: string, m: Manifest) {
    exists img :: img in stale && Deletable(img, host) && ManifestOf(img) == m
  }

  /** No secure release lost its image, and no release names a manifest that is listed
      for deletion. */
  ghost predicate ImagesSafe(w: World, host: string) {
    && |w.history.releases| <= |w.log|
    && (forall n :: Secure(w, n) ==> !Lost(w, host, w.log[n - 1].release.image))
    && (forall m :: Listed(w.history.stale, host, m) ==> !Named(w.history.releases, host, m))
  }

  /** The release about to be pushed out hands its image over for deletion. */
  ghost predicate HandsOver(w: World, p: Pass, hash: string) {
    && Records(w, p, hash) && |w.history.releases| == MAX_RELEASES
    && var img := w.history.releases[0].image;
       img != NO_IMAGE && img != p.image && !UsedBy(w.history.releases[1..], img)
  }

  /** A release that stays, or the new one, names the same manifest by another
      reference, which the comparison of references does not see. */
  ghost predicate HasTwin(w: World, p: Pass, host: string)
    requires w.history.releases != []
  {
    var img := w.history.releases[0].image;
    Deletable(img, host) &&
    (|| Named(w.history.releases[1..], host, ManifestOf(img))
     || (Deletable(p.image, host) && ManifestOf(p.image) == ManifestOf(img)))
  }

  /** The pass releases no manifest that is gone or waiting to go, and hands none over
      that a release still names. */
  ghost predicate NotRetired(w: World, p: Pass, hash: string, host: string) {
    && (Records(w, p, hash) && Deletable(p.image, host) ==>
          ManifestOf(p.image) !in w.deleted && !Listed(w.history.stale, host, ManifestOf(p.image)))
    && (HandsOver(w, p, hash) ==> !HasTwin(w, p, host))
  }

  /** What a recording adds to the list: the handed-over image, if there is one. */
  lemma RecordingRetires(w: World, p: Pass, hash: string)
    requires HistoryOk(w)
    ensures var h := InMemory(w, p, hash);
            h.stale == w.history.stale + if HandsOver(w, p, hash) then [w.history.releases[0].image] else []
  {
    hide EntryOk;
    if Records(w, p, hash) {
      RecordWindow(w.history, p.image, hash, p.config.sizes, p.attached);
      hide Record;
      var rs := w.history.releases;
      var out, kept := PushedOut(rs), InMemory(w, p, hash).releases;
      if |rs| == MAX_RELEASES {
        var img := rs[0].image;
        KeptImages(w, p, hash, img);
        assert out[..0] == [] && Unreferenced([], ImagesOf(kept)) == [] && out == [rs[0]];
        assert Unreferenced(out, ImagesOf(kept)) == if img == NO_IMAGE || img in ImagesOf(kept) then [] else [] + [img];
      }
    }
  }

  /** The releases kept by a recording: those that stay, and the new one. */
  lemma KeptImages(w: World, p: Pass, hash: string, img: Image)
    requires HistoryOk(w) && Records(w, p, hash) && |w.history.releases| == MAX_RELEASES
    ensures InMemory(w, p, hash).releases[..MAX_RELEASES - 1] == w.history.releases[1..]
    ensures |InMemory(w, p, hash).releases| == MAX_RELEASES
    ensures InMemory(w, p, hash).releases[MAX_RELEASES - 1].image == p.image
    ensures UsedBy(InMemory(w, p, hash).releases, img) <==> UsedBy(w.history.releases[1..], img) || img == p.image
  {
    hide EntryOk;
    RecordWindow(w.history, p.image, hash, p.config.sizes, p.attached);
    hide Record;
    var rs, kept := w.history.releases[1..], InMemory(w, p, hash).releases;
    assert PushedOut(w.history.releases) == w.history.releases[..1];
    assert kept[..MAX_RELEASES - 1] == rs;
    if UsedBy(kept, img) && img != p.image {
      var i :| 0 <= i < |kept| && kept[i].image == img;
      assert rs[i].image == img;
    }
    if UsedBy(rs, img) {
      var i :| 0 <= i < |rs| && rs[i].image == img;
      assert kept[i].image == img;
    }
    assert kept[MAX_RELEASES - 1].image == p.image;
  }

  lemma NamedAppend(rs: seq<Release>, r: Release, host: string, m: Manifest)
    ensures Named(rs + [r], host, m) <==> Named(rs, host, m) || (Deletable(r.image, host) && ManifestOf(r.image) == m)
  {
    hide Deletable;
    var all := rs + [r];
    assert all[|rs|] == r;
    forall i | 0 <= i < |rs| ensures all[i] == rs[i] {}
    if Named(rs, host, m) {
      var i :| 0 <= i < |rs| && Deletable(rs[i].image, host) && ManifestOf(rs[i].image) == m;
      assert all[i] == rs[i];
    }
  }

  /** The manifests the in-memory history names: those of the releases that stay, and
      the new release's. */
  lemma InMemoryNames(w: World, p: Pass, hash: string, host: string, m: Manifest)
    requires HistoryOk(w)
    ensures var rs := w.history.releases;
            var stay := if HandsOver(w, p, hash) then rs[1..] else rs;
            && (Named(InMemory(w, p, hash).releases, host, m) ==>
                  Named(stay, host, m) || (Deletable(p.image, host) && ManifestOf(p.image) == m))
            && (HandsOver(w, p, hash) && Named(stay, host, m) ==> Named(InMemory(w, p, hash).releases, host, m))
            && (Deletable(p.image, host) && ManifestOf(p.image) == m ==> Named(InMemory(w, p, hash).releases, host, m))
  {
    hide EntryOk, Deletable, Named, UsedBy;
    var rs, kept := w.history.releases, InMemory(w, p, hash).releases;
    if Records(w, p, hash) {
      RecordWindow(w.history, p.image, hash, p.config.sizes, p.attached);
      hide Record;
      NamedAppend(rs[|PushedOut(rs)|..], kept[|kept| - 1], host, m);
      StayIsNamed(w, host, m);
      assert rs[0..] == rs;
    } else {
      CurrentIsNamed(w, p, hash, host, m);
    }
  }

  /** The pass deletes the manifest of an image of the very history it is about to
      commit. */
  ghost predicate RemovesInUse(w: World, p: Pass, hash: string, host: string) {
    exists m :: Named(InMemory(w, p, hash).releases, host, m) && m in Removed(InMemory(w, p, hash).stale, p.registry)
  }

  /** The new release's manifest is the i-th listed one, and goes. */
  predicate RetiredAgain(w: World, p: Pass, i: nat) {
    && i < |w.history.stale| && DeletesAt(w.history.stale, i, p.registry)
    && p.registry.host.Some? && Deletable(p.image, p.registry.host.value)
    && ManifestOf(w.history.stale[i]) == ManifestOf(p.image)
  }

  /** A pass that prunes deletes an image of the very history it is about to commit
      exactly when it releases a manifest again that was still listed, or when the
      image it hands over has a twin; and the registry goes along. */
  lemma DeletesInUseExactly(w: World, p: Pass, hash: string, host: string)
    requires HistoryOk(w) && ImagesSafe(w, host)
    requires p.registry.host == Some(host) && Prunes(w, p, hash)
    ensures RemovesInUse(w, p, hash, host) <==>
            || (exists i: nat :: RetiredAgain(w, p, i))
            || (HandsOver(w, p, hash) && HasTwin(w, p, host) && p.registry.deletes && p.registry.ok(|w.history.stale|))
  {
    hide Record, EntryOk, InMemory, Records;
    var h, stale := InMemory(w, p, hash), w.history.stale;
    RecordingRetires(w, p, hash);
    if RemovesInUse(w, p, hash, host) {
      var m :| Named(h.releases, host, m) && m in Removed(h.stale, p.registry);
      var i: nat :| i < |h.stale| && DeletesAt(h.stale, i, p.registry) && ManifestOf(h.stale[i]) == m;
      InMemoryNames(w, p, hash, host, m);
      if i < |stale| {
        assert h.stale[i] == stale[i] && stale[i] in stale;
        assert Listed(stale, host, m);
        StayIsNamed(w, host, m);
        assert RetiredAgain(w, p, i);
      }
    }
    if i: nat :| RetiredAgain(w, p, i) {
      InMemoryNames(w, p, hash, host, ManifestOf(p.image));
      assert h.stale[i] == stale[i];
      assert DeletesAt(h.stale, i, p.registry);
      assert ManifestOf(p.image) in Removed(h.stale, p.registry);
    }
    if HandsOver(w, p, hash) && HasTwin(w, p, host) && p.registry.deletes && p.registry.ok(|stale|) {
      var img := w.history.releases[0].image;
      InMemoryNames(w, p, hash, host, ManifestOf(img));
      assert DeletesAt(h.stale, |stale|, p.registry);
      assert ManifestOf(img) in Removed(h.stale, p.registry);
    }
  }

  lemma StayIsNamed(w: World, host: string, m: Manifest)
    ensures w.history.releases != [] && Named(w.history.releases[1..], host, m) ==> Named(w.history.releases, host, m)
  {
    hide Deletable;
    var rs := w.history.releases;
    if rs != [] && Named(rs[1..], host, m) {
      var j :| 0 <= j < |rs[1..]| && Deletable(rs[1..][j].image, host) && ManifestOf(rs[1..][j].image) == m;
      assert rs[j + 1] == rs[1..][j];
    }
  }

  /** Under NotRetired no manifest listed after recording is named by the new history. */
  lemma ListedIsUnnamed(w: World, p: Pass, hash: string, host: string, m: Manifest)
    requires HistoryOk(w) && ImagesSafe(w, host) && NotRetired(w, p, hash, host)
    requires Listed(InMemory(w, p, hash).stale, host, m)
    ensures !Named(InMemory(w, p, hash).releases, host, m)
  {
    hide EntryOk, InMemory, Records, Deletable;
    RecordingRetires(w, p, hash);
    InMemoryNames(w, p, hash, host, m);
    StayIsNamed(w, host, m);
    if !Records(w, p, hash) { CurrentIsNamed(w, p, hash, host, m); }
  }

  lemma CurrentIsNamed(w: World, p: Pass, hash: string, host: string, m: Manifest)
    requires !Records(w, p, hash)
    ensures Deletable(p.image, host) && ManifestOf(p.image) == m ==> Named(w.history.releases, host, m)
  {
    var rs := w.history.releases;
    assert rs[|rs| - 1].image == p.image;
  }

  lemma SecureIsNamed(w: World, p: Pass, hash: string, host: string, n: int)
    requires HistoryOk(w) && Secure(w, n) && Deletable(w.log[n - 1].release.image, host)
    ensures Named(InMemory(w, p, hash).releases, host, ManifestOf(w.log[n - 1].release.image))
  {
    hide EntryOk;
    var rs, img := InMemory(w, p, hash).releases, w.log[n - 1].release.image;
    var k := n - 1 - (|w.log| - |w.history.releases|);
    assert w.history.releases[k].image == img;
    if Records(w, p, hash) {
      RecordWindow(w.history, p.image, hash, p.config.sizes, p.attached);
      hide Record;
      assert rs[k - |PushedOut(w.history.releases)|].image == img;
    } else {
      assert rs[k].image == img;
    }
  }

  /** What a pass deletes is nothing its history names. */
  lemma DeletesNoneInUse(w: World, p: Pass, hash: string, host: string, m: Manifest)
    requires HistoryOk(w) && ImagesSafe(w, host) && NotRetired(w, p, hash, host)
    requires p.registry.host.Some? ==> p.registry.host.value == host
    requires Named(InMemory(w, p, hash).releases, host, m)
    ensures m !in Removed(InMemory(w, p, hash).stale, p.registry)
  {
    hide EntryOk, InMemory, Secure, NotRetired;
    var stale := InMemory(w, p, hash).stale;
    if m in Removed(stale, p.registry) {
      var i: nat :| i < |stale| && DeletesAt(stale, i, p.registry) && ManifestOf(stale[i]) == m;
      assert stale[i] in stale;
      ListedIsUnnamed(w, p, hash, host, m);
    }
  }

  lemma StaleShrinks(stale: seq<Image>, reg: Registry, img: Image)
    requires img in StaleAfter(stale, reg)
    ensures img in stale
  {
    if reg.host.Some? { RemainingExactly(stale, reg.host.value, reg.ok, img); }
  }

  lemma FinishKeepsListSafe(w: World, p: Pass, hash: string, host: string, m: Manifest)
    requires HistoryOk(w) && ImagesSafe(w, host) && NotRetired(w, p, hash, host)
    requires Listed(Finish(w, p, hash).history.stale, host, m)
    ensures !Named(Finish(w, p, hash).history.releases, host, m)
  {
    hide EntryOk, InMemory, Secure, Removed, SnapshotsAfter, StaleAfter, NotRetired, Deletable;
    if Commits(w, p, hash) {
      var h := InMemory(w, p, hash);
      var img :| img in Finish(w, p, hash).history.stale && Deletable(img, host) && ManifestOf(img) == m;
      if Prunes(w, p, hash) { StaleShrinks(h.stale, p.registry, img); }
      ListedIsUnnamed(w, p, hash, host, m);
    }
  }

  lemma FinishLosesNone(w: World, p: Pass, hash: string, host: string, n: int)
    requires HistoryOk(w) && ImagesSafe(w, host) && NotRetired(w, p, hash, host)
    requires p.registry.host.Some? ==> p.registry.host.value == host
    requires Secure(Finish(w, p, hash), n)
    ensures !Lost(Finish(w, p, hash), host, Finish(w, p, hash).log[n - 1].release.image)
  {
    hide EntryOk, Record, Removed, SnapshotsAfter, StaleAfter, Deletable, HistoryOk, HasTwin;
    var w2 := Finish(w, p, hash);
    FinishKeepsHistory(w, p, hash);
    SecureInLog(w2, n);
    var img := w2.log[n - 1].release.image;
    if Deletable(img, host) {
      if n <= |w.log| {
        StaysSecure(w, p, hash, n);
        SecureIsNamed(w, p, hash, host, n);
      } else {
        InMemoryNames(w, p, hash, host, ManifestOf(img));
      }
      DeletesNoneInUse(w, p, hash, host, ManifestOf(img));
    }
  }

  lemma FinishKeepsImagesSafe(w: World, p: Pass, hash: string, host: string)
    requires HistoryOk(w) && ImagesSafe(w, host) && NotRetired(w, p, hash, host)
    requires p.registry.host.Some? ==> p.registry.host.value == host
    ensures ImagesSafe(Finish(w, p, hash), host)
  {
    hide EntryOk, InMemory, Secure, Removed, SnapshotsAfter, StaleAfter, Lost, Commits, NotRetired, Listed, Named;
    var w2 := Finish(w, p, hash);
    FinishKeepsHistory(w, p, hash);
    forall n | Secure(w2, n) ensures 0 < n <= |w2.log| && !Lost(w2, host, w2.log[n - 1].release.image) {
      SecureInLog(w2, n);
      FinishLosesNone(w, p, hash, host, n);
    }
    forall m | Listed(w2.history.stale, host, m) ensures !Named(w2.history.releases, host, m) {
      FinishKeepsListSafe(w, p, hash, host, m);
    }
  }

  lemma SecureInLog(w: World, n: int)
    requires HistoryOk(w) && Secure(w, n)
    ensures 0 < n <= |w.log|
  {}

  /** No pass of the run releases a retired manifest again or hands over one with a twin. */
  ghost predicate NeverRetiredAgain(w: World, steps: seq<Step>, f: Fingerprint, host: string) {
    forall i :: 0 <= i < |steps| && steps[i].Reconcile? ==> FineAt(Run(w, steps[..i], f), steps[i].pass, f, host)
  }

  ghost predicate FineAt(w: World, p: Pass, f: Fingerprint, host: string) {
    var w1 := Restored(w, p);
    NotRetired(w1, p, HashOf(ConfigOf(w1, p), f), host) && (p.registry.host.Some? ==> p.registry.host.value == host)
  }

  /** Every run in which retired manifests stay retired: no release of the committed
      history lost its image, but for the next one out, whose image a pass may
      delete before its commit fails. */
  lemma {:induction false} ImagesStaySafe(live: Vars, steps: seq<Step>, f: Fingerprint, host: string)
    requires NeverRetiredAgain(NewApp(live), steps, f, host)
    ensures ImagesSafe(Run(NewApp(live), steps, f), host)
  {
    hide Finish, HashOf, HistoryOk, NotRetired;
    if steps != [] {
      var n := |steps| - 1;
      assert forall i :: 0 <= i < n ==> steps[..n][..i] == steps[..i];
      ImagesStaySafe(live, steps[..n], f, host);
      DurableHistory(live, steps[..n], f, n);
      var w := Run(NewApp(live), steps[..n], f);
      match steps[n] {
        case Reconcile(p) =>
          var w1 := Restored(w, p);
          assert FineAt(w, p, f, host);
          LiveDoesNotMatter(w, w1);
          SafeWhateverIsLive(w, w1, host);
          FinishKeepsImagesSafe(w1, p, HashOf(ConfigOf(w1, p), f), host);
        case SetVars(v) => SafeWhateverIsLive(w, w.(live := v), host);
      }
    }
  }

  lemma SafeWhateverIsLive(w: World, v: World, host: string)
    requires v == w.(live := v.live) && ImagesSafe(w, host)
    ensures ImagesSafe(v, host)
  {
    forall n | Secure(v, n) ensures !Lost(v, host, v.log[n - 1].release.image) {
      assert Secure(w, n);
    }
  }

  /** When the next one out loses its image: exactly when a pass that prunes hands that
      image over and the registry deletes it. The release is then still in the
      committed history unless the pass commits. */
  lemma NextOutImageExactly(w: World, p: Pass, hash: string, host: string, n: int)
    requires HistoryOk(w) && ImagesSafe(w, host) && IsNextOut(w, n) && p.registry.host == Some(host)
    requires var img := w.log[n - 1].release.image; Deletable(img, host) && !Lost(w, host, img)
    ensures n <= |Finish(w, p, hash).log|
    ensures Lost(Finish(w, p, hash), host, w.log[n - 1].release.image) <==>
            Prunes(w, p, hash) && HandsOver(w, p, hash) && p.registry.deletes && p.registry.ok(|w.history.stale|)
  {
    hide EntryOk, InMemory, Records, SnapshotsAfter, StaleAfter, Commits, Record;
    FinishKeepsHistory(w, p, hash);
    var h, stale, img := InMemory(w, p, hash), w.history.stale, w.log[n - 1].release.image;
    assert w.history.releases[0].image == img;
    assert !Listed(stale, host, ManifestOf(img)) by { assert Named(w.history.releases, host, ManifestOf(img)); }
    RecordingRetires(w, p, hash);
    assert forall j :: 0 <= j < |stale| ==> h.stale[j] in stale;
    if ManifestOf(img) in Removed(h.stale, p.registry) {
      var i: nat :| i < |h.stale| && DeletesAt(h.stale, i, p.registry) && ManifestOf(h.stale[i]) == ManifestOf(img);
      assert h.stale[i] !in stale;
      assert HandsOver(w, p, hash) && i == |stale|;
    }
    if HandsOver(w, p, hash) && p.registry.deletes && p.registry.ok(|stale|) {
      assert DeletesAt(h.stale, |stale|, p.registry);
    }
  }
}
