/** Runs from a new App in which the history loses what it should keep. The exact
    conditions are ReleaseRuns.BareRelease, ReleaseRuns.NextOutSnapshotExactly,
    ReleaseImages.NextOutImageExactly and ReleaseImages.DeletesInUseExactly. */
module ReleaseFailures {
  import opened Basics
  import opened ConfigHash
  import opened Releases
  import opened ReleasePass
  import opened ReleaseRuns
  import opened ReleaseImages

  const HOST := "registry"
  const NOTHING_SET := Config(None, None, map[], [], map[], None)

  function Yes(n: int): bool { true }
  function YesAt(n: nat): bool { true }

  /** A pass that deploys an image and meets no failure. */
  function Deploy(image: Image): Pass {
    Pass(0, Done, NOTHING_SET, [], image, Done, Done, [], Yes, Registry(true, Some(HOST), YesAt), Done)
  }

  function Deploys(image: nat -> Image, k: nat): seq<Step> {
    seq(k, i requires 0 <= i < k => Reconcile(Deploy(image(i))))
  }

  ghost predicate AllNew(image: nat -> Image) {
    forall i: nat :: image(i) != NO_IMAGE && image(i) != image(i + 1)
  }

  ghost predicate Filled(w: World, image: nat -> Image, k: nat) {
    && |w.log| == |w.history.releases| == k && w.history.stale == [] && w.deleted == {} && w.live == None
    && (forall i :: 0 <= i < k ==> w.log[i].release == w.history.releases[i] && w.history.releases[i].image == image(i))
    && (forall i :: 0 <= i < k ==> w.log[i].config == NOTHING_SET)
    && (forall n :: 1 <= n <= k ==> n in w.snapshots && w.snapshots[n] == map[])
  }

  lemma NothingToPrune(m: map<int, map<string, string>>, rs: seq<Release>, reg: Registry)
    ensures Kept(m, rs, [], Yes) == m && StaleAfter([], reg) == [] && Removed([], reg) == {}
  {}

  lemma RoomForOne(h: History, image: Image, hash: string)
    requires |h.releases| < MAX_RELEASES && !IsCurrent(h.releases, image, hash)
    ensures Record(h, image, hash, map[], []) ==
            History(h.releases + [Release(NextNumber(h.releases), image, hash, map[], [])], h.stale)
  {
    hide Unreferenced, ImagesOf;
    var all := h.releases + [Release(NextNumber(h.releases), image, hash, map[], [])];
    assert Overflow(all) == 0 && all[0..] == all;
  }

  lemma DeployRecords(w: World, image: nat -> Image, k: nat, hash: string)
    requires AllNew(image) && k < MAX_RELEASES && HistoryOk(w) && Filled(w, image, k)
    ensures var p := Deploy(image(k));
            && Records(w, p, hash) && Prunes(w, p, hash) && Commits(w, p, hash)
            && NextNumber(w.history.releases) == k + 1
            && InMemory(w, p, hash) == History(w.history.releases + [Release(k + 1, image(k), hash, map[], [])], [])
  {
    hide HistoryOk, Record, NextNumber;
    NextAfterLog(w);
    if k > 0 { assert image(k - 1) != image(k - 1 + 1); }
    RoomForOne(w.history, image(k), hash);
  }

  lemma FinishFields(w: World, image: nat -> Image, k: nat, hash: string)
    requires AllNew(image) && k < MAX_RELEASES && HistoryOk(w) && Filled(w, image, k)
    ensures var p, r := Deploy(image(k)), Release(k + 1, image(k), hash, map[], []);
            Finish(w, p, hash) == World(History(w.history.releases + [r], []), w.live, w.snapshots[k + 1 := map[]],
                                        w.deleted, w.log + [Entry(r, ConfigOf(w, p))])
  {
    var p := Deploy(image(k));
    DeployRecords(w, image, k, hash);
    assert w.live == None;
    hide InMemory, Records, Prunes, Commits, Kept, StaleAfter, Removed, NextNumber, Filled, HistoryOk, AllNew;
    var h := InMemory(w, p, hash);
    NothingToPrune(w.snapshots[k + 1 := map[]], h.releases, p.registry);
    assert w.deleted + {} == w.deleted;
  }

  lemma FillOne(w: World, r: Release, image: nat -> Image, k: nat)
    requires Filled(w, image, k) && r.image == image(k)
    ensures Filled(World(History(w.history.releases + [r], []), w.live, w.snapshots[k + 1 := map[]],
                         w.deleted, w.log + [Entry(r, NOTHING_SET)]), image, k + 1)
  {}

  lemma DeployFills(w: World, image: nat -> Image, k: nat, hash: string)
    requires AllNew(image) && k < MAX_RELEASES && HistoryOk(w) && Filled(w, image, k)
    ensures Filled(Finish(w, Deploy(image(k)), hash), image, k + 1)
  {
    FinishFields(w, image, k, hash);
    assert ConfigOf(w, Deploy(image(k))) == NOTHING_SET;
    hide HistoryOk, AllNew, Finish, Filled;
    FillOne(w, Release(k + 1, image(k), hash, map[], []), image, k);
  }

  lemma {:induction false} DeploysFill(image: nat -> Image, k: nat, f: Fingerprint)
    requires AllNew(image) && k <= MAX_RELEASES
    ensures Filled(Run(NewApp(None), Deploys(image, k), f), image, k)
    ensures HistoryOk(Run(NewApp(None), Deploys(image, k), f))
  {
    hide Finish, HashOf, HistoryOk, Filled, AllNew;
    DurableHistory(None, Deploys(image, k), f, k);
    if k == 0 {
      assert Filled(NewApp(None), image, 0) by { NothingFilled(image); }
    } else {
      assert Deploys(image, k)[..k - 1] == Deploys(image, k - 1);
      DeploysFill(image, k - 1, f);
      var w := Run(NewApp(None), Deploys(image, k - 1), f);
      DeployFills(w, image, k - 1, HashOf(ConfigOf(w, Deploy(image(k - 1))), f));
    }
  }

  lemma NothingFilled(image: nat -> Image)
    ensures Filled(NewApp(None), image, 0)
  {}

  lemma FilledIsSafe(w: World, image: nat -> Image)
    requires HistoryOk(w) && Filled(w, image, MAX_RELEASES)
    ensures ImagesSafe(w, HOST) && IsNextOut(w, 1) && HasSnapshot(w, 1)
    ensures forall i :: 0 <= i < MAX_RELEASES ==> !Lost(w, HOST, image(i))
  {}

  // ---------- pruned before the commit

  function Digest(i: nat): string { seq(i + 1, _ => 'a') }

  lemma DigestsDiffer(i: nat, j: nat)
    requires i != j
    ensures Digest(i) != Digest(j)
  {
    assert |Digest(i)| == i + 1 && |Digest(j)| == j + 1;
  }

  function OwnImage(i: nat): Image { Image(HOST, "app", "", Digest(i)) }

  lemma OwnImagesAreNew()
    ensures AllNew(OwnImage)
  {
    forall i: nat ensures OwnImage(i) != OwnImage(i + 1) { DigestsDiffer(i, i + 1); }
  }

  /** The twenty-first deployment, whose status commit conflicts. */
  function ConflictingPass(): Pass { Deploy(OwnImage(MAX_RELEASES)).(listed := [1], commit := Conflict) }

  lemma OwnHandsOver(w: World, hash: string)
    requires HistoryOk(w) && Filled(w, OwnImage, MAX_RELEASES)
    ensures var p := ConflictingPass(); Records(w, p, hash) && Prunes(w, p, hash) && HandsOver(w, p, hash)
  {
    hide HistoryOk, Digest;
    var p := ConflictingPass();
    forall i | 0 <= i < MAX_RELEASES ensures w.history.releases[i].image != p.image { DigestsDiffer(i, MAX_RELEASES); }
    var rest := w.history.releases[1..];
    forall i | 0 <= i < |rest| ensures rest[i].image != OwnImage(0) {
      assert rest[i] == w.history.releases[i + 1];
      DigestsDiffer(0, i + 1);
    }
  }

  /** Both halves happen: a full history, one pass that records, prunes and then
      conflicts; release 1 is still in the committed history, without its config
      snapshot and without its image. */
  lemma NextOutLosesBoth(f: Fingerprint)
    ensures var w := Run(NewApp(None), Deploys(OwnImage, MAX_RELEASES), f);
            var w2 := PassStep(w, ConflictingPass(), f);
            && 1 <= |w.log| && HasSnapshot(w, 1) && !Lost(w, HOST, OwnImage(0))
            && w2.history == w.history && w2.log == w.log && w2.history.releases != []
            && w2.history.releases[0].number == 1 && w2.history.releases[0].image == OwnImage(0)
            && !HasSnapshot(w2, 1) && Lost(w2, HOST, OwnImage(0))
  {
    OwnImagesAreNew();
    DeploysFill(OwnImage, MAX_RELEASES, f);
    var w := Run(NewApp(None), Deploys(OwnImage, MAX_RELEASES), f);
    var p := ConflictingPass();
    var hash := HashOf(ConfigOf(w, p), f);
    FilledIsSafe(w, OwnImage);
    OwnHandsOver(w, hash);
    NextOutSnapshotExactly(w, p, hash, 1);
    NextOutImageExactly(w, p, hash, HOST, 1);
    NextOutLeaves(w, p, hash, 1);
    hide HashOf, HandsOver, Filled;
    assert Restored(w, p) == w;
    UnrecordedHistory(w, p, hash);
    assert Finish(w, p, hash).history == w.history;
  }

  // ---------- one manifest under two tags

  /** The first and the sixth release name one manifest by two tags. */
  function TwinImage(i: nat): Image {
    if i == 0 then Image(HOST, "app", "v1", Digest(0))
    else if i == 5 then Image(HOST, "app", "v2", Digest(0))
    else OwnImage(i)
  }

  lemma TwinsAreNew()
    ensures AllNew(TwinImage)
  {
    forall i: nat ensures TwinImage(i) != TwinImage(i + 1) { DigestsDiffer(i, i + 1); }
  }

  /** The twenty-first deployment hands the first image over. */
  lemma TwinHandsOver(w: World, hash: string)
    requires HistoryOk(w) && Filled(w, TwinImage, MAX_RELEASES)
    ensures HandsOver(w, Deploy(TwinImage(MAX_RELEASES)), hash)
  {
    hide HistoryOk, Digest;
    var p := Deploy(TwinImage(MAX_RELEASES));
    forall i | 0 <= i < MAX_RELEASES ensures w.history.releases[i].image != p.image { DigestsDiffer(i, MAX_RELEASES); }
    var rest := w.history.releases[1..];
    forall i | 0 <= i < |rest| ensures rest[i].image != TwinImage(0) {
      assert rest[i] == w.history.releases[i + 1];
      DigestsDiffer(0, i + 1);
    }
  }

  /** And the registry deletes its manifest. */
  lemma TwinRemoved(w: World, hash: string)
    requires HistoryOk(w) && Filled(w, TwinImage, MAX_RELEASES)
    ensures var w2 := Finish(w, Deploy(TwinImage(MAX_RELEASES)), hash);
            ManifestOf(TwinImage(5)) in w2.deleted && Deletable(TwinImage(5), HOST)
  {
    var p := Deploy(TwinImage(MAX_RELEASES));
    TwinHandsOver(w, hash);
    RecordingRetires(w, p, hash);
    hide Record, HandsOver, HistoryOk, SnapshotsAfter;
    var h := InMemory(w, p, hash);
    assert h.stale == [] + [TwinImage(0)] == [TwinImage(0)];
    assert DeletesAt(h.stale, 0, p.registry);
    assert ManifestOf(TwinImage(0)) == ManifestOf(TwinImage(5));
  }

  /** The pass commits, and the sixth release stays. */
  lemma TwinCommits(w: World, hash: string)
    requires HistoryOk(w) && Filled(w, TwinImage, MAX_RELEASES)
    ensures var w2 := Finish(w, Deploy(TwinImage(MAX_RELEASES)), hash);
            |w2.log| == MAX_RELEASES + 1 && Secure(w2, 6) && w2.log[5].release.image == TwinImage(5)
  {
    var p := Deploy(TwinImage(MAX_RELEASES));
    TwinHandsOver(w, hash);
    RecordWindow(w.history, p.image, hash, p.config.sizes, p.attached);
    hide Record, HistoryOk, SnapshotsAfter, Removed, StaleAfter;
    assert Finish(w, p, hash).log[5] == w.log[5];
  }

  /** A pass without any failure, with nothing listed for deletion, deletes the manifest
      of the sixth release when the first is pushed out, and commits. */
  lemma TwinIsDeletedInUse(f: Fingerprint)
    ensures var w := Run(NewApp(None), Deploys(TwinImage, MAX_RELEASES), f);
            var p := Deploy(TwinImage(MAX_RELEASES));
            var w2 := PassStep(w, p, f);
            && w.history.stale == [] && ImagesSafe(w, HOST)
            && |w2.log| == MAX_RELEASES + 1 && Secure(w2, 6) && w2.log[5].release.image == TwinImage(5)
            && Lost(w2, HOST, w2.log[5].release.image)
  {
    TwinsAreNew();
    DeploysFill(TwinImage, MAX_RELEASES, f);
    hide HashOf, Finish, HistoryOk, Secure, Deletable, Run;
    var w := Run(NewApp(None), Deploys(TwinImage, MAX_RELEASES), f);
    var p := Deploy(TwinImage(MAX_RELEASES));
    FilledIsSafe(w, TwinImage);
    TwinRemoved(w, HashOf(ConfigOf(w, p), f));
    TwinCommits(w, HashOf(ConfigOf(w, p), f));
    assert Restored(w, p) == w;
  }

  // ---------- a snapshot of other vars

  predicate Apart(a: Vars, b: Vars) { Data(a) != Data(b) }

  lemma FirstRecord(w: World, p: Pass, image: Image, hash: string)
    requires image != NO_IMAGE && w.history == History([], [])
    requires p == Deploy(image).(snapshot := p.snapshot, commit := p.commit)
    ensures Records(w, p, hash) && !StopsEarly(p) && NextNumber(w.history.releases) == 1
    ensures InMemory(w, p, hash) == History([Release(1, image, hash, map[], [])], [])
  {
    hide Record;
    RoomForOne(w.history, image, hash);
    var r := Release(1, image, hash, map[], []);
    assert [] + [r] == [r];
  }

  lemma ConflictLeavesSnapshot(was: Vars, image: Image, hash: string)
    requires image != NO_IMAGE
    ensures Finish(NewApp(was), Deploy(image).(commit := Conflict), hash) ==
            NewApp(was).(snapshots := map[1 := Data(was)])
  {
    var w, p := NewApp(was), Deploy(image).(commit := Conflict);
    FirstRecord(w, p, image, hash);
    hide InMemory, Kept, StaleAfter, Removed, Records, StopsEarly, NextNumber;
    NothingToPrune(map[1 := Data(was)], InMemory(w, p, hash).releases, p.registry);
  }

  lemma CommittedAllTheSame(w: World, image: Image, hash: string)
    requires image != NO_IMAGE && w.history == History([], []) && w.log == []
    ensures var w2 := Finish(w, Deploy(image).(snapshot := Failed), hash);
            && |w2.log| == 1 && w2.log[0].config.vars == w.live && |w2.history.releases| == 1
            && w2.snapshots == w.snapshots
  {
    FirstRecord(w, Deploy(image).(snapshot := Failed), image, hash);
    hide InMemory, Kept, StaleAfter, Removed, Records, StopsEarly, NextNumber;
  }

  /** A conflicting pass leaves its snapshot behind; the vars change; the next pass's
      snapshot write fails and its status is committed. Release 1 was hashed from the
      new vars, its snapshot holds the old ones, and a rollback to it would restore
      vars no release ever ran with. */
  lemma SnapshotOfOtherVars(was: Vars, now: Vars, image: Image, f: Fingerprint)
    requires Apart(was, now) && image != NO_IMAGE
    ensures var first := Reconcile(Deploy(image).(commit := Conflict));
            var second := Reconcile(Deploy(image).(snapshot := Failed));
            var w := Run(NewApp(was), [first, SetVars(now), second], f);
            && |w.log| == 1 && w.log[0].config.vars == now && |w.history.releases| == 1
            && !HasSnapshot(w, 1) && 1 in w.snapshots && w.snapshots[1] == Data(was)
            && forall p: Pass :: p.rollbackTo == 1 && p.restore.Done? ==> Restored(w, p).live == Some(Data(was))
  {
    hide HashOf, Finish;
    var p1, p2 := Deploy(image).(commit := Conflict), Deploy(image).(snapshot := Failed);
    var steps := [Reconcile(p1), SetVars(now), Reconcile(p2)];
    var w0 := NewApp(was);
    ConflictLeavesSnapshot(was, image, HashOf(ConfigOf(w0, p1), f));
    var w1 := w0.(snapshots := map[1 := Data(was)]);
    var w2 := w1.(live := now);
    assert Run(w0, [Reconcile(p1)], f) == w1 by { assert [Reconcile(p1)][..0] == []; }
    assert Run(w0, [Reconcile(p1), SetVars(now)], f) == w2 by {
      assert [Reconcile(p1), SetVars(now)][..1] == [Reconcile(p1)];
    }
    assert steps[..2] == [Reconcile(p1), SetVars(now)];
    CommittedAllTheSame(w2, image, HashOf(ConfigOf(w2, p2), f));
    assert Run(w0, steps, f) == PassStep(w2, p2, f);
  }
}
