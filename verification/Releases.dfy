/** The release history on an App's status and the retirement of images that
    leave it (internal/controller/status.go:170-234, registry.go:74-102). */
module Releases {
  import opened Basics

  /** An image reference by its parts, as the registry client splits it. */
  datatype Image = Image(host: string, repo: string, tag: string, digest: string)

  const NO_IMAGE := Image("", "", "", "")
  const MAX_RELEASES: nat := 20

  datatype Release = Release(
    number: int,
    image: Image,
    hash: string,
    sizes: map<string, string>,
    bindings: seq<string>)

  /** The registry keeps manifests by repository and digest; tags do not matter. */
  datatype Manifest = Manifest(repo: string, digest: string)

  function ManifestOf(img: Image): Manifest { Manifest(img.repo, img.digest) }

  predicate Deletable(img: Image, host: string) { img.host == host && img.digest != "" }

  // ---------- recording

  predicate IsCurrent(rs: seq<Release>, image: Image, hash: string) {
    rs != [] && rs[|rs| - 1].image == image && rs[|rs| - 1].hash == hash
  }

  function NextNumber(rs: seq<Release>): int {
    if rs == [] then 1 else rs[|rs| - 1].number + 1
  }

  function Overflow(rs: seq<Release>): nat {
    if |rs| > MAX_RELEASES then |rs| - MAX_RELEASES else 0
  }

  ghost predicate UsedBy(rs: seq<Release>, img: Image) {
    exists i :: 0 <= i < |rs| && rs[i].image == img
  }

  /** The images of dropped releases that no kept release uses, oldest first. */
  function Unreferenced(dropped: seq<Release>, inUse: set<Image>): seq<Image> {
    if dropped == [] then [] else
    var n := |dropped| - 1;
    var front, img := Unreferenced(dropped[..n], inUse), dropped[n].image;
    if img == NO_IMAGE || img in inUse || img in front then front else front + [img]
  }

  function ImagesOf(rs: seq<Release>): (images: set<Image>)
    ensures forall img :: img in images <==> UsedBy(rs, img)
  {
    set i | 0 <= i < |rs| :: rs[i].image
  }

  /** Exactly the named images of dropped releases that no kept release uses, each once. */
  lemma {:induction false} UnreferencedExactly(dropped: seq<Release>, inUse: set<Image>, img: Image)
    ensures var out := Unreferenced(dropped, inUse);
            && (img in out <==> img != NO_IMAGE && UsedBy(dropped, img) && img !in inUse)
            && (forall i, j :: 0 <= i < j < |out| ==> out[i] != out[j])
  {
    if dropped != [] {
      var n := |dropped| - 1;
      UnreferencedExactly(dropped[..n], inUse, img);
      assert UsedBy(dropped, img) <==> UsedBy(dropped[..n], img) || dropped[n].image == img by {
        if UsedBy(dropped, img) {
          var i :| 0 <= i < |dropped| && dropped[i].image == img;
          if i < n { assert dropped[..n][i].image == img; }
        }
        if UsedBy(dropped[..n], img) {
          var i :| 0 <= i < n && dropped[..n][i].image == img;
          assert dropped[i].image == img;
        }
      }
    }
  }

  method UnreferencedImages(dropped: seq<Release>, kept: seq<Release>) returns (out: seq<Image>)
    ensures out == Unreferenced(dropped, ImagesOf(kept))
  {
    var inUse: set<Image> := {};
    for k := 0 to |kept|
      invariant inUse == ImagesOf(kept[..k])
    {
      inUse := inUse + {kept[k].image};
      assert kept[..k + 1] == kept[..k] + [kept[k]];
    }
    assert kept[..|kept|] == kept;
    out := [];
    var seen: set<Image> := {};
    for k := 0 to |dropped|
      invariant out == Unreferenced(dropped[..k], inUse)
      invariant forall img :: img in seen <==> img in out
    {
      var img := dropped[k].image;
      assert dropped[..k + 1][..k] == dropped[..k];
      if img == NO_IMAGE || img in inUse || img in seen {
        continue;
      }
      seen := seen + {img};
      out := out + [img];
    }
    assert dropped[..|dropped|] == dropped;
  }

  /** Status.releases and Status.staleImages after recording. */
  datatype History = History(releases: seq<Release>, stale: seq<Image>)

  function Record(h: History, image: Image, hash: string, sizes: map<string, string>, bindings: seq<string>): History {
    if IsCurrent(h.releases, image, hash) then h else
    var all := h.releases + [Release(NextNumber(h.releases), image, hash, sizes, bindings)];
    var n := Overflow(all);
    History(all[n..], if n == 0 then h.stale else h.stale + Unreferenced(all[..n], ImagesOf(all[n..])))
  }

  /** The releases a recording pushes out of a history within bounds. */
  function PushedOut(rs: seq<Release>): seq<Release> {
    if |rs| == MAX_RELEASES then rs[..1] else []
  }

  /** Recording keeps the history within bounds: the oldest release makes room
      for the new one, and hands over its image if nobody else uses it. */
  lemma RecordWindow(h: History, image: Image, hash: string, sizes: map<string, string>, bindings: seq<string>)
    requires |h.releases| <= MAX_RELEASES && !IsCurrent(h.releases, image, hash)
    ensures var out, next := PushedOut(h.releases), Record(h, image, hash, sizes, bindings);
            && next.releases == h.releases[|out|..] + [Release(NextNumber(h.releases), image, hash, sizes, bindings)]
            && next.stale == h.stale + Unreferenced(out, ImagesOf(next.releases))
            && |next.releases| <= MAX_RELEASES
  {
    var rs := h.releases;
    var all := rs + [Release(NextNumber(rs), image, hash, sizes, bindings)];
    if |rs| == MAX_RELEASES {
      assert Overflow(all) == 1 && all[..1] == rs[..1] && all[1..] == rs[1..] + all[|rs|..];
    } else {
      assert Overflow(all) == 0 && all[0..] == all && h.stale == h.stale + [];
    }
  }

  // ---------- deleting retired images

  /** The registry as one pass meets it: whether deletes are on, the host its
      client reaches (none when the client cannot be built), and the answer to
      the i-th delete. */
  datatype Registry = Registry(deletes: bool, host: Option<string>, ok: nat -> bool)

  predicate DeletesAt(stale: seq<Image>, i: nat, reg: Registry)
    requires i < |stale|
  {
    reg.deletes && reg.host.Some? && Deletable(stale[i], reg.host.value) && reg.ok(i)
  }

  predicate RemainsAt(stale: seq<Image>, i: nat, host: string, ok: nat -> bool)
    requires i < |stale|
  {
    Deletable(stale[i], host) && !ok(i)
  }

  function Remaining(stale: seq<Image>, host: string, ok: nat -> bool): seq<Image> {
    if stale == [] then [] else
    var n := |stale| - 1;
    Remaining(stale[..n], host, ok) + (if RemainsAt(stale, n, host, ok) then [stale[n]] else [])
  }

  function StaleAfter(stale: seq<Image>, reg: Registry): seq<Image> {
    if !reg.deletes then [] else
    if reg.host.None? then stale else Remaining(stale, reg.host.value, reg.ok)
  }

  function Removed(stale: seq<Image>, reg: Registry): set<Manifest> {
    set i: nat | i < |stale| && DeletesAt(stale, i, reg) :: ManifestOf(stale[i])
  }

  /** What stays listed is what could be deleted here but was refused. */
  lemma {:induction false} RemainingExactly(stale: seq<Image>, host: string, ok: nat -> bool, img: Image)
    ensures img in Remaining(stale, host, ok)
            <==> exists i: nat :: i < |stale| && stale[i] == img && RemainsAt(stale, i, host, ok)
  {
    if stale != [] {
      var n := |stale| - 1;
      RemainingExactly(stale[..n], host, ok, img);
      assert forall i: nat :: i < n ==> (RemainsAt(stale[..n], i, host, ok) <==> RemainsAt(stale, i, host, ok));
      if img in Remaining(stale, host, ok) && img in Remaining(stale[..n], host, ok) {
        var i: nat :| i < n && stale[..n][i] == img && RemainsAt(stale[..n], i, host, ok);
        assert stale[i] == img && RemainsAt(stale, i, host, ok);
      }
      if exists i: nat :: i < |stale| && stale[i] == img && RemainsAt(stale, i, host, ok) {
        var i: nat :| i < |stale| && stale[i] == img && RemainsAt(stale, i, host, ok);
        if i < n { assert stale[..n][i] == img && RemainsAt(stale[..n], i, host, ok); }
      }
    }
  }

  /** The status of the in-memory App that one pass edits. */
  class AppStatus {
    var releases: seq<Release>
    var staleImages: seq<Image>

    ghost function Value(): History
      reads this
    {
      History(releases, staleImages)
    }

    constructor (releases: seq<Release>, staleImages: seq<Image>)
      ensures Value() == History(releases, staleImages)
    {
      this.releases, this.staleImages := releases, staleImages;
    }

    method RecordRelease(image: Image, hash: string, sizes: map<string, string>, bindings: seq<string>)
      returns (recorded: bool)
      modifies this
      ensures Value() == Record(old(Value()), image, hash, sizes, bindings)
      ensures recorded == !IsCurrent(old(releases), image, hash)
    {
      if releases != [] && releases[|releases| - 1].image == image && releases[|releases| - 1].hash == hash {
        return false;
      }
      var n := 1;
      if releases != [] {
        n := releases[|releases| - 1].number + 1;
      }
      releases := releases + [Release(n, image, hash, sizes, bindings)];
      if |releases| > MAX_RELEASES {
        var dropped := releases[..|releases| - MAX_RELEASES];
        releases := releases[|releases| - MAX_RELEASES..];
        var unused := UnreferencedImages(dropped, releases);
        staleImages := staleImages + unused;
      }
      return true;
    }

    /** Deletes what left the history; what cannot be deleted now stays listed. */
    method PruneImages(reg: Registry) returns (removed: set<Manifest>)
      modifies this`staleImages
      ensures staleImages == StaleAfter(old(staleImages), reg)
      ensures removed == Removed(old(staleImages), reg)
    {
      removed := {};
      var stale := staleImages;
      if |stale| == 0 {
        return;
      }
      if !reg.deletes {
        staleImages := [];
        return;
      }
      if reg.host.None? {
        return;
      }
      var remaining: seq<Image> := [];
      for i := 0 to |stale|
        invariant remaining == Remaining(stale[..i], reg.host.value, reg.ok)
        invariant removed == Removed(stale[..i], reg)
      {
        var img := stale[i];
        ghost var upTo := stale[..i + 1];
        assert upTo[..i] == stale[..i] && upTo[i] == img;
        RemovedOneMore(upTo, reg);
        if img.host != reg.host.value || img.digest == "" {
          continue;
        }
        if reg.ok(i) {
          removed := removed + {ManifestOf(img)};
        } else {
          remaining := remaining + [img];
        }
      }
      assert stale[..|stale|] == stale;
      staleImages := remaining;
    }
  }

  lemma RemovedOneMore(stale: seq<Image>, reg: Registry)
    requires stale != []
    ensures var n := |stale| - 1;
            Removed(stale, reg)
            == Removed(stale[..n], reg) + (if DeletesAt(stale, n, reg) then {ManifestOf(stale[n])} else {})
  {
    var n := |stale| - 1;
    assert forall i: nat :: i < n ==> (DeletesAt(stale[..n], i, reg) <==> DeletesAt(stale, i, reg));
    assert forall i: nat :: i < n ==> stale[..n][i] == stale[i];
  }
}
