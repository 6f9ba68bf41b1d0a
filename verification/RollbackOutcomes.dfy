/** What a rollback request makes of the App, said of its fields, and what the pass that
    meets one leaves for every answer to its calls (pkg/api/apps.go:538-571, 703-721,
    internal/controller/app_controller.go:156-203, 229-239, 399-407, 703-711). */
module RollbackOutcomes {
  import opened Basics
  import opened ConfigHash
  import opened Releases
  import R = Rollback
  import Q = RollbackRequests

  lemma {:induction false} FoundExactly(rs: seq<Release>, n: int)
    ensures R.ReleaseByNumber(rs, n).Some? <==> exists i :: 0 <= i < |rs| && rs[i].number == n
    ensures R.ReleaseByNumber(rs, n).Some? ==>
              exists i :: 0 <= i < |rs| && rs[i] == R.ReleaseByNumber(rs, n).value && rs[i].number == n
                          && forall k :: 0 <= k < i ==> rs[k].number != n
  {
    if rs != [] && rs[0].number != n {
      FoundExactly(rs[1..], n);
      if R.ReleaseByNumber(rs[1..], n).Some? {
        var i :| 0 <= i < |rs[1..]| && rs[1..][i] == R.ReleaseByNumber(rs[1..], n).value && rs[1..][i].number == n
                 && forall k :: 0 <= k < i ==> rs[1..][k].number != n;
        assert rs[i + 1] == rs[1..][i];
        forall k | 0 <= k < i + 1 ensures rs[k].number != n { if k > 0 { assert rs[k] == rs[1..][k - 1]; } }
      }
      if i :| 0 <= i < |rs| && rs[i].number == n { assert rs[1..][i - 1].number == n; }
    }
  }

  /** A rollback is refused for a release that is not in the history, then for the current
      one, then while the spec is unseen or a rollout or build is on; otherwise it is
      accepted. */
  lemma RefusedExactly(a: R.App, n: int)
    ensures var known := exists i :: 0 <= i < |a.releases| && a.releases[i].number == n;
            R.Refused(a, n) ==
              if !known then Some(R.NoSuchRelease)
              else if a.releases[|a.releases| - 1].number == n then Some(R.AlreadyCurrent)
              else if a.generation > a.observedGeneration || a.phase == R.Deploying || a.phase == R.Building
              then Some(R.StillRollingOut)
              else None
  {
    FoundExactly(a.releases, n);
  }

  /** What is accepted pins the image, the attachments and the request of the release of
      that number, and its sizes: known processes and web get the recorded size in
      place of explicit resources, "custom" and everything else stays. */
  lemma RolledBackExactly(a: R.App, n: int, name: string)
    requires R.Refused(a, n) == None
    ensures var t := R.RolledBack(a, R.ReleaseByNumber(a.releases, n).value);
            exists i :: 0 <= i < |a.releases| && a.releases[i].number == n
              && var rel := a.releases[i];
                 && t.image == rel.image && t.bindings == rel.bindings && t.rollbackTo == n
                 && t.releases == a.releases && t.phase == a.phase
                 && t.generation == a.generation && t.observedGeneration == a.observedGeneration
                 && (name in t.processes <==> name in a.processes || (name == "web" && "web" in rel.sizes))
                 && (name in t.processes ==>
                       var before := if name in a.processes then a.processes[name] else R.Process("", false, []);
                       t.processes[name] ==
                       if name in rel.sizes && rel.sizes[name] != "custom"
                       then R.Process(rel.sizes[name], false, before.volumes)
                       else before)
  {
    FoundExactly(a.releases, n);
    var rel := R.ReleaseByNumber(a.releases, n).value;
    var i :| 0 <= i < |a.releases| && a.releases[i] == rel && a.releases[i].number == n;
  }

  // ---------- the pass that meets a request

  /** A call with nobody in between. */
  function Alone(write: Write, landed: bool, rolling: bool): Q.Slot { Q.Slot([], Q.Answer(write, landed, rolling)) }

  function Answered(write: Write): Q.Slot { Alone(write, false, false) }

  lemma OneCall(s: Q.State, slots: seq<Q.Slot>)
    requires slots != [] && slots[0].before == []
    ensures var t := Q.Call(s, slots[0].a); Q.Pass(s, slots) == if t.pc.Idle? then t else Q.Pass(t, slots[1..])
  {
    hide Q.Call;
    assert Q.State(Q.EnvAll(s.c, []), s.pc) == s;
  }

  function CarriedOut(c: Q.Cluster, r: Q.Request): Q.Cluster {
    c.(carried := c.carried + [r.id],
       live := if r.target in c.snapshots then Some(c.snapshots[r.target]) else c.live)
  }

  /** The whole pass, alone, once it restored: the request is carried out whatever comes
      after. A conflict ends the pass there; any other end writes the status, with a
      rollout in it only if all went well; the request is cleared only by a pass whose
      image is there, after its status. */
  lemma RequestedPass(c: Q.Cluster, r: Q.Request, work: Write, landed: bool, rolling: bool, commit: Write, clear: Write)
    requires c.request == Some(r) && r.target > 0
    ensures var slots := [Answered(Done), Answered(Done), Alone(work, landed, rolling),
                          Answered(commit), Answered(clear)];
            var shown := CarriedOut(c, r).(rv := c.rv + 1, unseen := false, rolling := work == Done && rolling);
            Q.Pass(Q.State(c, Q.Idle), slots) == Q.State(
              if work == Conflict || commit != Done then CarriedOut(c, r)
              else if work == Done && landed && clear == Done
              then shown.(request := None, note := false, rv := c.rv + 2)
              else shown, Q.Idle)
  {
    hide Q.Pass;
    var slots := [Answered(Done), Answered(Done), Alone(work, landed, rolling), Answered(commit), Answered(clear)];
    var copy := Q.Copy(c.request, c.note, c.rv);
    OneCall(Q.State(c, Q.Idle), slots);
    OneCall(Q.State(c, Q.AtRestore(copy, r)), slots[1..]);
    var met := CarriedOut(c, r);
    assert slots[1..][1..] == [Alone(work, landed, rolling), Answered(commit), Answered(clear)];
    WorkedPass(met, copy, work, landed, rolling, commit, clear);
  }

  /** The pass from its work on. */
  lemma WorkedPass(c: Q.Cluster, copy: Q.Copy, work: Write, landed: bool, rolling: bool, commit: Write, clear: Write)
    requires copy == Q.Copy(c.request, c.note, c.rv)
    ensures var slots := [Alone(work, landed, rolling), Answered(commit), Answered(clear)];
            var shown := c.(rv := c.rv + 1, unseen := false, rolling := work == Done && rolling);
            Q.Pass(Q.State(c, Q.AtWork(copy)), slots) == Q.State(
              if work == Conflict || commit != Done then c
              else if work == Done && landed && (c.note || c.request != None) && clear == Done
              then shown.(request := None, note := false, rv := c.rv + 2)
              else shown, Q.Idle)
  {
    hide Q.Pass;
    var slots := [Alone(work, landed, rolling), Answered(commit), Answered(clear)];
    OneCall(Q.State(c, Q.AtWork(copy)), slots);
    if work != Conflict {
      var clears := work == Done && landed && (c.note || c.request != None);
      var shows := work == Done && rolling;
      var shown := c.(rv := c.rv + 1, unseen := false, rolling := shows);
      OneCall(Q.State(c, Q.AtCommit(copy, clears, shows)), slots[1..]);
      if commit == Done && clears {
        OneCall(Q.State(shown, Q.AtClear(copy)), slots[1..][1..]);
      }
    }
  }

  /** Without a request the pass only works, and clears a note. */
  lemma UnrequestedPass(c: Q.Cluster, work: Write, landed: bool, rolling: bool, commit: Write, clear: Write)
    requires c.request == None
    ensures var slots := [Answered(Done), Alone(work, landed, rolling), Answered(commit), Answered(clear)];
            var shown := c.(rv := c.rv + 1, unseen := false, rolling := work == Done && rolling);
            Q.Pass(Q.State(c, Q.Idle), slots) == Q.State(
              if work == Conflict || commit != Done then c
              else if work == Done && landed && c.note && clear == Done then shown.(note := false, rv := c.rv + 2)
              else shown, Q.Idle)
  {
    hide Q.Pass;
    var slots := [Answered(Done), Alone(work, landed, rolling), Answered(commit), Answered(clear)];
    OneCall(Q.State(c, Q.Idle), slots);
    assert slots[1..] == [Alone(work, landed, rolling), Answered(commit), Answered(clear)];
    WorkedPass(c, Q.Copy(c.request, c.note, c.rv), work, landed, rolling, commit, clear);
  }

  /** A restore that fails is written to the status; one that meets a conflict is not; both
      leave the request and the vars. */
  lemma UnrestoredPass(c: Q.Cluster, r: Q.Request, restore: Write, commit: Write)
    requires c.request == Some(r) && r.target > 0 && restore != Done
    ensures Q.Pass(Q.State(c, Q.Idle), [Answered(Done), Answered(restore), Answered(commit)]) == Q.State(
              if restore == Failed && commit == Done then c.(rv := c.rv + 1, unseen := false, rolling := false)
              else c, Q.Idle)
  {
    hide Q.Pass;
    var slots := [Answered(Done), Answered(restore), Answered(commit)];
    var copy := Q.Copy(c.request, c.note, c.rv);
    OneCall(Q.State(c, Q.Idle), slots);
    OneCall(Q.State(c, Q.AtRestore(copy, r)), slots[1..]);
    if restore == Failed { OneCall(Q.State(c, Q.AtFailed(copy)), slots[1..][1..]); }
  }

  /** A request goes only when a newer one is accepted in its place, or when a pass that read
      a request clears it; a pass that cleared a note alone leaves one posted meanwhile. */
  lemma RequestGoesExactly(s: Q.State, step: Q.Step)
    ensures var before, after := s.c.request, Q.Next(s, step).c.request;
            before != None && before != after <==>
              && before != None
              && (|| (step.Other? && step.e.Ask? && step.e.target > 0 && !s.c.unseen && !s.c.rolling
                      && before != Some(Q.Request(s.c.last + 1, step.e.target)))
                  || (s.pc.AtClear? && s.pc.copy.request != None && step.Controller? && step.a.write == Done))
  {}

  /** The API takes a rollback if and only if the last status has seen the whole spec and
      shows no rollout; then it is the newest request, under a number of its own. */
  lemma AcceptedExactly(c: Q.Cluster, target: int, spec: bool)
    requires target > 0
    ensures Q.EnvStep(c, Q.Ask(target, spec)) ==
              if c.unseen || c.rolling then c
              else c.(request := Some(Q.Request(c.last + 1, target)), note := true, rv := c.rv + 1,
                      unseen := spec, last := c.last + 1)
  {}
}
