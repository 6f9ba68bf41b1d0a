/** Collecting the registry's garbage: at most one run at a time, the registry
    read-only while the collector works, and both undone on the way out
    (internal/controller/registrygc.go:117-143, 189-273). */
module RegistryGC {

  /** What a call gets; NotYet is a poll that has to be repeated. A poll that
      fails stands for a failing read, the deadline, and a cancelled context. */
  datatype Answer = Ok | Fail | NotYet

  /** GaveUp: the wait for the collector ended in an error while it worked. */
  datatype Event = TurnedOn | Created | GaveUp | DeleteAsked | BackBegun

  /** The Deployment's configuration (read-only or not) and whether its rollout has
      been seen complete since it last changed; the collectors at work, by the run
      that created their Job; per run, what it did. */
  datatype World = World(readOnly: bool, seen: bool, working: set<nat>, log: map<nat, seq<Event>>)

  /** The call a run makes next; err is what it will return so far. */
  datatype Pc =
    | WriteConfig
    | GetDeployment(on: bool, err: bool)
    | UpdateDeployment(on: bool, err: bool)
    | Poll(on: bool, err: bool)
    | Node
    | CreateJob
    | WaitJob
    | DeleteJob(err: bool)
    | End(err: bool)

  function LogOf(w: World, id: nat): seq<Event> { if id in w.log then w.log[id] else [] }

  function Noted(w: World, id: nat, e: Event): World { w.(log := w.log[id := LogOf(w, id) + [e]]) }

  /** The deferred switch back begins. */
  function Back(w: World, id: nat, err: bool): (World, Pc) { (Noted(w, id, BackBegun), GetDeployment(false, err)) }

  /** The wait is over. Success is read off a collector that has ended; an error, be it
      the collector's own, a failing read or the deadline, tells nothing of it. */
  function Waited(w: World, id: nat, a: Answer): World {
    if a.Ok? then w.(working := w.working - {id})
    else if id in w.working then Noted(w, id, GaveUp)
    else w
  }

  /** One call of run id. The job is deleted in the background: whatever the answer, a
      collector at work goes on until it ends. */
  function Call(w: World, id: nat, pc: Pc, a: Answer): (World, Pc) {
    match pc
    case WriteConfig => (w, if a.Ok? then GetDeployment(true, false) else End(true))
    case GetDeployment(on, err) =>
      (w, if !a.Ok? then End(true) else if w.readOnly != on then UpdateDeployment(on, err) else Poll(on, err))
    case UpdateDeployment(on, err) =>
      if !a.Ok? then (w, End(true)) else (w.(readOnly := on, seen := false), Poll(on, err))
    case Poll(on, err) =>
      if a.NotYet? then (w, pc)
      else if a.Fail? then (w, End(true))
      else
        var w1 := w.(seen := true);
        if on then (Noted(w1, id, TurnedOn), Node) else (w1, End(err))
    case Node => if a.Ok? then (w, CreateJob) else Back(w, id, true)
    case CreateJob =>
      if a.Ok? then (Noted(w.(working := w.working + {id}), id, Created), WaitJob) else Back(w, id, true)
    case WaitJob => if a.NotYet? then (w, pc) else (Waited(w, id, a), DeleteJob(a.Fail?))
    case DeleteJob(err) => Back(Noted(w, id, DeleteAsked), id, err)
    case End(err) => (w, pc)
  }

  // ---------- one run

  function Rank(pc: Pc): nat {
    match pc
    case WriteConfig => 10
    case GetDeployment(on, _) => if on then 9 else 3
    case UpdateDeployment(on, _) => if on then 8 else 2
    case Poll(on, _) => if on then 7 else 1
    case Node => 6
    case CreateJob => 5
    case WaitJob => 5
    case DeleteJob(_) => 4
    case End(_) => 0
  }

  /** A run from its current call on; when the answers run out, calls fail. */
  function Finish(w: World, id: nat, pc: Pc, answers: seq<Answer>): (World, bool)
    decreases |answers|, Rank(pc)
  {
    if pc.End? then (w, pc.err) else
    if answers == [] then
      var t := Call(w, id, pc, Fail);
      Finish(t.0, id, t.1, answers)
    else
      var t := Call(w, id, pc, answers[0]);
      Finish(t.0, id, t.1, answers[1..])
  }

  class Collector {
    var running: bool
    var w: World

    /** Starts a run unless one is on; the run itself goes on beside the caller. */
    method Trigger() returns (started: bool)
      modifies this`running
      ensures started == !old(running) && running
    {
      if running {
        return false;
      }
      running := true;
      return true;
    }

    /** Takes the next answer. */
    method Next(answers: seq<Answer>) returns (a: Answer, rest: seq<Answer>)
      ensures answers == [] ==> a == Fail && rest == []
      ensures answers != [] ==> a == answers[0] && rest == answers[1..]
    {
      if answers == [] {
        return Fail, [];
      }
      return answers[0], answers[1..];
    }

    /** Polls until the rollout is complete or the poll fails. */
    method AwaitRollout(id: nat, on: bool, ghost pc: Pc, answers: seq<Answer>) returns (err: bool, rest: seq<Answer>)
      requires pc.Poll? && pc.on == on
      modifies this`w
      ensures w == if err then old(w) else old(w).(seen := true)
      ensures Finish(old(w), id, pc, answers) ==
              if err then (w, true)
              else if on then Finish(Noted(w, id, TurnedOn), id, Node, rest)
              else Finish(w, id, End(pc.err), rest)
    {
      rest := answers;
      while true
        invariant w == old(w) && Finish(old(w), id, pc, answers) == Finish(w, id, pc, rest)
        decreases |rest|
      {
        var a;
        ghost var before := rest;
        a, rest := Next(rest);
        if a.Ok? {
          w := w.(seen := true);
          return false, rest;
        }
        if a.Fail? {
          return true, rest;
        }
      }
    }

    /** Points the registry at one configuration and waits for the rollout. */
    method SetReadOnly(id: nat, on: bool, ghost err0: bool, answers: seq<Answer>) returns (err: bool, rest: seq<Answer>)
      requires on ==> !err0
      modifies this`w
      ensures Finish(old(w), id, if on then WriteConfig else GetDeployment(false, err0), answers) ==
              if err then (w, true)
              else if on then Finish(Noted(w, id, TurnedOn), id, Node, rest)
              else (w, err0)
    {
      rest := answers;
      var a;
      if on {
        a, rest := Next(rest);
        if !a.Ok? {
          return true, rest;
        }
      }
      ghost var get := GetDeployment(on, err0);
      assert Finish(w, id, if on then WriteConfig else get, answers) == Finish(w, id, get, rest);
      ghost var before := rest;
      a, rest := Next(rest);
      assert Finish(w, id, get, before) == (var t := Call(w, id, get, a); Finish(t.0, id, t.1, rest));
      if !a.Ok? {
        return true, rest;
      }
      var changed := w.readOnly != on;
      if changed {
        ghost var update := UpdateDeployment(on, err0);
        before := rest;
        a, rest := Next(rest);
        assert Finish(w, id, update, before) == (var t := Call(w, id, update, a); Finish(t.0, id, t.1, rest));
        if !a.Ok? {
          return true, rest;
        }
        w := w.(readOnly := on, seen := false);
      }
      err, rest := AwaitRollout(id, on, Poll(on, err0), rest);
    }

    /** What happens between the two switches: the job is created, awaited and, by
        the inner deferred step, deleted. */
    method Collect(id: nat, answers: seq<Answer>) returns (err: bool, rest: seq<Answer>)
      modifies this`w
      ensures Finish(old(w), id, Node, answers) == Finish(Noted(w, id, BackBegun), id, GetDeployment(false, err), rest)
    {
      var a;
      a, rest := Next(answers);
      if !a.Ok? {
        return true, rest;
      }
      a, rest := Next(rest);
      if !a.Ok? {
        return true, rest;
      }
      w := Noted(w.(working := w.working + {id}), id, Created);
      assert Finish(old(w), id, Node, answers) == Finish(w, id, WaitJob, rest);
      err, rest := WaitAndDelete(id, rest);
    }

    method WaitAndDelete(id: nat, answers: seq<Answer>) returns (err: bool, rest: seq<Answer>)
      modifies this`w
      ensures Finish(old(w), id, WaitJob, answers)
           == Finish(Noted(w, id, BackBegun), id, GetDeployment(false, err), rest)
    {
      var a;
      rest := answers;
      a, rest := Next(rest);
      while a.NotYet?
        invariant w == old(w)
        invariant Finish(w, id, WaitJob, answers) == (var t := Call(w, id, WaitJob, a); Finish(t.0, id, t.1, rest))
        invariant a.NotYet? ==> |rest| < |answers|
        decreases |rest|, a.NotYet?
      {
        a, rest := Next(rest);
      }
      err := a.Fail?;
      w := Waited(w, id, a);
      var deleted;
      deleted, rest := Next(rest);
      w := Noted(w, id, DeleteAsked);
    }

    /** One collection. */
    method Run(id: nat, answers: seq<Answer>) returns (err: bool)
      modifies this`w
      ensures (w, err) == Finish(old(w), id, WriteConfig, answers)
    {
      hide Finish;
      var rest;
      err, rest := SetReadOnly(id, true, false, answers);
      if err {
        return true;
      }
      w := Noted(w, id, TurnedOn);
      err, rest := Collect(id, rest);
      w := Noted(w, id, BackBegun);
      var rerr;
      rerr, rest := SetReadOnly(id, false, err, rest);
      if rerr {
        err := true;
      }
    }
  }

  // ---------- what a run does, whatever the answers

  predicate SwitchingOn(pc: Pc) {
    pc.WriteConfig? || ((pc.GetDeployment? || pc.UpdateDeployment? || pc.Poll?) && pc.on && !pc.err)
  }

  predicate SwitchingBack(pc: Pc) { (pc.GetDeployment? || pc.UpdateDeployment? || pc.Poll?) && !pc.on }

  /** What a run that switched the registry has done once it is on its way back. */
  predicate OnWayBack(done: seq<Event>) {
    || done == [TurnedOn, BackBegun]
    || done == [TurnedOn, Created, DeleteAsked, BackBegun]
    || done == [TurnedOn, Created, GaveUp, DeleteAsked, BackBegun]
  }

  /** What a run has done when it is about to make a call. */
  predicate DoneBy(pc: Pc, done: seq<Event>) {
    match pc
    case Node => done == [TurnedOn]
    case CreateJob => done == [TurnedOn]
    case WaitJob => done == [TurnedOn, Created]
    case DeleteJob(err) => done == [TurnedOn, Created] || (err && done == [TurnedOn, Created, GaveUp])
    case End(err) => (done == [] && err) || OnWayBack(done)
    case _ => if SwitchingOn(pc) then done == [] else SwitchingBack(pc) && OnWayBack(done)
  }

  lemma CallDoes(w: World, id: nat, pc: Pc, a: Answer)
    requires DoneBy(pc, LogOf(w, id))
    ensures var t := Call(w, id, pc, a); DoneBy(t.1, LogOf(t.0, id))
  {}

  /** A poll that finds it is not time yet changes nothing and polls again; only the two
      polls wait, any other call has gone through or failed. */
  lemma NotYetStays(w: World, id: nat, pc: Pc, answers: seq<Answer>)
    ensures Call(w, id, pc, NotYet) == if pc.WaitJob? || pc.Poll? then (w, pc) else Call(w, id, pc, Fail)
    ensures pc.WaitJob? || pc.Poll? ==> Finish(w, id, pc, [NotYet] + answers) == Finish(w, id, pc, answers)
  {
    assert ([NotYet] + answers)[1..] == answers;
  }

  /** A call notes that a collector was given up exactly when the answer to its run's wait
      is an error and it is at work. */
  lemma CallGivesUp(w: World, id: nat, pc: Pc, a: Answer, other: nat)
    ensures GaveUp in LogOf(Call(w, id, pc, a).0, other) <==>
            GaveUp in LogOf(w, other) || (other == id && pc == WaitJob && a == Fail && id in w.working)
  {
    var t := Call(w, id, pc, a).0;
    if LogOf(t, id) != LogOf(w, id) {
      var added := LogOf(t, id)[|LogOf(w, id)|..];
      assert LogOf(t, id) == LogOf(w, id) + added;
    }
  }

  lemma {:induction false} RunDoes(w: World, id: nat, pc: Pc, answers: seq<Answer>)
    requires DoneBy(pc, LogOf(w, id))
    ensures var t := Finish(w, id, pc, answers); DoneBy(End(t.1), LogOf(t.0, id))
    decreases |answers|, Rank(pc)
  {
    hide DoneBy, Call;
    if !pc.End? {
      var a := if answers == [] then Fail else answers[0];
      var t := Call(w, id, pc, a);
      CallDoes(w, id, pc, a);
      if answers == [] { FailMovesOn(w, id, pc); }
      RunDoes(t.0, id, t.1, if answers == [] then answers else answers[1..]);
    }
  }

  lemma FailMovesOn(w: World, id: nat, pc: Pc)
    requires !pc.End?
    ensures Rank(Call(w, id, pc, Fail).1) < Rank(pc)
  {}

  /** A run either fails to switch the registry to read-only, and then does nothing
      else; or it switches back exactly once, last of all, and right before that asks
      for the deletion of the job if it created one. */
  lemma WayOut(w: World, id: nat, answers: seq<Answer>)
    requires id !in w.log
    ensures var done := LogOf(Finish(w, id, WriteConfig, answers).0, id);
            done == [] || OnWayBack(done)
    ensures LogOf(Finish(w, id, WriteConfig, answers).0, id) == [] ==> Finish(w, id, WriteConfig, answers).1
  {
    RunDoes(w, id, WriteConfig, answers);
  }

  function AnswerAt(answers: seq<Answer>, i: nat): Answer { if i < |answers| then answers[i] else Fail }

  /** Does the switch to read-only get as far as the rollout? */
  predicate SwitchApplied(w: World, answers: seq<Answer>) {
    AnswerAt(answers, 0).Ok? && AnswerAt(answers, 1).Ok? && (w.readOnly || AnswerAt(answers, 2).Ok?)
  }

  lemma FinishOne(w: World, id: nat, pc: Pc, answers: seq<Answer>)
    requires !pc.End?
    ensures var t := Call(w, id, pc, AnswerAt(answers, 0));
            Finish(w, id, pc, answers) == Finish(t.0, id, t.1, if answers == [] then [] else answers[1..])
  {}

  lemma {:induction false} PollsThrough(w: World, id: nat, pc: Pc, answers: seq<Answer>)
    requires pc == Poll(true, false) && LogOf(w, id) == [] && w.readOnly
    ensures var t := Finish(w, id, pc, answers); LogOf(t.0, id) == [] ==> t.0.readOnly
    decreases |answers|
  {
    hide DoneBy;
    FinishOne(w, id, pc, answers);
    var a := AnswerAt(answers, 0);
    if a.NotYet? {
      PollsThrough(w, id, pc, answers[1..]);
    } else if a.Ok? {
      var t := Call(w, id, pc, a);
      assert DoneBy(Node, LogOf(t.0, id)) by { NodeDone(t.0, id); }
      RunDoes(t.0, id, Node, answers[1..]);
      NotEmptyAtEnd(t.0, id, answers[1..]);
    }
  }

  lemma NodeDone(w: World, id: nat)
    requires LogOf(w, id) == [TurnedOn]
    ensures DoneBy(Node, LogOf(w, id))
  {}

  lemma NotEmptyAtEnd(w: World, id: nat, answers: seq<Answer>)
    requires LogOf(w, id) == [TurnedOn]
    ensures LogOf(Finish(w, id, Node, answers).0, id) != []
  {
    LogGrows(w, id, Node, answers);
  }

  lemma {:induction false} LogGrows(w: World, id: nat, pc: Pc, answers: seq<Answer>)
    ensures |LogOf(w, id)| <= |LogOf(Finish(w, id, pc, answers).0, id)|
    decreases |answers|, Rank(pc)
  {
    hide Rank;
    if !pc.End? {
      FinishOne(w, id, pc, answers);
      var t := Call(w, id, pc, AnswerAt(answers, 0));
      if answers == [] {
        FailMovesOn(w, id, pc);
        LogGrows(t.0, id, t.1, answers);
      } else {
        LogGrows(t.0, id, t.1, answers[1..]);
      }
    }
  }

  /** A run that fails to switch the registry to read-only leaves it read-only, with no
      switch back, exactly when it was so before or the update went through and only
      the rollout was not seen. */
  lemma LeftReadOnlyExactly(w: World, id: nat, answers: seq<Answer>)
    requires id !in w.log
    requires LogOf(Finish(w, id, WriteConfig, answers).0, id) == []
    ensures Finish(w, id, WriteConfig, answers).0.readOnly <==> w.readOnly || SwitchApplied(w, answers)
  {
    FinishOne(w, id, WriteConfig, answers);
    if AnswerAt(answers, 0).Ok? {
      var r1 := answers[1..];
      var get := GetDeployment(true, false);
      FinishOne(w, id, get, r1);
      if AnswerAt(r1, 0).Ok? {
        var r2 := r1[1..];
        if w.readOnly {
          PollsThrough(w, id, Poll(true, false), r2);
        } else {
          FinishOne(w, id, UpdateDeployment(true, false), r2);
          if AnswerAt(r2, 0).Ok? {
            PollsThrough(w.(readOnly := true, seen := false), id, Poll(true, false), r2[1..]);
          }
        }
      }
    }
  }

  // ---------- what a run comes to

  function Waiting(n: nat): seq<Answer> { seq(n, _ => NotYet) }

  lemma {:induction false} WaitsThrough(w: World, id: nat, pc: Pc, n: nat, rest: seq<Answer>)
    requires pc.WaitJob? || pc.Poll?
    ensures Finish(w, id, pc, Waiting(n) + rest) == Finish(w, id, pc, rest)
    decreases n
  {
    if n == 0 {
      assert Waiting(0) + rest == rest;
    } else {
      assert Waiting(n) + rest == [NotYet] + (Waiting(n - 1) + rest);
      NotYetStays(w, id, pc, Waiting(n - 1) + rest);
      WaitsThrough(w, id, pc, n - 1, rest);
    }
  }

  lemma OneAnswer(w: World, id: nat, pc: Pc, a: Answer, rest: seq<Answer>)
    requires !pc.End?
    ensures var t := Call(w, id, pc, a); Finish(w, id, pc, [a] + rest) == Finish(t.0, id, t.1, rest)
  {
    assert ([a] + rest)[1..] == rest;
  }

  /** The ordinary collection, however long each wait: the registry is read-only while the
      collector works and writable again after, no error is returned, and whether the
      deletion is accepted does not matter. */
  lemma OrdinaryRun(w: World, id: nat, n1: nat, n2: nat, deletion: Answer, n3: nat)
    requires id !in w.log && !w.readOnly
    ensures var back := [Ok, deletion, Ok, Ok] + (Waiting(n3) + [Ok]);
            Finish(w, id, WriteConfig, [Ok, Ok, Ok] + (Waiting(n1) + ([Ok, Ok, Ok] + (Waiting(n2) + back))))
            == (World(false, true, w.working - {id},
                      w.log[id := [TurnedOn, Created, DeleteAsked, BackBegun]]), false)
  {
    hide Finish, Waiting;
    var r4 := Waiting(n3) + [Ok];
    var r3 := Waiting(n2) + ([Ok, deletion, Ok, Ok] + r4);
    var r2 := Waiting(n1) + ([Ok, Ok, Ok] + r3);
    SwitchOn(w, id, r2);
    var w1 := w.(readOnly := true, seen := false);
    WaitsThrough(w1, id, Poll(true, false), n1, [Ok, Ok, Ok] + r3);
    var w2 := w1.(seen := true, working := w.working + {id}, log := w.log[id := [TurnedOn, Created]]);
    StartsCollector(w1, id, r3);
    WaitsThrough(w2, id, WaitJob, n2, [Ok, deletion, Ok, Ok] + r4);
    var w3 := w2.(readOnly := false, seen := false, working := w.working - {id},
                  log := w.log[id := [TurnedOn, Created, DeleteAsked, BackBegun]]);
    EndsCollector(w, w2, id, deletion, r4);
    WaitsThrough(w3, id, Poll(false, false), n3, [Ok]);
    assert [Ok] == [Ok] + [];
    OneAnswer(w3, id, Poll(false, false), Ok, []);
    EndReturns(w3.(seen := true), id);
  }

  lemma EndReturns(w: World, id: nat)
    ensures Finish(w, id, End(false), []) == (w, false)
  {}

  lemma SwitchOn(w: World, id: nat, rest: seq<Answer>)
    requires !w.readOnly
    ensures Finish(w, id, WriteConfig, [Ok, Ok, Ok] + rest)
         == Finish(w.(readOnly := true, seen := false), id, Poll(true, false), rest)
  {
    hide Finish;
    assert [Ok, Ok, Ok] + rest == [Ok] + ([Ok] + ([Ok] + rest));
    OneAnswer(w, id, WriteConfig, Ok, [Ok] + ([Ok] + rest));
    OneAnswer(w, id, GetDeployment(true, false), Ok, [Ok] + rest);
    OneAnswer(w, id, UpdateDeployment(true, false), Ok, rest);
  }

  lemma StartsCollector(w: World, id: nat, rest: seq<Answer>)
    requires id !in w.log
    ensures Finish(w, id, Poll(true, false), [Ok, Ok, Ok] + rest)
         == Finish(w.(seen := true, working := w.working + {id}, log := w.log[id := [TurnedOn, Created]]),
                   id, WaitJob, rest)
  {
    hide Finish;
    assert [Ok, Ok, Ok] + rest == [Ok] + ([Ok] + ([Ok] + rest));
    var w1 := w.(seen := true, log := w.log[id := [TurnedOn]]);
    assert LogOf(w, id) + [TurnedOn] == [TurnedOn];
    OneAnswer(w, id, Poll(true, false), Ok, [Ok] + ([Ok] + rest));
    OneAnswer(w1, id, Node, Ok, [Ok] + rest);
    assert LogOf(w1, id) + [Created] == [TurnedOn, Created];
    assert w1.log[id := [TurnedOn, Created]] == w.log[id := [TurnedOn, Created]];
    OneAnswer(w1, id, CreateJob, Ok, rest);
  }

  lemma EndsCollector(w0: World, w: World, id: nat, deletion: Answer, rest: seq<Answer>)
    requires w.readOnly && w.working == w0.working + {id} && w.log == w0.log[id := [TurnedOn, Created]]
    ensures Finish(w, id, WaitJob, [Ok, deletion, Ok, Ok] + rest)
         == Finish(w.(readOnly := false, seen := false, working := w0.working - {id},
                      log := w0.log[id := [TurnedOn, Created, DeleteAsked, BackBegun]]), id, Poll(false, false), rest)
  {
    hide Finish;
    assert [Ok, deletion, Ok, Ok] + rest == [Ok] + ([deletion] + ([Ok] + ([Ok] + rest)));
    var w1 := w.(working := w0.working - {id});
    assert w.working - {id} == w0.working - {id};
    var w2 := w1.(log := w0.log[id := [TurnedOn, Created, DeleteAsked, BackBegun]]);
    OneAnswer(w, id, WaitJob, Ok, [deletion] + ([Ok] + ([Ok] + rest)));
    assert [TurnedOn, Created] + [DeleteAsked] + [BackBegun] == [TurnedOn, Created, DeleteAsked, BackBegun];
    var w3 := Noted(w1, id, DeleteAsked);
    assert w3.log[id := LogOf(w3, id) + [BackBegun]] == w2.log;
    assert Call(w1, id, DeleteJob(false), deletion) == (w2, GetDeployment(false, false));
    OneAnswer(w1, id, DeleteJob(false), deletion, [Ok] + ([Ok] + rest));
    OneAnswer(w2, id, GetDeployment(false, false), Ok, [Ok] + rest);
    OneAnswer(w2, id, UpdateDeployment(false, false), Ok, rest);
  }

  /** The run's result so far is an error. */
  predicate Erring(pc: Pc) {
    match pc
    case GetDeployment(_, err) => err
    case UpdateDeployment(_, err) => err
    case Poll(_, err) => err
    case DeleteJob(err) => err
    case End(err) => err
    case _ => false
  }

  lemma {:induction false} ErrorStays(w: World, id: nat, pc: Pc, answers: seq<Answer>)
    requires Erring(pc) && (SwitchingBack(pc) || pc.DeleteJob? || pc.End?)
    ensures Finish(w, id, pc, answers).1
    decreases |answers|, Rank(pc)
  {
    if !pc.End? {
      var t := Call(w, id, pc, AnswerAt(answers, 0));
      FinishOne(w, id, pc, answers);
      if answers == [] {
        FailMovesOn(w, id, pc);
        ErrorStays(t.0, id, t.1, answers);
      } else {
        ErrorStays(t.0, id, t.1, answers[1..]);
      }
    }
  }

  /** Whatever call is answered with an error, the deletion aside, the run returns one. */
  lemma FailIsReturned(w: World, id: nat, pc: Pc, rest: seq<Answer>)
    requires SwitchingOn(pc) || SwitchingBack(pc) || pc.Node? || pc.CreateJob? || pc.WaitJob?
    ensures Finish(w, id, pc, [Fail] + rest).1
  {
    OneAnswer(w, id, pc, Fail, rest);
    var t := Call(w, id, pc, Fail);
    ErrorStays(t.0, id, t.1, rest);
  }
}
