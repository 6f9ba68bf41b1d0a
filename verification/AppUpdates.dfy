/** Read-modify-write of an App with conflict retries, as the API and the CLI do it,
    under any interleaving (pkg/api/apps.go:725-763, internal/cli/appclient.go:
    326-345). */
module AppUpdates {
  import opened Basics

  /** The App as far as updates go: its fields and their values. */
  type App = map<string, string>

  /** The stored App with its resource version. */
  datatype Stored = Stored(app: App, rv: nat)

  /** A change: what it makes of an App, if it accepts it, and whether the result fits
      the plan. The CLI checks no plan. */
  datatype Change = Change(mutate: App -> Option<App>, fits: App -> bool)

  const ATTEMPTS := 5

  datatype Why = NotThere | Refused | TooManyConflicts | Broken

  datatype Result = Committed(app: App) | Error(why: Why)

  /** A call in flight: its change, the attempts begun, what it read in this one. since is
      the resource version when it began; no code reads it. */
  datatype Call = Call(change: Change, attempts: nat, held: Option<Stored>, since: nat)

  /** The stored App, the calls in flight and the results of those that returned.
      commits lists the calls whose update was stored, in order; no code reads it. */
  datatype State = State(
    stored: Option<Stored>,
    calls: map<nat, Call>,
    results: map<nat, Result>,
    commits: seq<(nat, Change)>)

  datatype Step =
    | Begin(id: nat, change: Change)
    | Go(id: nat, ok: bool)   // the next API call of a call in flight
    | Touch                   // a write beside the spec, such as a status
    | Delete

  predicate Known(s: State, id: nat) { id in s.calls || id in s.results }

  function Returned(s: State, id: nat, r: Result): State {
    s.(calls := s.calls - {id}, results := s.results[id := r])
  }

  /** A Get, with the mutation and the plan check that follow it. */
  function Read(s: State, id: nat, ok: bool): State
    requires id in s.calls
  {
    var call := s.calls[id];
    if !ok then Returned(s, id, Error(Broken))
    else if s.stored.None? then Returned(s, id, Error(NotThere))
    else
      var changed := call.change.mutate(s.stored.value.app);
      if changed.None? || !call.change.fits(changed.value) then Returned(s, id, Error(Refused))
      else s.(calls := s.calls[id := call.(attempts := call.attempts + 1, held := s.stored)])
  }

  /** An Update under the resource version read. */
  function Store(s: State, id: nat, ok: bool): State
    requires id in s.calls && s.calls[id].held.Some?
    requires s.calls[id].change.mutate(s.calls[id].held.value.app).Some?
  {
    var call := s.calls[id];
    var changed := call.change.mutate(call.held.value.app).value;
    if !ok || s.stored.None? then Returned(s, id, Error(Broken))
    else if s.stored.value.rv == call.held.value.rv then
      var stored := Some(Stored(changed, s.stored.value.rv + 1));
      Returned(s.(stored := stored, commits := s.commits + [(id, call.change)]), id, Committed(changed))
    else if call.attempts >= ATTEMPTS then Returned(s, id, Error(TooManyConflicts))
    else s.(calls := s.calls[id := call.(held := None)])
  }

  function Begun(s: State, change: Change): Call {
    Call(change, 0, None, if s.stored.Some? then s.stored.value.rv else 0)
  }

  function Next(s: State, step: Step): State {
    match step
    case Begin(id, change) => if Known(s, id) then s else s.(calls := s.calls[id := Begun(s, change)])
    case Go(id, ok) =>
      if id !in s.calls then s
      else if s.calls[id].held.None? then Read(s, id, ok)
      else if s.calls[id].change.mutate(s.calls[id].held.value.app).None? then s
      else Store(s, id, ok)
    case Touch => if s.stored.None? then s else s.(stored := Some(s.stored.value.(rv := s.stored.value.rv + 1)))
    case Delete => s.(stored := None)
  }

  function Run(s: State, steps: seq<Step>): State
    decreases |steps|
  {
    if steps == [] then s else Run(Next(s, steps[0]), steps[1..])
  }

  // ---------- the retry loop

  /** What the others do before an API call of this one, and whether it goes through. */
  datatype Slot = Slot(before: seq<Step>, ok: bool)

  predicate ByOthers(steps: seq<Step>, id: nat) {
    forall i :: 0 <= i < |steps| ==> !(steps[i].Go? && steps[i].id == id)
  }

  predicate Slots(slots: seq<Slot>, id: nat) { forall i :: 0 <= i < |slots| ==> ByOthers(slots[i].before, id) }

  /** Call id from where it is on, until it returns or the slots run out. */
  function Carry(s: State, id: nat, slots: seq<Slot>): State
    decreases |slots|
  {
    if slots == [] || id !in s.calls then s else
    Carry(Next(Run(s, slots[0].before), Go(id, slots[0].ok)), id, slots[1..])
  }

  lemma {:induction false} OthersLeaveIt(s: State, steps: seq<Step>, id: nat)
    requires id in s.calls && ByOthers(steps, id)
    ensures var t := Run(s, steps); id in t.calls && t.calls[id] == s.calls[id]
    decreases |steps|
  {
    if steps != [] {
      assert !(steps[0].Go? && steps[0].id == id);
      assert ByOthers(steps[1..], id);
      OthersLeaveIt(Next(s, steps[0]), steps[1..], id);
    }
  }

  /** The call is about to read for its next attempt. */
  ghost predicate Waits(c: Call, change: Change, attempts: nat) {
    c.change == change && c.attempts == attempts && c.held.None?
  }

  class Cluster {
    var s: State

    method Meanwhile(steps: seq<Step>)
      modifies this
      ensures s == Run(old(s), steps)
    {
      for i := 0 to |steps|
        invariant Run(s, steps[i..]) == Run(old(s), steps)
      {
        s := Next(s, steps[i]);
        assert steps[i..][1..] == steps[i + 1..];
      }
    }

    method Return(id: nat, r: Result) returns (out: Result)
      modifies this
      ensures s == Returned(old(s), id, r) && out == r
    {
      s := s.(calls := s.calls - {id}, results := s.results[id := r]);
      return r;
    }

    /** One attempt: read, change, check, store. It returns None to be tried again. */
    method Attempt(id: nat, change: Change, attempt: nat, slots: seq<Slot>) returns (r: Option<Result>, rest: seq<Slot>)
      requires id in s.calls && Waits(s.calls[id], change, attempt) && |slots| >= 2 && Slots(slots, id)
      modifies this
      ensures |rest| >= |slots| - 2 && Slots(rest, id)
      ensures Carry(old(s), id, slots) == Carry(s, id, rest)
      ensures r.Some? ==> id !in s.calls && id in s.results && s.results[id] == r.value
      ensures r.None? ==> attempt + 1 < ATTEMPTS && id in s.calls && Waits(s.calls[id], change, attempt + 1)
    {
      hide Run;
      rest := slots[1..];
      assert ByOthers(slots[0].before, id) && ByOthers(slots[1].before, id);
      OthersLeaveIt(s, slots[0].before, id);
      Meanwhile(slots[0].before);
      var out;
      if !slots[0].ok {
        out := Return(id, Error(Broken));
        return Some(out), rest;
      }
      if s.stored.None? {
        out := Return(id, Error(NotThere));
        return Some(out), rest;
      }
      var read := s.stored.value;
      var changed := change.mutate(read.app);
      if changed.None? || !change.fits(changed.value) {
        out := Return(id, Error(Refused));
        return Some(out), rest;
      }
      s := s.(calls := s.calls[id := s.calls[id].(attempts := attempt + 1, held := Some(read))]);
      assert Carry(old(s), id, slots) == Carry(s, id, rest);
      OthersLeaveIt(s, rest[0].before, id);
      Meanwhile(rest[0].before);
      var ok := rest[0].ok;
      rest := rest[1..];
      if !ok || s.stored.None? {
        out := Return(id, Error(Broken));
        return Some(out), rest;
      }
      if s.stored.value.rv == read.rv {
        s := s.(stored := Some(Stored(changed.value, read.rv + 1)), commits := s.commits + [(id, change)]);
        out := Return(id, Committed(changed.value));
        return Some(out), rest;
      }
      if attempt + 1 >= ATTEMPTS {
        out := Return(id, Error(TooManyConflicts));
        return Some(out), rest;
      }
      s := s.(calls := s.calls[id := s.calls[id].(held := None)]);
      return None, rest;
    }

    /** mutateApp. Five attempts make ten API calls at most. */
    method MutateApp(id: nat, change: Change, slots: seq<Slot>) returns (r: Result)
      requires !Known(s, id) && |slots| >= 2 * ATTEMPTS && Slots(slots, id)
      modifies this
      ensures s == Carry(Next(old(s), Begin(id, change)), id, slots)
      ensures id in s.results && s.results[id] == r
    {
      s := s.(calls := s.calls[id := Begun(s, change)]);
      ghost var begun := s;
      var rest := slots;
      for attempt := 0 to ATTEMPTS
        invariant |rest| >= 2 * (ATTEMPTS - attempt) && Slots(rest, id)
        invariant attempt < ATTEMPTS && id in s.calls && Waits(s.calls[id], change, attempt)
        invariant Carry(begun, id, slots) == Carry(s, id, rest)
      {
        var out;
        out, rest := Attempt(id, change, attempt, rest);
        if out.Some? {
          return out.value;
        }
      }
      assert false;
    }

    /** updateApp: the same loop, without a plan. */
    method UpdateApp(id: nat, mutate: App -> Option<App>, slots: seq<Slot>) returns (r: Result)
      requires !Known(s, id) && |slots| >= 2 * ATTEMPTS && Slots(slots, id)
      modifies this
      ensures s == Carry(Next(old(s), Begin(id, Change(mutate, _ => true))), id, slots)
      ensures id in s.results && s.results[id] == r
    {
      r := MutateApp(id, Change(mutate, _ => true), slots);
    }
  }

  // ---------- no lost updates

  /** The changes applied one after another. */
  function Replay(app: App, commits: seq<(nat, Change)>): Option<App> {
    if commits == [] then Some(app) else
    var before := Replay(app, commits[..|commits| - 1]);
    if before.None? then None else commits[|commits| - 1].1.mutate(before.value)
  }

  function Ids(commits: seq<(nat, Change)>): set<nat> { set i | 0 <= i < |commits| :: commits[i].0 }

  ghost predicate Inv(s: State, start: App) {
    && Replay(start, s.commits).Some?
    && (s.stored.Some? ==> s.stored.value.app == Replay(start, s.commits).value)
    && (forall id :: id in s.calls ==> Sensible(s, s.calls[id]) && id !in s.results && id !in Ids(s.commits))
    && (forall id :: id in s.results ==> (s.results[id].Committed? <==> id in Ids(s.commits)))
    && (forall id :: id in Ids(s.commits) ==> id in s.results)
    && (forall i, j :: 0 <= i < j < |s.commits| ==> s.commits[i].0 != s.commits[j].0)
  }

  /** What a call holds was stored at its resource version, and its change took it. */
  predicate Sensible(s: State, call: Call) {
    && call.attempts <= ATTEMPTS && (call.held.None? ==> call.attempts < ATTEMPTS)
    && (call.held.Some? ==>
          && call.change.mutate(call.held.value.app).Some?
          && call.change.fits(call.change.mutate(call.held.value.app).value)
          && (s.stored.Some? ==> call.held.value.rv <= s.stored.value.rv)
          && (s.stored.Some? && call.held.value.rv == s.stored.value.rv ==> call.held.value == s.stored.value)
          && call.attempts > 0 && call.since + call.attempts - 1 <= call.held.value.rv)
    && (call.held.None? && s.stored.Some? ==> call.since + call.attempts <= s.stored.value.rv)
  }

  lemma CommitReplays(commits: seq<(nat, Change)>, c: (nat, Change), start: App)
    requires Replay(start, commits).Some?
    ensures Replay(start, commits + [c]) == c.1.mutate(Replay(start, commits).value)
  {
    var all := commits + [c];
    assert all[..|all| - 1] == commits && all[|all| - 1] == c;
  }

  /** What others hold was read before this version. */
  lemma OverwrittenKeeps(s: State, t: State, call: Call)
    requires Sensible(s, call) && s.stored.Some? && t.stored.Some?
    requires t.stored.value.rv == s.stored.value.rv + 1
    ensures Sensible(t, call)
  {}

  lemma CommitShape(s: State, id: nat)
    requires id in s.calls && s.calls[id].held.Some? && s.stored.Some? && Sensible(s, s.calls[id])
    requires s.calls[id].held.value.rv == s.stored.value.rv
    ensures var call, t := s.calls[id], Next(s, Go(id, true));
            && t.commits == s.commits + [(id, call.change)] && t.calls == s.calls - {id}
            && t.stored.Some? && t.stored.value.rv == s.stored.value.rv + 1
            && call.change.mutate(s.stored.value.app) == Some(t.stored.value.app)
            && t.results == s.results[id := Committed(t.stored.value.app)]
  {}

  /** Who has committed, after one more commit. */
  lemma OneMoreCommits(s: State, t: State, id: nat, c: Change, start: App)
    requires Inv(s, start) && id in s.calls
    requires t.commits == s.commits + [(id, c)] && t.calls == s.calls - {id}
    requires id in t.results && t.results[id].Committed? && t.results == s.results[id := t.results[id]]
    ensures Ids(t.commits) == Ids(s.commits) + {id}
    ensures forall k :: k in t.calls ==> k !in t.results && k !in Ids(t.commits)
    ensures forall k :: k in t.results ==> (t.results[k].Committed? <==> k in Ids(t.commits))
    ensures forall i, j :: 0 <= i < j < |t.commits| ==> t.commits[i].0 != t.commits[j].0
  {
    OneMoreId(s.commits, (id, c));
    forall i | 0 <= i < |s.commits| ensures s.commits[i].0 != id { assert s.commits[i].0 in Ids(s.commits); }
    hide Ids, Replay, Sensible;
  }

  lemma CommitKeeps(s: State, id: nat, start: App)
    requires Inv(s, start) && id in s.calls && s.calls[id].held.Some? && s.stored.Some?
    requires s.calls[id].held.value.rv == s.stored.value.rv
    ensures Inv(Next(s, Go(id, true)), start)
  {
    var call, t := s.calls[id], Next(s, Go(id, true));
    CommitShape(s, id);
    hide Next, Sensible, Ids;
    CommitReplays(s.commits, (id, call.change), start);
    OneMoreCommits(s, t, id, call.change, start);
    hide Replay;
    forall k | k in t.calls ensures Sensible(t, t.calls[k]) {
      OverwrittenKeeps(s, t, s.calls[k]);
    }
  }

  lemma OneMoreId(commits: seq<(nat, Change)>, c: (nat, Change))
    ensures Ids(commits + [c]) == Ids(commits) + {c.0}
  {
    var all := commits + [c];
    assert all[|commits|] == c;
    forall i | 0 <= i < |commits| ensures commits[i].0 in Ids(all) { assert all[i] == commits[i]; }
  }

  lemma ErrorKeeps(s: State, id: nat, why: Why, start: App)
    requires Inv(s, start) && id in s.calls
    ensures Inv(Returned(s, id, Error(why)), start)
  {
    hide Ids, Replay, Sensible;
    forall k | k in s.calls ensures Sensible(Returned(s, id, Error(why)), s.calls[k]) {
      SameStored(s, Returned(s, id, Error(why)), s.calls[k]);
    }
  }

  lemma SameStored(s: State, t: State, call: Call)
    requires Sensible(s, call) && t.stored == s.stored
    ensures Sensible(t, call)
  {}

  lemma HoldKeeps(s: State, id: nat, call: Call, start: App)
    requires Inv(s, start) && id in s.calls && Sensible(s, call)
    ensures Inv(s.(calls := s.calls[id := call]), start)
  {
    hide Ids, Replay, Sensible;
    var t := s.(calls := s.calls[id := call]);
    forall k | k in t.calls ensures Sensible(t, t.calls[k]) { SameStored(s, t, t.calls[k]); }
  }

  lemma GoKeeps(s: State, id: nat, ok: bool, start: App)
    requires Inv(s, start) && id in s.calls
    ensures Inv(Next(s, Go(id, ok)), start)
  {
    var call, t := s.calls[id], Next(s, Go(id, ok));
    if call.held.Some? && ok && s.stored.Some? && call.held.value.rv == s.stored.value.rv {
      CommitKeeps(s, id, start);
    } else if id in t.calls {
      assert Sensible(s, t.calls[id]);
      HoldKeeps(s, id, t.calls[id], start);
    } else {
      ErrorKeeps(s, id, t.results[id].why, start);
    }
  }

  lemma BesideKeeps(s: State, step: Step, start: App)
    requires Inv(s, start) && !step.Go?
    ensures Inv(Next(s, step), start)
  {
    hide Ids, Replay;
  }

  lemma StepKeeps(s: State, step: Step, start: App)
    requires Inv(s, start)
    ensures Inv(Next(s, step), start)
  {
    hide Inv;
    match step {
      case Go(id, ok) => if id in s.calls { GoKeeps(s, id, ok, start); }
      case _ => BesideKeeps(s, step, start);
    }
  }

  lemma {:induction false} RunKeeps(s: State, steps: seq<Step>, start: App)
    requires Inv(s, start)
    ensures Inv(Run(s, steps), start)
    decreases |steps|
  {
    hide Inv, Next;
    if steps != [] {
      StepKeeps(s, steps[0], start);
      RunKeeps(Next(s, steps[0]), steps[1..], start);
    }
  }

  function Initially(app: App, rv: nat): State { State(Some(Stored(app, rv)), map[], map[], []) }

  /** No update is lost: whatever interleaves, the stored App is the start with the
      changes of the calls that succeeded applied one after another, in the order
      their updates were stored; and those are exactly the calls that reported
      success, each once. */
  lemma NoLostUpdates(app: App, rv: nat, steps: seq<Step>)
    ensures var s := Run(Initially(app, rv), steps);
            && (s.stored.Some? ==> Replay(app, s.commits) == Some(s.stored.value.app))
            && (forall id :: id in s.results ==> (s.results[id].Committed? <==> id in Ids(s.commits)))
            && (forall i, j :: 0 <= i < j < |s.commits| ==> s.commits[i].0 != s.commits[j].0)
            && (forall i :: 0 <= i < |s.commits| ==> s.commits[i].0 in s.results)
  {
    var s := Run(Initially(app, rv), steps);
    RunKeeps(Initially(app, rv), steps, app);
    hide Run;
    forall i | 0 <= i < |s.commits| ensures s.commits[i].0 in s.results { assert s.commits[i].0 in Ids(s.commits); }
  }

  /** The step that makes a call fail changes nothing of the App, and no step of a call
      does but the one that makes it succeed; that one leaves the App the call
      reports, and a plan-checked one fits the plan. */
  lemma FailureChangesNothing(app: App, rv: nat, steps: seq<Step>, id: nat, ok: bool)
    ensures var s := Run(Initially(app, rv), steps);
            var t := Next(s, Go(id, ok));
            && (id in s.calls && !(id in t.results && t.results[id].Committed?) ==>
                  t.stored == s.stored && t.commits == s.commits)
            && (id in s.calls && id in t.results && t.results[id].Committed? ==>
                  && t.stored.Some? && t.stored.value.app == t.results[id].app
                  && s.calls[id].change.fits(t.results[id].app))
  {
    RunKeeps(Initially(app, rv), steps, app);
  }

  /** A call gives up for conflicts only after five attempts, each of which was overtaken:
      at least five writes of others were stored since it began, the last of them after
      its last read. Every write moves the resource version by one. */
  lemma ConflictsMeanOthersWrote(app: App, rv: nat, steps: seq<Step>, id: nat, ok: bool)
    requires id in Run(Initially(app, rv), steps).calls
    requires var t := Next(Run(Initially(app, rv), steps), Go(id, ok));
             id in t.results && t.results[id] == Error(TooManyConflicts)
    ensures var s := Run(Initially(app, rv), steps);
            && s.calls[id].attempts == ATTEMPTS && s.calls[id].held.Some? && s.stored.Some?
            && s.stored.value.rv > s.calls[id].held.value.rv
            && s.stored.value.rv >= s.calls[id].since + ATTEMPTS
  {
    RunKeeps(Initially(app, rv), steps, app);
    hide Run, Replay, Ids;
  }

  // ---------- what a call comes to

  /** A call nobody interferes with: the change is stored under the next resource version
      and reported, if there is an App, and the change accepts it, and the result fits;
      otherwise nothing is stored and the call says why. */
  lemma QuietCall(s: State, id: nat, change: Change)
    requires id !in s.calls && id !in s.results
    ensures var t := Next(Next(Next(s, Begin(id, change)), Go(id, true)), Go(id, true));
            var changed := if s.stored.Some? then change.mutate(s.stored.value.app) else None;
            && id !in t.calls && id in t.results
            && t.results[id] == (if s.stored == None then Error(NotThere)
                                 else if changed == None || !change.fits(changed.value) then Error(Refused)
                                 else Committed(changed.value))
            && t.stored == if t.results[id].Committed? then Some(Stored(changed.value, s.stored.value.rv + 1))
                           else s.stored
  {}

  /** A failing API call ends the call with an error and stores nothing. */
  lemma BrokenCall(s: State, id: nat)
    requires id in s.calls
    requires var c := s.calls[id]; c.held.Some? ==> c.change.mutate(c.held.value.app).Some?
    ensures var t := Next(s, Go(id, false));
            id !in t.calls && id in t.results && t.results[id] == Error(Broken) && t.stored == s.stored
  {}

  /** n rounds in which the call reads, somebody else writes, and the call stores. */
  function Overtaken(s: State, id: nat, n: nat): State {
    if n == 0 then s else Next(Next(Next(Overtaken(s, id, n - 1), Go(id, true)), Touch), Go(id, true))
  }

  lemma BegunCall(s: State, id: nat, change: Change)
    requires id !in s.calls && id !in s.results && s.stored.Some?
    ensures var t := Next(s, Begin(id, change));
            t.stored == s.stored && t.commits == s.commits
            && id in t.calls && t.calls[id] == Call(change, 0, None, s.stored.value.rv)
  {}

  lemma OvertakenOnce(s: State, id: nat, change: Change, n: nat, since: nat)
    requires id in s.calls && s.calls[id] == Call(change, n, None, since) && s.stored.Some?
    requires change.mutate(s.stored.value.app).Some? && change.fits(change.mutate(s.stored.value.app).value)
    ensures var t := Next(Next(Next(s, Go(id, true)), Touch), Go(id, true));
            && t.stored == Some(Stored(s.stored.value.app, s.stored.value.rv + 1)) && t.commits == s.commits
            && (n + 1 < 5 ==> id in t.calls && t.calls[id] == Call(change, n + 1, None, since))
            && (n + 1 == 5 ==> id !in t.calls && id in t.results && t.results[id] == Error(TooManyConflicts))
  {}

  /** A call that is overtaken every time tries five times: after fewer it is still on, with
      nothing stored; after the fifth it gives up for conflicts. */
  lemma {:induction false} FifthConflictGivesUp(s: State, id: nat, change: Change, n: nat)
    requires id !in s.calls && id !in s.results && s.stored.Some? && n <= 5
    requires change.mutate(s.stored.value.app).Some? && change.fits(change.mutate(s.stored.value.app).value)
    ensures var t := Overtaken(Next(s, Begin(id, change)), id, n);
            && t.stored == Some(Stored(s.stored.value.app, s.stored.value.rv + n)) && t.commits == s.commits
            && (n < 5 ==> id in t.calls && t.calls[id] == Call(change, n, None, s.stored.value.rv))
            && (n == 5 ==> id !in t.calls && id in t.results && t.results[id] == Error(TooManyConflicts))
  {
    hide Next;
    BegunCall(s, id, change);
    if n > 0 {
      FifthConflictGivesUp(s, id, change, n - 1);
      OvertakenOnce(Overtaken(Next(s, Begin(id, change)), id, n - 1), id, change, n - 1, s.stored.value.rv);
    }
  }
}
