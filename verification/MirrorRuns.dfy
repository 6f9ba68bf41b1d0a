/** One pass of the RBAC mirror over all bindings, and the wake-ups that make
    passes follow writes (internal/controller/membership_controller.go:49-60,
    75-140, 210-254). */
module MirrorRuns {
  import opened Basics
  import opened Mirror

  const PROJECT_ROLES: map<string, string> := map[
    "viewer" := "shpyrd-project-viewer",
    "developer" := "shpyrd-project-developer",
    "admin" := "shpyrd-project-admin"]

  const PLATFORM_ROLES: map<string, seq<string>> := map[
    "platform-viewer" := ["shpyrd-platform-viewer", "shpyrd-project-viewer"],
    "platform-admin" := ["shpyrd-platform-admin", "shpyrd-platform-viewer", "shpyrd-project-viewer",
                         "shpyrd-project-developer", "shpyrd-project-admin"]]

  datatype Namespace = Namespace(name: string, project: string, workspace: string, deleting: bool)

  /** A role binding in a namespace, or a cluster role binding; the name of either
      is made of the role and, on the platform, of the cluster role. */
  datatype Key = InProject(ns: string, role: string) | OnPlatform(role: string, clusterRole: string)

  datatype Binding = Binding(clusterRole: string, subjects: seq<Subject>)

  type Bindings = map<Key, Binding>

  /** What a pass reads: the store, the project namespaces, and its workspace. */
  datatype View = View(snap: Snapshot, namespaces: seq<Namespace>, workspace: string, lower: string -> string)

  predicate Serves(n: Namespace, ws: string) { !n.deleting && (n.workspace == "" || n.workspace == ws) }

  predicate DistinctNamespaces(ns: seq<Namespace>) { forall i, j :: 0 <= i < j < |ns| ==> ns[i].name != ns[j].name }

  function At(b: Bindings, key: Key): Option<Binding> { if key in b then Some(b[key]) else None }

  // ---------- what the bindings should be

  ghost function Wanted(clusterRole: string, holders: set<Subject>): Option<Binding> {
    if Listing(holders) == [] then None else Some(Binding(clusterRole, Listing(holders)))
  }

  function Find(ns: seq<Namespace>, name: string, ws: string): Option<Namespace> {
    if ns == [] then None else if ns[0].name == name && Serves(ns[0], ws) then Some(ns[0]) else Find(ns[1..], name, ws)
  }

  predicate Managed(v: View, key: Key) {
    match key
    case InProject(ns, role) => role in PROJECT_ROLES && Find(v.namespaces, ns, v.workspace).Some?
    case OnPlatform(role, clusterRole) => role in PLATFORM_ROLES && clusterRole in PLATFORM_ROLES[role]
  }

  ghost function WantedAt(v: View, key: Key): Option<Binding>
    requires Managed(v, key)
  {
    match key
    case InProject(ns, role) =>
      var project := Find(v.namespaces, ns, v.workspace).value.project;
      Wanted(PROJECT_ROLES[role], ProjectHolders(v.snap.grants, v.snap.teams, project, role, v.lower))
    case OnPlatform(role, clusterRole) =>
      Wanted(clusterRole, PlatformHolders(v.snap.teams, v.snap.teams, role, v.lower))
  }

  /** A pass that went through: every managed binding as wanted, the others as before. */
  ghost predicate Passed(before: Bindings, after: Bindings, v: View) {
    forall key :: At(after, key) == if Managed(v, key) then WantedAt(v, key) else At(before, key)
  }

  /** A pass that stopped: every binding as before or as wanted. */
  ghost predicate PartlyPassed(before: Bindings, after: Bindings, v: View) {
    forall key :: At(after, key) == At(before, key) || (Managed(v, key) && At(after, key) == WantedAt(v, key))
  }

  // ---------- the pass as it runs

  /** Exactly the bindings in done were written. */
  ghost predicate Written(before: Bindings, after: Bindings, v: View, done: set<Key>) {
    && (forall key :: key in done ==> Managed(v, key) && At(after, key) == WantedAt(v, key))
    && (forall key :: key !in done ==> At(after, key) == At(before, key))
  }

  lemma WriteOne(before: Bindings, b: Bindings, after: Bindings, v: View, done: set<Key>, key: Key)
    requires Written(before, b, v, done) && Managed(v, key)
    requires At(after, key) == WantedAt(v, key) && forall k :: k != key ==> At(after, k) == At(b, k)
    ensures Written(before, after, v, done + {key})
  {
    hide Managed, WantedAt;
  }

  lemma WrittenIsPartly(before: Bindings, after: Bindings, v: View, done: set<Key>)
    requires Written(before, after, v, done)
    ensures PartlyPassed(before, after, v)
  {
    hide Managed, WantedAt;
  }

  lemma {:induction false} FindsIt(ns: seq<Namespace>, i: nat, ws: string)
    requires i < |ns| && DistinctNamespaces(ns) && Serves(ns[i], ws)
    ensures Find(ns, ns[i].name, ws) == Some(ns[i])
  {
    if i > 0 {
      assert DistinctNamespaces(ns[1..]);
      FindsIt(ns[1..], i - 1, ws);
    }
  }

  lemma {:induction false} FoundIsThere(ns: seq<Namespace>, name: string, ws: string)
    requires Find(ns, name, ws).Some?
    ensures exists i :: 0 <= i < |ns| && ns[i].name == name && Serves(ns[i], ws)
  {
    if !(ns[0].name == name && Serves(ns[0], ws)) {
      FoundIsThere(ns[1..], name, ws);
      var i :| 0 <= i < |ns[1..]| && ns[1..][i].name == name && Serves(ns[1..][i], ws);
      assert ns[i + 1] == ns[1..][i];
    }
  }

  /** The bindings of the roles in rs, of the first i namespaces, of the first
      cluster roles of a platform role. */
  function KeysIn(n: Namespace, roles: set<string>): set<Key> { set r | r in roles :: InProject(n.name, r) }

  function KeysOfFirst(ns: seq<Namespace>, i: nat, ws: string): set<Key>
    requires i <= |ns|
  {
    if i == 0 then {} else
    KeysOfFirst(ns, i - 1, ws) + if Serves(ns[i - 1], ws) then KeysIn(ns[i - 1], PROJECT_ROLES.Keys) else {}
  }

  function KeysOfRole(role: string, i: nat): set<Key>
    requires role in PLATFORM_ROLES && i <= |PLATFORM_ROLES[role]|
  {
    set c | c in PLATFORM_ROLES[role][..i] :: OnPlatform(role, c)
  }

  function KeysOfRoles(roles: set<string>): set<Key>
    requires roles <= PLATFORM_ROLES.Keys
  {
    set r, c | r in roles && c in PLATFORM_ROLES[r] :: OnPlatform(r, c)
  }

  lemma {:induction false} FirstKeys(ns: seq<Namespace>, i: nat, ws: string, key: Key)
    requires i <= |ns|
    ensures key in KeysOfFirst(ns, i, ws) <==>
            && key.InProject? && key.role in PROJECT_ROLES
            && exists k :: 0 <= k < i && ns[k].name == key.ns && Serves(ns[k], ws)
  {
    if i > 0 {
      FirstKeys(ns, i - 1, ws, key);
    }
  }

  /** When all namespaces and all platform roles are done, all managed keys are. */
  lemma AllKeys(v: View, done: set<Key>)
    requires DistinctNamespaces(v.namespaces)
    requires done == KeysOfFirst(v.namespaces, |v.namespaces|, v.workspace) + KeysOfRoles(PLATFORM_ROLES.Keys)
    ensures forall key :: key in done <==> Managed(v, key)
  {
    forall key ensures key in done <==> Managed(v, key) {
      FirstKeys(v.namespaces, |v.namespaces|, v.workspace, key);
      if key.InProject? {
        if Managed(v, key) { FoundIsThere(v.namespaces, key.ns, v.workspace); }
        if key in done {
          var k :| 0 <= k < |v.namespaces| && v.namespaces[k].name == key.ns && Serves(v.namespaces[k], v.workspace);
          FindsIt(v.namespaces, k, v.workspace);
        }
      }
    }
  }

  lemma AllDone(before: Bindings, after: Bindings, v: View, done: set<Key>)
    requires Written(before, after, v, done) && forall key :: key in done <==> Managed(v, key)
    ensures Passed(before, after, v)
  {
    hide Managed, WantedAt;
  }

  class MembershipReconciler {
    var bindings: Bindings

    /** Creates or updates a binding, or deletes it when nobody holds the role. */
    method EnsureBinding(key: Key, clusterRole: string, subjects: seq<Subject>, ok: bool) returns (err: bool)
      modifies this
      ensures err == !ok
      ensures !ok ==> bindings == old(bindings)
      ensures ok ==> At(bindings, key) == if subjects == [] then None else Some(Binding(clusterRole, subjects))
      ensures forall k :: k != key ==> At(bindings, k) == At(old(bindings), k)
    {
      if !ok {
        return true;
      }
      if |subjects| == 0 {
        bindings := bindings - {key};
      } else {
        bindings := bindings[key := Binding(clusterRole, subjects)];
      }
      return false;
    }

    /** The bindings of one namespace, its roles in any order. */
    method MirrorNamespace(v: View, i: nat, ok: Key -> bool, ghost before: Bindings, ghost done0: set<Key>)
      returns (err: bool)
      requires i < |v.namespaces| && DistinctNamespaces(v.namespaces) && Serves(v.namespaces[i], v.workspace)
      requires Written(before, bindings, v, done0)
      modifies this
      ensures !err ==> Written(before, bindings, v, done0 + KeysIn(v.namespaces[i], PROJECT_ROLES.Keys))
      ensures PartlyPassed(before, bindings, v)
    {
      hide Written, PartlyPassed, ProjectHolders, Listing;
      var n := v.namespaces[i];
      FindsIt(v.namespaces, i, v.workspace);
      var rest := PROJECT_ROLES.Keys;
      ghost var done := done0;
      while rest != {}
        invariant rest <= PROJECT_ROLES.Keys
        invariant done == done0 + KeysIn(n, PROJECT_ROLES.Keys - rest)
        invariant Written(before, bindings, v, done)
        decreases rest
      {
        var role: string :| role in rest;
        var key := InProject(n.name, role);
        var subjects := ProjectSubjects(v.snap, n.project, role, v.lower);
        ghost var b := bindings;
        var failed := EnsureBinding(key, PROJECT_ROLES[role], subjects, ok(key));
        if failed {
          WrittenIsPartly(before, bindings, v, done);
          return true;
        }
        WriteOne(before, b, bindings, v, done, key);
        rest := rest - {role};
        done := done + {key};
      }
      WrittenIsPartly(before, bindings, v, done);
      assert PROJECT_ROLES.Keys - rest == PROJECT_ROLES.Keys;
      return false;
    }

    /** The bindings of one platform role. */
    method MirrorPlatformRole(v: View, role: string, ok: Key -> bool, ghost before: Bindings, ghost done0: set<Key>)
      returns (err: bool)
      requires role in PLATFORM_ROLES && Written(before, bindings, v, done0)
      modifies this
      ensures !err ==> Written(before, bindings, v, done0 + KeysOfRole(role, |PLATFORM_ROLES[role]|))
      ensures PartlyPassed(before, bindings, v)
    {
      hide Written, PartlyPassed, PlatformHolders, Listing;
      var subjects := PlatformSubjects(v.snap, role, v.lower);
      var clusterRoles := PLATFORM_ROLES[role];
      ghost var done := done0;
      for i := 0 to |clusterRoles|
        invariant done == done0 + KeysOfRole(role, i)
        invariant Written(before, bindings, v, done)
      {
        var key := OnPlatform(role, clusterRoles[i]);
        ghost var b := bindings;
        var failed := EnsureBinding(key, clusterRoles[i], subjects, ok(key));
        if failed {
          WrittenIsPartly(before, bindings, v, done);
          return true;
        }
        WriteOne(before, b, bindings, v, done, key);
        assert clusterRoles[..i + 1] == clusterRoles[..i] + [clusterRoles[i]];
        done := done + {key};
      }
      WrittenIsPartly(before, bindings, v, done);
      return false;
    }

    /** A pass over what it loaded; ok says which writes go through. */
    method Reconcile(v: View, ok: Key -> bool) returns (err: bool)
      requires DistinctNamespaces(v.namespaces)
      modifies this
      ensures !err ==> Passed(old(bindings), bindings, v)
      ensures PartlyPassed(old(bindings), bindings, v)
    {
      ghost var before := bindings;
      ghost var done: set<Key> := {};
      assert Written(before, bindings, v, {});
      hide Written, PartlyPassed, Passed, Serves;
      var ns := v.namespaces;
      for i := 0 to |ns|
        invariant done == KeysOfFirst(ns, i, v.workspace)
        invariant Written(before, bindings, v, done)
      {
        if !Serves(ns[i], v.workspace) {
          continue;
        }
        err := MirrorNamespace(v, i, ok, before, done);
        if err {
          return;
        }
        done := done + KeysIn(ns[i], PROJECT_ROLES.Keys);
      }
      ghost var projects := done;
      var rest := PLATFORM_ROLES.Keys;
      while rest != {}
        invariant rest <= PLATFORM_ROLES.Keys
        invariant done == projects + KeysOfRoles(PLATFORM_ROLES.Keys - rest)
        invariant Written(before, bindings, v, done)
        decreases rest
      {
        var role: string :| role in rest;
        err := MirrorPlatformRole(v, role, ok, before, done);
        if err {
          return;
        }
        OneMoreRole(PLATFORM_ROLES.Keys - rest, role);
        assert PLATFORM_ROLES.Keys - (rest - {role}) == (PLATFORM_ROLES.Keys - rest) + {role};
        rest := rest - {role};
        done := done + KeysOfRole(role, |PLATFORM_ROLES[role]|);
      }
      assert PLATFORM_ROLES.Keys - rest == PLATFORM_ROLES.Keys;
      AllKeys(v, done);
      AllDone(before, bindings, v, done);
      WrittenIsPartly(before, bindings, v, done);
      return false;
    }
  }

  lemma OneMoreRole(roles: set<string>, role: string)
    requires roles <= PLATFORM_ROLES.Keys && role in PLATFORM_ROLES
    ensures KeysOfRoles(roles + {role}) == KeysOfRoles(roles) + KeysOfRole(role, |PLATFORM_ROLES[role]|)
  {
    assert PLATFORM_ROLES[role][..|PLATFORM_ROLES[role]|] == PLATFORM_ROLES[role];
  }

  // ---------- what a pass makes true

  /** After a pass that went through, a managed binding does not depend on what the
      bindings were. */
  lemma PassForgets(b: Bindings, c: Bindings, afterB: Bindings, afterC: Bindings, v: View, key: Key)
    requires Passed(b, afterB, v) && Passed(c, afterC, v) && Managed(v, key)
    ensures At(afterB, key) == At(afterC, key)
  {
    hide WantedAt;
    assert At(afterB, key) == WantedAt(v, key);
  }

  /** After a pass that went through, the binding of a project role in a served
      namespace lists, in key order and once each, exactly who holds the role; there
      is none if nobody does. */
  lemma PassedProjectBinding(before: Bindings, after: Bindings, v: View, i: nat, role: string)
    requires DistinctNamespaces(v.namespaces) && Passed(before, after, v)
    requires i < |v.namespaces| && Serves(v.namespaces[i], v.workspace) && role in PROJECT_ROLES
    ensures var n := v.namespaces[i];
            var holders := ProjectHolders(v.snap.grants, v.snap.teams, n.project, role, v.lower);
            var at := At(after, InProject(n.name, role));
            && (at.None? <==> holders == {})
            && (at.Some? ==> at.value.clusterRole == PROJECT_ROLES[role] && KeyOrder(at.value.subjects)
                             && forall s :: s in at.value.subjects <==> s in holders)
  {
    hide ProjectHolders, Listing, KeyOrder;
    var n := v.namespaces[i];
    var holders := ProjectHolders(v.snap.grants, v.snap.teams, n.project, role, v.lower);
    FindsIt(v.namespaces, i, v.workspace);
    ListingExactly(holders);
    var key := InProject(n.name, role);
    assert At(after, key) == WantedAt(v, key);
    if Listing(holders) != [] { assert Listing(holders)[0] in holders; }
    if holders != {} { NotEmpty(holders); }
  }

  /** The same for a platform role and each of its cluster roles. */
  lemma PassedPlatformBinding(before: Bindings, after: Bindings, v: View, role: string, clusterRole: string)
    requires Passed(before, after, v) && role in PLATFORM_ROLES && clusterRole in PLATFORM_ROLES[role]
    ensures var holders := PlatformHolders(v.snap.teams, v.snap.teams, role, v.lower);
            var at := At(after, OnPlatform(role, clusterRole));
            && (at.None? <==> holders == {})
            && (at.Some? ==> at.value.clusterRole == clusterRole && KeyOrder(at.value.subjects)
                             && forall s :: s in at.value.subjects <==> s in holders)
  {
    hide PlatformHolders, Listing, KeyOrder;
    var holders := PlatformHolders(v.snap.teams, v.snap.teams, role, v.lower);
    ListingExactly(holders);
    var key := OnPlatform(role, clusterRole);
    assert At(after, key) == WantedAt(v, key);
    if Listing(holders) != [] { assert Listing(holders)[0] in holders; }
    if holders != {} { NotEmpty(holders); }
  }

  lemma NotEmpty(holders: set<Subject>)
    requires holders != {}
    ensures Listing(holders) != []
  {
    hide Listing;
    ListingExactly(holders);
    var s: Subject :| s in holders;
    assert s in Listing(holders);
  }

  // ---------- wake-ups

  datatype Running = Off | Started | Loaded(v: View)

  /** view is what a load would see now; writers have written the store and not yet
      called Notify; channel is the one-slot channel, queued the work queue. */
  datatype State = State(view: View, bindings: Bindings, writers: nat, channel: bool, queued: bool, running: Running)

  datatype Step =
    | Write(snap: Snapshot)
    | Notify
    | Deliver                                // the channel's event goes to the queue
    | Namespaces(namespaces: seq<Namespace>) // the watch queues a pass
    | Tick                                   // the periodic pass
    | Start
    | Load(ok: bool)
    | Finish(after: Bindings)
    | Abort(after: Bindings)

  ghost function Next(s: State, step: Step): State {
    match step
    case Write(snap) => s.(view := s.view.(snap := snap), writers := s.writers + 1)
    case Notify => if s.writers > 0 then s.(writers := s.writers - 1, channel := true) else s
    case Deliver => if s.channel then s.(channel := false, queued := true) else s
    case Namespaces(ns) => s.(view := s.view.(namespaces := ns), queued := true)
    case Tick => s.(queued := true)
    case Start => if s.queued && s.running.Off? then s.(queued := false, running := Started) else s
    case Load(ok) =>
      if !s.running.Started? then s
      else if ok then s.(running := Loaded(s.view))
      else s.(running := Off, queued := true)
    case Finish(after) =>
      if s.running.Loaded? && Passed(s.bindings, after, s.running.v) then s.(bindings := after, running := Off) else s
    case Abort(after) =>
      if s.running.Loaded? && PartlyPassed(s.bindings, after, s.running.v)
      then s.(bindings := after, running := Off, queued := true) else s
  }

  ghost function Run(s: State, steps: seq<Step>): State
    decreases |steps|
  {
    if steps == [] then s else Run(Next(s, steps[0]), steps[1..])
  }

  ghost predicate UpToDate(s: State) {
    forall key :: Managed(s.view, key) ==> At(s.bindings, key) == WantedAt(s.view, key)
  }

  predicate Coming(s: State) { s.writers > 0 || s.channel || s.queued }

  ghost predicate Inv(s: State) {
    && (UpToDate(s) || Coming(s) || s.running.Started? || s.running == Loaded(s.view))
    && (s.running.Loaded? ==> s.running.v == s.view || Coming(s))
  }

  /** Nothing is on its way: no writer before its Notify, nothing in the channel or
      the queue, no pass running. */
  predicate Quiet(s: State) { !Coming(s) && s.running.Off? }

  lemma StepKeeps(s: State, step: Step)
    requires Inv(s)
    ensures Inv(Next(s, step))
  {
    hide Managed, WantedAt;
  }

  lemma {:induction false} RunKeeps(s: State, steps: seq<Step>)
    requires Inv(s)
    ensures Inv(Run(s, steps))
    decreases |steps|
  {
    hide Inv, Next;
    if steps != [] {
      StepKeeps(s, steps[0]);
      RunKeeps(Next(s, steps[0]), steps[1..]);
    }
  }

  /** No wake-up is lost: over every run from an idle start, whenever everything is quiet
      the bindings are what the store asks for, provided that at the start a pass was
      on its way or the bindings were so already; and only then. */
  lemma QuietMeansMirrored(s: State)
    requires s.running.Off?
    ensures (forall steps :: Quiet(Run(s, steps)) ==> UpToDate(Run(s, steps))) <==> Coming(s) || UpToDate(s)
  {
    hide UpToDate, Run;
    if Coming(s) || UpToDate(s) {
      forall steps ensures Quiet(Run(s, steps)) ==> UpToDate(Run(s, steps)) {
        RunKeeps(s, steps);
        QuietIsMirrored(Run(s, steps));
      }
    } else {
      RunNone(s);
      assert Quiet(Run(s, [])) && !UpToDate(Run(s, []));
    }
  }

  lemma QuietIsMirrored(s: State)
    requires Inv(s)
    ensures Quiet(s) ==> UpToDate(s)
  {
    hide UpToDate;
  }

  lemma RunNone(s: State)
    ensures Run(s, []) == s
  {}

  /** The server starts: the watch queues a pass for every project namespace there is. */
  function Startup(v: View, bindings: Bindings): State { State(v, bindings, 0, false, v.namespaces != [], Off) }

  /** A start without any project namespace queues nothing: platform roles in the store
      stay without their bindings until something else asks for a pass. */
  lemma StartWithoutNamespaces(t: Team, lower: string -> string)
    requires t.platformRole == "platform-viewer" && !t.everyone && t.members != []
    ensures var s := Startup(View(Snapshot([t], []), [], "default", lower), map[]);
            Quiet(s) && !UpToDate(s)
  {
    hide Listing;
    var v := View(Snapshot([t], []), [], "default", lower);
    var s := Startup(v, map[]);
    var key := OnPlatform("platform-viewer", "shpyrd-platform-viewer");
    assert "shpyrd-platform-viewer" == PLATFORM_ROLES["platform-viewer"][0];
    assert Managed(v, key);
    var holders := PlatformHolders([t], [t], "platform-viewer", lower);
    TeamHoldersExactly([t], t.name, lower, User(lower(t.members[0])));
    PlatformHoldersExactly([t], [t], "platform-viewer", lower, User(lower(t.members[0])));
    assert t in [t] && User(lower(t.members[0])) in MembersOf(t, lower);
    assert InTeam(User(lower(t.members[0])), [t], t.name, lower);
    NotEmpty(holders);
    assert WantedAt(v, key).Some? && At(s.bindings, key).None?;
  }
}
