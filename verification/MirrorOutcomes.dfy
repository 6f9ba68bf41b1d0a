/** What a pass of the RBAC mirror leaves, binding by binding and in the names of the
    cluster (internal/controller/membership_controller.go:49-60, 94-212). */
module MirrorOutcomes {
  import opened Basics
  import opened Mirror
  import opened MirrorRuns

  /** s is a member or a group of a team of that name; the team of everyone has none. */
  ghost predicate OfTeam(s: Subject, teams: seq<Team>, name: string, lower: string -> string) {
    exists t :: t in teams && t.name == name && !t.everyone
                && ((exists m :: m in t.members && s == User(lower(m))) || (exists g :: g in t.groups && s == Group(g)))
  }

  ghost predicate Holds(s: Subject, v: View, project: string, role: string) {
    exists g :: g in v.snap.grants && g.project == project && g.role == role
                && ((g.user != "" && s == User(v.lower(g.user)))
                    || (g.team != "" && OfTeam(s, v.snap.teams, g.team, v.lower)))
  }

  ghost predicate HoldsPlatform(s: Subject, v: View, role: string) {
    exists t :: t in v.snap.teams && t.platformRole == role && OfTeam(s, v.snap.teams, t.name, v.lower)
  }

  /** The binding names the cluster role and lists exactly the subjects in who, in byte
      order of "u:" and an address or "g:" and a group's name, each once; there is none for
      nobody. */
  ghost predicate Lists(at: Option<Binding>, clusterRole: string, who: Subject -> bool) {
    if at == None then forall s :: !who(s)
    else
      && at.value.clusterRole == clusterRole && at.value.subjects != []
      && (forall s :: s in at.value.subjects <==> who(s))
      && forall i, j :: 0 <= i < j < |at.value.subjects| ==>
           && at.value.subjects[i] != at.value.subjects[j]
           && LexLe(SortKey(at.value.subjects[i]), SortKey(at.value.subjects[j]))
  }

  function SortKey(s: Subject): string {
    match s
    case User(email) => "u:" + email
    case Group(name) => "g:" + name
  }

  lemma OfTeamIs(s: Subject, teams: seq<Team>, name: string, lower: string -> string)
    ensures OfTeam(s, teams, name, lower) <==> InTeam(s, teams, name, lower)
  {
    forall t: Team
      ensures s in MembersOf(t, lower) <==>
              (exists m :: m in t.members && s == User(lower(m))) || (exists g :: g in t.groups && s == Group(g))
    {}
  }

  lemma HoldsIs(s: Subject, v: View, project: string, role: string)
    ensures Holds(s, v, project, role) <==> s in ProjectHolders(v.snap.grants, v.snap.teams, project, role, v.lower)
  {
    ProjectHoldersExactly(v.snap.grants, v.snap.teams, project, role, v.lower, s);
    hide OfTeam, InTeam;
    forall name { OfTeamIs(s, v.snap.teams, name, v.lower); }
  }

  lemma HoldsPlatformIs(s: Subject, v: View, role: string)
    ensures HoldsPlatform(s, v, role) <==> s in PlatformHolders(v.snap.teams, v.snap.teams, role, v.lower)
  {
    PlatformHoldersExactly(v.snap.teams, v.snap.teams, role, v.lower, s);
    hide OfTeam, InTeam;
    forall name { OfTeamIs(s, v.snap.teams, name, v.lower); }
  }

  lemma WantedLists(clusterRole: string, holders: set<Subject>, who: Subject -> bool)
    requires forall s :: who(s) <==> s in holders
    ensures Lists(Wanted(clusterRole, holders), clusterRole, who)
  {
    hide Listing;
    ListingExactly(holders);
    var out := Listing(holders);
    if out == [] {
      forall s ensures !who(s) { assert s !in out; }
    }
    forall s: Subject ensures KeyOf(s) == SortKey(s) {}
  }

  ghost predicate Served(n: Namespace, v: View) { !n.deleting && (n.workspace == "" || n.workspace == v.workspace) }

  /** In a served namespace the three project roles have bindings to the cluster roles of
      their name, listing exactly who holds the role in the namespace's project. */
  lemma ProjectBindingExactly(before: Bindings, after: Bindings, v: View, i: nat, role: string)
    requires DistinctNamespaces(v.namespaces) && Passed(before, after, v)
    requires i < |v.namespaces| && Served(v.namespaces[i], v)
    requires role in ["viewer", "developer", "admin"]
    ensures var n := v.namespaces[i];
            Lists(At(after, InProject(n.name, role)), "shpyrd-project-" + role, s => Holds(s, v, n.project, role))
  {
    var n := v.namespaces[i];
    var holders := ProjectHolders(v.snap.grants, v.snap.teams, n.project, role, v.lower);
    FindsIt(v.namespaces, i, v.workspace);
    RoleName(role);
    hide Holds, Lists, PROJECT_ROLES;
    forall s ensures Holds(s, v, n.project, role) <==> s in holders { HoldsIs(s, v, n.project, role); }
    WantedLists("shpyrd-project-" + role, holders, s => Holds(s, v, n.project, role));
    assert Managed(v, InProject(n.name, role));
  }

  lemma RoleName(role: string)
    requires role in ["viewer", "developer", "admin"]
    ensures role in PROJECT_ROLES && PROJECT_ROLES[role] == "shpyrd-project-" + role
  {}

  /** A platform viewer can view the platform and every project; a platform admin has all
      five cluster roles. */
  predicate Gives(role: string, clusterRole: string) {
    || (role == "platform-viewer" && clusterRole in ["shpyrd-platform-viewer", "shpyrd-project-viewer"])
    || (role == "platform-admin"
        && clusterRole in ["shpyrd-platform-viewer", "shpyrd-platform-admin", "shpyrd-project-viewer",
                           "shpyrd-project-developer", "shpyrd-project-admin"])
  }

  lemma PlatformBindingExactly(before: Bindings, after: Bindings, v: View, role: string, clusterRole: string)
    requires Passed(before, after, v) && Gives(role, clusterRole)
    ensures Lists(At(after, OnPlatform(role, clusterRole)), clusterRole, s => HoldsPlatform(s, v, role))
  {
    var holders := PlatformHolders(v.snap.teams, v.snap.teams, role, v.lower);
    assert Managed(v, OnPlatform(role, clusterRole));
    hide HoldsPlatform, Lists, Gives, PLATFORM_ROLES;
    forall s ensures HoldsPlatform(s, v, role) <==> s in holders { HoldsPlatformIs(s, v, role); }
    WantedLists(clusterRole, holders, s => HoldsPlatform(s, v, role));
  }

  /** Every other binding is left as it was. */
  lemma OthersUntouched(before: Bindings, after: Bindings, v: View, key: Key)
    requires Passed(before, after, v)
    requires match key
             case InProject(ns, role) =>
               role !in ["viewer", "developer", "admin"]
               || forall i :: 0 <= i < |v.namespaces| ==> v.namespaces[i].name != ns || !Served(v.namespaces[i], v)
             case OnPlatform(role, clusterRole) => !Gives(role, clusterRole)
    ensures At(after, key) == At(before, key)
  {
    match key {
      case InProject(ns, role) =>
        if Find(v.namespaces, ns, v.workspace).Some? { FoundIsThere(v.namespaces, ns, v.workspace); }
      case OnPlatform(role, clusterRole) =>
    }
  }
}
