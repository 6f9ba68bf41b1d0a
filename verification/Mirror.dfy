/** The RBAC mirror: who is listed in a binding, and what one pass makes of the
    bindings (internal/controller/membership_controller.go:49-60, 94-254). */
module Mirror {
  import opened Basics

  datatype Team = Team(name: string, members: seq<string>, groups: seq<string>, platformRole: string, everyone: bool)

  datatype Grant = Grant(project: string, role: string, user: string, team: string)

  /** What a pass loads from the store. */
  datatype Snapshot = Snapshot(teams: seq<Team>, grants: seq<Grant>)

  datatype Subject = User(email: string) | Group(name: string)

  // ---------- who is listed

  function UsersOf(emails: seq<string>, lower: string -> string): set<Subject> { set m | m in emails :: User(lower(m)) }

  function GroupsOf(names: seq<string>): set<Subject> { set g | g in names :: Group(g) }

  function MembersOf(t: Team, lower: string -> string): set<Subject> { UsersOf(t.members, lower) + GroupsOf(t.groups) }

  lemma OneMoreMember(emails: seq<string>, i: nat, lower: string -> string)
    requires i < |emails|
    ensures UsersOf(emails[..i + 1], lower) == UsersOf(emails[..i], lower) + {User(lower(emails[i]))}
  {
    assert emails[..i + 1] == emails[..i] + [emails[i]];
  }

  lemma OneMoreGroup(names: seq<string>, i: nat)
    requires i < |names|
    ensures GroupsOf(names[..i + 1]) == GroupsOf(names[..i]) + {Group(names[i])}
  {
    assert names[..i + 1] == names[..i] + [names[i]];
  }

  /** Everybody in the teams of a name; a team of everyone is not enumerable. */
  function TeamHolders(teams: seq<Team>, name: string, lower: string -> string): set<Subject> {
    if teams == [] then {} else
    TeamHolders(teams[..|teams| - 1], name, lower)
    + var t := teams[|teams| - 1]; if t.name == name && !t.everyone then MembersOf(t, lower) else {}
  }

  function GrantHolders(g: Grant, teams: seq<Team>, lower: string -> string): set<Subject> {
    (if g.user != "" then {User(lower(g.user))} else {})
    + (if g.team != "" then TeamHolders(teams, g.team, lower) else {})
  }

  function ProjectHolders(grants: seq<Grant>, teams: seq<Team>, project: string, role: string,
                          lower: string -> string): set<Subject> {
    if grants == [] then {} else
    ProjectHolders(grants[..|grants| - 1], teams, project, role, lower)
    + var g := grants[|grants| - 1];
      if g.project == project && g.role == role then GrantHolders(g, teams, lower) else {}
  }

  function PlatformHolders(ts: seq<Team>, teams: seq<Team>, role: string, lower: string -> string): set<Subject> {
    if ts == [] then {} else
    PlatformHolders(ts[..|ts| - 1], teams, role, lower)
    + var t := ts[|ts| - 1]; if t.platformRole == role then TeamHolders(teams, t.name, lower) else {}
  }

  ghost predicate InTeam(s: Subject, teams: seq<Team>, name: string, lower: string -> string) {
    exists t :: t in teams && t.name == name && !t.everyone && s in MembersOf(t, lower)
  }

  lemma {:induction false} TeamHoldersExactly(teams: seq<Team>, name: string, lower: string -> string, s: Subject)
    ensures s in TeamHolders(teams, name, lower) <==> InTeam(s, teams, name, lower)
  {
    if teams != [] {
      TeamHoldersExactly(teams[..|teams| - 1], name, lower, s);
      assert teams == teams[..|teams| - 1] + [teams[|teams| - 1]];
    }
  }

  /** A role of a project lists exactly the users granted it, and the members and
      groups of the teams granted it, the team of everyone aside. */
  lemma {:induction false} ProjectHoldersExactly(grants: seq<Grant>, teams: seq<Team>, project: string, role: string,
                                                 lower: string -> string, s: Subject)
    ensures s in ProjectHolders(grants, teams, project, role, lower) <==>
            exists g :: g in grants && g.project == project && g.role == role
                        && (|| (g.user != "" && s == User(lower(g.user)))
                            || (g.team != "" && InTeam(s, teams, g.team, lower)))
  {
    if grants != [] {
      var front, g := grants[..|grants| - 1], grants[|grants| - 1];
      assert grants == front + [g];
      ProjectHoldersExactly(front, teams, project, role, lower, s);
      TeamHoldersExactly(teams, g.team, lower, s);
      hide InTeam, TeamHolders;
    }
  }

  /** A platform role lists exactly the members of the teams that carry its name as
      platform role, found again by team name. */
  lemma {:induction false} PlatformHoldersExactly(ts: seq<Team>, teams: seq<Team>, role: string,
                                                  lower: string -> string, s: Subject)
    ensures s in PlatformHolders(ts, teams, role, lower) <==>
            exists t :: t in ts && t.platformRole == role && InTeam(s, teams, t.name, lower)
  {
    if ts != [] {
      var front, t := ts[..|ts| - 1], ts[|ts| - 1];
      assert ts == front + [t];
      PlatformHoldersExactly(front, teams, role, lower, s);
      TeamHoldersExactly(teams, t.name, lower, s);
      hide InTeam, TeamHolders;
    }
  }

  // ---------- the list of subjects

  function KeyOf(s: Subject): (k: string)
    ensures |k| >= 2
  {
    if s.User? then "u:" + s.email else "g:" + s.name
  }

  function SubjectOf(key: string): Subject
    requires |key| >= 2
  {
    if key[0] == 'u' then User(key[2..]) else Group(key[2..])
  }

  lemma KeyIsOwn(s: Subject)
    ensures SubjectOf(KeyOf(s)) == s
  {}

  lemma SameKeySame(s: Subject, t: Subject)
    requires KeyOf(s) == KeyOf(t)
    ensures s == t
  {
    KeyIsOwn(s);
    KeyIsOwn(t);
  }

  function KeysOf(all: set<Subject>): set<string> { set s | s in all :: KeyOf(s) }

  function ByKey(keys: seq<string>): seq<Subject>
    requires forall k :: k in keys ==> |k| >= 2
  {
    seq(|keys|, i requires 0 <= i < |keys| => SubjectOf(keys[i]))
  }

  /** The subjects of a set as a binding lists them: by key. */
  ghost function Listing(all: set<Subject>): seq<Subject> { ByKey(SortedKeys(KeysOf(all))) }

  ghost predicate KeyOrder(out: seq<Subject>) {
    forall i, j :: 0 <= i < j < |out| ==> out[i] != out[j] && LexLe(KeyOf(out[i]), KeyOf(out[j]))
  }

  /** A listing is in key order, has no duplicates, and has exactly the subjects. */
  lemma ListingExactly(all: set<Subject>)
    ensures KeyOrder(Listing(all)) && forall s :: s in Listing(all) <==> s in all
  {
    var keys := SortedKeys(KeysOf(all));
    var out := Listing(all);
    forall i | 0 <= i < |keys| ensures KeyOf(out[i]) == keys[i] && out[i] in all {
      assert keys[i] in KeysOf(all);
      var s :| s in all && KeyOf(s) == keys[i];
      KeyIsOwn(s);
    }
    forall i, j | 0 <= i < j < |out| ensures out[i] != out[j] && LexLe(KeyOf(out[i]), KeyOf(out[j])) {
      assert ByName()(keys[i], keys[j]);
    }
    forall s | s in all ensures s in out {
      assert KeyOf(s) in keys;
      var i :| 0 <= i < |keys| && keys[i] == KeyOf(s);
      KeyIsOwn(s);
      assert out[i] == s;
    }
  }

  class SubjectSet {
    var entries: map<string, Subject>
    ghost var all: set<Subject>
    const lower: string -> string

    ghost predicate Valid()
      reads this
    {
      entries.Keys == KeysOf(all) && forall s :: s in all ==> KeyOf(s) in entries && entries[KeyOf(s)] == s
    }

    constructor (lower: string -> string)
      ensures Valid() && all == {} && this.lower == lower
    {
      entries, all := map[], {};
      this.lower := lower;
    }

    method Add(s: Subject)
      requires Valid()
      modifies this
      ensures Valid() && all == old(all) + {s}
    {
      entries := entries[KeyOf(s) := s];
      all := all + {s};
      forall t | t in all ensures KeyOf(t) in entries && entries[KeyOf(t)] == t {
        if KeyOf(t) == KeyOf(s) { SameKeySame(t, s); }
      }
    }

    method AddUser(email: string)
      requires Valid()
      modifies this
      ensures Valid() && all == old(all) + {User(lower(email))}
    {
      Add(User(lower(email)));
    }

    method AddMembers(t: Team)
      requires Valid()
      modifies this
      ensures Valid() && all == old(all) + MembersOf(t, lower)
    {
      assert UsersOf(t.members[..0], lower) == {} && GroupsOf(t.groups[..0]) == {};
      hide UsersOf, GroupsOf, Valid;
      for i := 0 to |t.members|
        invariant Valid() && all == old(all) + UsersOf(t.members[..i], lower)
      {
        OneMoreMember(t.members, i, lower);
        AddUser(t.members[i]);
      }
      assert t.members[..|t.members|] == t.members;
      ghost var users := all;
      for i := 0 to |t.groups|
        invariant Valid() && all == users + GroupsOf(t.groups[..i])
      {
        OneMoreGroup(t.groups, i);
        Add(Group(t.groups[i]));
      }
      assert t.groups[..|t.groups|] == t.groups;
    }

    method AddTeam(teams: seq<Team>, name: string)
      requires Valid()
      modifies this
      ensures Valid() && all == old(all) + TeamHolders(teams, name, lower)
    {
      hide MembersOf;
      for i := 0 to |teams|
        invariant Valid() && all == old(all) + TeamHolders(teams[..i], name, lower)
      {
        assert teams[..i + 1][..i] == teams[..i];
        if teams[i].name != name || teams[i].everyone {
          continue;
        }
        AddMembers(teams[i]);
      }
      assert teams[..|teams|] == teams;
    }

    lemma EntriesAreOwn()
      requires Valid()
      ensures entries.Keys == KeysOf(all)
      ensures forall k :: k in entries ==> |k| >= 2 && entries[k] == SubjectOf(k)
    {
      forall k | k in entries ensures |k| >= 2 && entries[k] == SubjectOf(k) {
        var s :| s in all && KeyOf(s) == k;
        KeyIsOwn(s);
      }
    }

    method Sorted() returns (out: seq<Subject>)
      requires Valid()
      ensures out == Listing(all)
    {
      EntriesAreOwn();
      hide Valid, KeysOf, KeyOf, SubjectOf, IsSortedKeys, SortedKeys;
      out := InKeyOrder(entries);
      assert out == ByKey(SortedKeys(entries.Keys));
    }
  }

  /** The entries of a map by key. */
  method InKeyOrder(m: map<string, Subject>) returns (out: seq<Subject>)
    ensures |out| == |SortedKeys(m.Keys)|
    ensures forall i :: 0 <= i < |out| ==> out[i] == m[SortedKeys(m.Keys)[i]]
  {
    hide IsSortedKeys, SortedKeys;
    var keys := KeysInOrder(m);
    out := [];
    for i := 0 to |keys|
      invariant |out| == i && forall k :: 0 <= k < i ==> out[k] == m[keys[k]]
    {
      assert keys[i] in keys;
      out := out + [m[keys[i]]];
    }
  }

  method ProjectSubjects(snap: Snapshot, project: string, role: string, lower: string -> string)
    returns (out: seq<Subject>)
    ensures out == Listing(ProjectHolders(snap.grants, snap.teams, project, role, lower))
  {
    hide TeamHolders, SubjectSet.Valid;
    var grants := snap.grants;
    var s := new SubjectSet(lower);
    for i := 0 to |grants|
      invariant s.Valid() && s.lower == lower && s.all == ProjectHolders(grants[..i], snap.teams, project, role, lower)
    {
      var g := grants[i];
      assert grants[..i + 1][..i] == grants[..i];
      if g.project != project || g.role != role {
        continue;
      }
      if g.user != "" {
        s.AddUser(g.user);
      }
      if g.team != "" {
        s.AddTeam(snap.teams, g.team);
      }
    }
    assert grants[..|grants|] == grants;
    out := s.Sorted();
  }

  method PlatformSubjects(snap: Snapshot, role: string, lower: string -> string) returns (out: seq<Subject>)
    ensures out == Listing(PlatformHolders(snap.teams, snap.teams, role, lower))
  {
    hide TeamHolders, SubjectSet.Valid;
    var teams := snap.teams;
    var s := new SubjectSet(lower);
    for i := 0 to |teams|
      invariant s.Valid() && s.lower == lower && s.all == PlatformHolders(teams[..i], teams, role, lower)
    {
      assert teams[..i + 1][..i] == teams[..i];
      if teams[i].platformRole == role {
        s.AddTeam(teams, teams[i].name);
      }
    }
    assert teams[..|teams|] == teams;
    out := s.Sorted();
  }
}
