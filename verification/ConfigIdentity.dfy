/** The configuration stream identifies a configuration: two configurations give
    the same bytes exactly when they hold the same things, in whatever order
    their maps and lists yield them (internal/controller/status.go:21-91). */
module ConfigIdentity {
  import opened Basics
  import opened ConfigHash

  predicate NoNul(s: string) { NUL !in s }

  predicate Plain(s: string) { NUL !in s && ':' !in s && '=' !in s }

  /** What the stream needs of json.Marshal on an EnvVar: it tells variables
      apart, writes the name first, and escapes NUL. */
  ghost predicate GoodJson(json: EnvVar -> string) {
    && (forall e, f :: json(e) == json(f) ==> e == f)
    && (forall e :: NoNul(json(e)) && "{\"name\":" <= json(e))
  }

  predicate GoodVars(v: Vars) {
    forall k :: k in Data(v) ==> Plain(k) && NoNul(Data(v)[k])
  }

  /** Keys without ':', '=' or NUL, and values without NUL. */
  ghost predicate Spelled(c: Config) {
    && GoodVars(c.bindings) && GoodVars(c.globals) && GoodVars(Some(c.sizes)) && GoodVars(c.vars)
    && forall p :: p in c.processes ==>
         Plain(p) && forall m :: m in c.processes[p] ==> Plain(m.name) && NoNul(m.path)
  }

  /** And no environment variable or mount of a process named twice. */
  ghost predicate WellFormed(c: Config) {
    && Spelled(c)
    && DistinctNames(c.env, EnvName)
    && forall p :: p in c.processes ==> DistinctNames(c.processes[p], MountName)
  }

  /** The same bound vars, globals, sizes, environment, mounts and config vars.
      An absent Secret holds nothing; a process without mounts mounts nothing. */
  ghost predicate SameConfig(c: Config, d: Config) {
    && Data(c.bindings) == Data(d.bindings)
    && Data(c.globals) == Data(d.globals)
    && c.sizes == d.sizes
    && (forall e :: e in c.env <==> e in d.env)
    && (forall p, m :: Mounts(c, p, m) <==> Mounts(d, p, m))
    && Data(c.vars) == Data(d.vars)
  }

  ghost predicate Mounts(c: Config, p: string, m: Mount) {
    p in c.processes && m in c.processes[p]
  }

  // ---------- one entry can be read back

  /** Cutting at the first delimiter is unambiguous. */
  lemma Cut(a: string, d: char, r: string, b: string, e: char, t: string, delims: set<char>)
    requires a + [d] + r == b + [e] + t
    requires d in delims && e in delims
    requires forall x :: x in delims ==> x !in a && x !in b
    ensures a == b && d == e && r == t
  {
    var s := a + [d] + r;
    assert s[|a|] == d && s[|b|] == e;
    assert forall i :: 0 <= i < |a| ==> s[i] == a[i];
    assert forall i :: 0 <= i < |b| ==> s[i] == b[i];
    assert |a| == |b|;
    assert a == s[..|a|] && b == s[..|b|];
    assert r == s[|a| + 1..] && t == s[|b| + 1..];
  }

  predicate ItemOk(x: Item) {
    match x
    case Pair(_, k, v) => Plain(k) && NoNul(v)
    case Env(_) => true
    case Mounted(p, m) => Plain(p) && Plain(m.name) && NoNul(m.path)
  }

  function Head(x: Item): string {
    match x
    case Pair(s, k, _) =>
      if s.Bindings? then "binding" else if s.Globals? then "global" else if s.Sizes? then "size" else k
    case Env(_) => "{\"name\""
    case Mounted(_, _) => "mount"
  }

  function Delim(x: Item): char { if x.Pair? && x.section.ConfigVars? then '=' else ':' }

  function Rest(x: Item, json: EnvVar -> string): string {
    match x
    case Pair(s, k, v) => if s.ConfigVars? then v else k + "=" + v
    case Env(e) => if |json(e)| >= 8 then json(e)[8..] else ""
    case Mounted(p, m) => p + ":" + m.name + "=" + m.path
  }

  lemma PairSplits(head: string, k: string, v: string)
    ensures (head + ":") + k + "=" + v == head + [':'] + (k + "=" + v)
  {}

  lemma MountSplits(head: string, p: string, n: string, path: string)
    ensures (head + ":") + p + ":" + n + "=" + path == head + [':'] + (p + ":" + n + "=" + path)
  {}

  lemma JsonSplits(text: string)
    requires "{\"name\":" <= text
    ensures |text| >= 8 && text == "{\"name\"" + [':'] + text[8..]
  {
    assert text == "{\"name\":" + text[8..];
  }

  lemma Prefixes()
    ensures Prefix(Bindings) == "binding" + ":" && Prefix(Globals) == "global" + ":"
    ensures Prefix(Sizes) == "size" + ":" && "mount:" == "mount" + ":"
  {}

  lemma TextSplits(x: Item, json: EnvVar -> string)
    requires GoodJson(json)
    ensures Text(x, json) == Head(x) + [Delim(x)] + Rest(x, json)
  {
    Prefixes();
    match x {
      case Pair(s, k, v) =>
        if s.ConfigVars? {
          assert "" + k + "=" + v == k + ['='] + v;
        } else {
          PairSplits(Head(x), k, v);
        }
      case Env(e) => JsonSplits(json(e));
      case Mounted(p, m) => MountSplits("mount", p, m.name, m.path);
    }
  }

  lemma HeadIsPlain(x: Item)
    requires ItemOk(x)
    ensures ':' !in Head(x) && '=' !in Head(x) && NoNul(Head(x))
  {}

  lemma TextHasNoNul(x: Item, json: EnvVar -> string)
    requires ItemOk(x) && GoodJson(json)
    ensures NoNul(Text(x, json))
  {
    if !x.Env? {
      TextSplits(x, json);
      HeadIsPlain(x);
      assert NoNul(Rest(x, json));
    }
  }

  lemma TextInjective(x: Item, y: Item, json: EnvVar -> string)
    requires ItemOk(x) && ItemOk(y) && GoodJson(json)
    requires Text(x, json) == Text(y, json)
    ensures x == y
  {
    TextSplits(x, json);
    TextSplits(y, json);
    HeadIsPlain(x);
    HeadIsPlain(y);
    Cut(Head(x), Delim(x), Rest(x, json), Head(y), Delim(y), Rest(y, json), {':', '='});
    SameKind(x, y);
    match x {
      case Pair(s, k, v) =>
        if !s.ConfigVars? { Cut(k, '=', v, y.key, '=', y.val, {'='}); }
      case Env(e) =>
      case Mounted(p, m) =>
        var n := y.mount;
        var r, t := m.name + "=" + m.path, n.name + "=" + n.path;
        assert p + ":" + r == Rest(x, json) && y.process + ":" + t == Rest(y, json);
        Cut(p, ':', r, y.process, ':', t, {':'});
        Cut(m.name, '=', m.path, n.name, '=', n.path, {'='});
    }
  }

  lemma SameKind(x: Item, y: Item)
    requires Head(x) == Head(y) && Delim(x) == Delim(y)
    ensures x.Pair? <==> y.Pair?
    ensures x.Pair? ==> x.section == y.section
    ensures x.Env? <==> y.Env?
  {
    assert "binding"[0] == 'b' && "global"[0] == 'g' && "size"[0] == 's' && "{\"name\""[0] == '{' && "mount"[0] == 'm';
  }

  // ---------- the stream can be read back

  lemma Assoc(a: string, b: string, z: string)
    ensures (a + b) + z == a + (b + z)
  {}

  lemma WritesLast(items: seq<Item>, x: Item, json: EnvVar -> string)
    ensures Written(items + [x], json) == Written(items, json) + (Text(x, json) + [NUL])
  {
    WritesOne(items, x, json);
    Assoc(Written(items, json), Text(x, json), [NUL]);
  }

  lemma {:induction false} WrittenFromFront(x: Item, items: seq<Item>, json: EnvVar -> string)
    ensures Written([x] + items, json) == Text(x, json) + [NUL] + Written(items, json)
  {
    hide Text, Written;
    if items == [] {
      WrittenNothing(json);
      WritesOne([], x, json);
      assert [] + [x] == [x] + [];
    } else {
      var n := |items| - 1;
      var last, front := items[n], items[..n];
      var a, b, z := Text(x, json) + [NUL], Written(front, json), Text(last, json) + [NUL];
      WrittenFromFront(x, front, json);
      assert [x] + items == ([x] + front) + [last] && items == front + [last];
      Assoc(a, b, z);
      WritesLast([x] + front, last, json);
      WritesLast(front, last, json);
    }
  }

  lemma {:induction false} WrittenInjective(xs: seq<Item>, ys: seq<Item>, json: EnvVar -> string)
    requires GoodJson(json) && Written(xs, json) == Written(ys, json)
    requires (forall x :: x in xs ==> ItemOk(x)) && (forall y :: y in ys ==> ItemOk(y))
    ensures xs == ys
  {
    hide Written, Text, GoodJson;
    if xs == [] || ys == [] { WrittenNothing(json); }
    if xs != [] { assert xs == [xs[0]] + xs[1..]; WrittenFromFront(xs[0], xs[1..], json); }
    if ys != [] { assert ys == [ys[0]] + ys[1..]; WrittenFromFront(ys[0], ys[1..], json); }
    if xs != [] && ys != [] {
      var x, y := xs[0], ys[0];
      TextHasNoNul(x, json);
      TextHasNoNul(y, json);
      Cut(Text(x, json), NUL, Written(xs[1..], json), Text(y, json), NUL, Written(ys[1..], json), {NUL});
      TextInjective(x, y, json);
      WrittenInjective(xs[1..], ys[1..], json);
    }
  }

  // ---------- what the entries say about the configuration

  lemma SectionHolds(s: Section, v: Vars, x: Item)
    ensures x in SectionItems(s, v) <==> x.Pair? && x.section == s && x.key in Data(v) && Data(v)[x.key] == x.val
  {
    var data := Data(v);
    var keys := SortedKeys(data.Keys);
    if x.Pair? && x.section == s && x.key in data && data[x.key] == x.val {
      var i :| 0 <= i < |keys| && keys[i] == x.key;
      assert SectionItems(s, v)[i] == x;
    }
  }

  lemma EnvsHold(c: Config, sorts: Sorts, x: Item)
    ensures x in Envs(sorts.env(c.env)) <==> x.Env? && x.env in c.env
  {
    var sorted := sorts.env(c.env);
    if x.Env? {
      SortKeepsElements(c.env, sorts.env, EnvName, x.env);
      if x.env in c.env {
        var i :| 0 <= i < |sorted| && sorted[i] == x.env;
        assert Envs(sorted)[i] == x;
      }
    }
  }

  lemma {:induction false} MountsHold(processes: map<string, seq<Mount>>, keys: seq<string>, sorts: Sorts, x: Item)
    requires forall k :: k in keys ==> k in processes
    ensures x in MountsFrom(processes, keys, sorts)
            <==> x.Mounted? && x.process in keys && x.mount in processes[x.process]
  {
    if keys != [] {
      var n := |keys| - 1;
      var p := keys[n];
      MountsHold(processes, keys[..n], sorts, x);
      var sorted := sorts.mounts(processes[p]);
      assert keys == keys[..n] + [p];
      if x.Mounted? {
        SortKeepsElements(processes[p], sorts.mounts, MountName, x.mount);
        if x.process == p && x.mount in sorted {
          var i :| 0 <= i < |sorted| && sorted[i] == x.mount;
          assert MountsOf(p, sorted)[i] == x;
        }
      }
    }
  }

  /** Membership in the list of entries, section by section. */
  ghost predicate Holds(c: Config, x: Item) {
    match x
    case Pair(Bindings, k, v) => k in Data(c.bindings) && Data(c.bindings)[k] == v
    case Pair(Globals, k, v) => k in Data(c.globals) && Data(c.globals)[k] == v
    case Pair(Sizes, k, v) => k in c.sizes && c.sizes[k] == v
    case Pair(ConfigVars, k, v) => k in Data(c.vars) && Data(c.vars)[k] == v
    case Env(e) => e in c.env
    case Mounted(p, m) => Mounts(c, p, m)
  }

  lemma ItemsHold(c: Config, sorts: Sorts, x: Item)
    ensures x in Items(c, sorts) <==> Holds(c, x)
  {
    hide SectionItems, MountsFrom, Envs, SortedKeys, IsSortedKeys;
    SectionHolds(Bindings, c.bindings, x);
    SectionHolds(Globals, c.globals, x);
    SectionHolds(Sizes, Some(c.sizes), x);
    SectionHolds(ConfigVars, c.vars, x);
    EnvsHold(c, sorts, x);
    MountsHold(c.processes, SortedKeys(c.processes.Keys), sorts, x);
  }

  lemma ItemsOk(c: Config, sorts: Sorts)
    requires Spelled(c)
    ensures forall x :: x in Items(c, sorts) ==> ItemOk(x)
  {
    hide Items;
    forall x | x in Items(c, sorts) ensures ItemOk(x) {
      ItemsHold(c, sorts, x);
      if x.Pair? { assert x.section.Sizes? ==> x.key in Data(Some(c.sizes)); }
    }
  }

  // ---------- processes that mount nothing leave no trace

  function Mounting(processes: map<string, seq<Mount>>, keys: seq<string>): (r: seq<string>)
    requires forall k :: k in keys ==> k in processes
    ensures forall k :: k in r <==> k in keys && processes[k] != []
  {
    if keys == [] then [] else
    var n := |keys| - 1;
    assert keys == keys[..n] + [keys[n]];
    Mounting(processes, keys[..n]) + (if processes[keys[n]] == [] then [] else [keys[n]])
  }

  lemma NothingSorted(sorts: Sorts)
    ensures sorts.mounts([]) == []
  {
    assert |sorts.mounts([])| == |multiset(sorts.mounts([]))| == 0;
  }

  lemma {:induction false} SkipsEmpty(processes: map<string, seq<Mount>>, keys: seq<string>, sorts: Sorts)
    requires forall k :: k in keys ==> k in processes
    ensures MountsFrom(processes, keys, sorts) == MountsFrom(processes, Mounting(processes, keys), sorts)
  {
    if keys != [] {
      var n := |keys| - 1;
      var p, front := keys[n], Mounting(processes, keys[..n]);
      SkipsEmpty(processes, keys[..n], sorts);
      if processes[p] == [] {
        NothingSorted(sorts);
        assert MountsOf(p, sorts.mounts(processes[p])) == [];
        assert Mounting(processes, keys) == front + [] == front;
      } else {
        assert Mounting(processes, keys) == front + [p];
        assert (front + [p])[..|front|] == front;
      }
    }
  }

  lemma {:induction false} MountingInOrder(processes: map<string, seq<Mount>>, keys: seq<string>)
    requires forall k :: k in keys ==> k in processes
    requires SortedBy(keys, ByName()) && Distinct(keys)
    ensures SortedBy(Mounting(processes, keys), ByName()) && Distinct(Mounting(processes, keys))
  {
    if keys != [] {
      var n := |keys| - 1;
      MountingInOrder(processes, keys[..n]);
      var front := Mounting(processes, keys[..n]);
      forall i | 0 <= i < |front| ensures ByName()(front[i], keys[n]) && front[i] != keys[n] {
        assert front[i] in front;
        assert front[i] in keys[..n];
      }
    }
  }

  ghost function MountingKeys(processes: map<string, seq<Mount>>): set<string> {
    set p | p in processes && processes[p] != []
  }

  lemma MountingIsSorted(processes: map<string, seq<Mount>>)
    ensures Mounting(processes, SortedKeys(processes.Keys)) == SortedKeys(MountingKeys(processes))
  {
    hide SortedKeys;
    var keys := SortedKeys(processes.Keys);
    MountingInOrder(processes, keys);
    SortedKeysUnique(Mounting(processes, keys), SortedKeys(MountingKeys(processes)), MountingKeys(processes));
  }

  lemma {:induction false} SameMountsSameItems(a: map<string, seq<Mount>>, b: map<string, seq<Mount>>,
                                               keys: seq<string>, sorts: Sorts)
    requires forall k :: k in keys ==> k in a && k in b && sorts.mounts(a[k]) == sorts.mounts(b[k])
    ensures MountsFrom(a, keys, sorts) == MountsFrom(b, keys, sorts)
  {
    if keys != [] {
      var n := |keys| - 1;
      SameMountsSameItems(a, b, keys[..n], sorts);
      assert keys[n] in keys;
    }
  }

  lemma SameMountingKeys(c: Config, d: Config)
    requires forall p, m :: Mounts(c, p, m) <==> Mounts(d, p, m)
    ensures MountingKeys(c.processes) == MountingKeys(d.processes)
  {
    var a, b := c.processes, d.processes;
    forall p ensures p in MountingKeys(a) <==> p in MountingKeys(b) {
      if p in MountingKeys(a) { assert Mounts(c, p, a[p][0]); assert Mounts(d, p, a[p][0]); }
      if p in MountingKeys(b) { assert Mounts(d, p, b[p][0]); assert Mounts(c, p, b[p][0]); }
    }
  }

  lemma MountSectionSame(c: Config, d: Config, sorts: Sorts)
    requires forall p, m :: Mounts(c, p, m) <==> Mounts(d, p, m)
    requires forall p :: p in c.processes && p in d.processes ==>
               sorts.mounts(c.processes[p]) == sorts.mounts(d.processes[p])
    ensures MountsFrom(c.processes, SortedKeys(c.processes.Keys), sorts)
         == MountsFrom(d.processes, SortedKeys(d.processes.Keys), sorts)
  {
    hide MountsFrom, SortedKeys;
    var a, b := c.processes, d.processes;
    SkipsEmpty(a, SortedKeys(a.Keys), sorts);
    SkipsEmpty(b, SortedKeys(b.Keys), sorts);
    MountingIsSorted(a);
    MountingIsSorted(b);
    SameMountingKeys(c, d);
    var keys := SortedKeys(MountingKeys(a));
    forall k | k in keys ensures k in a && k in b { assert k in MountingKeys(a) && k in MountingKeys(b); }
    SameMountsSameItems(a, b, keys, sorts);
  }

  // ---------- the theorem

  /** Distinct names, so the same elements in whatever order sort to one list. */
  lemma DistinctSortSame<T(!new)>(s: seq<T>, t: seq<T>, f: seq<T> -> seq<T>, name: T -> string)
    requires SortsByName(f, name) && DistinctNames(s, name) && DistinctNames(t, name)
    requires forall x :: x in s <==> x in t
    ensures f(s) == f(t)
  {
    SameElementsCountSame(s, t, name);
    DistinctIsUnambiguous(s, name);
    SortForgetsOrder(s, t, f, name);
  }

  lemma SameItems(c: Config, d: Config, sorts: Sorts)
    requires WellFormed(c) && WellFormed(d) && SameConfig(c, d)
    ensures Items(c, sorts) == Items(d, sorts)
  {
    hide MountsFrom, Envs, SortedKeys, IsSortedKeys, Pairs;
    DistinctSortSame(c.env, d.env, sorts.env, EnvName);
    forall p | p in c.processes && p in d.processes
      ensures sorts.mounts(c.processes[p]) == sorts.mounts(d.processes[p])
    {
      forall m ensures m in c.processes[p] <==> m in d.processes[p] { assert Mounts(c, p, m) <==> Mounts(d, p, m); }
      DistinctSortSame(c.processes[p], d.processes[p], sorts.mounts, MountName);
    }
    MountSectionSame(c, d, sorts);
  }

  lemma SameHolds(c: Config, d: Config)
    requires forall x :: Holds(c, x) <==> Holds(d, x)
    ensures SameConfig(c, d)
  {
    SameData(Bindings, c, d, Data(c.bindings), Data(d.bindings));
    SameData(Globals, c, d, Data(c.globals), Data(d.globals));
    SameData(Sizes, c, d, c.sizes, d.sizes);
    SameData(ConfigVars, c, d, Data(c.vars), Data(d.vars));
    forall e ensures e in c.env <==> e in d.env { assert Holds(c, Env(e)) <==> Holds(d, Env(e)); }
    forall p, m ensures Mounts(c, p, m) <==> Mounts(d, p, m) {
      assert Holds(c, Mounted(p, m)) <==> Holds(d, Mounted(p, m));
    }
  }

  lemma SameData(s: Section, c: Config, d: Config, a: map<string, string>, b: map<string, string>)
    requires forall x :: Holds(c, x) <==> Holds(d, x)
    requires forall k, v :: Holds(c, Pair(s, k, v)) <==> k in a && a[k] == v
    requires forall k, v :: Holds(d, Pair(s, k, v)) <==> k in b && b[k] == v
    ensures a == b
  {
    forall k | k in a ensures k in b && b[k] == a[k] { assert Holds(c, Pair(s, k, a[k])); }
    forall k | k in b ensures k in a { assert Holds(d, Pair(s, k, b[k])); }
  }

  /** configHash's stream is canonical: equal bytes exactly for equal configurations. */
  lemma StreamIdentifies(c: Config, d: Config, json: EnvVar -> string, sorts: Sorts)
    requires WellFormed(c) && WellFormed(d) && GoodJson(json)
    ensures Stream(c, json, sorts) == Stream(d, json, sorts) <==> SameConfig(c, d)
  {
    hide Items, Written, Holds, GoodJson;
    if Stream(c, json, sorts) == Stream(d, json, sorts) {
      ItemsOk(c, sorts);
      ItemsOk(d, sorts);
      WrittenInjective(Items(c, sorts), Items(d, sorts), json);
      forall x ensures Holds(c, x) <==> Holds(d, x) { ItemsHold(c, sorts, x); ItemsHold(d, sorts, x); }
      SameHolds(c, d);
    }
    if SameConfig(c, d) { SameItems(c, d, sorts); }
  }
}
