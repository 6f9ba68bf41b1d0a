/** What configHash feeds its hasher (internal/controller/status.go:25-91): a
    byte stream that must decide whether anything in a project's configuration
    changed. SHA-256 and JSON stay uninterpreted: `json` is whatever renders an
    environment variable, and the theorems say what they need of it. `sort.Slice` is
    any function that sorts by name. */
module ConfigHash {
  import opened Basics

  /** A plain environment variable; valueFrom stands for any reference it holds. */
  datatype EnvVar = EnvVar(name: string, value: string, valueFrom: string)
  datatype Mount = Mount(name: string, path: string)

  /** A Secret's data, absent when the Secret is. */
  type Vars = Option<map<string, string>>

  datatype Config = Config(
    bindings: Vars,
    globals: Vars,
    sizes: map<string, string>,
    env: seq<EnvVar>,
    processes: map<string, seq<Mount>>,
    vars: Vars)

  function EnvName(e: EnvVar): string { e.name }
  function MountName(m: Mount): string { m.name }

  type EnvSort = f: seq<EnvVar> -> seq<EnvVar> | SortsByName(f, EnvName)
    ghost witness (StableSortSorts(EnvName); StableSort(EnvName))

  type MountSort = f: seq<Mount> -> seq<Mount> | SortsByName(f, MountName)
    ghost witness (StableSortSorts(MountName); StableSort(MountName))

  /** What sort.Slice does with variables and with mounts. */
  datatype Sorts = Sorts(env: EnvSort, mounts: MountSort)

  const NUL: char := '\0'

  function Data(v: Vars): map<string, string> { if v.Some? then v.value else map[] }

  // ---------- the stream as a list of terminated entries

  datatype Section = Bindings | Globals | Sizes | ConfigVars

  datatype Item =
    | Pair(section: Section, key: string, val: string)
    | Env(env: EnvVar)
    | Mounted(process: string, mount: Mount)

  function Prefix(s: Section): string {
    match s
    case Bindings => "binding:"
    case Globals => "global:"
    case Sizes => "size:"
    case ConfigVars => ""
  }

  function Text(x: Item, json: EnvVar -> string): string {
    match x
    case Pair(s, k, v) => Prefix(s) + k + "=" + v
    case Env(e) => json(e)
    case Mounted(p, m) => "mount:" + p + ":" + m.name + "=" + m.path
  }

  /** The bytes written for a list of entries. */
  function Written(items: seq<Item>, json: EnvVar -> string): string {
    if items == [] then "" else
    Written(items[..|items| - 1], json) + Text(items[|items| - 1], json) + [NUL]
  }

  function Pairs(s: Section, m: map<string, string>, keys: seq<string>): (items: seq<Item>)
    requires forall k :: k in keys ==> k in m
    ensures |items| == |keys|
    ensures forall i :: 0 <= i < |keys| ==> items[i] == Pair(s, keys[i], m[keys[i]])
  {
    seq(|keys|, i requires 0 <= i < |keys| => Pair(s, keys[i], m[keys[i]]))
  }

  function Envs(env: seq<EnvVar>): (items: seq<Item>)
    ensures |items| == |env| && forall i :: 0 <= i < |env| ==> items[i] == Env(env[i])
  {
    seq(|env|, i requires 0 <= i < |env| => Env(env[i]))
  }

  function MountsOf(p: string, mounts: seq<Mount>): (items: seq<Item>)
    ensures |items| == |mounts| && forall i :: 0 <= i < |mounts| ==> items[i] == Mounted(p, mounts[i])
  {
    seq(|mounts|, i requires 0 <= i < |mounts| => Mounted(p, mounts[i]))
  }

  function MountsFrom(processes: map<string, seq<Mount>>, keys: seq<string>, sorts: Sorts): seq<Item>
    requires forall k :: k in keys ==> k in processes
  {
    if keys == [] then [] else
    MountsFrom(processes, keys[..|keys| - 1], sorts)
    + MountsOf(keys[|keys| - 1], sorts.mounts(processes[keys[|keys| - 1]]))
  }

  ghost function SectionItems(s: Section, v: Vars): seq<Item> {
    Pairs(s, Data(v), SortedKeys(Data(v).Keys))
  }

  ghost function Items(c: Config, sorts: Sorts): seq<Item> {
    SectionItems(Bindings, c.bindings)
    + SectionItems(Globals, c.globals)
    + SectionItems(Sizes, Some(c.sizes))
    + Envs(sorts.env(c.env))
    + MountsFrom(c.processes, SortedKeys(c.processes.Keys), sorts)
    + SectionItems(ConfigVars, c.vars)
  }

  ghost function Stream(c: Config, json: EnvVar -> string, sorts: Sorts): string {
    Written(Items(c, sorts), json)
  }

  // ---------- configHash's loops write exactly that stream

  lemma WritesOne(items: seq<Item>, x: Item, json: EnvVar -> string)
    ensures Written(items + [x], json) == Written(items, json) + Text(x, json) + [NUL]
  {
    assert (items + [x])[..|items|] == items;
  }

  lemma NothingHeld(s: Section)
    ensures SectionItems(s, None) == []
  {
    assert Data(None).Keys == {};
  }

  lemma OneMoreItem(done: seq<Item>, items: seq<Item>, i: nat)
    requires i < |items|
    ensures done + items[..i + 1] == done + items[..i] + [items[i]]
  {}

  /** One entry written in pieces, then its terminator. */
  lemma Appends(h: string, a: string, b: string)
    ensures h + a + b + [NUL] == h + (a + b) + [NUL]
  {}

  method WriteSection(h0: string, s: Section, v: Vars, json: EnvVar -> string, ghost done: seq<Item>)
    returns (h: string)
    requires h0 == Written(done, json)
    ensures h == Written(done + SectionItems(s, v), json)
  {
    hide Written, Pairs, SortedKeys, IsSortedKeys;
    h := h0;
    if v.None? {
      NothingHeld(s);
      assert done + [] == done;
      return;
    }
    var data := v.value;
    var keys := KeysInOrder(data);
    ghost var items := Pairs(s, data, keys);
    ghost var w := done;
    var i := 0;
    while i < |keys|
      invariant 0 <= i <= |keys|
      invariant w == done + items[..i] && h == Written(w, json)
    {
      var k := keys[i];
      assert k in keys;
      WritesOne(w, items[i], json);
      Appends(h, Prefix(s) + k + "=", data[k]);
      OneMoreItem(done, items, i);
      w := w + [items[i]];
      h := h + (Prefix(s) + k + "=");
      h := h + data[k];
      h := h + [NUL];
      i := i + 1;
    }
    assert w == done + SectionItems(s, v);
  }

  method WriteEnv(h0: string, env: seq<EnvVar>, json: EnvVar -> string, sorts: Sorts, ghost done: seq<Item>)
    returns (h: string)
    requires h0 == Written(done, json)
    ensures h == Written(done + Envs(sorts.env(env)), json)
  {
    hide Written;
    h := h0;
    var sorted := sorts.env(env);
    ghost var items := Envs(sorted);
    ghost var w := done;
    var i := 0;
    while i < |sorted|
      invariant 0 <= i <= |sorted|
      invariant w == done + items[..i] && h == Written(w, json)
    {
      WritesOne(w, items[i], json);
      OneMoreItem(done, items, i);
      w := w + [items[i]];
      h := h + json(sorted[i]);
      h := h + [NUL];
      i := i + 1;
    }
    assert w == done + items;
  }

  method WriteProcessMounts(h0: string, p: string, mounts: seq<Mount>, json: EnvVar -> string, ghost done: seq<Item>)
    returns (h: string)
    requires h0 == Written(done, json)
    ensures h == Written(done + MountsOf(p, mounts), json)
  {
    hide Written;
    h := h0;
    ghost var items := MountsOf(p, mounts);
    ghost var w := done;
    var j := 0;
    while j < |mounts|
      invariant 0 <= j <= |mounts|
      invariant w == done + items[..j] && h == Written(w, json)
    {
      WritesOne(w, items[j], json);
      OneMoreItem(done, items, j);
      w := w + [items[j]];
      h := h + ("mount:" + p + ":" + mounts[j].name + "=" + mounts[j].path);
      h := h + [NUL];
      j := j + 1;
    }
    assert w == done + items;
  }

  method WriteMounts(h0: string, processes: map<string, seq<Mount>>, json: EnvVar -> string, sorts: Sorts,
                     ghost done: seq<Item>)
    returns (h: string)
    requires h0 == Written(done, json)
    ensures h == Written(done + MountsFrom(processes, SortedKeys(processes.Keys), sorts), json)
  {
    hide Written, Pairs, SortedKeys, IsSortedKeys, Text;
    h := h0;
    var names := KeysInOrder(processes);
    ghost var w := done;
    var i := 0;
    while i < |names|
      invariant 0 <= i <= |names|
      invariant w == done + MountsFrom(processes, names[..i], sorts) && h == Written(w, json)
    {
      var p := names[i];
      assert p in names;
      var mounts := sorts.mounts(processes[p]);
      h := WriteProcessMounts(h, p, mounts, json, w);
      assert names[..i + 1][..i] == names[..i];
      w := w + MountsOf(p, mounts);
      i := i + 1;
    }
    assert names[..i] == names;
  }

  /** configHash up to the hash: feeds the hasher section by section. */
  method ConfigStream(c: Config, json: EnvVar -> string, sorts: Sorts) returns (h: string)
    ensures h == Stream(c, json, sorts)
  {
    hide Written, SectionItems, MountsFrom, Envs, SortedKeys, IsSortedKeys;
    assert "" == Written([], json) by { WrittenNothing(json); }
    h := WriteSection("", Bindings, c.bindings, json, []);
    ghost var done := SectionItems(Bindings, c.bindings);
    assert [] + done == done;
    h := WriteSection(h, Globals, c.globals, json, done);
    done := done + SectionItems(Globals, c.globals);
    h := WriteSection(h, Sizes, Some(c.sizes), json, done);
    done := done + SectionItems(Sizes, Some(c.sizes));
    h := WriteEnv(h, c.env, json, sorts, done);
    done := done + Envs(sorts.env(c.env));
    h := WriteMounts(h, c.processes, json, sorts, done);
    done := done + MountsFrom(c.processes, SortedKeys(c.processes.Keys), sorts);
    h := WriteSection(h, ConfigVars, c.vars, json, done);
  }

  lemma WrittenNothing(json: EnvVar -> string)
    ensures Written([], json) == ""
  {}
}
