/** The configuration stream without the hypothesis of distinct names: what it then
    depends on (internal/controller/status.go:25-91). A process may mount one Volume
    twice (internal/controller/mounts.go:47-70), and nothing keeps a variable from being
    set twice. sort.Slice leaves elements of one name in no particular order; up to
    twelve elements it sorts by insertion, which keeps them as listed. */
module ConfigOrder {
  import opened Basics
  import opened ConfigHash
  import opened ConfigIdentity

  // ---------- what can be read back off the entries

  function EnvsIn(items: seq<Item>): seq<EnvVar> {
    if items == [] then [] else (if items[0].Env? then [items[0].env] else []) + EnvsIn(items[1..])
  }

  function MountsIn(items: seq<Item>, p: string): seq<Mount> {
    if items == [] then [] else
    (if items[0].Mounted? && items[0].process == p then [items[0].mount] else []) + MountsIn(items[1..], p)
  }

  lemma ReadsOne(x: Item, items: seq<Item>, p: string)
    ensures EnvsIn([x] + items) == (if x.Env? then [x.env] else []) + EnvsIn(items)
    ensures MountsIn([x] + items, p) == (if x.Mounted? && x.process == p then [x.mount] else []) + MountsIn(items, p)
  {
    assert ([x] + items)[1..] == items;
  }

  lemma NothingRead(p: string)
    ensures EnvsIn([]) == [] && MountsIn([], p) == []
  {}

  lemma {:induction false} ReadsInTwo(a: seq<Item>, b: seq<Item>, p: string)
    ensures EnvsIn(a + b) == EnvsIn(a) + EnvsIn(b)
    ensures MountsIn(a + b, p) == MountsIn(a, p) + MountsIn(b, p)
  {
    hide EnvsIn, MountsIn;
    if a == [] {
      NothingRead(p);
      assert a + b == b;
    } else {
      assert a == [a[0]] + a[1..] && a + b == [a[0]] + (a[1..] + b);
      ReadsOne(a[0], a[1..], p);
      ReadsOne(a[0], a[1..] + b, p);
      ReadsInTwo(a[1..], b, p);
    }
  }

  lemma {:induction false} PairsSilent(items: seq<Item>, p: string)
    requires forall x :: x in items ==> x.Pair?
    ensures EnvsIn(items) == [] && MountsIn(items, p) == []
  {
    if items != [] {
      assert items[0] in items;
      PairsSilent(items[1..], p);
    }
  }

  lemma SectionSilent(s: Section, v: Vars, p: string)
    ensures EnvsIn(SectionItems(s, v)) == [] && MountsIn(SectionItems(s, v), p) == []
  {
    hide SortedKeys;
    PairsSilent(SectionItems(s, v), p);
  }

  lemma {:induction false} EnvsRead(env: seq<EnvVar>, p: string)
    ensures EnvsIn(Envs(env)) == env && MountsIn(Envs(env), p) == []
  {
    if env != [] {
      assert Envs(env)[1..] == Envs(env[1..]);
      EnvsRead(env[1..], p);
    }
  }

  lemma {:induction false} MountsRead(q: string, mounts: seq<Mount>, p: string)
    ensures EnvsIn(MountsOf(q, mounts)) == []
    ensures MountsIn(MountsOf(q, mounts), p) == if p == q then mounts else []
  {
    if mounts != [] {
      assert MountsOf(q, mounts)[1..] == MountsOf(q, mounts[1..]);
      MountsRead(q, mounts[1..], p);
    }
  }

  lemma {:induction false} AllMountsRead(processes: map<string, seq<Mount>>, keys: seq<string>, sorts: Sorts, p: string)
    requires Distinct(keys) && forall k :: k in keys ==> k in processes
    ensures EnvsIn(MountsFrom(processes, keys, sorts)) == []
    ensures MountsIn(MountsFrom(processes, keys, sorts), p) == if p in keys then sorts.mounts(processes[p]) else []
  {
    hide EnvsIn, MountsIn;
    if keys == [] {
      assert EnvsIn([]) == [] && MountsIn([], p) == [] by { NothingRead(p); }
    } else {
      var n := |keys| - 1;
      var front, q := keys[..n], keys[n];
      assert keys == front + [q];
      AllMountsRead(processes, front, sorts, p);
      MountsRead(q, sorts.mounts(processes[q]), p);
      ReadsInTwo(MountsFrom(processes, front, sorts), MountsOf(q, sorts.mounts(processes[q])), p);
    }
  }

  function MountsAt(c: Config, p: string): seq<Mount> { if p in c.processes then c.processes[p] else [] }

  lemma ItemsRead(c: Config, sorts: Sorts, p: string)
    ensures EnvsIn(Items(c, sorts)) == sorts.env(c.env)
    ensures MountsIn(Items(c, sorts), p) == sorts.mounts(MountsAt(c, p))
  {
    var keys := SortedKeys(c.processes.Keys);
    SectionSilent(Bindings, c.bindings, p);
    SectionSilent(Globals, c.globals, p);
    SectionSilent(Sizes, Some(c.sizes), p);
    SectionSilent(ConfigVars, c.vars, p);
    EnvsRead(sorts.env(c.env), p);
    AllMountsRead(c.processes, keys, sorts, p);
    hide SectionItems, MountsFrom, Envs, SortedKeys, EnvsIn, MountsIn;
    JoinedRead(SectionItems(Bindings, c.bindings), SectionItems(Globals, c.globals), SectionItems(Sizes, Some(c.sizes)),
               Envs(sorts.env(c.env)), MountsFrom(c.processes, keys, sorts), SectionItems(ConfigVars, c.vars), p);
    NothingSorted(sorts);
  }

  lemma JoinedRead(s1: seq<Item>, s2: seq<Item>, s3: seq<Item>, e: seq<Item>, m: seq<Item>, s4: seq<Item>, p: string)
    requires EnvsIn(s1) == EnvsIn(s2) == EnvsIn(s3) == EnvsIn(s4) == EnvsIn(m) == []
    requires MountsIn(s1, p) == MountsIn(s2, p) == MountsIn(s3, p) == MountsIn(s4, p) == MountsIn(e, p) == []
    ensures EnvsIn(s1 + s2 + s3 + e + m + s4) == EnvsIn(e)
    ensures MountsIn(s1 + s2 + s3 + e + m + s4, p) == MountsIn(m, p)
  {
    hide EnvsIn, MountsIn;
    ReadsInTwo(s1, s2, p);
    ReadsInTwo(s1 + s2, s3, p);
    ReadsInTwo(s1 + s2 + s3, e, p);
    ReadsInTwo(s1 + s2 + s3 + e, m, p);
    ReadsInTwo(s1 + s2 + s3 + e + m, s4, p);
  }

  // ---------- for one sort

  ghost predicate SameData(c: Config, d: Config) {
    && Data(c.bindings) == Data(d.bindings)
    && Data(c.globals) == Data(d.globals)
    && c.sizes == d.sizes
    && Data(c.vars) == Data(d.vars)
  }

  ghost predicate SameSorted(c: Config, d: Config, sorts: Sorts) {
    && SameData(c, d)
    && sorts.env(c.env) == sorts.env(d.env)
    && forall p :: sorts.mounts(MountsAt(c, p)) == sorts.mounts(MountsAt(d, p))
  }

  lemma SameSortedSameItems(c: Config, d: Config, sorts: Sorts)
    requires SameSorted(c, d, sorts)
    ensures Items(c, sorts) == Items(d, sorts)
  {
    hide MountsFrom, Envs, SortedKeys, IsSortedKeys, Pairs;
    forall p, m ensures Mounts(c, p, m) <==> Mounts(d, p, m) {
      SortKeepsElements(MountsAt(c, p), sorts.mounts, MountName, m);
      SortKeepsElements(MountsAt(d, p), sorts.mounts, MountName, m);
    }
    forall p | p in c.processes && p in d.processes
      ensures sorts.mounts(c.processes[p]) == sorts.mounts(d.processes[p])
    {
      assert MountsAt(c, p) == c.processes[p] && MountsAt(d, p) == d.processes[p];
    }
    MountSectionSame(c, d, sorts);
  }

  lemma SameItemsSameSorted(c: Config, d: Config, sorts: Sorts)
    requires Items(c, sorts) == Items(d, sorts)
    ensures SameSorted(c, d, sorts)
  {
    hide Items, Holds;
    forall x ensures Holds(c, x) <==> Holds(d, x) { ItemsHold(c, sorts, x); ItemsHold(d, sorts, x); }
    SameHolds(c, d);
    ItemsRead(c, sorts, "");
    ItemsRead(d, sorts, "");
    forall p ensures sorts.mounts(MountsAt(c, p)) == sorts.mounts(MountsAt(d, p)) {
      ItemsRead(c, sorts, p);
      ItemsRead(d, sorts, p);
    }
  }

  /** Whichever way sort.Slice sorts: equal bytes exactly for the same data and the same
      sorted lists. */
  lemma StreamIdentifiesSorted(c: Config, d: Config, json: EnvVar -> string, sorts: Sorts)
    requires Spelled(c) && Spelled(d) && GoodJson(json)
    ensures Stream(c, json, sorts) == Stream(d, json, sorts) <==> SameSorted(c, d, sorts)
  {
    hide Items, Written, SameSorted, GoodJson;
    if Stream(c, json, sorts) == Stream(d, json, sorts) {
      ItemsOk(c, sorts);
      ItemsOk(d, sorts);
      WrittenInjective(Items(c, sorts), Items(d, sorts), json);
      SameItemsSameSorted(c, d, sorts);
    }
    if SameSorted(c, d, sorts) { SameSortedSameItems(c, d, sorts); }
  }

  /** The same data and the same entries, each as often. */
  ghost predicate SameEntries(c: Config, d: Config) {
    && SameData(c, d)
    && multiset(c.env) == multiset(d.env)
    && forall p :: multiset(MountsAt(c, p)) == multiset(MountsAt(d, p))
  }

  /** Whatever names repeat and whichever way sort.Slice sorts, the bytes tell the data
      and the entries. */
  lemma StreamTellsEntries(c: Config, d: Config, json: EnvVar -> string, sorts: Sorts)
    requires Spelled(c) && Spelled(d) && GoodJson(json)
    requires Stream(c, json, sorts) == Stream(d, json, sorts)
    ensures SameEntries(c, d)
  {
    hide Stream, Spelled, GoodJson;
    StreamIdentifiesSorted(c, d, json, sorts);
    assert multiset(sorts.env(c.env)) == multiset(c.env) && multiset(sorts.env(d.env)) == multiset(d.env);
    forall p ensures multiset(MountsAt(c, p)) == multiset(MountsAt(d, p)) {
      assert multiset(sorts.mounts(MountsAt(c, p))) == multiset(MountsAt(c, p));
      assert multiset(sorts.mounts(MountsAt(d, p))) == multiset(MountsAt(d, p));
    }
  }

  // ---------- for every sort that keeps short lists in order

  /** f keeps elements of one name as listed in lists of up to k elements. For
      sort.Slice k is 12; for k == 0 this says nothing. */
  ghost predicate StableUpTo<T(!new)>(f: seq<T> -> seq<T>, name: T -> string, k: nat) {
    forall s :: 0 < |s| <= k ==> f(s) == SortBy(s, ByNameOf(name))
  }

  ghost predicate KeepsShort(sorts: Sorts, k: nat) {
    StableUpTo(sorts.env, EnvName, k) && StableUpTo(sorts.mounts, MountName, k)
  }

  ghost predicate SameLists<T(!new)>(s: seq<T>, t: seq<T>, name: T -> string) {
    forall n :: Called(s, name, n) == Called(t, name, n)
  }

  /** What makes s and t sort to one list, whichever way they are sorted: short ones
      list, for each name, the same in the same order; long ones are one list, or hold
      the same and no two different elements of one name. */
  ghost predicate Alike<T(!new)>(s: seq<T>, t: seq<T>, name: T -> string, k: nat) {
    if |s| <= k && |t| <= k then SameLists(s, t, name)
    else s == t || (multiset(s) == multiset(t) && Unambiguous(s, name))
  }

  /** Sorts as the stable sort does, but for one list. */
  function Deviating<T(==)>(name: T -> string, at: seq<T>, out: seq<T>): seq<T> -> seq<T> {
    s => if s == at then out else SortBy(s, ByNameOf(name))
  }

  lemma DeviatingSorts<T(!new)>(name: T -> string, at: seq<T>, out: seq<T>, k: nat)
    requires SortedBy(out, ByNameOf(name)) && multiset(out) == multiset(at) && |at| > k
    ensures SortsByName(Deviating(name, at, out), name) && StableUpTo(Deviating(name, at, out), name, k)
  {
    hide SortBy;
    var f := Deviating(name, at, out);
    StableSortSorts(name);
    forall s ensures SortedBy(f(s), ByNameOf(name)) && multiset(f(s)) == multiset(s) {
      assert StableSort(name)(s) == SortBy(s, ByNameOf(name));
    }
  }

  lemma TwoOfOneName<T>(s: seq<T>, name: T -> string) returns (i: nat, j: nat)
    requires !Unambiguous(s, name)
    ensures i < |s| && j < |s| && name(s[i]) == name(s[j]) && s[i] != s[j]
  {
    var x, y :| x in s && y in s && name(x) == name(y) && x != y;
    i :| i < |s| && s[i] == x;
    j :| j < |s| && s[j] == y;
  }

  lemma SortedByNames<T>(a: seq<T>, b: seq<T>, name: T -> string)
    requires |a| == |b| && (forall l :: 0 <= l < |a| ==> name(a[l]) == name(b[l])) && SortedBy(a, ByNameOf(name))
    ensures SortedBy(b, ByNameOf(name))
  {
    hide LexLe;
    forall i, j | 0 <= i < j < |b| ensures LexLe(name(b[i]), name(b[j])) {
      assert ByNameOf(name)(a[i], a[j]);
    }
  }

  /** An ambiguous list has a second arrangement in name order. */
  lemma SecondArrangement<T(!new)>(s: seq<T>, name: T -> string) returns (out: seq<T>)
    requires !Unambiguous(s, name)
    ensures SortedBy(out, ByNameOf(name)) && multiset(out) == multiset(s) && out != SortBy(s, ByNameOf(name))
  {
    hide SortBy, Unambiguous, SortedBy;
    var a := SortBy(s, ByNameOf(name));
    ByNameOfPreorder(name);
    SortBySorts(s, ByNameOf(name));
    AmbiguityIsOfElements(s, a, name);
    var i, j := TwoOfOneName(a, name);
    out := a[i := a[j]][j := a[i]];
    SwapCounts(a, i, j);
    assert out[i] != a[i];
    SortedByNames(a, out, name);
  }

  lemma SwapCounts<T>(s: seq<T>, i: nat, j: nat)
    requires i < |s| && j < |s|
    ensures multiset(s[i := s[j]][j := s[i]]) == multiset(s)
  {}

  lemma AlikeSortSame<T(!new)>(s: seq<T>, t: seq<T>, f: seq<T> -> seq<T>, name: T -> string, k: nat)
    requires SortsByName(f, name) && StableUpTo(f, name, k) && Alike(s, t, name, k)
    ensures f(s) == f(t)
  {
    hide SortBy;
    if |s| <= k && |t| <= k {
      SameCalledSameSort(s, t, name);
      ShortSorts(s, f, name, k);
      ShortSorts(t, f, name, k);
    } else if s != t {
      SortForgetsOrder(s, t, f, name);
    }
  }

  lemma ShortSorts<T(!new)>(s: seq<T>, f: seq<T> -> seq<T>, name: T -> string, k: nat)
    requires SortsByName(f, name) && StableUpTo(f, name, k) && |s| <= k
    ensures f(s) == SortBy(s, ByNameOf(name))
  {
    if s == [] { assert |f(s)| == |multiset(f(s))| == 0; }
  }

  /** The sort that tells apart two lists that are not alike. */
  lemma NotAlikeTold<T(!new)>(s: seq<T>, t: seq<T>, name: T -> string, k: nat) returns (f: seq<T> -> seq<T>)
    requires !Alike(s, t, name, k)
    ensures SortsByName(f, name) && StableUpTo(f, name, k) && f(s) != f(t)
  {
    hide SortBy, Called;
    StableSortSorts(name);
    f := StableSort(name);
    assert StableUpTo(f, name, k);
    if f(s) == f(t) {
      assert multiset(f(s)) == multiset(s) && multiset(f(t)) == multiset(t);
      assert |s| == |multiset(s)| == |multiset(t)| == |t|;
      if |s| <= k {
        forall n ensures Called(s, name, n) == Called(t, name, n) {
          CalledSorted(s, name, n);
          CalledSorted(t, name, n);
        }
        assert false;
      } else {
        var out := SecondArrangement(s, name);
        DeviatingSorts(name, s, out, k);
        f := Deviating(name, s, out);
        assert f(t) == SortBy(t, ByNameOf(name)) == SortBy(s, ByNameOf(name));
      }
    }
  }

  ghost predicate SameBytes(c: Config, d: Config, json: EnvVar -> string, k: nat) {
    forall sorts :: KeepsShort(sorts, k) ==> Stream(c, json, sorts) == Stream(d, json, sorts)
  }

  ghost predicate AlikeConfigs(c: Config, d: Config, k: nat) {
    && SameData(c, d)
    && Alike(c.env, d.env, EnvName, k)
    && forall p :: Alike(MountsAt(c, p), MountsAt(d, p), MountName, k)
  }

  lemma StableKeepsShort(k: nat)
    ensures SortsByName(StableSort(EnvName), EnvName) && SortsByName(StableSort(MountName), MountName)
    ensures StableUpTo(StableSort(EnvName), EnvName, k) && StableUpTo(StableSort(MountName), MountName, k)
  {
    hide SortBy;
    StableSortSorts(EnvName);
    StableSortSorts(MountName);
  }

  /** Two configurations surely have the same bytes, however sort.Slice sorts lists of more
      than k elements, if and only if their data are the same and their lists alike. */
  lemma SameBytesExactly(c: Config, d: Config, json: EnvVar -> string, k: nat)
    requires Spelled(c) && Spelled(d) && GoodJson(json)
    ensures SameBytes(c, d, json, k) <==> AlikeConfigs(c, d, k)
  {
    hide Stream, Spelled, GoodJson, Alike, StableUpTo, SortsByName, StableSort;
    StableKeepsShort(k);
    var env: EnvSort, mounts: MountSort := StableSort(EnvName), StableSort(MountName);
    if AlikeConfigs(c, d, k) {
      forall sorts | KeepsShort(sorts, k) ensures Stream(c, json, sorts) == Stream(d, json, sorts) {
        AlikeSortSame(c.env, d.env, sorts.env, EnvName, k);
        forall p ensures sorts.mounts(MountsAt(c, p)) == sorts.mounts(MountsAt(d, p)) {
          AlikeSortSame(MountsAt(c, p), MountsAt(d, p), sorts.mounts, MountName, k);
        }
        StreamIdentifiesSorted(c, d, json, sorts);
      }
    }
    if SameBytes(c, d, json, k) {
      StreamIdentifiesSorted(c, d, json, Sorts(env, mounts));
      if !Alike(c.env, d.env, EnvName, k) {
        var f: EnvSort := NotAlikeTold(c.env, d.env, EnvName, k);
        StreamIdentifiesSorted(c, d, json, Sorts(f, mounts));
        assert false;
      }
      forall p ensures Alike(MountsAt(c, p), MountsAt(d, p), MountName, k) {
        if !Alike(MountsAt(c, p), MountsAt(d, p), MountName, k) {
          var f: MountSort := NotAlikeTold(MountsAt(c, p), MountsAt(d, p), MountName, k);
          StreamIdentifiesSorted(c, d, json, Sorts(env, f));
          assert false;
        }
      }
    }
  }

  // ---------- two entries of one name

  lemma CalledPair<T>(x: T, y: T, name: T -> string, n: string)
    requires name(x) == name(y)
    ensures Called([x, y], name, n) == if name(x) == n then [x, y] else []
  {
    assert [x, y][1..] == [y] && [y][1..] == [];
    assert Called([y], name, n) == (if name(y) == n then [y] else []) + Called([y][1..], name, n);
  }

  /** Swapping two neighbours of one name is seen, for each name, exactly when they
      differ. */
  lemma SwapSeenExactly<T(!new)>(a: seq<T>, x: T, y: T, b: seq<T>, name: T -> string)
    requires name(x) == name(y)
    ensures (forall n :: Called(a + [x, y] + b, name, n) == Called(a + [y, x] + b, name, n)) <==> x == y
  {
    forall n ensures Called(a + [x, y] + b, name, n) ==
                     Called(a, name, n) + (if name(x) == n then [x, y] else []) + Called(b, name, n)
             ensures Called(a + [y, x] + b, name, n) ==
                     Called(a, name, n) + (if name(x) == n then [y, x] else []) + Called(b, name, n)
    {
      CalledInTwo(a + [x, y], b, name, n);
      CalledInTwo(a + [y, x], b, name, n);
      CalledInTwo(a, [x, y], name, n);
      CalledInTwo(a, [y, x], name, n);
      CalledPair(x, y, name, n);
      CalledPair(y, x, name, n);
    }
    var n, k := name(x), |Called(a, name, name(x))|;
    assert Called(a + [x, y] + b, name, n)[k] == x && Called(a + [y, x] + b, name, n)[k] == y;
  }

  /** Of two lists that differ in the order of two neighbours of one name: they are alike
      exactly when the two are equal. */
  lemma SwapAlikeExactly<T(!new)>(a: seq<T>, x: T, y: T, b: seq<T>, name: T -> string, k: nat)
    requires name(x) == name(y)
    ensures Alike(a + [x, y] + b, a + [y, x] + b, name, k) <==> x == y
  {
    var s, t := a + [x, y] + b, a + [y, x] + b;
    SwapSeenExactly(a, x, y, b, name);
    assert s[|a|] == x && s[|a| + 1] == y && t[|a|] == y;
    assert x in s && y in s;
  }

  /** Two variables of one name, anywhere among others: the order they are listed in can
      change the bytes if and only if they differ. */
  lemma RepeatedNameDependsOnOrder(json: EnvVar -> string, c: Config,
                                   a: seq<EnvVar>, e: EnvVar, f: EnvVar, b: seq<EnvVar>, k: nat)
    requires GoodJson(json) && Spelled(c) && e.name == f.name
    ensures SameBytes(c.(env := a + [e, f] + b), c.(env := a + [f, e] + b), json, k) <==> e == f
  {
    hide SameBytes, GoodJson, Alike;
    var d1, d2 := c.(env := a + [e, f] + b), c.(env := a + [f, e] + b);
    SwapAlikeExactly(a, e, f, b, EnvName, k);
    SameBytesExactly(d1, d2, json, k);
    forall p ensures Alike(MountsAt(d1, p), MountsAt(d2, p), MountName, k) {
      AlikeItself(MountsAt(c, p), MountName, k);
    }
  }

  lemma AlikeItself<T(!new)>(s: seq<T>, name: T -> string, k: nat)
    ensures Alike(s, s, name, k)
  {}

  /** The same for one Volume mounted twice by a process. */
  lemma RepeatedMountDependsOnOrder(json: EnvVar -> string, c: Config, p: string,
                                    a: seq<Mount>, m: Mount, n: Mount, b: seq<Mount>, k: nat)
    requires GoodJson(json) && m.name == n.name && Spelled(c.(processes := c.processes[p := a + [m, n] + b]))
    ensures var d1 := c.(processes := c.processes[p := a + [m, n] + b]);
            var d2 := c.(processes := c.processes[p := a + [n, m] + b]);
            SameBytes(d1, d2, json, k) <==> m == n
  {
    hide SameBytes, GoodJson, Alike;
    var d1 := c.(processes := c.processes[p := a + [m, n] + b]);
    var d2 := c.(processes := c.processes[p := a + [n, m] + b]);
    SwapIsSpelled(c, p, a, m, n, b);
    SwapAlikeExactly(a, m, n, b, MountName, k);
    SameBytesExactly(d1, d2, json, k);
    AlikeItself(c.env, EnvName, k);
    forall q | q != p ensures Alike(MountsAt(d1, q), MountsAt(d2, q), MountName, k) {
      AlikeItself(MountsAt(c, q), MountName, k);
    }
    assert MountsAt(d1, p) == a + [m, n] + b && MountsAt(d2, p) == a + [n, m] + b;
  }

  lemma SwapIsSpelled(c: Config, p: string, a: seq<Mount>, m: Mount, n: Mount, b: seq<Mount>)
    requires Spelled(c.(processes := c.processes[p := a + [m, n] + b]))
    ensures Spelled(c.(processes := c.processes[p := a + [n, m] + b]))
  {
    hide GoodVars;
    var d := c.(processes := c.processes[p := a + [m, n] + b]);
    var e := c.(processes := c.processes[p := a + [n, m] + b]);
    forall q | q in e.processes
      ensures Plain(q) && forall x :: x in e.processes[q] ==> Plain(x.name) && NoNul(x.path)
    {
      assert q in d.processes;
      forall x | x in e.processes[q] ensures x in d.processes[q] {}
    }
  }

  // ---------- when listing order does not matter, and when it is all that does

  /** No two different variables, and no two different mounts of a process, have one name. */
  ghost predicate NoAmbiguity(c: Config) {
    Unambiguous(c.env, EnvName) && forall p :: Unambiguous(MountsAt(c, p), MountName)
  }

  lemma UnambiguousAlike<T(!new)>(s: seq<T>, t: seq<T>, name: T -> string, k: nat)
    requires multiset(s) == multiset(t) && Unambiguous(s, name)
    ensures Alike(s, t, name, k)
  {
    hide SortBy, Called;
    StableSortSorts(name);
    SortForgetsOrder(s, t, StableSort(name), name);
    assert StableSort(name)(s) == SortBy(s, ByNameOf(name)) && StableSort(name)(t) == SortBy(t, ByNameOf(name));
    forall n ensures Called(s, name, n) == Called(t, name, n) {
      CalledSorted(s, name, n);
      CalledSorted(t, name, n);
    }
  }

  function Without<T(==)>(s: seq<T>, x: T): seq<T> {
    if s == [] then [] else if s[0] == x then s[1..] else [s[0]] + Without(s[1..], x)
  }

  lemma {:induction false} WithoutCounts<T>(s: seq<T>, x: T)
    requires x in s
    ensures multiset(s) == multiset{x} + multiset(Without(s, x))
  {
    FirstCounts(s);
    if s[0] != x { WithoutCounts(s[1..], x); }
  }

  lemma StaysWithout<T>(s: seq<T>, x: T, y: T)
    requires x in s && y in s && x != y
    ensures y in Without(s, x)
  {
    WithoutCounts(s, x);
    assert y in multiset(s);
  }

  lemma InFront<T>(x: T, y: T, rest: seq<T>)
    ensures multiset([] + [x, y] + rest) == multiset{x} + (multiset{y} + multiset(rest))
  {
    assert [] + [x, y] + rest == [x] + ([y] + rest);
  }

  /** Two different elements of one name can be moved to the front. */
  lemma MovedUp<T(!new)>(s: seq<T>, name: T -> string) returns (x: T, y: T, rest: seq<T>)
    requires !Unambiguous(s, name)
    ensures name(x) == name(y) && x != y
    ensures multiset(s) == multiset([] + [x, y] + rest) == multiset([] + [y, x] + rest)
  {
    hide Without;
    x, y :| x in s && y in s && name(x) == name(y) && x != y;
    rest := Without(Without(s, x), y);
    StaysWithout(s, x, y);
    WithoutCounts(s, x);
    WithoutCounts(Without(s, x), y);
    InFront(x, y, rest);
    InFront(y, x, rest);
    assert multiset{x} + (multiset{y} + multiset(rest)) == multiset{y} + (multiset{x} + multiset(rest));
  }

  lemma SameBytesJoin(c: Config, d1: Config, d2: Config, json: EnvVar -> string, k: nat)
    requires SameBytes(c, d1, json, k) && SameBytes(c, d2, json, k)
    ensures SameBytes(d1, d2, json, k)
  {}

  /** The order things are listed in surely does not matter if and only if no two different
      ones share a name. */
  lemma ListingIgnoredExactly(c: Config, json: EnvVar -> string, k: nat)
    requires Spelled(c) && GoodJson(json)
    ensures (forall d :: Spelled(d) && SameEntries(c, d) ==> SameBytes(c, d, json, k)) <==> NoAmbiguity(c)
  {
    hide SameBytes, Spelled, GoodJson, Alike, Unambiguous;
    if NoAmbiguity(c) {
      forall d | Spelled(d) && SameEntries(c, d) ensures SameBytes(c, d, json, k) {
        UnambiguousAlike(c.env, d.env, EnvName, k);
        forall p ensures Alike(MountsAt(c, p), MountsAt(d, p), MountName, k) {
          UnambiguousAlike(MountsAt(c, p), MountsAt(d, p), MountName, k);
        }
        SameBytesExactly(c, d, json, k);
      }
    } else if !Unambiguous(c.env, EnvName) {
      AmbiguousEnvSeen(c, json, k);
    } else {
      var p :| !Unambiguous(MountsAt(c, p), MountName);
      AmbiguousMountsSeen(c, json, p, k);
    }
  }

  lemma AmbiguousEnvSeen(c: Config, json: EnvVar -> string, k: nat)
    requires Spelled(c) && GoodJson(json) && !Unambiguous(c.env, EnvName)
    ensures exists d :: Spelled(d) && SameEntries(c, d) && !SameBytes(c, d, json, k)
  {
    hide SameBytes, GoodJson;
    var e, f, rest := MovedUp(c.env, EnvName);
    var d1, d2 := c.(env := [] + [e, f] + rest), c.(env := [] + [f, e] + rest);
    assert Spelled(d1) && SameEntries(c, d1) && Spelled(d2) && SameEntries(c, d2);
    RepeatedNameDependsOnOrder(json, c, [], e, f, rest, k);
    if SameBytes(c, d1, json, k) && SameBytes(c, d2, json, k) { SameBytesJoin(c, d1, d2, json, k); }
  }

  lemma AmbiguousMountsSeen(c: Config, json: EnvVar -> string, p: string, k: nat)
    requires Spelled(c) && GoodJson(json) && !Unambiguous(MountsAt(c, p), MountName)
    ensures exists d :: Spelled(d) && SameEntries(c, d) && !SameBytes(c, d, json, k)
  {
    hide SameBytes, GoodJson;
    var m, n, rest := MovedUp(MountsAt(c, p), MountName);
    var l1, l2 := [] + [m, n] + rest, [] + [n, m] + rest;
    var d1, d2 := c.(processes := c.processes[p := l1]), c.(processes := c.processes[p := l2]);
    RelistedIsSame(c, p, l1);
    RelistedIsSame(c, p, l2);
    hide SameEntries, Spelled;
    RepeatedMountDependsOnOrder(json, c, p, [], m, n, rest, k);
    if SameBytes(c, d1, json, k) && SameBytes(c, d2, json, k) { SameBytesJoin(c, d1, d2, json, k); }
  }

  lemma RelistedIsSame(c: Config, p: string, l: seq<Mount>)
    requires Spelled(c) && p in c.processes && multiset(l) == multiset(c.processes[p])
    ensures Spelled(c.(processes := c.processes[p := l])) && SameEntries(c, c.(processes := c.processes[p := l]))
  {
    hide GoodVars;
    forall m | m in l ensures m in c.processes[p] { assert m in multiset(l); }
  }

  /** For lists all of which sort.Slice keeps in order: equal bytes exactly for the same
      data and, for each name, the same entries in the same order. */
  lemma StreamIdentifiesLists(c: Config, d: Config, json: EnvVar -> string, sorts: Sorts, k: nat)
    requires Spelled(c) && Spelled(d) && GoodJson(json) && KeepsShort(sorts, k)
    requires |c.env| <= k && |d.env| <= k && forall p :: |MountsAt(c, p)| <= k && |MountsAt(d, p)| <= k
    ensures Stream(c, json, sorts) == Stream(d, json, sorts) <==>
            && SameData(c, d) && SameLists(c.env, d.env, EnvName)
            && forall p :: SameLists(MountsAt(c, p), MountsAt(d, p), MountName)
  {
    hide Stream, Spelled, GoodJson, SortBy, SameLists;
    StreamIdentifiesSorted(c, d, json, sorts);
    ShortSortSameExactly(c.env, d.env, sorts.env, EnvName, k);
    forall p ensures sorts.mounts(MountsAt(c, p)) == sorts.mounts(MountsAt(d, p)) <==>
                     SameLists(MountsAt(c, p), MountsAt(d, p), MountName) {
      ShortSortSameExactly(MountsAt(c, p), MountsAt(d, p), sorts.mounts, MountName, k);
    }
  }

  lemma ShortSortSameExactly<T(!new)>(s: seq<T>, t: seq<T>, f: seq<T> -> seq<T>, name: T -> string, k: nat)
    requires SortsByName(f, name) && StableUpTo(f, name, k) && |s| <= k && |t| <= k
    ensures f(s) == f(t) <==> SameLists(s, t, name)
  {
    hide SortBy, Called;
    ShortSorts(s, f, name, k);
    ShortSorts(t, f, name, k);
    if f(s) == f(t) {
      forall n ensures Called(s, name, n) == Called(t, name, n) {
        CalledSorted(s, name, n);
        CalledSorted(t, name, n);
      }
    }
    if SameLists(s, t, name) { SameCalledSameSort(s, t, name); }
  }

  // ---------- thirteen variables

  /** sort.Slice sorts up to this many elements by insertion. */
  const INSERTION := 12

  const X1 := EnvVar("x", "1", "")
  const X2 := EnvVar("x", "2", "")

  function Letters(names: string): seq<EnvVar> {
    seq(|names|, i requires 0 <= i < |names| => EnvVar([names[i]], "", ""))
  }

  const LISTED := Letters("i") + [X1] + Letters("a") + [X2] + Letters("fdghkebjc")
  const IN_ORDER := Letters("abcdefghijk") + [X1, X2]

  function Lettered(names: string, n: string): seq<EnvVar> {
    if |n| == 1 && n[0] in names then [EnvVar(n, "", "")] else []
  }

  lemma {:induction false} LettersCalled(names: string, n: string)
    requires forall i, j :: 0 <= i < j < |names| ==> names[i] != names[j]
    ensures Called(Letters(names), EnvName, n) == Lettered(names, n)
  {
    if names != [] {
      var rest := names[1..];
      LettersCalled(rest, n);
      assert Letters(names)[1..] == Letters(rest);
      assert names == [names[0]] + rest;
      if [names[0]] == n { assert n[0] !in rest; }
    }
  }

  function One(e: EnvVar, n: string): seq<EnvVar> { if e.name == n then [e] else [] }

  lemma CalledInThree(a: string, b: string, z: string, n: string)
    ensures Called(Letters(a) + [X1] + Letters(b) + [X2] + Letters(z), EnvName, n) ==
            Called(Letters(a), EnvName, n) + One(X1, n) + Called(Letters(b), EnvName, n) + One(X2, n)
            + Called(Letters(z), EnvName, n)
  {
    hide Called, Letters, One;
    CalledSingle(X1, n);
    CalledSingle(X2, n);
    CalledInTwo(Letters(a) + [X1] + Letters(b) + [X2], Letters(z), EnvName, n);
    CalledInTwo(Letters(a) + [X1] + Letters(b), [X2], EnvName, n);
    CalledInTwo(Letters(a) + [X1], Letters(b), EnvName, n);
    CalledInTwo(Letters(a), [X1], EnvName, n);
  }

  lemma InOrderCalled(w: string, n: string)
    ensures Called(Letters(w) + [X1, X2], EnvName, n) == Called(Letters(w), EnvName, n) + (One(X1, n) + One(X2, n))
  {
    hide Called, Letters;
    CalledInTwo(Letters(w), [X1, X2], EnvName, n);
    CalledPair(X1, X2, EnvName, n);
  }

  lemma ListedCalled(n: string)
    ensures Called(LISTED, EnvName, n) == Called(IN_ORDER, EnvName, n)
  {
    hide Called, Letters, Lettered;
    CalledInThree("i", "a", "fdghkebjc", n);
    InOrderCalled("abcdefghijk", n);
    LettersCalled("i", n);
    LettersCalled("a", n);
    LettersCalled("fdghkebjc", n);
    LettersCalled("abcdefghijk", n);
    SameLetters(n);
  }

  lemma CalledSingle(e: EnvVar, n: string)
    ensures Called([e], EnvName, n) == One(e, n)
  {}

  /** A one-letter name is in one of the three parts, or in none, as it is in the whole. */
  lemma SameLetters(n: string)
    ensures var a, b, z := Lettered("i", n), Lettered("a", n), Lettered("fdghkebjc", n);
            a + b + z == Lettered("abcdefghijk", n) && (n == "x" ==> a + b + z == [])
            && |a| + |b| + |z| <= 1
  {
    if |n| == 1 {
      var ch := n[0];
      assert ch in "fdghkebjc" <==> ch in {'f', 'd', 'g', 'h', 'k', 'e', 'b', 'j', 'c'};
      assert ch in "abcdefghijk" <==> ch in {'a', 'b', 'c', 'd', 'e', 'f', 'g', 'h', 'i', 'j', 'k'};
    }
  }

  /** Beyond twelve the listing tells more than the fingerprint promises: two listings of
      thirteen variables that have, for each name, the same variables in the same
      order, and that a sort.Slice true to its promise can turn into different bytes. */
  lemma ThirteenVariables(c: Config, json: EnvVar -> string)
    requires Spelled(c) && GoodJson(json)
    ensures |LISTED| == |IN_ORDER| == INSERTION + 1 && SameLists(LISTED, IN_ORDER, EnvName)
    ensures exists sorts :: KeepsShort(sorts, INSERTION) &&
              Stream(c.(env := LISTED), json, sorts) != Stream(c.(env := IN_ORDER), json, sorts)
  {
    hide Stream, GoodJson, Called, Alike;
    forall n ensures Called(LISTED, EnvName, n) == Called(IN_ORDER, EnvName, n) { ListedCalled(n); }
    var d, e := c.(env := LISTED), c.(env := IN_ORDER);
    SameBytesExactly(d, e, json, INSERTION);
    ThirteenDiffer();
  }

  lemma ThirteenDiffer()
    ensures |LISTED| == |IN_ORDER| == INSERTION + 1 && !Alike(LISTED, IN_ORDER, EnvName, INSERTION)
  {
    assert LISTED[0].name == "i" && IN_ORDER[0].name == "a";
    assert LISTED[1] == X1 && LISTED[3] == X2;
    assert X1 in LISTED && X2 in LISTED;
  }
}
