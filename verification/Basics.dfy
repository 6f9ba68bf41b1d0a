/** Vocabulary shared by the models: optional values, the outcome of a write to
    the Kubernetes API, the byte order of strings, and sorting.

    Go strings are byte strings; a Dafny `string` stands for one, one character
    per byte. `sort.Strings`, and `sort.Slice` where no two elements rank equal, have
    one possible result, so sorting is a function here; where elements may rank equal
    a model takes any function that sorts. Map iteration, whose order Go leaves
    open, is a loop that picks any remaining key. */
module Basics {

  datatype Option<+T> = None | Some(value: T)

  /** What the API server answers to a create, update, patch or delete. */
  datatype Write = Done | Conflict | Failed

  // ---------- byte order of strings

  predicate LexLe(a: string, b: string) {
    || a == []
    || (b != [] && (a[0] < b[0] || (a[0] == b[0] && LexLe(a[1..], b[1..]))))
  }

  lemma {:induction false} LexTotal(a: string, b: string)
    ensures LexLe(a, b) || LexLe(b, a)
  {
    if a != [] && b != [] && a[0] == b[0] { LexTotal(a[1..], b[1..]); }
  }

  lemma {:induction false} LexAntisymmetric(a: string, b: string)
    requires LexLe(a, b) && LexLe(b, a)
    ensures a == b
  {
    if a != [] && b != [] { LexAntisymmetric(a[1..], b[1..]); }
  }

  lemma {:induction false} LexTransitive(a: string, b: string, c: string)
    requires LexLe(a, b) && LexLe(b, c)
    ensures LexLe(a, c)
  {
    if a != [] && b != [] && a[0] == b[0] && c != [] && b[0] == c[0] {
      LexTransitive(a[1..], b[1..], c[1..]);
    }
  }

  /** Byte order: at the first place where the two differ the first is smaller, or it ends
      there. */
  lemma {:induction false} LexExactly(a: string, b: string)
    ensures LexLe(a, b) <==>
            exists k :: 0 <= k <= |a| && k <= |b| && a[..k] == b[..k] && (k == |a| || (k < |b| && a[k] < b[k]))
  {
    if a == [] {
      assert a[..0] == b[..0];
    } else if b != [] {
      LexExactly(a[1..], b[1..]);
      if a[0] < b[0] { assert a[..0] == b[..0]; }
      if a[0] == b[0] && LexLe(a[1..], b[1..]) {
        var k :| 0 <= k <= |a[1..]| && k <= |b[1..]| && a[1..][..k] == b[1..][..k]
                 && (k == |a[1..]| || (k < |b[1..]| && a[1..][k] < b[1..][k]));
        assert a[..k + 1] == [a[0]] + a[1..][..k] && b[..k + 1] == [b[0]] + b[1..][..k];
      }
      if k :| 0 <= k <= |a| && k <= |b| && a[..k] == b[..k] && (k == |a| || (k < |b| && a[k] < b[k])) {
        if k > 0 {
          assert a[0] == a[..k][0] == b[..k][0] == b[0];
          assert a[1..][..k - 1] == a[..k][1..] && b[1..][..k - 1] == b[..k][1..];
        }
      }
    }
  }

  // ---------- increasing numbers

  ghost predicate Increasing(ids: seq<nat>) {
    forall i, j :: 0 <= i < j < |ids| ==> ids[i] < ids[j]
  }

  lemma AppendIncreasing(ids: seq<nat>, id: nat)
    requires Increasing(ids) && forall m :: m in ids ==> m < id
    ensures Increasing(ids + [id])
  {
    var t := ids + [id];
    forall i, j | 0 <= i < j < |t| ensures t[i] < t[j] {
      if j == |ids| { assert ids[i] in ids; }
    }
  }

  // ---------- sorting

  ghost predicate TotalPreorder<T(!new)>(le: (T, T) -> bool) {
    && (forall x, y :: le(x, y) || le(y, x))
    && (forall x, y, z :: le(x, y) && le(y, z) ==> le(x, z))
  }

  ghost predicate SortedBy<T>(s: seq<T>, le: (T, T) -> bool) {
    forall i, j :: 0 <= i < j < |s| ==> le(s[i], s[j])
  }

  function Insert<T>(x: T, s: seq<T>, le: (T, T) -> bool): seq<T> {
    if s == [] || le(x, s[0]) then [x] + s else [s[0]] + Insert(x, s[1..], le)
  }

  /** The stable sort. */
  function SortBy<T>(s: seq<T>, le: (T, T) -> bool): seq<T> {
    if s == [] then [] else Insert(s[0], SortBy(s[1..], le), le)
  }

  lemma FirstCounts<T>(s: seq<T>)
    requires s != []
    ensures multiset(s) == multiset{s[0]} + multiset(s[1..])
  {
    assert s == [s[0]] + s[1..];
  }

  lemma {:induction false} InsertAdds<T>(x: T, s: seq<T>, le: (T, T) -> bool)
    ensures multiset(Insert(x, s, le)) == multiset(s) + multiset{x}
  {
    if s == [] || le(x, s[0]) {
    } else {
      var t := Insert(x, s[1..], le);
      InsertAdds(x, s[1..], le);
      FirstCounts(s);
      assert multiset([s[0]] + t) == multiset{s[0]} + multiset(t);
    }
  }

  lemma {:induction false} InsertedIs<T>(x: T, s: seq<T>, le: (T, T) -> bool, y: T)
    requires y in Insert(x, s, le)
    ensures y == x || y in s
  {
    if s == [] || le(x, s[0]) {
    } else if y != s[0] {
      InsertedIs(x, s[1..], le, y);
    }
  }

  lemma SortedFirst<T(!new)>(y: T, s: seq<T>, le: (T, T) -> bool)
    requires SortedBy(s, le) && forall z :: z in s ==> le(y, z)
    ensures SortedBy([y] + s, le)
  {}

  lemma {:induction false} InsertSorts<T(!new)>(x: T, s: seq<T>, le: (T, T) -> bool)
    requires TotalPreorder(le) && SortedBy(s, le)
    ensures SortedBy(Insert(x, s, le), le)
  {
    if s == [] {
    } else if le(x, s[0]) {
      forall z | z in s ensures le(x, z) {
        var i :| 0 <= i < |s| && s[i] == z;
        assert i == 0 || le(s[0], s[i]);
      }
      SortedFirst(x, s, le);
    } else {
      InsertSorts(x, s[1..], le);
      var t := Insert(x, s[1..], le);
      forall z | z in t ensures le(s[0], z) {
        InsertedIs(x, s[1..], le, z);
      }
      SortedFirst(s[0], t, le);
    }
  }

  lemma {:induction false} SortBySorts<T(!new)>(s: seq<T>, le: (T, T) -> bool)
    requires TotalPreorder(le)
    ensures SortedBy(SortBy(s, le), le)
    ensures multiset(SortBy(s, le)) == multiset(s)
  {
    if s != [] {
      SortBySorts(s[1..], le);
      InsertSorts(s[0], SortBy(s[1..], le), le);
      InsertAdds(s[0], SortBy(s[1..], le), le);
      FirstCounts(s);
    }
  }

  /** No two different elements of s rank equal. */
  ghost predicate Distinguishes<T>(le: (T, T) -> bool, s: seq<T>) {
    forall i, j :: 0 <= i < |s| && 0 <= j < |s| && le(s[i], s[j]) && le(s[j], s[i]) ==> s[i] == s[j]
  }

  lemma FirstRanksFirst<T(!new)>(s: seq<T>, le: (T, T) -> bool, x: T)
    requires SortedBy(s, le) && x in s
    ensures x == s[0] || le(s[0], x)
  {
    var i :| 0 <= i < |s| && s[i] == x;
  }

  lemma SameHead<T(!new)>(a: seq<T>, b: seq<T>, le: (T, T) -> bool)
    requires SortedBy(a, le) && SortedBy(b, le) && Distinguishes(le, a)
    requires multiset(a) == multiset(b) && a != []
    ensures b != [] && a[0] == b[0]
    ensures multiset(a[1..]) == multiset(b[1..])
  {
    assert |b| == |multiset(b)| == |multiset(a)| == |a|;
    assert a[0] in multiset(b) && b[0] in multiset(a);
    FirstRanksFirst(a, le, b[0]);
    FirstRanksFirst(b, le, a[0]);
    FirstCounts(a);
    FirstCounts(b);
    assert multiset(a[1..]) == multiset(a) - multiset{a[0]};
    assert multiset(b[1..]) == multiset(b) - multiset{b[0]};
  }

  /** Where equal rank means equal element, a sorted arrangement is unique. */
  lemma {:induction false} SortedUnique<T(!new)>(a: seq<T>, b: seq<T>, le: (T, T) -> bool)
    requires SortedBy(a, le) && SortedBy(b, le) && Distinguishes(le, a)
    requires multiset(a) == multiset(b)
    ensures a == b
  {
    if a == [] {
      assert |b| == |multiset(b)| == 0;
    } else {
      SameHead(a, b, le);
      SortedUnique(a[1..], b[1..], le);
      assert a == [a[0]] + a[1..] && b == [b[0]] + b[1..];
    }
  }

  // ---------- sorting by name

  function ByNameOf<T>(name: T -> string): (T, T) -> bool {
    (a: T, b: T) => LexLe(name(a), name(b))
  }

  lemma ByNameOfPreorder<T(!new)>(name: T -> string)
    ensures TotalPreorder(ByNameOf(name))
  {
    var le := ByNameOf(name);
    forall x, y ensures le(x, y) || le(y, x) { LexTotal(name(x), name(y)); }
    forall x, y, z | le(x, y) && le(y, z) ensures le(x, z) { LexTransitive(name(x), name(y), name(z)); }
  }

  ghost predicate DistinctNames<T>(s: seq<T>, name: T -> string) {
    forall i, j :: 0 <= i < j < |s| ==> name(s[i]) != name(s[j])
  }

  lemma {:induction false} DistinctCountOnce<T>(s: seq<T>, name: T -> string, x: T)
    requires DistinctNames(s, name)
    ensures multiset(s)[x] == if x in s then 1 else 0
  {
    if s != [] {
      DistinctCountOnce(s[1..], name, x);
      assert s == [s[0]] + s[1..];
      assert multiset(s)[x] == multiset(s[1..])[x] + if x == s[0] then 1 else 0;
    }
  }

  lemma SameElementsCountSame<T(!new)>(s: seq<T>, t: seq<T>, name: T -> string)
    requires DistinctNames(s, name) && DistinctNames(t, name)
    requires forall x :: x in s <==> x in t
    ensures multiset(s) == multiset(t)
  {
    forall x ensures multiset(s)[x] == multiset(t)[x] {
      DistinctCountOnce(s, name, x);
      DistinctCountOnce(t, name, x);
    }
  }

  /** No two different elements of s have one name. */
  ghost predicate Unambiguous<T>(s: seq<T>, name: T -> string) {
    forall x, y :: x in s && y in s && name(x) == name(y) ==> x == y
  }

  /** All that sort.Slice by name promises: the same elements, in the order of their
      names. Elements of one name come in any order. */
  ghost predicate SortsByName<T(!new)>(f: seq<T> -> seq<T>, name: T -> string) {
    forall s :: SortedBy(f(s), ByNameOf(name)) && multiset(f(s)) == multiset(s)
  }

  function StableSort<T>(name: T -> string): seq<T> -> seq<T> { s => SortBy(s, ByNameOf(name)) }

  lemma StableSortSorts<T(!new)>(name: T -> string)
    ensures SortsByName(StableSort(name), name)
  {
    hide SortBy;
    ByNameOfPreorder(name);
    forall s
      ensures SortedBy(StableSort(name)(s), ByNameOf(name)) && multiset(StableSort(name)(s)) == multiset(s)
    {
      SortBySorts(s, ByNameOf(name));
    }
  }

  lemma SortKeepsElements<T(!new)>(s: seq<T>, f: seq<T> -> seq<T>, name: T -> string, x: T)
    requires SortsByName(f, name)
    ensures x in f(s) <==> x in s
  {
    assert x in s <==> x in multiset(s);
    assert x in f(s) <==> x in multiset(f(s));
  }

  lemma NamesInOrder<T(!new)>(s: seq<T>, name: T -> string, k: nat, l: nat)
    requires SortedBy(s, ByNameOf(name)) && k < l < |s|
    ensures LexLe(name(s[k]), name(s[l]))
  {
    hide LexLe;
    assert ByNameOf(name)(s[k], s[l]);
  }

  /** Without two different elements of one name, being sorted by name leaves no choice. */
  lemma SortedAlike<T(!new)>(a: seq<T>, b: seq<T>, name: T -> string)
    requires SortedBy(a, ByNameOf(name)) && SortedBy(b, ByNameOf(name))
    requires multiset(a) == multiset(b) && Unambiguous(a, name)
    ensures a == b
  {
    var le := ByNameOf(name);
    forall i, j | 0 <= i < |a| && 0 <= j < |a| && le(a[i], a[j]) && le(a[j], a[i]) ensures a[i] == a[j] {
      LexAntisymmetric(name(a[i]), name(a[j]));
      assert a[i] in a && a[j] in a;
    }
    SortedUnique(a, b, le);
  }

  lemma AmbiguityIsOfElements<T>(s: seq<T>, t: seq<T>, name: T -> string)
    requires multiset(s) == multiset(t)
    ensures Unambiguous(s, name) <==> Unambiguous(t, name)
  {
    assert forall x :: x in s <==> x in multiset(s);
    assert forall x :: x in t <==> x in multiset(t);
  }

  /** Whichever way sort.Slice sorts, unambiguous lists of the same elements sort to one
      list. */
  lemma SortForgetsOrder<T(!new)>(s: seq<T>, t: seq<T>, f: seq<T> -> seq<T>, name: T -> string)
    requires SortsByName(f, name) && multiset(s) == multiset(t) && Unambiguous(s, name)
    ensures f(s) == f(t)
  {
    AmbiguityIsOfElements(s, f(s), name);
    SortedAlike(f(s), f(t), name);
  }

  lemma DistinctIsUnambiguous<T>(s: seq<T>, name: T -> string)
    requires DistinctNames(s, name)
    ensures Unambiguous(s, name)
  {
    forall x, y | x in s && y in s && name(x) == name(y) ensures x == y {
      var i :| 0 <= i < |s| && s[i] == x;
      var j :| 0 <= j < |s| && s[j] == y;
      assert !(i < j) && !(j < i);
    }
  }

  lemma RepeatedCounts<T>(s: seq<T>, i: nat, j: nat)
    requires i < j < |s|
    ensures s[i] == s[j] ==> multiset(s)[s[i]] >= 2
  {
    var a, b := s[..j], s[j..];
    assert s == a + b && a[i] == s[i] && b[0] == s[j];
    assert multiset(a)[a[i]] >= 1 && multiset(b)[b[0]] >= 1;
  }

  /** Names are distinct if and only if no element repeats and no name is ambiguous. */
  lemma DistinctExactly<T(!new)>(s: seq<T>, name: T -> string)
    ensures DistinctNames(s, name) <==> Unambiguous(s, name) && forall x :: multiset(s)[x] <= 1
  {
    if DistinctNames(s, name) {
      DistinctIsUnambiguous(s, name);
      forall x ensures multiset(s)[x] <= 1 { DistinctCountOnce(s, name, x); }
    }
    if Unambiguous(s, name) && forall x :: multiset(s)[x] <= 1 {
      forall i, j | 0 <= i < j < |s| ensures name(s[i]) != name(s[j]) {
        assert s[i] in s && s[j] in s;
        RepeatedCounts(s, i, j);
      }
    }
  }

  lemma SortKeepsDistinct<T(!new)>(s: seq<T>, f: seq<T> -> seq<T>, name: T -> string)
    requires SortsByName(f, name)
    ensures DistinctNames(f(s), name) <==> DistinctNames(s, name)
  {
    DistinctExactly(s, name);
    DistinctExactly(f(s), name);
    AmbiguityIsOfElements(s, f(s), name);
  }

  // ---------- elements of one name

  /** The elements of one name, in the order they are listed. */
  function Called<T>(s: seq<T>, name: T -> string, n: string): seq<T> {
    if s == [] then [] else (if name(s[0]) == n then [s[0]] else []) + Called(s[1..], name, n)
  }

  lemma CalledFirst<T>(x: T, s: seq<T>, name: T -> string, n: string)
    ensures Called([x] + s, name, n) == (if name(x) == n then [x] else []) + Called(s, name, n)
  {
    assert ([x] + s)[1..] == s;
  }

  lemma {:induction false} CalledInserted<T(!new)>(x: T, s: seq<T>, name: T -> string, n: string)
    ensures Called(Insert(x, s, ByNameOf(name)), name, n) == (if name(x) == n then [x] else []) + Called(s, name, n)
  {
    hide LexLe;
    var le := ByNameOf(name);
    if s == [] || le(x, s[0]) {
      CalledFirst(x, s, name, n);
      assert Insert(x, s, le) == [x] + s;
    } else {
      LexTotal(name(x), name(x));
      CalledInserted(x, s[1..], name, n);
      var t := Insert(x, s[1..], le);
      CalledFirst(s[0], t, name, n);
      assert Insert(x, s, le) == [s[0]] + t;
    }
  }

  lemma {:induction false} CalledSorted<T(!new)>(s: seq<T>, name: T -> string, n: string)
    ensures Called(SortBy(s, ByNameOf(name)), name, n) == Called(s, name, n)
  {
    if s != [] {
      CalledSorted(s[1..], name, n);
      CalledInserted(s[0], SortBy(s[1..], ByNameOf(name)), name, n);
    }
  }

  lemma {:induction false} CalledHas<T>(s: seq<T>, name: T -> string, x: T)
    ensures x in s <==> x in Called(s, name, name(x))
  {
    if s != [] { CalledHas(s[1..], name, x); }
  }

  lemma FirstIsLeast<T(!new)>(s: seq<T>, name: T -> string, x: T)
    requires SortedBy(s, ByNameOf(name)) && x in s
    ensures LexLe(name(s[0]), name(x))
  {
    LexTotal(name(s[0]), name(s[0]));
    var i :| 0 <= i < |s| && s[i] == x;
    if i > 0 { assert ByNameOf(name)(s[0], s[i]); }
  }

  lemma SameFirst<T(!new)>(s: seq<T>, t: seq<T>, name: T -> string)
    requires SortedBy(s, ByNameOf(name)) && SortedBy(t, ByNameOf(name)) && s != []
    requires forall n :: Called(s, name, n) == Called(t, name, n)
    ensures t != [] && s[0] == t[0]
  {
    var a := name(s[0]);
    CalledHas(s, name, s[0]);
    CalledHas(t, name, s[0]);
    CalledHas(t, name, t[0]);
    CalledHas(s, name, t[0]);
    FirstIsLeast(s, name, t[0]);
    FirstIsLeast(t, name, s[0]);
    LexAntisymmetric(name(s[0]), name(t[0]));
    assert Called(s, name, a)[0] == s[0] && Called(t, name, a)[0] == t[0];
  }

  /** A list sorted by name is determined by its elements of each name. */
  lemma {:induction false} SortedIsCalled<T(!new)>(s: seq<T>, t: seq<T>, name: T -> string)
    requires SortedBy(s, ByNameOf(name)) && SortedBy(t, ByNameOf(name))
    requires forall n :: Called(s, name, n) == Called(t, name, n)
    ensures s == t
  {
    if s == [] {
      if t != [] { CalledHas(t, name, t[0]); }
    } else {
      SameFirst(s, t, name);
      forall n ensures Called(s[1..], name, n) == Called(t[1..], name, n) {
        assert Called(s, name, n) == Called(t, name, n);
        var head := if name(s[0]) == n then [s[0]] else [];
        assert Called(s[1..], name, n) == Called(s, name, n)[|head|..];
        assert Called(t[1..], name, n) == Called(t, name, n)[|head|..];
      }
      SortedIsCalled(s[1..], t[1..], name);
      assert s == [s[0]] + s[1..] && t == [t[0]] + t[1..];
    }
  }

  lemma SameCalledSameSort<T(!new)>(s: seq<T>, t: seq<T>, name: T -> string)
    requires forall n :: Called(s, name, n) == Called(t, name, n)
    ensures SortBy(s, ByNameOf(name)) == SortBy(t, ByNameOf(name))
  {
    var le := ByNameOf(name);
    ByNameOfPreorder(name);
    SortBySorts(s, le);
    SortBySorts(t, le);
    forall n ensures Called(SortBy(s, le), name, n) == Called(SortBy(t, le), name, n) {
      CalledSorted(s, name, n);
      CalledSorted(t, name, n);
    }
    SortedIsCalled(SortBy(s, le), SortBy(t, le), name);
  }

  lemma {:induction false} CalledInTwo<T>(a: seq<T>, b: seq<T>, name: T -> string, n: string)
    ensures Called(a + b, name, n) == Called(a, name, n) + Called(b, name, n)
  {
    if a == [] {
      assert a + b == b;
    } else {
      assert a == [a[0]] + a[1..] && a + b == [a[0]] + (a[1..] + b);
      CalledFirst(a[0], a[1..], name, n);
      CalledFirst(a[0], a[1..] + b, name, n);
      hide Called;
      CalledInTwo(a[1..], b, name, n);
    }
  }

  // ---------- the sorted keys of a map

  function ByName(): (string, string) -> bool { (a: string, b: string) => LexLe(a, b) }

  lemma ByNamePreorder()
    ensures TotalPreorder(ByName())
    ensures forall x, y :: ByName()(x, y) && ByName()(y, x) ==> x == y
  {
    forall x, y ensures ByName()(x, y) || ByName()(y, x) { LexTotal(x, y); }
    forall x, y, z | ByName()(x, y) && ByName()(y, z) ensures ByName()(x, z) { LexTransitive(x, y, z); }
    forall x, y | ByName()(x, y) && ByName()(y, x) ensures x == y { LexAntisymmetric(x, y); }
  }

  ghost predicate IsSortedKeys(keys: seq<string>, s: set<string>) {
    && SortedBy(keys, ByName())
    && Distinct(keys)
    && (forall k :: k in keys <==> k in s)
  }

  ghost predicate Distinct(keys: seq<string>) {
    forall i, j :: 0 <= i < j < |keys| ==> keys[i] != keys[j]
  }

  /** A set has one arrangement in byte order. */
  lemma SortedKeysUnique(a: seq<string>, b: seq<string>, s: set<string>)
    requires IsSortedKeys(a, s) && IsSortedKeys(b, s)
    ensures a == b
  {
    var id := (x: string) => x;
    SameElementsCountSame(a, b, id);
    ByNamePreorder();
    SortedUnique(a, b, ByName());
  }

  lemma SortingKeys(keys: seq<string>, s: set<string>)
    requires Distinct(keys) && forall k :: k in keys <==> k in s
    ensures IsSortedKeys(SortBy(keys, ByName()), s)
  {
    var sorted := SortBy(keys, ByName());
    ByNamePreorder();
    SortBySorts(keys, ByName());
    forall k ensures multiset(keys)[k] == multiset(s)[k] {
      DistinctCountOnce(keys, (x: string) => x, k);
    }
    OncePerSet(sorted, s);
  }

  lemma OncePerSet(keys: seq<string>, s: set<string>)
    requires multiset(keys) == multiset(s)
    ensures Distinct(keys) && forall k :: k in keys <==> k in s
  {
    forall k ensures k in keys <==> k in s { assert k in keys <==> k in multiset(keys); }
    forall i, j | 0 <= i < j < |keys| ensures keys[i] != keys[j] {
      var a, b := keys[..i + 1], keys[i + 1..];
      assert keys == a + b;
      assert a[i] == keys[i] && b[j - i - 1] == keys[j];
      assert multiset(a)[keys[i]] >= 1 && multiset(b)[keys[j]] >= 1;
      assert multiset(s) == multiset(a) + multiset(b) && multiset(s)[keys[i]] <= 1;
    }
  }

  /** The keys of a set in byte order. */
  ghost function SortedKeys(s: set<string>): (keys: seq<string>)
    ensures IsSortedKeys(keys, s)
    ensures forall k :: k in keys <==> k in s
  {
    if s == {} then [] else
    var k: string :| k in s;
    var rest := SortedKeys(s - {k});
    SortingKeys([k] + rest, s);
    SortBy([k] + rest, ByName())
  }

  /** Collects the keys in whatever order the map yields them, then sorts. */
  method KeysInOrder<V>(m: map<string, V>) returns (keys: seq<string>)
    ensures keys == SortedKeys(m.Keys)
  {
    keys := [];
    var rest := m.Keys;
    while rest != {}
      invariant rest <= m.Keys && Distinct(keys)
      invariant forall k :: k in keys <==> k in m.Keys - rest
      decreases rest
    {
      var k :| k in rest;
      assert forall i :: 0 <= i < |keys| ==> keys[i] in keys && keys[i] != k;
      keys := keys + [k];
      rest := rest - {k};
    }
    SortingKeys(keys, m.Keys);
    SortedKeysUnique(SortBy(keys, ByName()), SortedKeys(m.Keys), m.Keys);
    keys := SortBy(keys, ByName());
  }
}
