/** types/config_mver.go: configuration values that change at fork heights.  Keys are written as the list
    of their parts between dots. */
module MultiVersions {
  import opened Options
  import opened Lexicographic

  type Path = seq<string>

  /** The forks known for the chain and their activation heights. */
  datatype Forks = Forks(has: string -> bool, height: string -> int)

  /** strings.Compare(a, b) > 0. */
  predicate After(a: string, b: string) {
    Less(Codes(b), Codes(a))
  }

  /** The fork a data key belongs to: its last part but one, or the last two parts before the name. */
  function ForkOf(forks: Forks, k: Path): Option<string> {
    var n := |k|;
    if n < 3 then None
    else if forks.has(k[n - 2]) then Some(k[n - 2])
    else if forks.has(k[n - 3] + "." + k[n - 2]) then Some(k[n - 3] + "." + k[n - 2])
    else None
  }

  /** The key that is asked for: the data key without the name of the fork. */
  function BaseKey(k: Path): Path
    requires |k| >= 3
  {
    k[..|k| - 2] + [k[|k| - 1]]
  }

  ghost predicate DotFree(k: Path) {
    forall part | part in k :: '.' !in part
  }

  /** The data key is a version of `key`. */
  ghost predicate Versions(forks: Forks, k: Path, key: Path) {
    ForkOf(forks, k).Some? && BaseKey(k) == key
  }

  function IdOf(forks: Forks, k: Path): int
    requires ForkOf(forks, k).Some?
  {
    forks.height(ForkOf(forks, k).value)
  }

  /** `k` is the version of `key` with the greatest activation height up to `height`, and with the greatest
      fork name among those. */
  ghost predicate InForce(forks: Forks, keys: set<Path>, key: Path, height: int, k: Path) {
    && k in keys && Versions(forks, k, key) && IdOf(forks, k) <= height
    && forall j | j in keys && Versions(forks, j, key) && IdOf(forks, j) <= height ::
         || IdOf(forks, j) < IdOf(forks, k)
         || (IdOf(forks, j) == IdOf(forks, k) && !After(ForkOf(forks, j).value, ForkOf(forks, k).value))
  }

  /** The plain name of a fork goes before the dotted one. */
  lemma VersionOf(forks: Forks, prefix: Path, x: string, suffix: string)
    requires prefix != []
    ensures var k, dotted := prefix + [x, suffix], prefix[|prefix| - 1] + "." + x;
      && (forks.has(x) ==> ForkOf(forks, k) == Some(x))
      && (!forks.has(x) && forks.has(dotted) ==> ForkOf(forks, k) == Some(dotted))
      && (!forks.has(x) && !forks.has(dotted) ==> ForkOf(forks, k) == None)
      && BaseKey(k) == prefix + [suffix]
  {
    var k := prefix + [x, suffix];
    assert k[..|k| - 2] == prefix;
  }

  /** Every version of a key has one more part before its last one. */
  lemma VersionShape(forks: Forks, k: Path, prefix: Path, suffix: string)
    requires Versions(forks, k, prefix + [suffix])
    ensures prefix != [] && k == prefix + [k[|k| - 2], suffix]
  {
    var n := |k|;
    assert BaseKey(k)[..n - 2] == k[..n - 2] && (prefix + [suffix])[..|prefix|] == prefix;
    assert k == k[..n - 2] + [k[n - 2], k[n - 1]];
  }

  /** Which version of `prefix.suffix` is in force, told by the names between the two: the one whose fork has
      the greatest height up to the present one, where a name stands for the fork of that name or else for
      the one with the part before it and a dot in front, and of equal heights the greatest fork name. */
  lemma InForceIs(forks: Forks, keys: set<Path>, prefix: Path, suffix: string, height: int, x: string)
    requires prefix != []
    ensures var dotted := (y: string) => prefix[|prefix| - 1] + "." + y;
      var fork := (y: string) => if forks.has(y) then y else dotted(y);
      InForce(forks, keys, prefix + [suffix], height, prefix + [x, suffix]) <==>
        && prefix + [x, suffix] in keys && (forks.has(x) || forks.has(dotted(x))) && forks.height(fork(x)) <= height
        && forall y | prefix + [y, suffix] in keys && (forks.has(y) || forks.has(dotted(y)))
                      && forks.height(fork(y)) <= height ::
             || forks.height(fork(y)) < forks.height(fork(x))
             || (forks.height(fork(y)) == forks.height(fork(x)) && !After(fork(y), fork(x)))
  {
    hide After, ForkOf, BaseKey;
    var key, k := prefix + [suffix], prefix + [x, suffix];
    VersionIs(forks, prefix, x, suffix);
    if InForce(forks, keys, key, height, k) {
      forall y | prefix + [y, suffix] in keys
        ensures Versions(forks, prefix + [y, suffix], key) <==>
          forks.has(y) || forks.has(prefix[|prefix| - 1] + "." + y)
      {
        VersionIs(forks, prefix, y, suffix);
      }
      forall y | prefix + [y, suffix] in keys && Versions(forks, prefix + [y, suffix], key)
        ensures ForkOf(forks, prefix + [y, suffix]) ==
          Some(if forks.has(y) then y else prefix[|prefix| - 1] + "." + y)
      {
        VersionIs(forks, prefix, y, suffix);
      }
    } else if k in keys && Versions(forks, k, key) && IdOf(forks, k) <= height {
      var j :| j in keys && Versions(forks, j, key) && IdOf(forks, j) <= height
               && !(IdOf(forks, j) < IdOf(forks, k))
               && !(IdOf(forks, j) == IdOf(forks, k) && !After(ForkOf(forks, j).value, ForkOf(forks, k).value));
      VersionShape(forks, j, prefix, suffix);
      VersionIs(forks, prefix, j[|j| - 2], suffix);
    }
  }

  lemma VersionIs(forks: Forks, prefix: Path, y: string, suffix: string)
    requires prefix != []
    ensures var k, dotted := prefix + [y, suffix], prefix[|prefix| - 1] + "." + y;
      && (Versions(forks, k, prefix + [suffix]) <==> forks.has(y) || forks.has(dotted))
      && (forks.has(y) || forks.has(dotted) ==> ForkOf(forks, k) == Some(if forks.has(y) then y else dotted))
  {
    VersionOf(forks, prefix, y, suffix);
  }

  ghost predicate NoneInForce(forks: Forks, keys: set<Path>, key: Path, height: int) {
    forall j | j in keys && Versions(forks, j, key) :: IdOf(forks, j) > height
  }

  datatype VersionList =
    VersionList(data: seq<int>, key: Path, prefix: Path, suffix: string, forkname: map<int, string>)

  /** The list knows the versions of its key among `keys`, with the greatest name for every height. */
  ghost predicate Lists(forks: Forks, v: VersionList, keys: set<Path>) {
    && v.key == v.prefix + [v.suffix]
    && (forall id :: id in v.data <==> id in v.forkname)
    && (forall id | id in v.forkname :: Named(forks, v, keys, id))
    && (forall k | k in keys && Versions(forks, k, v.key) ::
          IdOf(forks, k) in v.forkname && !After(ForkOf(forks, k).value, v.forkname[IdOf(forks, k)]))
  }

  /** Some version has this height and this name. */
  ghost predicate Named(forks: Forks, v: VersionList, keys: set<Path>, id: int)
    requires id in v.forkname
  {
    exists k ::
      k in keys && Versions(forks, k, v.key) && IdOf(forks, k) == id && ForkOf(forks, k).value == v.forkname[id]
  }

  /** Every key that has versions among `keys` has its list. */
  ghost predicate Built(forks: Forks, version: map<Path, VersionList>, keys: set<Path>) {
    && (forall key | key in version :: version[key].key == key && Lists(forks, version[key], keys))
    && (forall k | k in keys && ForkOf(forks, k).Some? :: BaseKey(k) in version)
  }

  method AddItem(v: VersionList, forkid: int, forkname: string) returns (v': VersionList)
    ensures v' == Extended(v, forkid, forkname)
  {
    v' := v;
    if forkid in v.forkname {
      if After(forkname, v.forkname[forkid]) {
        v' := v'.(forkname := v.forkname[forkid := forkname]);
      }
      return;
    }
    v' := v'.(forkname := v.forkname[forkid := forkname], data := v.data + [forkid]);
  }

  /** At one height the greatest name stays. */
  function Extended(v: VersionList, forkid: int, forkname: string): VersionList {
    if forkid !in v.forkname then v.(forkname := v.forkname[forkid := forkname], data := v.data + [forkid])
    else if After(forkname, v.forkname[forkid]) then v.(forkname := v.forkname[forkid := forkname])
    else v
  }

  /** Taking one more version into its list. */
  lemma ListsExtended(forks: Forks, v: VersionList, keys: set<Path>, k: Path)
    requires Lists(forks, v, keys) && Versions(forks, k, v.key)
    ensures Lists(forks, Extended(v, IdOf(forks, k), ForkOf(forks, k).value), keys + {k})
  {
    var id, name := IdOf(forks, k), ForkOf(forks, k).value;
    var v', keys' := Extended(v, id, name), keys + {k};
    assert k in keys';
    forall i | i in v'.forkname
      ensures Named(forks, v', keys', i)
    {
      if v'.forkname[i] != name || i != id {
        assert Named(forks, v, keys, i);
        var j :| j in keys && Versions(forks, j, v.key) && IdOf(forks, j) == i
                 && ForkOf(forks, j).value == v.forkname[i];
        assert j in keys';
      }
    }
    forall j | j in keys' && Versions(forks, j, v.key)
      ensures IdOf(forks, j) in v'.forkname && !After(ForkOf(forks, j).value, v'.forkname[IdOf(forks, j)])
    {
      LessTotal(Codes(name), Codes(name));
      if j in keys && IdOf(forks, j) == id && v'.forkname[id] != v.forkname[id] {
        Still(ForkOf(forks, j).value, v.forkname[id], name);
      }
    }
  }

  /** What is not after a name is not after a greater one. */
  lemma Still(a: string, b: string, c: string)
    requires !After(a, b) && After(c, b)
    ensures !After(a, c)
  {
    if After(a, c) {
      LessTrans(Codes(b), Codes(c), Codes(a));
    }
  }

  lemma ListsOther(forks: Forks, v: VersionList, keys: set<Path>, k: Path)
    requires Lists(forks, v, keys) && !Versions(forks, k, v.key)
    ensures Lists(forks, v, keys + {k})
  {
    forall i | i in v.forkname
      ensures Named(forks, v, keys + {k}, i)
    {
      assert Named(forks, v, keys, i);
      var j :| j in keys && Versions(forks, j, v.key) && IdOf(forks, j) == i && ForkOf(forks, j).value == v.forkname[i];
      assert j in keys + {k};
    }
  }

  function NewList(k: Path): VersionList
    requires |k| >= 3
  {
    VersionList([], BaseKey(k), k[..|k| - 2], k[|k| - 1], map[])
  }

  lemma BuiltStep(forks: Forks, version: map<Path, VersionList>, keys: set<Path>, k: Path)
    requires Built(forks, version, keys) && ForkOf(forks, k).Some?
    ensures var v := if BaseKey(k) in version then version[BaseKey(k)] else NewList(k);
      Built(forks, version[BaseKey(k) := Extended(v, IdOf(forks, k), ForkOf(forks, k).value)], keys + {k})
  {
    hide Lists, Extended, After;
    var v := if BaseKey(k) in version then version[BaseKey(k)] else NewList(k);
    if BaseKey(k) !in version {
      FirstList(forks, version, keys, k);
    }
    ListsExtended(forks, v, keys, k);
    KeyKept(v, IdOf(forks, k), ForkOf(forks, k).value);
    forall key | key in version && key != BaseKey(k)
      ensures Lists(forks, version[key], keys + {k})
    {
      ListsOther(forks, version[key], keys, k);
    }
  }

  lemma BuiltOther(forks: Forks, version: map<Path, VersionList>, keys: set<Path>, k: Path)
    requires Built(forks, version, keys) && ForkOf(forks, k).None?
    ensures Built(forks, version, keys + {k})
  {
    hide Lists;
    forall key | key in version
      ensures Lists(forks, version[key], keys + {k})
    {
      ListsOther(forks, version[key], keys, k);
    }
  }

  lemma KeyKept(v: VersionList, id: int, name: string)
    ensures Extended(v, id, name).key == v.key
  {}

  lemma FirstList(forks: Forks, version: map<Path, VersionList>, keys: set<Path>, k: Path)
    requires Built(forks, version, keys) && |k| >= 3 && BaseKey(k) !in version
    ensures Lists(forks, NewList(k), keys)
  {}

  // Sorting the heights.

  predicate Ascending(s: seq<int>) {
    forall i, j | 0 <= i < j < |s| :: s[i] <= s[j]
  }

  function Insert(x: int, s: seq<int>): (r: seq<int>)
    requires Ascending(s)
    ensures Ascending(r) && |r| == |s| + 1 && forall y :: y in r <==> y == x || y in s
  {
    if s == [] then [x]
    else if x <= s[0] then [x] + s
    else
      var r := Insert(x, s[1..]);
      assert s == [s[0]] + s[1..];
      HeadLeast(s);
      AscendingCons(s[0], r);
      [s[0]] + r
  }

  lemma HeadLeast(s: seq<int>)
    requires Ascending(s) && s != []
    ensures forall y | y in s :: s[0] <= y
  {}

  lemma AscendingCons(x: int, r: seq<int>)
    requires Ascending(r) && forall y | y in r :: x <= y
    ensures Ascending([x] + r)
  {
    forall i | 0 <= i < |r|
      ensures x <= r[i]
    {
      assert r[i] in r;
    }
  }

  function Sorted(s: seq<int>): (r: seq<int>)
    ensures Ascending(r) && |r| == |s| && forall y :: y in r <==> y in s
  {
    if s == [] then []
    else
      assert s == s[..|s| - 1] + [s[|s| - 1]];
      Insert(s[|s| - 1], Sorted(s[..|s| - 1]))
  }

  lemma ListsSorted(forks: Forks, v: VersionList, keys: set<Path>)
    requires Lists(forks, v, keys)
    ensures Lists(forks, v.(data := Sorted(v.data)), keys)
  {
    var v' := v.(data := Sorted(v.data));
    forall id | id in v'.forkname
      ensures Named(forks, v', keys, id)
    {
      assert Named(forks, v, keys, id);
    }
  }

  function SortedLists(version: map<Path, VersionList>): map<Path, VersionList> {
    map key | key in version :: version[key].(data := Sorted(version[key].data))
  }

  lemma BuiltSorted(forks: Forks, version: map<Path, VersionList>, keys: set<Path>)
    requires Built(forks, version, keys)
    ensures Built(forks, SortedLists(version), keys)
    ensures forall key | key in SortedLists(version) :: Ascending(SortedLists(version)[key].data)
  {
    hide Lists, Ascending;
    forall key | key in version
      ensures Lists(forks, version[key].(data := Sorted(version[key].data)), keys)
    {
      ListsSorted(forks, version[key], keys);
    }
  }

  // From a fork back to its data key.

  function BeforeDot(s: string): string {
    if s == "" || s[0] == '.' then "" else [s[0]] + BeforeDot(s[1..])
  }

  function AfterDot(s: string): string {
    if s == "" then "" else if s[0] == '.' then s[1..] else AfterDot(s[1..])
  }

  /** The name of a fork inside its key: the second part of a dotted name. */
  function PlainName(forkname: string): string {
    if '.' in forkname then BeforeDot(AfterDot(forkname)) else forkname
  }

  lemma {:induction false} AfterFirst(a: string, b: string)
    requires '.' !in a
    ensures AfterDot(a + "." + b) == b
  {
    if a == "" {
      assert a + "." + b == "." + b;
    } else {
      assert (a + "." + b)[1..] == a[1..] + "." + b;
      AfterFirst(a[1..], b);
    }
  }

  lemma {:induction false} BeforeNone(b: string)
    requires '.' !in b
    ensures BeforeDot(b) == b
  {
    if b != "" {
      BeforeNone(b[1..]);
    }
  }

  /** The key that GetForkName builds is the data key of the fork. */
  lemma BackToKey(forks: Forks, k: Path)
    requires DotFree(k) && ForkOf(forks, k).Some?
    ensures k[..|k| - 2] + [PlainName(ForkOf(forks, k).value), k[|k| - 1]] == k
  {
    var n := |k|;
    assert k[n - 2] in k && k[n - 3] in k;
    AfterFirst(k[n - 3], k[n - 2]);
    BeforeNone(k[n - 2]);
    if !forks.has(k[n - 2]) {
      var name := k[n - 3] + "." + k[n - 2];
      assert name[|k[n - 3]|] == '.';
    }
    assert k == k[..n - 2] + [k[n - 2], k[n - 1]];
  }

  /** The data key in force at a height, or the plain key. */
  method GetForkName(v: VersionList, height: int, ghost forks: Forks, ghost keys: set<Path>) returns (key: Path)
    requires Lists(forks, v, keys) && Ascending(v.data) && forall k | k in keys :: DotFree(k)
    ensures if NoneInForce(forks, keys, v.key, height) then key == v.key else InForce(forks, keys, v.key, height, key)
  {
    var i := |v.data| - 1;
    while i >= 0
      invariant -1 <= i < |v.data|
      invariant forall j | i < j < |v.data| :: height < v.data[j]
    {
      if height >= v.data[i] {
        assert v.data[i] in v.data;
        var forkname := v.forkname[v.data[i]];
        key := v.prefix + [PlainName(forkname), v.suffix];
        Chosen(forks, v, keys, height, i);
        return;
      }
      i := i - 1;
    }
    key := v.key;
  }

  lemma Chosen(forks: Forks, v: VersionList, keys: set<Path>, height: int, i: nat)
    requires Lists(forks, v, keys) && Ascending(v.data) && forall k | k in keys :: DotFree(k)
    requires i < |v.data| && v.data[i] <= height && forall j | i < j < |v.data| :: height < v.data[j]
    ensures v.data[i] in v.forkname
    ensures InForce(forks, keys, v.key, height, v.prefix + [PlainName(v.forkname[v.data[i]]), v.suffix])
  {
    var id := v.data[i];
    assert id in v.data;
    assert Named(forks, v, keys, id);
    var k :| k in keys && Versions(forks, k, v.key) && IdOf(forks, k) == id && ForkOf(forks, k).value == v.forkname[id];
    BackToKey(forks, k);
    var n := |k|;
    assert BaseKey(k)[..n - 2] == k[..n - 2] && v.key[..|v.key| - 1] == v.prefix;
    assert v.prefix + [PlainName(v.forkname[id]), v.suffix] == k;
    forall j | j in keys && Versions(forks, j, v.key) && IdOf(forks, j) <= height
      ensures IdOf(forks, j) < id || (IdOf(forks, j) == id && !After(ForkOf(forks, j).value, v.forkname[id]))
    {
      assert IdOf(forks, j) in v.data;
      var m :| 0 <= m < |v.data| && v.data[m] == IdOf(forks, j);
    }
  }

  /** At most one version is in force. */
  lemma InForceUnique(forks: Forks, keys: set<Path>, key: Path, height: int, k: Path, j: Path)
    requires InForce(forks, keys, key, height, k) && InForce(forks, keys, key, height, j) && DotFree(k) && DotFree(j)
    ensures k == j
  {
    LessTotal(Codes(ForkOf(forks, k).value), Codes(ForkOf(forks, j).value));
    CodesInjective(ForkOf(forks, k).value, ForkOf(forks, j).value);
    BackToKey(forks, k);
    BackToKey(forks, j);
    assert k[..|k| - 2] == BaseKey(k)[..|key| - 1] && j[..|j| - 2] == BaseKey(j)[..|key| - 1];
    assert k[|k| - 1] == key[|key| - 1] == j[|j| - 1];
  }

  class MVersion<V(==)> {
    const forks: Forks
    const data: map<Path, V>
    var version: map<Path, VersionList>

    /** The data keys that the version lists know. */
    ghost var seen: set<Path>

    ghost predicate Valid()
      reads this
    {
      && (forall k | k in data :: DotFree(k))
      && seen <= data.Keys && Built(forks, version, seen)
      && forall key | key in version :: Ascending(version[key].data)
    }

    constructor (forks: Forks, data: map<Path, V>)
      requires forall k | k in data :: DotFree(k)
      ensures Valid() && seen == {} && this.forks == forks && this.data == data
    {
      this.forks, this.data := forks, data;
      version, seen := map[], {};
    }

    /** Whatever order the keys come in, and also when it runs again, the lists then know all keys. */
    method UpdateFork()
      requires Valid()
      modifies this
      ensures Valid() && seen == data.Keys
    {
      hide Built;
      var todo := data.Keys;
      while todo != {}
        invariant todo <= data.Keys && data.Keys - todo <= seen <= data.Keys
        invariant Built(forks, version, seen)
      {
        var k :| k in todo;
        todo := todo - {k};
        var n := |k|;
        if n >= 3 && (forks.has(k[n - 2]) || forks.has(k[n - 3] + "." + k[n - 2])) {
          var forkname := if forks.has(k[n - 2]) then k[n - 2] else k[n - 3] + "." + k[n - 2];
          var id := forks.height(forkname);
          BuiltStep(forks, version, seen, k);
          ghost var before := version;
          var suffix, prefix := k[n - 1], k[..n - 2];
          var key := prefix + [suffix];
          if key !in version {
            version := version[key := VersionList([], key, prefix, suffix, map[])];
          }
          var v := AddItem(version[key], id, forkname);
          version := version[key := v];
          assert version == before[key := v];
          seen := seen + {k};
        } else {
          BuiltOther(forks, version, seen, k);
          seen := seen + {k};
        }
      }
      SortAll();
    }

    method SortAll()
      requires (forall k | k in data :: DotFree(k)) && seen <= data.Keys && Built(forks, version, seen)
      modifies this`version
      ensures Valid()
    {
      BuiltSorted(forks, version, seen);
      version := SortedLists(version);
    }

    /** The value of the version in force, or of the plain key when none is. */
    method Get(key: Path, height: int) returns (value: Option<V>)
      requires Valid() && seen == data.Keys
      ensures NoneInForce(forks, data.Keys, key, height) ==> value == if key in data then Some(data[key]) else None
      ensures forall k | InForce(forks, data.Keys, key, height, k) :: value == Some(data[k])
    {
      hide InForce, NoneInForce, Lists, Built, DotFree;
      var k := key;
      ListFor(key, height);
      if key in version {
        k := GetForkName(version[key], height, forks, seen);
      }
      value := if k in data then Some(data[k]) else None;
      forall j | InForce(forks, data.Keys, key, height, j)
        ensures j in data && value == Some(data[j])
      {
        OneInForce(forks, data.Keys, key, height, k, j);
      }
    }

    lemma ListFor(key: Path, height: int)
      requires Valid() && seen == data.Keys
      ensures key in version ==> version[key].key == key && Lists(forks, version[key], seen)
      ensures key !in version ==> NoneInForce(forks, seen, key, height)
    {}
  }

  lemma OneInForce(forks: Forks, keys: set<Path>, key: Path, height: int, k: Path, j: Path)
    requires forall k | k in keys :: DotFree(k)
    requires InForce(forks, keys, key, height, k) || NoneInForce(forks, keys, key, height)
    requires InForce(forks, keys, key, height, j)
    ensures j in keys && k == j
  {
    InForceUnique(forks, keys, key, height, k, j);
  }
}
