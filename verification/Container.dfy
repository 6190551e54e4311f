/** The container watcher: its cache is keyed by node and container, and an inverted table
    leads from a cache key back to the pod group that owns it. */
module Container {
  import opened Text
  import opened Store
  import opened Cacher
  import opened Watcher
  import P = PodGroups

  datatype Info = Info(
    appName: string, appVersion: string, procName: string, nodeName: string, nodeIp: string,
    ip: string, port: int, instanceNo: int)

  type Table = map<string, string>

  // ----- what one pod group contributes -----

  /** The release version among the variables of the first container. */
  function VersionIn(env: seq<string>): string
  {
    if env == [] then ""
    else
      var parts := Split(env[0], '=');
      if |parts| == 2 && parts[0] == "LAIN_APP_RELEASE_VERSION" then parts[1] else VersionIn(env[1..])
  }

  function AppVersion(pg: P.PodGroup): string
  {
    if |pg.specs| > 0 then VersionIn(pg.specs[0].env) else ""
  }

  function NameKey(c: P.Container): string { c.nodeName + "/" + c.id }

  function IpKey(c: P.Container): string { c.nodeIp + "/" + c.id }

  function InfoOf(pg: P.PodGroup, pod: P.Pod, c: P.Container): Info
  {
    Info(pg.namespace, AppVersion(pg), pg.name, c.nodeName, c.nodeIp, c.containerIp, c.containerPort, pod.instanceNo)
  }

  type Placement = map<string, Info>

  /** The entries of the first n containers of a pod, later ones winning. */
  function PlacedInPod(pg: P.PodGroup, pod: P.Pod, n: nat): Placement
    requires n <= |pod.containers|
  {
    if n == 0 then map[]
    else
      var c := pod.containers[n - 1];
      PlacedInPod(pg, pod, n - 1)[NameKey(c) := InfoOf(pg, pod, c)][IpKey(c) := InfoOf(pg, pod, c)]
  }

  function PlacedInPods(pg: P.PodGroup, n: nat): Placement
    requires n <= |pg.pods|
  {
    if n == 0 then map[]
    else PlacedInPods(pg, n - 1) + PlacedInPod(pg, pg.pods[n - 1], |pg.pods[n - 1].containers|)
  }

  /** The cache entries of a pod group. */
  function Placed(pg: P.PodGroup): Placement
  {
    PlacedInPods(pg, |pg.pods|)
  }

  // ----- the same in the words of the stored value -----

  /** The variable sets the release version to v. */
  predicate SetsVersion(entry: string, v: string)
  {
    '=' !in v && entry == "LAIN_APP_RELEASE_VERSION" + "=" + v
  }

  ghost predicate SetsSomeVersion(entry: string)
  {
    exists v :: SetsVersion(entry, v)
  }

  /** v is the version the first variable sets that sets one; empty if none does. */
  ghost predicate IsReleaseVersion(env: seq<string>, v: string)
  {
    if exists i :: 0 <= i < |env| && SetsSomeVersion(env[i]) then
      exists i :: 0 <= i < |env| && SetsVersion(env[i], v) && forall j :: 0 <= j < i ==> !SetsSomeVersion(env[j])
    else v == ""
  }

  lemma {:induction false} VersionEntry(entry: string, v: string)
    ensures SetsVersion(entry, v) <==> Split(entry, '=') == ["LAIN_APP_RELEASE_VERSION", v]
  {
    var name := "LAIN_APP_RELEASE_VERSION";
    NameHasNoSign();
    PairSplits(name, '=', v, entry);
  }

  lemma NameHasNoSign()
    ensures '=' !in "LAIN_APP_RELEASE_VERSION"
  {
  }

  /** A text splits into two pieces exactly when it is the one, the separator and the other. */
  lemma {:induction false} PairSplits(a: string, sep: char, b: string, s: string)
    requires sep !in a
    ensures Split(s, sep) == [a, b] <==> sep !in b && s == a + [sep] + b
  {
    if sep !in b && s == a + [sep] + b {
      SplitAtSeparator(a, sep, b);
      SplitOne(a, sep);
      SplitOne(b, sep);
    }
    if Split(s, sep) == [a, b] {
      JoinSplit(s, sep);
      assert [a, b][1..] == [b];
      assert Join([b], sep) == b;
      SplitJoin([a, b], sep);
      assert [a, b][1] == b;
    }
  }

  /** The version found is that of the first variable that sets one. */
  lemma {:induction false} VersionIsTheFirst(env: seq<string>, v: string)
    ensures VersionIn(env) == v <==> IsReleaseVersion(env, v)
    decreases |env|
  {
    if env != [] {
      var rest, parts := env[1..], Split(env[0], '=');
      if |parts| == 2 {
        assert parts == [parts[0], parts[1]];
        VersionEntry(env[0], parts[1]);
      }
      forall u
        ensures SetsVersion(env[0], u) <==> parts == ["LAIN_APP_RELEASE_VERSION", u]
      {
        VersionEntry(env[0], u);
      }
      if !SetsSomeVersion(env[0]) {
        VersionIsTheFirst(rest, v);
        ReleaseVersionLater(env, v);
      }
    }
  }

  lemma ReleaseVersionLater(env: seq<string>, v: string)
    requires env != [] && !SetsSomeVersion(env[0])
    ensures IsReleaseVersion(env, v) <==> IsReleaseVersion(env[1..], v)
  {
    var rest := env[1..];
    assert forall i :: 0 <= i < |rest| ==> rest[i] == env[i + 1];
    if i :| 0 <= i < |env| && SetsSomeVersion(env[i]) {
      assert SetsSomeVersion(rest[i - 1]);
    }
    if i :| 0 <= i < |rest| && SetsVersion(rest[i], v) && forall j :: 0 <= j < i ==> !SetsSomeVersion(rest[j]) {
      forall j | 0 <= j < i + 1
        ensures !SetsSomeVersion(env[j])
      {
        assert j > 0 ==> env[j] == rest[j - 1];
      }
      assert SetsVersion(env[i + 1], v);
    }
    if i :| 0 <= i < |env| && SetsVersion(env[i], v) && forall j :: 0 <= j < i ==> !SetsSomeVersion(env[j]) {
      assert SetsSomeVersion(env[i]);
      assert SetsVersion(rest[i - 1], v);
    }
  }

  /** k is one of the two keys of the container. */
  predicate KeyedBy(c: P.Container, k: string)
  {
    k == c.nodeName + "/" + c.id || k == c.nodeIp + "/" + c.id
  }

  predicate KeyedIn(pod: P.Pod, k: string)
  {
    exists j :: 0 <= j < |pod.containers| && KeyedBy(pod.containers[j], k)
  }

  /** Among the first n containers of the pod the one at j is the last with the key k. */
  predicate LastInPod(pod: P.Pod, n: nat, j: int, k: string)
    requires n <= |pod.containers|
  {
    0 <= j < n && KeyedBy(pod.containers[j], k) && forall l :: j < l < n ==> !KeyedBy(pod.containers[l], k)
  }

  /** Among the first n pods the container at i, j is the last with the key k. */
  predicate LastInPods(pg: P.PodGroup, n: nat, i: int, j: int, k: string)
    requires n <= |pg.pods|
  {
    && 0 <= i < n && LastInPod(pg.pods[i], |pg.pods[i].containers|, j, k)
    && forall l :: i < l < n ==> !KeyedIn(pg.pods[l], k)
  }

  /** What is shown of a container, field by field. */
  ghost predicate ShownAs(pg: P.PodGroup, pod: P.Pod, c: P.Container, info: Info)
  {
    && info.appName == pg.namespace && info.procName == pg.name
    && (if |pg.specs| > 0 then IsReleaseVersion(pg.specs[0].env, info.appVersion) else info.appVersion == "")
    && info.nodeName == c.nodeName && info.nodeIp == c.nodeIp
    && info.ip == c.containerIp && info.port == c.containerPort
    && info.instanceNo == pod.instanceNo
  }

  /** info shows the last container of the pod group that has the key k. */
  ghost predicate Describes(pg: P.PodGroup, k: string, info: Info)
  {
    exists i, j ::
      LastInPods(pg, |pg.pods|, i, j, k) && ShownAs(pg, pg.pods[i], pg.pods[i].containers[j], info)
  }

  lemma InfoIsShown(pg: P.PodGroup, pod: P.Pod, c: P.Container, info: Info)
    ensures ShownAs(pg, pod, c, info) <==> info == InfoOf(pg, pod, c)
  {
    if |pg.specs| > 0 {
      VersionIsTheFirst(pg.specs[0].env, info.appVersion);
    }
  }

  /** Where the last of the first n containers of the pod is that has the key k. */
  function LastKeyed(pod: P.Pod, n: nat, k: string): Option<nat>
    requires n <= |pod.containers|
  {
    if n == 0 then None
    else if KeyedBy(pod.containers[n - 1], k) then Some(n - 1)
    else LastKeyed(pod, n - 1, k)
  }

  lemma {:induction false} LastKeyedIsLast(pod: P.Pod, n: nat, k: string)
    requires n <= |pod.containers|
    ensures match LastKeyed(pod, n, k)
            case Some(j) => LastInPod(pod, n, j, k)
            case None => forall j :: 0 <= j < n ==> !KeyedBy(pod.containers[j], k)
  {
    if n > 0 {
      LastKeyedIsLast(pod, n - 1, k);
    }
  }

  lemma {:induction false} PlacedInPodLast(pg: P.PodGroup, pod: P.Pod, n: nat, k: string)
    requires n <= |pod.containers|
    ensures match LastKeyed(pod, n, k)
            case Some(j) =>
              j < n && k in PlacedInPod(pg, pod, n)
                && PlacedInPod(pg, pod, n)[k] == InfoOf(pg, pod, pod.containers[j])
            case None => k !in PlacedInPod(pg, pod, n)
  {
    if n > 0 {
      PlacedInPodLast(pg, pod, n - 1, k);
    }
  }

  /** The same over the first n pods. */
  function LastKeyedPod(pg: P.PodGroup, n: nat, k: string): Option<nat>
    requires n <= |pg.pods|
  {
    if n == 0 then None
    else if LastKeyed(pg.pods[n - 1], |pg.pods[n - 1].containers|, k).Some? then Some(n - 1)
    else LastKeyedPod(pg, n - 1, k)
  }

  lemma {:induction false} KeyedInLast(pod: P.Pod, k: string)
    ensures KeyedIn(pod, k) <==> LastKeyed(pod, |pod.containers|, k).Some?
  {
    LastKeyedIsLast(pod, |pod.containers|, k);
  }

  lemma {:induction false} LastKeyedPodIsLast(pg: P.PodGroup, n: nat, k: string)
    requires n <= |pg.pods|
    ensures match LastKeyedPod(pg, n, k)
            case Some(i) => i < n && KeyedIn(pg.pods[i], k) && forall l :: i < l < n ==> !KeyedIn(pg.pods[l], k)
            case None => forall l :: 0 <= l < n ==> !KeyedIn(pg.pods[l], k)
  {
    if n > 0 {
      LastKeyedPodIsLast(pg, n - 1, k);
      KeyedInLast(pg.pods[n - 1], k);
    }
  }

  lemma {:induction false} PlacedInPodsLast(pg: P.PodGroup, n: nat, k: string)
    requires n <= |pg.pods|
    ensures match LastKeyedPod(pg, n, k)
            case Some(i) =>
              && i < n && k in PlacedInPods(pg, n) && k in PlacedInPod(pg, pg.pods[i], |pg.pods[i].containers|)
              && PlacedInPods(pg, n)[k] == PlacedInPod(pg, pg.pods[i], |pg.pods[i].containers|)[k]
            case None => k !in PlacedInPods(pg, n)
  {
    if n > 0 {
      PlacedInPodsLast(pg, n - 1, k);
      PlacedInPodLast(pg, pg.pods[n - 1], |pg.pods[n - 1].containers|, k);
    }
  }

  /** A pod group's entries are those of its containers under both keys, and nothing else; of
      containers that share a key the last one is shown, with exactly its fields. */
  lemma PlacedAreTheContainers(pg: P.PodGroup, k: string)
    ensures k in Placed(pg) <==> exists i :: 0 <= i < |pg.pods| && KeyedIn(pg.pods[i], k)
    ensures forall info :: Describes(pg, k, info) <==> k in Placed(pg) && Placed(pg)[k] == info
  {
    PlacedInPodsLast(pg, |pg.pods|, k);
    LastKeyedPodIsLast(pg, |pg.pods|, k);
    if k in Placed(pg) {
      var i := LastKeyedPod(pg, |pg.pods|, k).value;
      var pod := pg.pods[i];
      KeyedInLast(pod, k);
      LastKeyedIsLast(pod, |pod.containers|, k);
      PlacedInPodLast(pg, pod, |pod.containers|, k);
      forall info
        ensures Describes(pg, k, info) <==> Placed(pg)[k] == info
      {
        DescribesTheLast(pg, i, LastKeyed(pod, |pod.containers|, k).value, k, info);
      }
    } else {
      forall i, j | LastInPods(pg, |pg.pods|, i, j, k)
        ensures KeyedIn(pg.pods[i], k)
      {
      }
    }
  }

  lemma DescribesTheLast(pg: P.PodGroup, i: int, j: int, k: string, info: Info)
    requires LastInPods(pg, |pg.pods|, i, j, k)
    ensures Describes(pg, k, info) <==> info == InfoOf(pg, pg.pods[i], pg.pods[i].containers[j])
  {
    InfoIsShown(pg, pg.pods[i], pg.pods[i].containers[j], info);
    if Describes(pg, k, info) {
      var i', j' :| LastInPods(pg, |pg.pods|, i', j', k) &&
        ShownAs(pg, pg.pods[i'], pg.pods[i'].containers[j'], info);
      LastIsUnique(pg, i, j, i', j', k);
    }
  }

  lemma LastIsUnique(pg: P.PodGroup, i: int, j: int, i': int, j': int, k: string)
    requires LastInPods(pg, |pg.pods|, i, j, k) && LastInPods(pg, |pg.pods|, i', j', k)
    ensures i == i' && j == j'
  {
    assert KeyedIn(pg.pods[i], k) && KeyedIn(pg.pods[i'], k);
  }

  // ----- the conversion -----

  /** The keys the table assigns to the pod group stored at s. */
  function Stale(table: Table, s: string): set<string>
  {
    set k | k in table && table[k] == s
  }

  /** A conversion under way: the result so far, or none after a value that cannot be parsed,
      and the table, which keeps what was done to it. */
  datatype Batch = Batch(ok: bool, ret: Data<Info>, table: Table)

  function ConvertOne(b: Batch, s: string, placed: Placement): Batch
  {
    var stale := Stale(b.table, s);
    Batch(true,
      map k | k in b.ret.Keys + stale + placed.Keys ::
        if k in placed then Some(placed[k]) else if k in stale then None else b.ret[k],
      map k | k in (b.table.Keys - stale) + placed.Keys :: if k in placed then s else b.table[k])
  }

  function ConvertAll(parse: string -> Option<P.PodGroup>, table: Table, pairs: seq<KVPair>): Batch
    decreases |pairs|
  {
    if pairs == [] then Batch(true, map[], table)
    else
      var b, last := ConvertAll(parse, table, pairs[..|pairs| - 1]), pairs[|pairs| - 1];
      if !b.ok then b
      else if parse(last.value).None? then b.(ok := false)
      else ConvertOne(b, last.key, Placed(parse(last.value).value))
  }

  function Result(b: Batch): (Option<Data<Info>>, Table)
  {
    (if b.ok then Some(b.ret) else None, b.table)
  }

  function Invert(table: Table, key: string): string
  {
    if key in table then table[key] else ""
  }

  function ContainerKind(root: string, parse: string -> Option<P.PodGroup>): Kind<Table, Info>
  {
    Kind(root, (table: Table, pairs) => Result(ConvertAll(parse, table, pairs)), Invert)
  }

  class ContainerWatcher {
    var invertsTable: Table
    const parse: string -> Option<P.PodGroup>

    constructor (parse: string -> Option<P.PodGroup>)
      ensures invertsTable == map[] && this.parse == parse
    {
      invertsTable := map[];
      this.parse := parse;
    }

    method InvertKey(key: string) returns (s: string)
      ensures s == Invert(invertsTable, key)
    {
      if key in invertsTable {
        return invertsTable[key];
      }
      return "";
    }

    /** Writes the containers of one pod group into the table and the result. */
    method Place(pg: P.PodGroup, s: string, ret: Data<Info>) returns (r: Data<Info>)
      modifies this
      ensures r == ret + Wrap(Placed(pg))
      ensures invertsTable == old(invertsTable) + Assigned(Placed(pg), s)
    {
      var appVersion := "";
      if |pg.specs| > 0 {
        appVersion := FindVersion(pg.specs[0].env);
      }
      r := ret;
      ghost var table := invertsTable;
      for i := 0 to |pg.pods|
        invariant r == ret + Wrap(PlacedInPods(pg, i))
        invariant invertsTable == table + Assigned(PlacedInPods(pg, i), s)
      {
        ghost var before := PlacedInPods(pg, i);
        ghost var placed := PlacedInPod(pg, pg.pods[i], |pg.pods[i].containers|);
        r := PlacePod(pg, pg.pods[i], appVersion, s, r);
        PlaceMore(ret, before, placed);
        OwnMore(table, before, placed, s);
      }
    }

    method PlacePod(
        pg: P.PodGroup, pod: P.Pod, appVersion: string, s: string, ret: Data<Info>) returns (r: Data<Info>)
      requires appVersion == AppVersion(pg)
      modifies this
      ensures r == ret + Wrap(PlacedInPod(pg, pod, |pod.containers|))
      ensures invertsTable == old(invertsTable) + Assigned(PlacedInPod(pg, pod, |pod.containers|), s)
    {
      r := ret;
      for j := 0 to |pod.containers|
        invariant r == ret + Wrap(PlacedInPod(pg, pod, j))
        invariant invertsTable == old(invertsTable) + Assigned(PlacedInPod(pg, pod, j), s)
      {
        var c := pod.containers[j];
        var k1, k2 := c.nodeName + "/" + c.id, c.nodeIp + "/" + c.id;
        var ci := Info(pg.namespace, appVersion, pg.name, c.nodeName, c.nodeIp, c.containerIp, c.containerPort,
          pod.instanceNo);
        PlacePut(ret, old(invertsTable), PlacedInPod(pg, pod, j), k1, ci, s);
        PlacePut(ret, old(invertsTable), PlacedInPod(pg, pod, j)[k1 := ci], k2, ci, s);
        invertsTable := invertsTable[k1 := s][k2 := s];
        r := r[k1 := Some(ci)][k2 := Some(ci)];
      }
    }

    static method FindVersion(env: seq<string>) returns (version: string)
      ensures version == VersionIn(env)
    {
      for i := 0 to |env|
        invariant VersionIn(env) == VersionIn(env[i..])
      {
        var parts := Split(env[i], '=');
        if |parts| == 2 && parts[0] == "LAIN_APP_RELEASE_VERSION" {
          return parts[1];
        }
      }
      return "";
    }

    /** Takes the keys of the pod group stored at s out of the table and marks them nil. */
    method Forget(s: string, ret: Data<Info>) returns (r: Data<Info>)
      modifies this
      ensures r == ret + (map k | k in Stale(old(invertsTable), s) :: None)
      ensures invertsTable == old(invertsTable) - Stale(old(invertsTable), s)
    {
      var deletedKeys := set k | k in invertsTable && invertsTable[k] == s;
      ghost var stale := deletedKeys;
      r := ret;
      while deletedKeys != {}
        invariant deletedKeys <= stale
        invariant r == ret + (map k | k in stale - deletedKeys :: None)
        invariant invertsTable == old(invertsTable) - (stale - deletedKeys)
        decreases deletedKeys
      {
        var k :| k in deletedKeys;
        deletedKeys := deletedKeys - {k};
        r := r[k := None];
        invertsTable := invertsTable - {k};
      }
    }

    method Convert(pairs: seq<KVPair>) returns (r: Option<Data<Info>>)
      modifies this
      ensures (r, invertsTable) == Result(ConvertAll(parse, old(invertsTable), pairs))
    {
      var ret: Data<Info> := map[];
      for i := 0 to |pairs|
        invariant ConvertAll(parse, old(invertsTable), pairs[..i]) == Batch(true, ret, invertsTable)
      {
        assert pairs[..i + 1][..i] == pairs[..i];
        var kv := pairs[i];
        var pg := parse(kv.value);
        if pg.None? {
          ConvertStops(parse, old(invertsTable), pairs, i + 1);
          return None;
        }
        ForgetThenPlace(Batch(true, ret, invertsTable), kv.key, Placed(pg.value));
        ret := Forget(kv.key, ret);
        ret := Place(pg.value, kv.key, ret);
      }
      assert pairs[..|pairs|] == pairs;
      return Some(ret);
    }
  }

  function Wrap(placed: Placement): Data<Info>
  {
    map k | k in placed :: Some(placed[k])
  }

  function Assigned(placed: Placement, s: string): Table
  {
    map k | k in placed :: s
  }

  lemma PlaceMore(ret: Data<Info>, a: Placement, b: Placement)
    ensures ret + Wrap(a) + Wrap(b) == ret + Wrap(a + b)
  {
  }

  lemma OwnMore(table: Table, a: Placement, b: Placement, s: string)
    ensures table + Assigned(a, s) + Assigned(b, s) == table + Assigned(a + b, s)
  {
  }

  lemma PlacePut(ret: Data<Info>, table: Table, a: Placement, k: string, info: Info, s: string)
    ensures (ret + Wrap(a))[k := Some(info)] == ret + Wrap(a[k := info])
    ensures (table + Assigned(a, s))[k := s] == table + Assigned(a[k := info], s)
  {
  }

  lemma ForgetThenPlace(b: Batch, s: string, placed: Placement)
    ensures var stale := Stale(b.table, s);
      ConvertOne(b, s, placed) ==
      Batch(true, b.ret + (map k | k in stale :: None) + Wrap(placed), b.table - stale + Assigned(placed, s))
  {
    RetAfter(b.ret, Stale(b.table, s), placed);
    TableAfter(b.table, Stale(b.table, s), placed, s);
  }

  lemma RetAfter(ret: Data<Info>, stale: set<string>, placed: Placement)
    ensures (map k | k in ret.Keys + stale + placed.Keys ::
              if k in placed then Some(placed[k]) else if k in stale then None else ret[k])
         == ret + (map k | k in stale :: None) + Wrap(placed)
  {
  }

  lemma TableAfter(table: Table, stale: set<string>, placed: Placement, s: string)
    ensures (map k | k in (table.Keys - stale) + placed.Keys :: if k in placed then s else table[k])
         == table - stale + Assigned(placed, s)
  {
  }

  /** After a value that cannot be parsed the rest of the list changes nothing. */
  lemma {:induction false} ConvertStops(parse: string -> Option<P.PodGroup>, table: Table, pairs: seq<KVPair>, n: nat)
    requires n <= |pairs| && !ConvertAll(parse, table, pairs[..n]).ok
    ensures ConvertAll(parse, table, pairs) == ConvertAll(parse, table, pairs[..n])
    decreases |pairs|
  {
    if n == |pairs| {
      assert pairs[..n] == pairs;
    } else {
      assert pairs[..|pairs| - 1][..n] == pairs[..n];
      ConvertStops(parse, table, pairs[..|pairs| - 1], n);
    }
  }

  // ----- batches -----

  /** In the result of any batch a key is nil exactly when the table has no owner for it: a
      tombstone never overwrites a container written in the same batch, nor the reverse. */
  lemma {:induction false} NilMeansUnowned(parse: string -> Option<P.PodGroup>, table: Table, pairs: seq<KVPair>)
    ensures NilUnowned(ConvertAll(parse, table, pairs))
    decreases |pairs|
  {
    if pairs != [] {
      var init, last := pairs[..|pairs| - 1], pairs[|pairs| - 1];
      NilMeansUnowned(parse, table, init);
      var b := ConvertAll(parse, table, init);
      if b.ok && parse(last.value).Some? {
        OneKeepsNilUnowned(b, last.key, Placed(parse(last.value).value));
      }
    }
  }

  ghost predicate NilUnowned(b: Batch)
  {
    forall k :: k in b.ret ==> (b.ret[k].None? <==> k !in b.table)
  }

  lemma OneKeepsNilUnowned(b: Batch, s: string, placed: Placement)
    requires NilUnowned(b)
    ensures NilUnowned(ConvertOne(b, s, placed))
  {
    var b' := ConvertOne(b, s, placed);
    forall k | k in b'.ret
      ensures b'.ret[k].None? <==> k !in b'.table
    {
      assert k in Stale(b.table, s) <==> k in b.table && b.table[k] == s;
    }
  }

  /** The last pod group in the list that places k, if any. */
  function LastPlacer(parse: string -> Option<P.PodGroup>, pairs: seq<KVPair>, k: string): Option<KVPair>
    decreases |pairs|
  {
    if pairs == [] then None
    else
      var last := pairs[|pairs| - 1];
      if parse(last.value).Some? && k in Placed(parse(last.value).value) then Some(last)
      else LastPlacer(parse, pairs[..|pairs| - 1], k)
  }

  /** What a batch does to each key, for distinct store keys that all parse: the last pod
      group that places the key owns it and describes it; a key nobody places any more that
      belonged to a pod group of the batch becomes nil and unowned; others are not touched. */
  ghost predicate BatchSettles(
      parse: string -> Option<P.PodGroup>, table: Table, pairs: seq<KVPair>, b: Batch, k: string)
  {
    match LastPlacer(parse, pairs, k)
    case Some(kv) =>
      && parse(kv.value).Some? && k in Placed(parse(kv.value).value)
      && k in b.ret && b.ret[k] == Some(Placed(parse(kv.value).value)[k])
      && k in b.table && b.table[k] == kv.key
    case None =>
      if k in table && exists i :: 0 <= i < |pairs| && pairs[i].key == table[k] then
        k in b.ret && b.ret[k] == None && k !in b.table
      else
        k !in b.ret && (k in b.table <==> k in table) && (k in table ==> b.table[k] == table[k])
  }

  lemma {:induction false} LastPlacerFound(parse: string -> Option<P.PodGroup>, pairs: seq<KVPair>, k: string)
    ensures match LastPlacer(parse, pairs, k)
      case Some(kv) => kv in pairs && parse(kv.value).Some? && k in Placed(parse(kv.value).value)
      case None => forall i :: 0 <= i < |pairs| && parse(pairs[i].value).Some? ==>
        k !in Placed(parse(pairs[i].value).value)
    decreases |pairs|
  {
    if pairs != [] {
      LastPlacerFound(parse, pairs[..|pairs| - 1], k);
    }
  }

  lemma {:induction false} BatchIsExact(
      parse: string -> Option<P.PodGroup>, table: Table, pairs: seq<KVPair>, k: string)
    requires DistinctKeys(pairs) && forall i :: 0 <= i < |pairs| ==> parse(pairs[i].value).Some?
    ensures ConvertAll(parse, table, pairs).ok
    ensures BatchSettles(parse, table, pairs, ConvertAll(parse, table, pairs), k)
    decreases |pairs|
  {
    if pairs != [] {
      var init, last := pairs[..|pairs| - 1], pairs[|pairs| - 1];
      BatchIsExact(parse, table, init, k);
      LastPlacerFound(parse, init, k);
      KeysOneMore(pairs, init, Invert(table, k));
    }
  }

  lemma KeysOneMore(pairs: seq<KVPair>, init: seq<KVPair>, s: string)
    requires pairs != [] && init == pairs[..|pairs| - 1]
    ensures (exists i :: 0 <= i < |pairs| && pairs[i].key == s) <==>
            (exists i :: 0 <= i < |init| && init[i].key == s) || pairs[|pairs| - 1].key == s
  {
    if i :| 0 <= i < |pairs| && pairs[i].key == s && i < |init| {
      assert init[i].key == s;
    }
    if i :| 0 <= i < |init| && init[i].key == s {
      assert pairs[i].key == s;
    }
  }
}
