/** The web router's view: the web procs with their containers, refused when more than half of
    the pods have lost their address. */
module WebRouter {
  import opened Text
  import opened Cacher
  import opened Iteration
  import P = PodGroups
  import HW = HandleWatch
  import Broadcast
  import EventStream

  datatype WebContainer = WebContainer(ip: string, expose: int)

  datatype WebPod = WebPod(annotation: string, containers: seq<WebContainer>)

  datatype WebProc = WebProc(pods: seq<WebPod>)

  type WebData = map<string, WebProc>

  predicate IsWeb(pg: P.PodGroup)
  {
    var parts := Split(pg.name, '.');
    |parts| >= 3 && parts[|parts| - 2] == "web"
  }

  /** No pod has more containers than its specification lists; otherwise the code's index into
      the specification is out of range and it panics. */
  predicate Specified(pg: P.PodGroup)
  {
    forall i :: 0 <= i < |pg.pods| ==> |pg.pods[i].containers| <= |pg.specs|
  }

  function Expose(pg: P.PodGroup, j: nat): int
  {
    if j < |pg.specs| then pg.specs[j].expose else 0
  }

  function ProcOf(pg: P.PodGroup): WebProc
  {
    WebProc(seq(|pg.pods|, i requires 0 <= i < |pg.pods| => PodOf(pg, pg.pods[i])))
  }

  function PodOf(pg: P.PodGroup, pod: P.Pod): WebPod
  {
    WebPod(pg.annotation, seq(|pod.containers|, j requires 0 <= j < |pod.containers| =>
      WebContainer(pod.containers[j].containerIp, Expose(pg, j))))
  }

  /** The web procs by name, those visited later winning. */
  function Collect(groups: P.Groups, order: seq<string>): WebData
    decreases |order|
  {
    if order == [] then map[]
    else
      var rest, k := Collect(groups, order[..|order| - 1]), order[|order| - 1];
      if k in groups && IsWeb(groups[k]) then rest[groups[k].name := ProcOf(groups[k])] else rest
  }

  function PodsOf(groups: P.Groups): string -> nat
  {
    k => if k in groups && IsWeb(groups[k]) then |groups[k].pods| else 0
  }

  function AliveOf(groups: P.Groups): string -> nat
  {
    k => if k in groups && IsWeb(groups[k]) then P.AliveIn(groups[k].pods) else 0
  }

  /** The view made by visiting the pod groups in the given order. */
  function MakeAlong(groups: P.Groups, order: seq<string>): HW.Try<WebData>
  {
    var containerCount, aliveCount := SumAlong(order, PodsOf(groups)), SumAlong(order, AliveOf(groups));
    if containerCount == 0 || aliveCount * 2 < containerCount then HW.Fail(P.TOO_MANY_DEAD)
    else HW.Ok(Collect(groups, order))
  }

  lemma {:induction false} AlongNext(groups: P.Groups, order: seq<string>, i: nat)
    requires i < |order|
    ensures Collect(groups, order[..i + 1]) ==
            if order[i] in groups && IsWeb(groups[order[i]])
            then Collect(groups, order[..i])[groups[order[i]].name := ProcOf(groups[order[i]])]
              else Collect(groups, order[..i])
    ensures SumAlong(order[..i + 1], PodsOf(groups)) ==
            SumAlong(order[..i], PodsOf(groups)) + PodsOf(groups)(order[i])
    ensures SumAlong(order[..i + 1], AliveOf(groups)) ==
            SumAlong(order[..i], AliveOf(groups)) + AliveOf(groups)(order[i])
  {
    assert order[..i + 1][..i] == order[..i];
  }

  method Make(groups: P.Groups, order: seq<string>, shown: WebData) returns (r: HW.Try<WebData>, changed: bool)
    requires Visits(order, groups) && forall k :: k in groups && IsWeb(groups[k]) ==> Specified(groups[k])
    ensures r == MakeAlong(groups, order)
    ensures changed == (r.Ok? && r.value != shown)
  {
    var data: WebData := map[];
    var containerCount, aliveCount := 0, 0;
    for i := 0 to |order|
      invariant data == Collect(groups, order[..i])
      invariant containerCount == SumAlong(order[..i], PodsOf(groups))
      invariant aliveCount == SumAlong(order[..i], AliveOf(groups))
    {
      AlongNext(groups, order, i);
      assert order[i] in Members(order);
      var pg := groups[order[i]];
      var web := CheckWeb(pg);
      if !web {
        continue;
      }
      var proc, alive := MakeProc(pg);
      containerCount := containerCount + |pg.pods|;
      aliveCount := aliveCount + alive;
      data := data[pg.name := proc];
    }
    assert order[..|order|] == order;
    if containerCount == 0 || aliveCount * 2 < containerCount {
      return HW.Fail(P.TOO_MANY_DEAD), false;
    }
    return HW.Ok(data), shown != data;
  }

  method CheckWeb(pg: P.PodGroup) returns (web: bool)
    ensures web == IsWeb(pg)
  {
    var parts := Split(pg.name, '.');
    web := !(|parts| < 3 || parts[|parts| - 2] != "web");
  }

  /** The loop over the pods of one group. */
  method MakeProc(pg: P.PodGroup) returns (proc: WebProc, alive: nat)
    requires Specified(pg)
    ensures proc == ProcOf(pg) && alive == P.AliveIn(pg.pods)
  {
    var pods := new WebPod[|pg.pods|];
    alive := 0;
    for i := 0 to |pg.pods|
      invariant alive == P.AliveIn(pg.pods[..i])
      invariant forall j :: 0 <= j < i ==> pods[j] == PodOf(pg, pg.pods[j])
    {
      assert pg.pods[..i + 1][..i] == pg.pods[..i];
      var pod := pg.pods[i];
      if |pod.containers| > 0 && |pod.containers[0].containerIp| > 0 {
        alive := alive + 1;
      }
      var web := MakePod(pg, pod);
      pods[i] := web;
    }
    assert pg.pods[..|pg.pods|] == pg.pods;
    assert pods[..] == ProcOf(pg).pods;
    proc := WebProc(pods[..]);
  }

  method MakePod(pg: P.PodGroup, pod: P.Pod) returns (web: WebPod)
    requires |pod.containers| <= |pg.specs|
    ensures web == PodOf(pg, pod)
  {
    var containers := new WebContainer[|pod.containers|];
    for j := 0 to |pod.containers|
      invariant forall k :: 0 <= k < j ==> containers[k] == WebContainer(pod.containers[k].containerIp, Expose(pg, k))
    {
      containers[j] := WebContainer(pod.containers[j].containerIp, pg.specs[j].expose);
    }
    assert containers[..] == PodOf(pg, pod).containers;
    web := WebPod(pg.annotation, containers[..]);
  }

  // ----- what the view promises -----

  /** There are web pods, and at least half of them have an address; the counts are the sums
      over all web procs. */
  ghost predicate MajorityAlive(groups: P.Groups)
  {
    var containers, alive := Sum(groups.Keys, PodsOf(groups)), Sum(groups.Keys, AliveOf(groups));
    containers > 0 && 2 * alive >= containers
  }

  /** A view is made exactly when the majority is alive, in whatever order the groups are
      visited. */
  lemma MadeExactlyWhenAlive(groups: P.Groups, order: seq<string>)
    requires Visits(order, groups)
    ensures MakeAlong(groups, order).Ok? <==> MajorityAlive(groups)
  {
    SumAlongAnyOrder(order, PodsOf(groups));
    SumAlongAnyOrder(order, AliveOf(groups));
  }

  /** The positions of the pods of a web group. */
  ghost function Positions(groups: P.Groups): string -> set<nat>
  {
    k => if k in groups && NamedAsWeb(groups[k].name) then P.Below(|groups[k].pods|) else {}
  }

  /** Those whose first container has an address. */
  ghost function LivingPositions(groups: P.Groups): string -> set<nat>
  {
    k => if k in groups && NamedAsWeb(groups[k].name) then P.LivingPods(groups[k].pods) else {}
  }

  /** The majority in words: there are pods of web groups, and at least half of them are alive. */
  lemma MajorityInWords(groups: P.Groups)
    ensures var pods, living := Places(groups.Keys, Positions(groups)), Places(groups.Keys, LivingPositions(groups));
      && (MajorityAlive(groups) <==> pods != {} && 2 * |living| >= |pods|)
      && (forall k, i :: (k, i) in pods <==> k in groups && NamedAsWeb(groups[k].name) && 0 <= i < |groups[k].pods|)
      && (forall k, i :: (k, i) in living <==> (k, i) in pods && P.IsAlive(groups[k].pods[i]))
  {
    CountsOfPositions(groups);
    PositionsInWords(groups);
  }

  lemma PositionsInWords(groups: P.Groups)
    ensures var pods, living := Places(groups.Keys, Positions(groups)), Places(groups.Keys, LivingPositions(groups));
      && (forall k, i :: (k, i) in pods <==> k in groups && NamedAsWeb(groups[k].name) && 0 <= i < |groups[k].pods|)
      && (forall k, i :: (k, i) in living <==> (k, i) in pods && P.IsAlive(groups[k].pods[i]))
  {
    forall k, i
      ensures (k, i) in Places(groups.Keys, Positions(groups)) <==>
              k in groups && NamedAsWeb(groups[k].name) && 0 <= i < |groups[k].pods|
      ensures (k, i) in Places(groups.Keys, LivingPositions(groups)) <==>
              k in groups && NamedAsWeb(groups[k].name) && 0 <= i < |groups[k].pods| && P.IsAlive(groups[k].pods[i])
    {
    }
  }

  lemma CountsOfPositions(groups: P.Groups)
    ensures Sum(groups.Keys, PodsOf(groups)) == |Places(groups.Keys, Positions(groups))|
    ensures Sum(groups.Keys, AliveOf(groups)) == |Places(groups.Keys, LivingPositions(groups))|
  {
    forall k | k in groups
      ensures PodsOf(groups)(k) == |Positions(groups)(k)| && AliveOf(groups)(k) == |LivingPositions(groups)(k)|
    {
      WebNames(groups[k]);
      P.AliveCountsThem(groups[k].pods);
    }
    SumCounts(groups.Keys, PodsOf(groups), Positions(groups));
    SumCounts(groups.Keys, AliveOf(groups), LivingPositions(groups));
  }

  // ----- what the documentation promises -----

  function Addressed(containers: seq<P.Container>): nat
  {
    if containers == [] then 0
    else (if |containers[0].containerIp| > 0 then 1 else 0) + Addressed(containers[1..])
  }

  function ContainersIn(pods: seq<P.Pod>): nat
  {
    if pods == [] then 0 else ContainersIn(pods[..|pods| - 1]) + |pods[|pods| - 1].containers|
  }

  function AddressedIn(pods: seq<P.Pod>): nat
  {
    if pods == [] then 0 else AddressedIn(pods[..|pods| - 1]) + Addressed(pods[|pods| - 1].containers)
  }

  function ContainersOf(groups: P.Groups): string -> nat
  {
    k => if k in groups && IsWeb(groups[k]) then ContainersIn(groups[k].pods) else 0
  }

  function AddressedOf(groups: P.Groups): string -> nat
  {
    k => if k in groups && IsWeb(groups[k]) then AddressedIn(groups[k].pods) else 0
  }

  /** The documented rule counts containers: there are some, and no more than half lack an
      address. */
  ghost predicate DocumentedAllows(groups: P.Groups)
  {
    var containers, addressed := Sum(groups.Keys, ContainersOf(groups)), Sum(groups.Keys, AddressedOf(groups));
    containers > 0 && 2 * (containers - addressed) <= containers
  }

  /** Every web pod has n containers, and all of them have an address or none has. */
  ghost predicate Uniform(groups: P.Groups, n: nat)
  {
    n > 0 && forall k, i :: k in groups && IsWeb(groups[k]) && 0 <= i < |groups[k].pods| ==>
      UniformPod(groups[k].pods[i], n)
  }

  predicate UniformPod(pod: P.Pod, n: nat)
  {
    |pod.containers| == n && forall j :: 0 <= j < n ==> (|pod.containers[j].containerIp| > 0 <==> P.IsAlive(pod))
  }

  lemma {:induction false} AddressedAlike(containers: seq<P.Container>, all: bool)
    requires forall j :: 0 <= j < |containers| ==> (|containers[j].containerIp| > 0 <==> all)
    ensures Addressed(containers) == if all then |containers| else 0
  {
    if containers != [] {
      AddressedAlike(containers[1..], all);
    }
  }

  lemma {:induction false} UniformCounts(pods: seq<P.Pod>, n: nat)
    requires forall i :: 0 <= i < |pods| ==> UniformPod(pods[i], n)
    ensures ContainersIn(pods) == n * |pods| && AddressedIn(pods) == n * P.AliveIn(pods)
    decreases |pods|
  {
    if pods != [] {
      var last := pods[|pods| - 1];
      UniformCounts(pods[..|pods| - 1], n);
      AddressedAlike(last.containers, P.IsAlive(last));
      Distribute(n, |pods| - 1, 1);
      Distribute(n, P.AliveIn(pods[..|pods| - 1]), if P.IsAlive(last) then 1 else 0);
    }
  }

  /** The rule that is documented and the one that is coded give the same verdict whenever all
      web pods have the same number of containers, each pod's with addresses or without; so
      when every web pod has exactly one container. */
  lemma {:induction false} DocumentationAgrees(groups: P.Groups, n: nat)
    requires Uniform(groups, n)
    ensures DocumentedAllows(groups) <==> MajorityAlive(groups)
  {
    forall k | k in groups.Keys
      ensures ContainersOf(groups)(k) == n * PodsOf(groups)(k) && AddressedOf(groups)(k) == n * AliveOf(groups)(k)
    {
      if IsWeb(groups[k]) {
        UniformCounts(groups[k].pods, n);
      }
    }
    SumScaled(groups.Keys, ContainersOf(groups), PodsOf(groups), n);
    SumScaled(groups.Keys, AddressedOf(groups), AliveOf(groups), n);
    Scaled(n, Sum(groups.Keys, PodsOf(groups)), Sum(groups.Keys, AliveOf(groups)));
  }

  lemma Scaled(n: nat, pods: nat, alive: nat)
    requires n > 0
    ensures n * pods > 0 <==> pods > 0
    ensures 2 * (n * pods - n * alive) <= n * pods <==> 2 * alive >= pods
  {
    var spare := 2 * alive - pods;
    assert n * spare == 2 * (n * alive) - n * pods;
    if spare >= 0 {
      assert n * spare >= 0;
    } else {
      assert n * spare < 0;
    }
  }

  lemma OneGroup(pg: P.PodGroup, k: string)
    requires IsWeb(pg)
    ensures var groups := map[k := pg];
      && (MajorityAlive(groups) <==> |pg.pods| > 0 && 2 * P.AliveIn(pg.pods) >= |pg.pods|)
      && (DocumentedAllows(groups) <==>
            ContainersIn(pg.pods) > 0 && 2 * (ContainersIn(pg.pods) - AddressedIn(pg.pods)) <= ContainersIn(pg.pods))
  {
    var groups := map[k := pg];
    assert groups.Keys == {k};
    SumOne(k, PodsOf(groups));
    SumOne(k, AliveOf(groups));
    SumOne(k, ContainersOf(groups));
    SumOne(k, AddressedOf(groups));
  }

  /** The rules differ both ways. A web pod of three containers of which only the first has an
      address is shown, though two of three containers lack one; a pod of two containers of
      which only the first lacks an address is refused, though half of them have one. */
  lemma DocumentationDiffers(pg: P.PodGroup, with: P.Container, without: P.Container)
    requires IsWeb(pg) && |with.containerIp| > 0 && |without.containerIp| == 0
    ensures var shown := map["k" := pg.(pods := [P.Pod(1, [with, without, without])])];
      MajorityAlive(shown) && !DocumentedAllows(shown)
    ensures var refused := map["k" := pg.(pods := [P.Pod(1, [without, with])])];
      !MajorityAlive(refused) && DocumentedAllows(refused)
  {
    var three, two := P.Pod(1, [with, without, without]), P.Pod(1, [without, with]);
    OneGroup(pg.(pods := [three]), "k");
    OneGroup(pg.(pods := [two]), "k");
    CountsOfOne(three);
    CountsOfOne(two);
    assert Addressed([without]) == 0 && Addressed([with]) == 1;
    assert [without, without][1..] == [without] && two.containers[1..] == [with];
    assert Addressed([without, without]) == 0;
    assert three.containers[1..] == [without, without];
  }

  /** A name of three parts or more, the last but one of which is "web". */
  ghost predicate NamedAsWeb(s: string)
  {
    exists app, name :: '.' !in name && s == app + ".web." + name
  }

  /** The web procs are those with a name of the form app.web.name, the name without a dot. */
  lemma WebNames(pg: P.PodGroup)
    ensures IsWeb(pg) <==> NamedAsWeb(pg.name)
  {
    if IsWeb(pg) {
      WebNameParts(pg.name);
    }
    if NamedAsWeb(pg.name) {
      var app, name :| '.' !in name && pg.name == app + ".web." + name;
      NamesAreWeb(pg, app, name);
    }
  }

  lemma {:induction false} WebNameParts(s: string)
    requires |Split(s, '.')| >= 3 && Split(s, '.')[|Split(s, '.')| - 2] == "web"
    ensures NamedAsWeb(s)
  {
    var parts := Split(s, '.');
    var n := |parts| - 2;
    var app, name := Join(parts[..n], '.'), parts[n + 1];
    JoinSplit(s, '.');
    PiecesAreApart(s, '.');
    assert parts == parts[..n] + ["web", name];
    JoinAppend(parts[..n], ["web", name], '.');
    assert ["web", name][1..] == [name];
    assert Join(["web", name], '.') == "web" + ['.'] + name;
    assert s == app + ".web." + name;
  }

  lemma NamesAreWeb(pg: P.PodGroup, app: string, name: string)
    requires '.' !in name && pg.name == app + ".web." + name
    ensures IsWeb(pg)
  {
    var rest := "web" + ['.'] + name;
    assert pg.name == app + ['.'] + rest;
    SplitAtSeparator(app, '.', rest);
    SplitAtSeparator("web", '.', name);
    SplitOne("web", '.');
    SplitOne(name, '.');
  }

  lemma CountsOfOne(pod: P.Pod)
    ensures P.AliveIn([pod]) == if P.IsAlive(pod) then 1 else 0
    ensures ContainersIn([pod]) == |pod.containers| && AddressedIn([pod]) == Addressed(pod.containers)
  {
    assert [pod][..0] == [];
  }

  ghost predicate DistinctNames(groups: P.Groups)
  {
    forall k, k' :: k in groups && k' in groups && IsWeb(groups[k]) && IsWeb(groups[k']) ==>
      (groups[k].name == groups[k'].name ==> k == k')
  }

  /** The visited web groups are the entries of the collection. */
  lemma {:induction false} Collected(groups: P.Groups, order: seq<string>)
    requires DistinctNames(groups) && Members(order) <= groups.Keys
    ensures forall k :: k in order && IsWeb(groups[k]) ==>
      groups[k].name in Collect(groups, order) && Collect(groups, order)[groups[k].name] == ProcOf(groups[k])
    ensures forall name :: name in Collect(groups, order) ==>
      exists k :: k in order && k in groups && IsWeb(groups[k]) && groups[k].name == name
    decreases |order|
  {
    if order != [] {
      var init, last := order[..|order| - 1], order[|order| - 1];
      assert order == init + [last];
      MembersAppend(init, last);
      assert last in Members(order);
      Collected(groups, init);
      forall k | k in order && IsWeb(groups[k])
        ensures groups[k].name in Collect(groups, order)
                && Collect(groups, order)[groups[k].name] == ProcOf(groups[k])
      {
        assert k in Members(order);
      }
      forall name | name in Collect(groups, order)
        ensures exists k :: k in order && k in groups && IsWeb(groups[k]) && groups[k].name == name
      {
        if name in Collect(groups, init) {
          var k :| k in init && k in groups && IsWeb(groups[k]) && groups[k].name == name;
          assert k in order;
        }
      }
    }
  }

  /** The proc lists the pods of the group in order, each with the group's annotation and its
      containers' addresses, and the port that the specification of that position exposes. */
  ghost predicate ShowsPods(pg: P.PodGroup, proc: WebProc)
  {
    && |proc.pods| == |pg.pods|
    && forall i :: 0 <= i < |pg.pods| ==> ShowsPod(pg, pg.pods[i], proc.pods[i])
  }

  ghost predicate ShowsPod(pg: P.PodGroup, pod: P.Pod, web: WebPod)
  {
    && web.annotation == pg.annotation
    && |web.containers| == |pod.containers| <= |pg.specs|
    && forall j :: 0 <= j < |pod.containers| ==>
         web.containers[j].ip == pod.containers[j].containerIp && web.containers[j].expose == pg.specs[j].expose
  }

  /** What a view shows: every entry is a web proc's, with its pods; every web proc has an entry;
      and where no two web procs share a name, the entry shows its own pods. */
  lemma {:induction false} ViewShowsThePods(groups: P.Groups, order: seq<string>, view: WebData)
    requires Visits(order, groups) && forall k :: k in groups && IsWeb(groups[k]) ==> Specified(groups[k])
    requires MakeAlong(groups, order) == HW.Ok(view)
    ensures forall name :: name in view ==>
      exists k :: k in groups && NamedAsWeb(name) && groups[k].name == name && ShowsPods(groups[k], view[name])
    ensures forall k :: k in groups && NamedAsWeb(groups[k].name) ==>
      groups[k].name in view && (DistinctNames(groups) ==> ShowsPods(groups[k], view[groups[k].name]))
  {
    CollectedShow(groups, order);
    forall k | k in groups
      ensures IsWeb(groups[k]) <==> NamedAsWeb(groups[k].name)
      ensures k in order
    {
      WebNames(groups[k]);
      assert k in Members(order);
    }
    if DistinctNames(groups) {
      Collected(groups, order);
    }
  }

  lemma {:induction false} CollectedShow(groups: P.Groups, order: seq<string>)
    requires Members(order) <= groups.Keys
    requires forall k :: k in groups && IsWeb(groups[k]) ==> Specified(groups[k])
    ensures forall name :: name in Collect(groups, order) ==>
      exists k :: k in groups && IsWeb(groups[k]) && groups[k].name == name
                  && ShowsPods(groups[k], Collect(groups, order)[name])
    ensures forall k :: k in order && k in groups && IsWeb(groups[k]) ==> groups[k].name in Collect(groups, order)
    ensures forall k :: k in groups && IsWeb(groups[k]) ==> ShowsPods(groups[k], ProcOf(groups[k]))
    decreases |order|
  {
    if order != [] {
      var init, last := order[..|order| - 1], order[|order| - 1];
      assert order == init + [last];
      MembersAppend(init, last);
      CollectedShow(groups, init);
    }
  }

  /** With distinct names the view has one entry for every web proc and no other, and does not
      depend on the order in which the groups are visited. */
  lemma {:induction false} ViewIsOrderFree(groups: P.Groups, order: seq<string>, other: seq<string>)
    requires DistinctNames(groups) && Visits(order, groups) && Visits(other, groups)
    ensures MakeAlong(groups, order) == MakeAlong(groups, other)
    ensures forall k :: k in groups && IsWeb(groups[k]) ==>
      groups[k].name in Collect(groups, order) && Collect(groups, order)[groups[k].name] == ProcOf(groups[k])
  {
    SumAlongAnyOrder(order, PodsOf(groups));
    SumAlongAnyOrder(other, PodsOf(groups));
    SumAlongAnyOrder(order, AliveOf(groups));
    SumAlongAnyOrder(other, AliveOf(groups));
    CollectionIsOrderFree(groups, order, other);
  }

  lemma {:induction false} CollectionIsOrderFree(groups: P.Groups, order: seq<string>, other: seq<string>)
    requires DistinctNames(groups) && Visits(order, groups) && Visits(other, groups)
    ensures Collect(groups, order) == Collect(groups, other)
    ensures forall k :: k in groups && IsWeb(groups[k]) ==>
      groups[k].name in Collect(groups, order) && Collect(groups, order)[groups[k].name] == ProcOf(groups[k])
  {
    Collected(groups, order);
    Collected(groups, other);
    forall k
      ensures k in order <==> k in groups
      ensures k in other <==> k in groups
    {
      assert k in order <==> k in Members(order);
      assert k in other <==> k in Members(other);
    }
  }

  // ----- whole streams -----

  /** The pod groups among cached values. */
  function GroupsIn(data: Data<P.PodGroup>): P.Groups
  {
    map k | k in data && data[k].Some? :: data[k].value
  }

  /** An API that makes the web view, visiting each snapshot in some order of its own. */
  ghost predicate ServesWeb(api: HW.Api<P.PodGroup, WebData>)
  {
    forall data :: exists order :: Visits(order, GroupsIn(data)) && api.make(data) == MakeAlong(GroupsIn(data), order)
  }

  /** Every data frame a web-router request ever sends shows a view made from a snapshot, the
      first or a later one, in which the majority is alive. */
  lemma EveryFrameIsAlive(
      api: HW.Api<P.PodGroup, WebData>, data: Option<Data<P.PodGroup>>, notes: seq<Broadcast.Note<P.PodGroup>>,
      f: EventStream.Message)
    requires ServesWeb(api) && f in HW.DataFrames(HW.Stream(api, data, notes))
    ensures (data.Some? && MajorityAlive(GroupsIn(data.value)) && HW.FrameShows(api, data.value, f))
         || exists i ::
              0 <= i < |notes| && MajorityAlive(GroupsIn(notes[i].data)) && HW.FrameShows(api, notes[i].data, f)
  {
    HW.StreamIsMade(api, data, notes, f);
    if data.Some? && HW.FrameShows(api, data.value, f) {
      ShownIsAlive(api, data.value);
    } else {
      var i :| 0 <= i < |notes| && HW.FrameOf(api, notes[i], f);
      ShownIsAlive(api, notes[i].data);
    }
  }

  lemma ShownIsAlive(api: HW.Api<P.PodGroup, WebData>, snapshot: Data<P.PodGroup>)
    requires ServesWeb(api)
    ensures api.make(snapshot).Ok? <==> MajorityAlive(GroupsIn(snapshot))
    ensures api.make(snapshot).Fail? ==> api.make(snapshot).error == P.TOO_MANY_DEAD
  {
    var order :| Visits(order, GroupsIn(snapshot)) && api.make(snapshot) == MakeAlong(GroupsIn(snapshot), order);
    MadeExactlyWhenAlive(GroupsIn(snapshot), order);
  }

  /** The first snapshot without a living majority ends the request with one error frame, be it
      that of the first query or a note's. */
  lemma {:induction false} FirstDeadSnapshotEnds(
      api: HW.Api<P.PodGroup, WebData>, view: WebData, notes: seq<Broadcast.Note<P.PodGroup>>, n: nat)
    requires ServesWeb(api) && n < |notes| && HW.NoErrors(notes[..n]) && HW.AllShowable(api, notes[..n])
    requires !notes[n].action.ERROR? && !MajorityAlive(GroupsIn(notes[n].data))
    ensures HW.Frames(api, view, notes) == HW.Frames(api, view, notes[..n]) +
              [EventStream.Message(0, "error", "over half of the containers lost their IPs")]
  {
    ShownIsAlive(api, notes[n].data);
    HW.FirstFailureEnds(api, view, notes, n, P.TOO_MANY_DEAD);
  }

  lemma DeadFromTheStart(
      api: HW.Api<P.PodGroup, WebData>, data: Data<P.PodGroup>, notes: seq<Broadcast.Note<P.PodGroup>>)
    requires ServesWeb(api) && !MajorityAlive(GroupsIn(data))
    ensures HW.Stream(api, Some(data), notes) ==
            [EventStream.Message(0, "error", "over half of the containers lost their IPs")]
  {
    ShownIsAlive(api, data);
    HW.RequestBegins(api, Some(data), notes);
  }
}
