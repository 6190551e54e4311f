/** The stream router's views: the procs that declare ports, grouped by namespace and sorted at
    three levels, and the list of all their source ports. */
module StreamRouter {
  import opened Cacher
  import opened Iteration
  import opened Sorting
  import P = PodGroups
  import HW = HandleWatch

  datatype Port = Port(srcport: int, dstport: int, proto: string)

  datatype Upstream = Upstream(host: string, instanceNo: int)

  datatype Service = Service(upstreamPort: int, listenPort: int)

  datatype StreamProc = StreamProc(name: string, upstreams: seq<Upstream>, services: seq<Service>)

  type StreamData = map<string, seq<StreamProc>>

  /** How the ports are read from an annotation; none when it cannot be parsed. */
  type Ports = string -> seq<Port>

  // ----- one pod group -----

  predicate Declares(pg: P.PodGroup, ports: Ports)
  {
    |ports(pg.annotation)| > 0
  }

  /** Every pod has a container; otherwise the code's access to the first one panics. */
  predicate Populated(pg: P.PodGroup)
  {
    forall i :: 0 <= i < |pg.pods| ==> |pg.pods[i].containers| > 0
  }

  function UpstreamOf(pod: P.Pod): Upstream
  {
    Upstream(if |pod.containers| > 0 then pod.containers[0].containerIp else "", pod.instanceNo)
  }

  function ServiceOf(port: Port): Service
  {
    Service(port.dstport, port.srcport)
  }

  /** The proc of a pod group before sorting. */
  function RawProc(pg: P.PodGroup, ports: Ports): StreamProc
  {
    StreamProc(pg.name, Map(pg.pods, UpstreamOf), Map(ports(pg.annotation), ServiceOf))
  }

  // ----- what a proc holds, whatever its order -----

  datatype Shape = Shape(name: string, upstreams: multiset<Upstream>, services: multiset<Service>)

  function ShapeOf(p: StreamProc): Shape
  {
    Shape(p.name, multiset(p.upstreams), multiset(p.services))
  }

  predicate ByInstance(a: Upstream, b: Upstream) { a.instanceNo < b.instanceNo }

  predicate ByPort(a: Service, b: Service) { a.listenPort < b.listenPort }

  predicate ByName(a: StreamProc, b: StreamProc) { StringLess(a.name, b.name) }

  predicate ShapeByName(a: Shape, b: Shape) { StringLess(a.name, b.name) }

  ghost predicate InnerSorted(p: StreamProc)
  {
    Sorted(p.upstreams, ByInstance) && Sorted(p.services, ByPort)
  }

  /** The shapes of the procs a set of pod groups contributes to a namespace. */
  function ShapesFor(groups: P.Groups, ports: Ports, namespace: string): string -> multiset<Shape>
  {
    k => if k in groups && Declares(groups[k], ports) && groups[k].namespace == namespace
         then multiset{ShapeOf(RawProc(groups[k], ports))} else multiset{}
  }

  /** The view: each namespace of a declaring pod group lists its procs sorted by name, with
      upstreams sorted by instance number and services by listening port; and every declaring
      pod group appears exactly once, with exactly its pods and ports. */
  ghost predicate IsView(groups: P.Groups, ports: Ports, r: StreamData)
  {
    && (forall ns :: ns in r <==> exists k :: k in groups && Declares(groups[k], ports) && groups[k].namespace == ns)
    && (forall ns :: ns in r ==> IsListing(groups, ports, ns, r[ns]))
  }

  ghost predicate IsListing(groups: P.Groups, ports: Ports, ns: string, procs: seq<StreamProc>)
  {
    && Sorted(procs, ByName)
    && (forall i :: 0 <= i < |procs| ==> InnerSorted(procs[i]))
    && multiset(Map(procs, ShapeOf)) == Pool(groups.Keys, ShapesFor(groups, ports, ns))
  }

  // ----- the view in words -----

  /** The upstreams are the pods, each with the address of its first container and its number. */
  ghost predicate ListsThePods(pg: P.PodGroup, upstreams: seq<Upstream>)
  {
    exists u: seq<Upstream> :: multiset(u) == multiset(upstreams) && |u| == |pg.pods| &&
      forall i :: 0 <= i < |u| ==>
        && u[i].instanceNo == pg.pods[i].instanceNo
        && |pg.pods[i].containers| > 0 && u[i].host == pg.pods[i].containers[0].containerIp
  }

  /** The services are the declared ports: each listens on the source port and passes on to the
      destination port. */
  ghost predicate ListsThePorts(declared: seq<Port>, services: seq<Service>)
  {
    exists s: seq<Service> :: multiset(s) == multiset(services) && |s| == |declared| &&
      forall i :: 0 <= i < |s| ==> s[i].listenPort == declared[i].srcport && s[i].upstreamPort == declared[i].dstport
  }

  /** A declaring pod group of the namespace and its proc: the same name, its pods and ports, both
      lists ascending. */
  ghost predicate ShowsGroup(pg: P.PodGroup, ports: Ports, ns: string, p: StreamProc)
  {
    && ports(pg.annotation) != [] && pg.namespace == ns && p.name == pg.name
    && ListsThePods(pg, p.upstreams) && ListsThePorts(ports(pg.annotation), p.services)
    && (forall i, j :: 0 <= i < j < |p.upstreams| ==> p.upstreams[i].instanceNo <= p.upstreams[j].instanceNo)
    && (forall i, j :: 0 <= i < j < |p.services| ==> p.services[i].listenPort <= p.services[j].listenPort)
  }

  /** The declaring pod groups of a namespace. */
  ghost function DeclaringIn(groups: P.Groups, ports: Ports, ns: string): set<string>
  {
    set k | k in groups && ports(groups[k].annotation) != [] && groups[k].namespace == ns
  }

  ghost predicate OfAGroup(groups: P.Groups, ports: Ports, ns: string, p: StreamProc)
  {
    exists k :: k in groups && k in DeclaringIn(groups, ports, ns) && ShowsGroup(groups[k], ports, ns, p)
  }

  ghost predicate IsShown(groups: P.Groups, ports: Ports, ns: string, k: string, procs: seq<StreamProc>)
  {
    k in groups && exists p :: p in procs && ShowsGroup(groups[k], ports, ns, p)
  }

  /** As many procs as the namespace has declaring pod groups, each that of a group, and each
      group's; and no name comes before that of an earlier proc. */
  ghost predicate ShowsTheGroups(groups: P.Groups, ports: Ports, ns: string, procs: seq<StreamProc>)
  {
    && |procs| == |DeclaringIn(groups, ports, ns)|
    && (forall p :: p in procs ==> OfAGroup(groups, ports, ns, p))
    && (forall k :: k in DeclaringIn(groups, ports, ns) ==> IsShown(groups, ports, ns, k, procs))
    && InAlphabeticOrder(procs)
  }

  ghost predicate InAlphabeticOrder(procs: seq<StreamProc>)
  {
    forall i, j :: 0 <= i < j < |procs| ==> !ComesBefore(procs[j].name, procs[i].name)
  }

  /** What a view shows: the namespaces that have declaring pod groups, and for each of them those
      groups. */
  lemma ViewInWords(groups: P.Groups, ports: Ports, r: StreamData, ns: string)
    requires IsView(groups, ports, r)
    requires forall k :: k in groups && Declares(groups[k], ports) ==> Populated(groups[k])
    ensures ns in r <==> DeclaringIn(groups, ports, ns) != {}
    ensures ns in r ==> ShowsTheGroups(groups, ports, ns, r[ns])
  {
    if ns in r {
      var k :| k in groups && Declares(groups[k], ports) && groups[k].namespace == ns;
      assert k in DeclaringIn(groups, ports, ns);
      ListingInWords(groups, ports, ns, r[ns]);
    }
  }

  lemma ListingInWords(groups: P.Groups, ports: Ports, ns: string, procs: seq<StreamProc>)
    requires IsListing(groups, ports, ns, procs)
    requires forall k :: k in groups && Declares(groups[k], ports) ==> Populated(groups[k])
    ensures ShowsTheGroups(groups, ports, ns, procs)
  {
    ListingCount(groups, ports, ns, procs);
    forall p | p in procs
      ensures OfAGroup(groups, ports, ns, p)
    {
      ShownByAGroup(groups, ports, ns, procs, p);
    }
    forall k | k in DeclaringIn(groups, ports, ns)
      ensures IsShown(groups, ports, ns, k, procs)
    {
      GroupIsShown(groups, ports, ns, procs, k);
    }
    NamesAscend(procs);
  }

  lemma NamesAscend(procs: seq<StreamProc>)
    requires Sorted(procs, ByName)
    ensures InAlphabeticOrder(procs)
  {
    forall i, j | 0 <= i < j < |procs|
      ensures !ComesBefore(procs[j].name, procs[i].name)
    {
      assert !ByName(procs[j], procs[i]);
      StringLessIsLexical(procs[j].name, procs[i].name);
    }
  }

  lemma ListingCount(groups: P.Groups, ports: Ports, ns: string, procs: seq<StreamProc>)
    requires IsListing(groups, ports, ns, procs)
    ensures |procs| == |DeclaringIn(groups, ports, ns)|
  {
    PoolOfShapes(groups, ports, ns);
    var shapes := Map(procs, ShapeOf);
    assert |procs| == |shapes| == |multiset(shapes)|;
  }

  lemma PoolOfShapes(groups: P.Groups, ports: Ports, ns: string)
    ensures |Pool(groups.Keys, ShapesFor(groups, ports, ns))| == |DeclaringIn(groups, ports, ns)|
  {
    var mine := DeclaringIn(groups, ports, ns);
    forall k | k in groups.Keys
      ensures |ShapesFor(groups, ports, ns)(k)| == if k in mine then 1 else 0
    {
      assert k in mine <==> Declares(groups[k], ports) && groups[k].namespace == ns;
    }
    PoolSingles(groups.Keys, ShapesFor(groups, ports, ns), mine);
    assert groups.Keys * mine == mine;
  }

  lemma ShownByAGroup(groups: P.Groups, ports: Ports, ns: string, procs: seq<StreamProc>, p: StreamProc)
    requires IsListing(groups, ports, ns, procs) && p in procs
    requires forall k :: k in groups && Declares(groups[k], ports) ==> Populated(groups[k])
    ensures OfAGroup(groups, ports, ns, p)
  {
    var i :| 0 <= i < |procs| && procs[i] == p;
    assert Map(procs, ShapeOf)[i] == ShapeOf(p) && ShapeOf(p) in multiset(Map(procs, ShapeOf));
    PoolSource(groups.Keys, ShapesFor(groups, ports, ns), ShapeOf(p));
    var k :| k in groups.Keys && ShapeOf(p) in ShapesFor(groups, ports, ns)(k);
    RawShows(groups[k], ports, ns, p);
  }

  lemma GroupIsShown(groups: P.Groups, ports: Ports, ns: string, procs: seq<StreamProc>, k: string)
    requires IsListing(groups, ports, ns, procs) && k in DeclaringIn(groups, ports, ns) && Populated(groups[k])
    ensures IsShown(groups, ports, ns, k, procs)
  {
    var shape := ShapeOf(RawProc(groups[k], ports));
    assert shape in ShapesFor(groups, ports, ns)(k);
    PoolSource(groups.Keys, ShapesFor(groups, ports, ns), shape);
    assert shape in Map(procs, ShapeOf);
    var i :| 0 <= i < |Map(procs, ShapeOf)| && Map(procs, ShapeOf)[i] == shape;
    RawShows(groups[k], ports, ns, procs[i]);
  }

  lemma RawShows(pg: P.PodGroup, ports: Ports, ns: string, p: StreamProc)
    requires Declares(pg, ports) && Populated(pg) && pg.namespace == ns
    requires ShapeOf(p) == ShapeOf(RawProc(pg, ports)) && InnerSorted(p)
    ensures ShowsGroup(pg, ports, ns, p)
  {
    PodsAreListed(pg, p.upstreams);
    PortsAreListed(ports(pg.annotation), p.services);
    InnerAscends(p);
  }

  lemma PodsAreListed(pg: P.PodGroup, upstreams: seq<Upstream>)
    requires Populated(pg) && multiset(upstreams) == multiset(Map(pg.pods, UpstreamOf))
    ensures ListsThePods(pg, upstreams)
  {
    var u := Map(pg.pods, UpstreamOf);
    assert forall i :: 0 <= i < |u| ==> u[i] == UpstreamOf(pg.pods[i]);
  }

  lemma PortsAreListed(declared: seq<Port>, services: seq<Service>)
    requires multiset(services) == multiset(Map(declared, ServiceOf))
    ensures ListsThePorts(declared, services)
  {
    var s := Map(declared, ServiceOf);
    assert forall i :: 0 <= i < |s| ==> s[i] == ServiceOf(declared[i]);
  }

  lemma InnerAscends(p: StreamProc)
    requires InnerSorted(p)
    ensures forall i, j :: 0 <= i < j < |p.upstreams| ==> p.upstreams[i].instanceNo <= p.upstreams[j].instanceNo
    ensures forall i, j :: 0 <= i < j < |p.services| ==> p.services[i].listenPort <= p.services[j].listenPort
  {
    assert forall i, j :: 0 <= i < j < |p.upstreams| ==> !ByInstance(p.upstreams[j], p.upstreams[i]);
    assert forall i, j :: 0 <= i < j < |p.services| ==> !ByPort(p.services[j], p.services[i]);
  }

  // ----- grouping -----

  /** The procs by namespace, each list in the order in which the groups are visited. */
  function Gather(groups: P.Groups, ports: Ports, order: seq<string>): StreamData
    decreases |order|
  {
    if order == [] then map[]
    else
      var rest, k := Gather(groups, ports, order[..|order| - 1]), order[|order| - 1];
      if k in groups && Declares(groups[k], ports) then Append(rest, groups[k].namespace, RawProc(groups[k], ports))
        else rest
  }

  function Listed(data: StreamData, ns: string): seq<StreamProc>
  {
    if ns in data then data[ns] else []
  }

  function Append(data: StreamData, ns: string, p: StreamProc): StreamData
  {
    data[ns := Listed(data, ns) + [p]]
  }

  lemma {:induction false} GatherNamespaces(groups: P.Groups, ports: Ports, order: seq<string>, ns: string)
    ensures ns in Gather(groups, ports, order) <==>
      exists k :: k in order && k in groups && Declares(groups[k], ports) && groups[k].namespace == ns
    decreases |order|
  {
    if order != [] {
      var init, k := order[..|order| - 1], order[|order| - 1];
      assert order == init + [k];
      GatherNamespaces(groups, ports, init, ns);
    }
  }

  lemma AppendShape(procs: seq<StreamProc>, p: StreamProc)
    ensures multiset(Map(procs + [p], ShapeOf)) == multiset(Map(procs, ShapeOf)) + multiset{ShapeOf(p)}
  {
    assert Map(procs + [p], ShapeOf) == Map(procs, ShapeOf) + [ShapeOf(p)];
  }

  lemma {:induction false} GatherPool(groups: P.Groups, ports: Ports, order: seq<string>, ns: string)
    ensures multiset(Map(Listed(Gather(groups, ports, order), ns), ShapeOf)) ==
            PoolAlong(order, ShapesFor(groups, ports, ns))
    decreases |order|
  {
    if order != [] {
      var init, k := order[..|order| - 1], order[|order| - 1];
      GatherPool(groups, ports, init, ns);
      if k in groups && Declares(groups[k], ports) {
        AppendShape(Listed(Gather(groups, ports, init), ns), RawProc(groups[k], ports));
      }
    }
  }

  function PodsOf(groups: P.Groups, ports: Ports): string -> nat
  {
    k => if k in groups && Declares(groups[k], ports) then |groups[k].pods| else 0
  }

  function AliveOf(groups: P.Groups, ports: Ports): string -> nat
  {
    k => if k in groups && Declares(groups[k], ports) then P.AliveIn(groups[k].pods) else 0
  }

  ghost predicate MajorityAlive(groups: P.Groups, ports: Ports)
  {
    var containers, alive := Sum(groups.Keys, PodsOf(groups, ports)), Sum(groups.Keys, AliveOf(groups, ports));
    containers > 0 && 2 * alive >= containers
  }

  /** The positions of the pods of a declaring group. */
  ghost function Positions(groups: P.Groups, ports: Ports): string -> set<nat>
  {
    k => if k in groups && ports(groups[k].annotation) != [] then P.Below(|groups[k].pods|) else {}
  }

  /** Those whose first container has an address. */
  ghost function LivingPositions(groups: P.Groups, ports: Ports): string -> set<nat>
  {
    k => if k in groups && ports(groups[k].annotation) != [] then P.LivingPods(groups[k].pods) else {}
  }

  /** The majority in words: there are pods of declaring groups, and at least half of them are alive. */
  lemma MajorityInWords(groups: P.Groups, ports: Ports)
    ensures var pods, living := Places(groups.Keys, Positions(groups, ports)),
            Places(groups.Keys, LivingPositions(groups, ports));
      && (MajorityAlive(groups, ports) <==> pods != {} && 2 * |living| >= |pods|)
      && (forall k, i :: (k, i) in pods <==>
        k in groups && ports(groups[k].annotation) != [] && 0 <= i < |groups[k].pods|)
      && (forall k, i :: (k, i) in living <==> (k, i) in pods && P.IsAlive(groups[k].pods[i]))
  {
    CountsOfPositions(groups, ports);
    PositionsInWords(groups, ports);
  }

  lemma PositionsInWords(groups: P.Groups, ports: Ports)
    ensures var pods, living := Places(groups.Keys, Positions(groups, ports)),
            Places(groups.Keys, LivingPositions(groups, ports));
      && (forall k, i :: (k, i) in pods <==>
        k in groups && ports(groups[k].annotation) != [] && 0 <= i < |groups[k].pods|)
      && (forall k, i :: (k, i) in living <==> (k, i) in pods && P.IsAlive(groups[k].pods[i]))
  {
    forall k, i
      ensures (k, i) in Places(groups.Keys, Positions(groups, ports)) <==>
              k in groups && ports(groups[k].annotation) != [] && 0 <= i < |groups[k].pods|
      ensures (k, i) in Places(groups.Keys, LivingPositions(groups, ports)) <==>
              k in groups && ports(groups[k].annotation) != [] && 0 <= i < |groups[k].pods|
                && P.IsAlive(groups[k].pods[i])
    {
    }
  }

  lemma CountsOfPositions(groups: P.Groups, ports: Ports)
    ensures Sum(groups.Keys, PodsOf(groups, ports)) == |Places(groups.Keys, Positions(groups, ports))|
    ensures Sum(groups.Keys, AliveOf(groups, ports)) == |Places(groups.Keys, LivingPositions(groups, ports))|
  {
    forall k | k in groups
      ensures PodsOf(groups, ports)(k) == |Positions(groups, ports)(k)|
              && AliveOf(groups, ports)(k) == |LivingPositions(groups, ports)(k)|
    {
      P.AliveCountsThem(groups[k].pods);
    }
    SumCounts(groups.Keys, PodsOf(groups, ports), Positions(groups, ports));
    SumCounts(groups.Keys, AliveOf(groups, ports), LivingPositions(groups, ports));
  }

  // ----- making the view -----

  method MakeProc(pg: P.PodGroup, ports: Ports) returns (proc: StreamProc, alive: nat)
    requires Populated(pg)
    ensures proc == RawProc(pg, ports) && alive == P.AliveIn(pg.pods)
  {
    var declared := ports(pg.annotation);
    var services := new Service[|declared|];
    for i := 0 to |declared|
      invariant forall j :: 0 <= j < i ==> services[j] == ServiceOf(declared[j])
    {
      services[i] := Service(declared[i].dstport, declared[i].srcport);
    }
    var upstreams;
    upstreams, alive := MakeUpstreams(pg);
    assert services[..] == Map(declared, ServiceOf);
    proc := StreamProc(pg.name, upstreams, services[..]);
  }

  method MakeUpstreams(pg: P.PodGroup) returns (r: seq<Upstream>, alive: nat)
    requires Populated(pg)
    ensures r == Map(pg.pods, UpstreamOf) && alive == P.AliveIn(pg.pods)
  {
    var upstreams := new Upstream[|pg.pods|];
    alive := 0;
    for i := 0 to |pg.pods|
      invariant alive == P.AliveIn(pg.pods[..i])
      invariant forall j :: 0 <= j < i ==> upstreams[j] == UpstreamOf(pg.pods[j])
    {
      assert pg.pods[..i + 1][..i] == pg.pods[..i];
      var pod := pg.pods[i];
      upstreams[i] := Upstream(pod.containers[0].containerIp, pod.instanceNo);
      if |pod.containers| > 0 && |pod.containers[0].containerIp| > 0 {
        alive := alive + 1;
      }
    }
    assert pg.pods[..|pg.pods|] == pg.pods;
    assert upstreams[..] == Map(pg.pods, UpstreamOf);
    r := upstreams[..];
  }

  lemma {:induction false} AlongNext(groups: P.Groups, ports: Ports, order: seq<string>, i: nat)
    requires i < |order|
    ensures Gather(groups, ports, order[..i + 1]) ==
            if order[i] in groups && Declares(groups[order[i]], ports)
            then Append(Gather(groups, ports, order[..i]), groups[order[i]].namespace,
              RawProc(groups[order[i]], ports))
            else Gather(groups, ports, order[..i])
    ensures SumAlong(order[..i + 1], PodsOf(groups, ports)) ==
            SumAlong(order[..i], PodsOf(groups, ports)) + PodsOf(groups, ports)(order[i])
    ensures SumAlong(order[..i + 1], AliveOf(groups, ports)) ==
            SumAlong(order[..i], AliveOf(groups, ports)) + AliveOf(groups, ports)(order[i])
  {
    assert order[..i + 1][..i] == order[..i];
  }

  /** The first loop: group the procs and count. */
  method GatherAll(
      groups: P.Groups, ports: Ports, order: seq<string>) returns (data: StreamData, containerCount: nat,
      aliveCount: nat)
    requires Visits(order, groups) && forall k :: k in groups && Declares(groups[k], ports) ==> Populated(groups[k])
    ensures data == Gather(groups, ports, order)
    ensures containerCount == SumAlong(order, PodsOf(groups, ports))
            && aliveCount == SumAlong(order, AliveOf(groups, ports))
  {
    data, containerCount, aliveCount := map[], 0, 0;
    for i := 0 to |order|
      invariant data == Gather(groups, ports, order[..i])
      invariant containerCount == SumAlong(order[..i], PodsOf(groups, ports))
      invariant aliveCount == SumAlong(order[..i], AliveOf(groups, ports))
    {
      AlongNext(groups, ports, order, i);
      assert order[i] in Members(order);
      var pg := groups[order[i]];
      if |ports(pg.annotation)| == 0 {
        continue;
      }
      var proc, alive := MakeProc(pg, ports);
      containerCount := containerCount + |pg.pods|;
      aliveCount := aliveCount + alive;
      data := data[pg.namespace := (if pg.namespace in data then data[pg.namespace] else []) + [proc]];
    }
    assert order[..|order|] == order;
  }

  lemma OrdersHold()
    ensures Orders(ByInstance) && Orders(ByPort) && Orders(ByName) && Orders(ShapeByName)
  {
    StringLessOrders();
  }

  /** Sorts the two lists of a proc. */
  method SortProc(p: StreamProc) returns (q: StreamProc)
    ensures InnerSorted(q) && ShapeOf(q) == ShapeOf(p)
  {
    OrdersHold();
    var upstreams := new Upstream[|p.upstreams|](i requires 0 <= i < |p.upstreams| => p.upstreams[i]);
    assert upstreams[..] == p.upstreams;
    SortSlice(upstreams, ByInstance);
    var services := new Service[|p.services|](i requires 0 <= i < |p.services| => p.services[i]);
    assert services[..] == p.services;
    SortSlice(services, ByPort);
    q := StreamProc(p.name, upstreams[..], services[..]);
  }

  /** Sorts the procs of a namespace by name, and then the lists of each. */
  method SortProcs(procs: seq<StreamProc>) returns (r: seq<StreamProc>)
    ensures Sorted(r, ByName) && forall i :: 0 <= i < |r| ==> InnerSorted(r[i])
    ensures multiset(Map(r, ShapeOf)) == multiset(Map(procs, ShapeOf))
  {
    OrdersHold();
    var v := new StreamProc[|procs|](i requires 0 <= i < |procs| => procs[i]);
    assert v[..] == procs;
    SortSlice(v, ByName);
    MapPermutes(v[..], procs, ShapeOf);
    r := SortEach(v);
  }

  /** Sorts the lists of each proc in place, which disturbs neither order nor contents. */
  method SortEach(v: array<StreamProc>) returns (r: seq<StreamProc>)
    requires Sorted(v[..], ByName)
    modifies v
    ensures Sorted(r, ByName) && forall i :: 0 <= i < |r| ==> InnerSorted(r[i])
    ensures Map(r, ShapeOf) == Map(old(v[..]), ShapeOf)
  {
    ghost var sorted := v[..];
    for i := 0 to v.Length
      invariant forall j :: 0 <= j < v.Length ==> ShapeOf(v[j]) == ShapeOf(sorted[j])
      invariant forall j :: 0 <= j < i ==> InnerSorted(v[j])
    {
      v[i] := SortProc(v[i]);
    }
    r := v[..];
    assert Map(r, ShapeOf) == Map(sorted, ShapeOf);
    SameNamesSorted(sorted, r);
  }

  lemma SameNamesSorted(s: seq<StreamProc>, r: seq<StreamProc>)
    requires Sorted(s, ByName) && |r| == |s| && forall j :: 0 <= j < |s| ==> ShapeOf(r[j]) == ShapeOf(s[j])
    ensures Sorted(r, ByName)
  {
    forall i, j | 0 <= i < j < |r|
      ensures !ByName(r[j], r[i])
    {
      assert ShapeOf(r[i]) == ShapeOf(s[i]) && ShapeOf(r[j]) == ShapeOf(s[j]);
    }
  }

  /** The second loop: sort every namespace's list, in any order. */
  method SortAll(data: StreamData) returns (r: StreamData)
    ensures r.Keys == data.Keys
    ensures forall ns :: ns in r ==>
      && Sorted(r[ns], ByName) && (forall i :: 0 <= i < |r[ns]| ==> InnerSorted(r[ns][i]))
      && multiset(Map(r[ns], ShapeOf)) == multiset(Map(data[ns], ShapeOf))
  {
    r := map[];
    var rest := data.Keys;
    while rest != {}
      invariant rest <= data.Keys && r.Keys == data.Keys - rest
      invariant forall ns :: ns in r ==>
        && Sorted(r[ns], ByName) && (forall i :: 0 <= i < |r[ns]| ==> InnerSorted(r[ns][i]))
        && multiset(Map(r[ns], ShapeOf)) == multiset(Map(data[ns], ShapeOf))
      decreases rest
    {
      var ns :| ns in rest;
      var procs := SortProcs(data[ns]);
      rest := rest - {ns};
      r := r[ns := procs];
    }
  }

  lemma {:induction false} GatheredSortsToView(groups: P.Groups, ports: Ports, order: seq<string>, r: StreamData)
    requires Visits(order, groups) && r.Keys == Gather(groups, ports, order).Keys
    requires forall ns :: ns in r ==>
      && Sorted(r[ns], ByName) && (forall i :: 0 <= i < |r[ns]| ==> InnerSorted(r[ns][i]))
      && multiset(Map(r[ns], ShapeOf)) == multiset(Map(Gather(groups, ports, order)[ns], ShapeOf))
    ensures IsView(groups, ports, r)
  {
    assert forall k :: k in order <==> k in groups by {
      assert forall k :: k in Members(order) <==> k in groups.Keys;
    }
    forall ns
      ensures ns in r <==> exists k :: k in groups && Declares(groups[k], ports) && groups[k].namespace == ns
      ensures ns in r ==> IsListing(groups, ports, ns, r[ns])
    {
      GatherPool(groups, ports, order, ns);
      GatherNamespaces(groups, ports, order, ns);
      PoolAlongAnyOrder(order, ShapesFor(groups, ports, ns));
    }
  }

  /** The view, and whether it differs from the one shown; an error when no majority of the
      pods is alive. */
  method Make(groups: P.Groups, ports: Ports, order: seq<string>, shown: StreamData)
    returns (r: HW.Try<StreamData>, changed: bool)
    requires Visits(order, groups) && forall k :: k in groups && Declares(groups[k], ports) ==> Populated(groups[k])
    ensures r.Ok? <==> MajorityAlive(groups, ports)
    ensures match r case Ok(view) => IsView(groups, ports, view) case Fail(error) => error == P.TOO_MANY_DEAD
    ensures changed == (r.Ok? && r.value != shown)
  {
    var data, containerCount, aliveCount := GatherAll(groups, ports, order);
    SumAlongAnyOrder(order, PodsOf(groups, ports));
    SumAlongAnyOrder(order, AliveOf(groups, ports));
    var sorted := SortAll(data);
    GatheredSortsToView(groups, ports, order, sorted);
    if containerCount == 0 || aliveCount * 2 < containerCount {
      return HW.Fail(P.TOO_MANY_DEAD), false;
    }
    return HW.Ok(sorted), shown != sorted;
  }

  // ----- the view is unique -----

  /** Distinct names in each namespace, distinct instance numbers in each pod group, distinct
      source ports in each annotation. */
  ghost predicate DistinctEntries(groups: P.Groups, ports: Ports)
  {
    && (forall k, k' :: k in groups && k' in groups && Declares(groups[k], ports) && Declares(groups[k'], ports) ==>
          (groups[k].namespace == groups[k'].namespace && groups[k].name == groups[k'].name ==> k == k'))
    && (forall k :: k in groups && Declares(groups[k], ports) ==>
          && Separated(RawProc(groups[k], ports).upstreams, ByInstance)
          && Separated(RawProc(groups[k], ports).services, ByPort))
  }

  /** Different pod groups of a namespace have differently named shapes. */
  lemma {:induction false} ShapesApart(
      groups: P.Groups, ports: Ports, ns: string, k: string, keys: set<string>, x: Shape, y: Shape)
    requires DistinctEntries(groups, ports) && k in groups && k !in keys && keys <= groups.Keys
    requires x in ShapesFor(groups, ports, ns)(k) && y in Pool(keys, ShapesFor(groups, ports, ns))
    ensures x != y && (ShapeByName(x, y) || ShapeByName(y, x))
  {
    PoolSource(keys, ShapesFor(groups, ports, ns), y);
    var p :| p in keys && y in ShapesFor(groups, ports, ns)(p);
    StringLessAsymmetric(x.name, y.name);
  }

  lemma {:induction false} PoolIsSeparated(groups: P.Groups, ports: Ports, ns: string, keys: set<string>)
    requires DistinctEntries(groups, ports) && keys <= groups.Keys
    ensures SeparatedBag(Pool(keys, ShapesFor(groups, ports, ns)), ShapeByName)
    decreases keys
  {
    if keys != {} {
      var f := ShapesFor(groups, ports, ns);
      var k :| k in keys;
      PoolAny(keys, f, k);
      PoolIsSeparated(groups, ports, ns, keys - {k});
      if f(k) != multiset{} {
        var x := ShapeOf(RawProc(groups[k], ports));
        forall y | y in Pool(keys - {k}, f)
          ensures x != y && (ShapeByName(x, y) || ShapeByName(y, x))
        {
          ShapesApart(groups, ports, ns, k, keys - {k}, x, y);
        }
        SeparatedWithOne(Pool(keys - {k}, f), x, ShapeByName);
      }
    }
  }

  /** Procs with sorted lists of the same contents are the same proc. */
  lemma SameProc(p: StreamProc, q: StreamProc)
    requires InnerSorted(p) && InnerSorted(q) && ShapeOf(p) == ShapeOf(q)
    requires SeparatedBag(ShapeOf(p).upstreams, ByInstance) && SeparatedBag(ShapeOf(p).services, ByPort)
    ensures p == q
  {
    OrdersHold();
    SortedBagsAgree(p.upstreams, q.upstreams, ByInstance);
    SortedBagsAgree(p.services, q.services, ByPort);
  }

  lemma PooledInnerSeparated(groups: P.Groups, ports: Ports, ns: string, x: Shape)
    requires DistinctEntries(groups, ports) && x in Pool(groups.Keys, ShapesFor(groups, ports, ns))
    ensures SeparatedBag(x.upstreams, ByInstance) && SeparatedBag(x.services, ByPort)
  {
    OrdersHold();
    PoolSource(groups.Keys, ShapesFor(groups, ports, ns), x);
    var k :| k in groups.Keys && x in ShapesFor(groups, ports, ns)(k);
    BagFromSeparated(RawProc(groups[k], ports).upstreams, ByInstance);
    BagFromSeparated(RawProc(groups[k], ports).services, ByPort);
  }

  lemma ShapesSorted(a: seq<StreamProc>)
    requires Sorted(a, ByName)
    ensures Sorted(Map(a, ShapeOf), ShapeByName)
  {
    forall i, j | 0 <= i < j < |a|
      ensures !ShapeByName(ShapeOf(a[j]), ShapeOf(a[i]))
    {
      assert !ByName(a[j], a[i]);
    }
  }

  lemma SameShapes(groups: P.Groups, ports: Ports, ns: string, a: seq<StreamProc>, b: seq<StreamProc>)
    requires DistinctEntries(groups, ports) && IsListing(groups, ports, ns, a) && IsListing(groups, ports, ns, b)
    ensures Map(a, ShapeOf) == Map(b, ShapeOf)
  {
    OrdersHold();
    PoolIsSeparated(groups, ports, ns, groups.Keys);
    ShapesSorted(a);
    ShapesSorted(b);
    SortedBagsAgree(Map(a, ShapeOf), Map(b, ShapeOf), ShapeByName);
  }

  lemma ListingIsUnique(groups: P.Groups, ports: Ports, ns: string, a: seq<StreamProc>, b: seq<StreamProc>)
    requires DistinctEntries(groups, ports) && IsListing(groups, ports, ns, a) && IsListing(groups, ports, ns, b)
    ensures a == b
  {
    SameShapes(groups, ports, ns, a, b);
    var s := Map(a, ShapeOf);
    assert |a| == |s| == |Map(b, ShapeOf)| == |b|;
    forall i | 0 <= i < |a|
      ensures a[i] == b[i]
    {
      assert s[i] == ShapeOf(a[i]) && Map(b, ShapeOf)[i] == ShapeOf(b[i]) && s[i] in multiset(s);
      PooledInnerSeparated(groups, ports, ns, s[i]);
      SameProc(a[i], b[i]);
    }
  }

  /** The canonical form: with distinct names, instance numbers and source ports there is only
      one view of the pod groups, so the order of visits and the choices of an unstable sort
      make no difference. */
  lemma ViewIsUnique(groups: P.Groups, ports: Ports, a: StreamData, b: StreamData)
    requires DistinctEntries(groups, ports) && IsView(groups, ports, a) && IsView(groups, ports, b)
    ensures a == b
  {
    assert forall ns :: ns in a <==> ns in b;
    forall ns | ns in a
      ensures a[ns] == b[ns]
    {
      ListingIsUnique(groups, ports, ns, a[ns], b[ns]);
    }
  }

  // ----- the list of ports -----

  /** The source ports a pod group declares. */
  function SourcePorts(groups: P.Groups, ports: Ports): string -> multiset<int>
  {
    k => if k in groups then multiset(Map(ports(groups[k].annotation), (port: Port) => port.srcport)) else multiset{}
  }

  predicate Below(a: int, b: int) { a < b }

  function DeclaredBy(groups: P.Groups, ports: Ports): string -> nat
  {
    k => if k in groups then |ports(groups[k].annotation)| else 0
  }

  ghost predicate IsDeclared(groups: P.Groups, ports: Ports, x: int)
  {
    exists k, port :: k in groups && port in ports(groups[k].annotation) && port.srcport == x
  }

  /** The source ports of all declared ports, ascending: as many numbers as ports are declared,
      and no other number. */
  ghost predicate AreThePorts(groups: P.Groups, ports: Ports, r: seq<int>)
  {
    && (forall i, j :: 0 <= i < j < |r| ==> r[i] <= r[j])
    && (forall x :: x in r <==> IsDeclared(groups, ports, x))
    && |r| == Sum(groups.Keys, DeclaredBy(groups, ports))
  }

  lemma PortsInWords(groups: P.Groups, ports: Ports, r: seq<int>)
    requires Sorted(r, Below) && multiset(r) == Pool(groups.Keys, SourcePorts(groups, ports))
    ensures AreThePorts(groups, ports, r)
  {
    forall i, j | 0 <= i < j < |r|
      ensures r[i] <= r[j]
    {
      assert !Below(r[j], r[i]);
    }
    forall x
      ensures x in r <==> IsDeclared(groups, ports, x)
    {
      DeclaredAreThere(groups, ports, r, x);
    }
    forall k | k in groups.Keys
      ensures |SourcePorts(groups, ports)(k)| == DeclaredBy(groups, ports)(k)
    {
      var src := Map(ports(groups[k].annotation), (port: Port) => port.srcport);
      assert SourcePorts(groups, ports)(k) == multiset(src) && |multiset(src)| == |src|;
    }
    PoolSize(groups.Keys, SourcePorts(groups, ports), DeclaredBy(groups, ports));
    assert |multiset(r)| == |r|;
  }

  lemma DeclaredAreThere(groups: P.Groups, ports: Ports, r: seq<int>, x: int)
    requires multiset(r) == Pool(groups.Keys, SourcePorts(groups, ports))
    ensures x in r <==> IsDeclared(groups, ports, x)
  {
    PoolSource(groups.Keys, SourcePorts(groups, ports), x);
    assert x in r <==> x in multiset(r);
    forall k | k in groups
      ensures x in SourcePorts(groups, ports)(k) <==>
              exists port :: port in ports(groups[k].annotation) && port.srcport == x
    {
      SourcesOf(ports(groups[k].annotation), x);
    }
  }

  lemma SourcesOf(declared: seq<Port>, x: int)
    ensures x in multiset(Map(declared, (port: Port) => port.srcport)) <==>
            exists port :: port in declared && port.srcport == x
  {
    var s := Map(declared, (port: Port) => port.srcport);
    assert forall i :: 0 <= i < |s| ==> s[i] == declared[i].srcport;
    assert x in multiset(s) <==> x in s;
    if x in s {
      var i :| 0 <= i < |s| && s[i] == x;
      assert declared[i] in declared;
    }
    if port: Port :| port in declared && port.srcport == x {
      var i :| 0 <= i < |declared| && declared[i] == port;
      assert s[i] == x;
    }
  }

  /** Every declared port appears in the sorted result as often as it is declared, whatever
      the order of visits; equal numbers are equal, so the result is unique. */
  method MakePorts(
      groups: P.Groups, ports: Ports, order: seq<string>, shown: seq<int>) returns (r: seq<int>, changed: bool)
    requires Visits(order, groups)
    ensures Sorted(r, Below) && multiset(r) == Pool(groups.Keys, SourcePorts(groups, ports))
    ensures AreThePorts(groups, ports, r)
    ensures changed == (r != shown)
  {
    var data := CollectPorts(groups, ports, order);
    PoolAlongAnyOrder(order, SourcePorts(groups, ports));
    var a := new int[|data|](i requires 0 <= i < |data| => data[i]);
    assert a[..] == data;
    SortSlice(a, Below);
    r := a[..];
    PortsInWords(groups, ports, r);
    changed := shown != r;
  }

  /** The loops that append. */
  method CollectPorts(groups: P.Groups, ports: Ports, order: seq<string>) returns (data: seq<int>)
    requires Visits(order, groups)
    ensures multiset(data) == PoolAlong(order, SourcePorts(groups, ports))
  {
    data := [];
    for i := 0 to |order|
      invariant multiset(data) == PoolAlong(order[..i], SourcePorts(groups, ports))
    {
      PoolAlongNext(order, i, SourcePorts(groups, ports));
      assert order[i] in Members(order);
      var declared := ports(groups[order[i]].annotation);
      if |declared| == 0 {
        assert SourcePorts(groups, ports)(order[i]) == multiset{};
        continue;
      }
      data := AppendPorts(data, declared);
    }
    assert order[..|order|] == order;
  }

  method AppendPorts(data: seq<int>, declared: seq<Port>) returns (r: seq<int>)
    ensures multiset(r) == multiset(data) + multiset(Map(declared, (port: Port) => port.srcport))
  {
    r := data;
    var src := (port: Port) => port.srcport;
    for i := 0 to |declared|
      invariant r == data + Map(declared[..i], src)
    {
      assert Map(declared[..i + 1], src) == Map(declared[..i], src) + [declared[i].srcport];
      r := r + [declared[i].srcport];
    }
    assert declared[..|declared|] == declared;
  }

  lemma {:induction false} PortsAreUnique(a: seq<int>, b: seq<int>)
    requires Sorted(a, Below) && Sorted(b, Below) && multiset(a) == multiset(b)
    ensures a == b
    decreases |a|
  {
    MultisetMember(a, b);
    if a != [] {
      assert a[0] in b && b[0] in a;
      SameRest(a, b);
      PortsAreUnique(a[1..], b[1..]);
      assert a == [a[0]] + a[1..] && b == [b[0]] + b[1..];
    }
  }
}
