/** The pod groups stored by the deployment engine, as parsed: the parts that the watchers and
    views read. */
module PodGroups {

  datatype ContainerSpec = ContainerSpec(env: seq<string>, expose: int)

  datatype Container = Container(id: string, nodeName: string, nodeIp: string, containerIp: string,
    containerPort: int)

  datatype Pod = Pod(instanceNo: int, containers: seq<Container>)

  datatype PodGroup = PodGroup(
    name: string, namespace: string, annotation: string, specs: seq<ContainerSpec>, pods: seq<Pod>)

  type Groups = map<string, PodGroup>

  const TOO_MANY_DEAD := "over half of the containers lost their IPs"

  predicate IsAlive(pod: Pod)
  {
    |pod.containers| > 0 && |pod.containers[0].containerIp| > 0
  }

  function AliveIn(pods: seq<Pod>): nat
    decreases |pods|
  {
    if pods == [] then 0 else AliveIn(pods[..|pods| - 1]) + (if IsAlive(pods[|pods| - 1]) then 1 else 0)
  }

  /** The pods whose first container has an address. */
  function LivingPods(pods: seq<Pod>): set<nat>
  {
    set i | 0 <= i < |pods| && |pods[i].containers| > 0 && pods[i].containers[0].containerIp != ""
  }

  /** The numbers below n. */
  function Below(n: nat): (s: set<nat>)
    ensures |s| == n && forall i :: i in s <==> 0 <= i < n
  {
    if n == 0 then {} else Below(n - 1) + {n - 1}
  }

  lemma {:induction false} AliveCountsThem(pods: seq<Pod>)
    ensures AliveIn(pods) == |LivingPods(pods)|
    decreases |pods|
  {
    if pods != [] {
      var n := |pods| - 1;
      AliveCountsThem(pods[..n]);
      assert LivingPods(pods) - {n} == LivingPods(pods[..n]);
      assert n in LivingPods(pods) <==> IsAlive(pods[n]);
    }
  }
}
