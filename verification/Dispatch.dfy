/**
 orchestrator/dispatch.py: cut the layers into one contiguous range per available node and chain
 the nodes into a pipeline.
 */
module Dispatch {
  import opened Wrappers
  import Decimal
  import opened NodeRegistry

  datatype DispatchError = NoAvailableNodes | MoreNodesThanLayers | DivisionByZero

  datatype ShardAssignment = ShardAssignment(
    nodeId: string, ipAddress: string, inferencePort: nat,
    layerStart: nat, layerEnd: nat, isFirst: bool, isLast: bool, nextWorkerAddress: string)

  datatype Manifest = Manifest(name: string, arch: string, checkpoint: string, layers: int)

  datatype DispatchPlan = DispatchPlan(
    assignments: seq<ShardAssignment>, arch: string, modelName: string, checkpoint: string, totalLayers: int)

  function Address(ip: string, port: nat): string {
    ip + ":" + Decimal.ToDecimal(port)
  }

  function AddressOf(a: ShardAssignment): string {
    Address(a.ipAddress, a.inferencePort)
  }

  // ---------- split_layers ----------

  /** Contiguous non-empty ranges, in ascending order, that cover [0, total) exactly; all of the
      base size except the last, which takes the remainder. */
  ghost predicate IsSplit(ranges: seq<(nat, nat)>, total: nat, n: nat) {
    n > 0 && AreCuts(ranges, total, n, total / n, total % n)
  }

  method SplitLayers(totalLayers: int, numNodes: int) returns (r: Result<seq<(nat, nat)>, DispatchError>)
    ensures numNodes > totalLayers ==> r == Err(MoreNodesThanLayers)
    ensures numNodes == 0 <= totalLayers ==> r == Err(DivisionByZero)
    ensures numNodes < 0 && numNodes <= totalLayers ==> r == Ok([])
    ensures 0 < numNodes <= totalLayers ==> r.Ok? && IsSplit(r.value, totalLayers, numNodes)
  {
    if numNodes > totalLayers {
      return Err(MoreNodesThanLayers);
    }
    if numNodes == 0 {
      return Err(DivisionByZero);
    }
    if numNodes < 0 {
      return Ok([]);     // range(numNodes) is empty
    }
    var base := totalLayers / numNodes;
    BaseFits(totalLayers, numNodes);
    LastStart(totalLayers, numNodes);
    var ranges := CutRanges(totalLayers, numNodes, base, totalLayers % numNodes);
    return Ok(ranges);
  }

  /** Adjacent ranges from 0 to total: n - 1 of the base size, and one more that takes what is left. */
  ghost predicate AreCuts(ranges: seq<(nat, nat)>, total: nat, n: nat, base: nat, rest: nat) {
    && |ranges| == n > 0
    && ranges[0].0 == 0 && ranges[n - 1].1 == total
    && (forall i, j :: 0 <= i < j < n && j == i + 1 ==> ranges[i].1 == ranges[j].0)
    && (forall i :: 0 <= i < n ==> ranges[i].0 < ranges[i].1)
    && (forall i :: 0 <= i < n - 1 ==> ranges[i].1 - ranges[i].0 == base)
    && ranges[n - 1].1 - ranges[n - 1].0 == base + rest
  }

  /** The first i ranges, the next of which would begin at `start`. */
  ghost predicate CutSoFar(
    ranges: seq<(nat, nat)>, i: int, start: nat, total: nat, n: nat, base: nat, rest: nat) {
    && |ranges| == i <= n
    && (i < n ==> start == i * base)
    && (i > 0 ==> ranges[0].0 == 0 && ranges[i - 1].1 == start)
    && (forall k, j :: 0 <= k < j < i && j == k + 1 ==> ranges[k].1 == ranges[j].0)
    && (forall k :: 0 <= k < i ==> ranges[k].0 < ranges[k].1)
    && (forall k :: 0 <= k < i && k < n - 1 ==> ranges[k].1 - ranges[k].0 == base)
    && (i == n > 0 ==> start == total && ranges[i - 1].1 - ranges[i - 1].0 == base + rest)
  }

  lemma {:induction false} OneMoreCut(
    ranges: seq<(nat, nat)>, i: nat, start: nat, end: nat, total: nat, n: nat, base: nat, rest: nat)
    requires CutSoFar(ranges, i, start, total, n, base, rest) && i < n && base > 0
    requires end == if i == n - 1 then total else start + base
    requires i == n - 1 ==> total - start == base + rest
    requires i < n - 1 ==> (i + 1) * base == i * base + base
    ensures CutSoFar(ranges + [(start, end)], i + 1, end, total, n, base, rest)
  {
  }

  /** The loop of split_layers. */
  method CutRanges(totalLayers: nat, numNodes: nat, base: nat, ghost rest: nat) returns (ranges: seq<(nat, nat)>)
    requires numNodes > 0 && base > 0 && totalLayers - (numNodes - 1) * base == base + rest
    ensures AreCuts(ranges, totalLayers, numNodes, base, rest)
  {
    ranges := [];
    var start: nat := 0;
    for i := 0 to numNodes
      invariant CutSoFar(ranges, i, start, totalLayers, numNodes, base, rest)
    {
      NextStart(i, base);
      var end := if i == numNodes - 1 then totalLayers else start + base;
      OneMoreCut(ranges, i, start, end, totalLayers, numNodes, base, rest);
      ranges := ranges + [(start, end)];
      start := end;
    }
  }

  lemma {:induction false} BaseFits(total: int, n: int)
    requires 0 < n <= total
    ensures total / n >= 1
  {
    assert total == n * (total / n) + total % n;
  }

  lemma {:induction false} NextStart(i: int, base: int)
    ensures (i + 1) * base == i * base + base
  {
  }

  lemma {:induction false} LastStart(total: int, n: int)
    requires 0 < n <= total
    ensures total - (n - 1) * (total / n) == total / n + total % n
  {
    assert total == n * (total / n) + total % n;
    assert n * (total / n) == (n - 1) * (total / n) + total / n;
  }

  // ---------- plan_dispatch ----------

  /** The plan the dispatch engine promises for these nodes: a simple chain over all layers. */
  ghost predicate IsPlan(plan: DispatchPlan, manifest: Manifest, nodes: seq<NodeFacts>) {
    var n := |nodes|;
    var shards := plan.assignments;
    && n > 0 && |shards| == n <= manifest.layers
    && plan.arch == manifest.arch && plan.modelName == manifest.name
    && plan.checkpoint == manifest.checkpoint && plan.totalLayers == manifest.layers
    && IsSplit(Ranges(shards), manifest.layers, n)
    && forall i :: 0 <= i < n ==> IsAssignment(shards[i], nodes, i)
  }

  lemma {:induction false} PlanCoversAll(plan: DispatchPlan, manifest: Manifest, nodes: seq<NodeFacts>)
    requires IsPlan(plan, manifest, nodes)
    ensures plan.totalLayers == manifest.layers >= 0
  {
  }

  ghost predicate IsAssignment(a: ShardAssignment, nodes: seq<NodeFacts>, i: nat)
    requires i < |nodes|
  {
    && a.nodeId == nodes[i].nodeId && a.ipAddress == nodes[i].ipAddress && a.inferencePort == nodes[i].inferencePort
    && a.isFirst == (i == 0) && a.isLast == (i == |nodes| - 1)
    && a.nextWorkerAddress == if i == |nodes| - 1 then ""
                              else Address(nodes[i + 1].ipAddress, nodes[i + 1].inferencePort)
  }

  ghost function Ranges(shards: seq<ShardAssignment>): (rs: seq<(nat, nat)>)
    ensures |rs| == |shards|
  {
    seq(|shards|, i requires 0 <= i < |shards| => (shards[i].layerStart, shards[i].layerEnd))
  }

  ghost function Facts(vs: seq<NodeView>): (fs: seq<NodeFacts>)
    ensures |fs| == |vs|
  {
    seq(|vs|, i requires 0 <= i < |vs| => vs[i].facts)
  }

  /** The facts of the available nodes, in listing order. */
  ghost function AvailableNodes(log: seq<Event>, timeout: real): seq<NodeFacts> {
    Facts(Matching(Rows(Replay(log, timeout)), {Available}))
  }

  /** One assignment per node and range, each pointing at the next node. */
  method Assign(nodes: seq<NodeFacts>, ranges: seq<(nat, nat)>) returns (assignments: seq<ShardAssignment>)
    requires |nodes| == |ranges|
    ensures |assignments| == |nodes| && Ranges(assignments) == ranges
    ensures forall k :: 0 <= k < |nodes| ==> IsAssignment(assignments[k], nodes, k)
  {
    assignments := [];
    for i := 0 to |nodes|
      invariant |assignments| == i
      invariant forall k :: 0 <= k < i ==> IsAssignment(assignments[k], nodes, k)
      invariant forall k :: 0 <= k < i ==> (assignments[k].layerStart, assignments[k].layerEnd) == ranges[k]
    {
      var node := nodes[i];
      var isLast := i == |nodes| - 1;
      var nextAddr := "";
      if !isLast {
        nextAddr := Address(nodes[i + 1].ipAddress, nodes[i + 1].inferencePort);
      }
      assignments := assignments + [ShardAssignment(node.nodeId, node.ipAddress, node.inferencePort,
                                                    ranges[i].0, ranges[i].1, i == 0, isLast, nextAddr)];
    }
  }

  /** What plan_dispatch reads of the listed nodes. */
  method ReadFacts(nodes: seq<NodeInfo>, ghost vs: seq<NodeView>) returns (facts: seq<NodeFacts>)
    requires ListsViews(nodes, vs)
    ensures facts == Facts(vs)
  {
    facts := [];
    for i := 0 to |nodes|
      invariant facts == Facts(vs)[..i]
    {
      assert nodes[i].View() == vs[i];
      facts := facts + [nodes[i].facts];
    }
  }

  method PlanDispatch(manifest: Manifest, registry: NodeRegistry) returns (r: Result<DispatchPlan, DispatchError>)
    requires registry.Valid()
    ensures var nodes := AvailableNodes(registry.log, registry.timeoutS);
            if nodes == [] then r == Err(NoAvailableNodes)
            else if |nodes| > manifest.layers then r == Err(MoreNodesThanLayers)
            else r.Ok? && IsPlan(r.value, manifest, nodes)
    ensures var alive := AliveIds(registry.log, registry.timeoutS);
            if alive == {} then r == Err(NoAvailableNodes)
            else if |alive| > manifest.layers then r == Err(MoreNodesThanLayers)
            else r.Ok? && PlansAlive(r.value, registry.log, registry.timeoutS)
  {
    hide AliveIds, PlansAlive, Replay, Matching, Facts, Rows;
    AliveAreAvailable(registry.log, registry.timeoutS);
    var listed := registry.ListNodes({Available});
    var nodes := ReadFacts(listed, Matching(Rows(Replay(registry.log, registry.timeoutS)), {Available}));
    assert nodes == AvailableNodes(registry.log, registry.timeoutS);
    hide AvailableNodes;
    if nodes == [] {
      return Err(NoAvailableNodes);
    }
    var split := SplitLayers(manifest.layers, |nodes|);
    if split.Err? {
      return Err(split.error);
    }
    var assignments := Assign(nodes, split.value);
    var plan := DispatchPlan(assignments, manifest.arch, manifest.name, manifest.checkpoint, manifest.layers);
    PlanShowsAlive(plan, manifest, registry.log, registry.timeoutS);
    return Ok(plan);
  }

  // ---------- What a plan is good for ----------

  lemma {:induction false} StartsAscend(ranges: seq<(nat, nat)>, total: nat, n: nat, i: nat, j: nat)
    requires IsSplit(ranges, total, n) && i < j < n
    ensures ranges[i].1 <= ranges[j].0
    decreases j - i
  {
    if i + 1 < j {
      StartsAscend(ranges, total, n, i, j - 1);
    }
  }

  /** Every layer belongs to exactly one range. */
  lemma {:induction false} LayerHasOneOwner(ranges: seq<(nat, nat)>, total: nat, n: nat, layer: nat)
    requires IsSplit(ranges, total, n) && layer < total
    ensures exists i :: 0 <= i < n && ranges[i].0 <= layer < ranges[i].1
    ensures forall i, j ::
              && 0 <= i < n && ranges[i].0 <= layer < ranges[i].1
              && 0 <= j < n && ranges[j].0 <= layer < ranges[j].1
              ==> i == j
  {
    var i := OwnerFrom(ranges, total, n, layer, n - 1);
    forall a, b | 0 <= a < b < n && ranges[a].0 <= layer < ranges[a].1 && ranges[b].0 <= layer < ranges[b].1
      ensures false
    {
      StartsAscend(ranges, total, n, a, b);
    }
  }

  lemma {:induction false} OwnerFrom(ranges: seq<(nat, nat)>, total: nat, n: nat, layer: nat, k: nat) returns (i: nat)
    requires IsSplit(ranges, total, n) && k < n && layer < ranges[k].1
    ensures i < n && ranges[i].0 <= layer < ranges[i].1
    decreases k
  {
    if ranges[k].0 <= layer {
      i := k;
    } else {
      assert ranges[k - 1].1 == ranges[k].0;
      i := OwnerFrom(ranges, total, n, layer, k - 1);
    }
  }

  /** The flags a worker recomputes from the range it was sent are the plan's own. */
  lemma {:induction false} RecomputedFlagsAgree(plan: DispatchPlan, manifest: Manifest, nodes: seq<NodeFacts>, i: nat)
    requires IsPlan(plan, manifest, nodes) && i < |nodes|
    ensures var a := plan.assignments[i];
            a.isFirst == (a.layerStart == 0) && a.isLast == (a.layerEnd == plan.totalLayers)
  {
    var ranges := Ranges(plan.assignments);
    if i > 0 {
      StartsAscend(ranges, manifest.layers, |nodes|, 0, i);
    }
    if i < |nodes| - 1 {
      StartsAscend(ranges, manifest.layers, |nodes|, i, |nodes| - 1);
    }
  }

  /** Two nodes share an address only if they share ip and port. */
  lemma {:induction false} AddressInjective(ip1: string, port1: nat, ip2: string, port2: nat)
    requires Address(ip1, port1) == Address(ip2, port2)
    ensures ip1 == ip2 && port1 == port2
  {
    Decimal.BeforeLastColonInjective(ip1, port1, ip2, port2);
  }

  lemma {:induction false} AvailableShowsAlive(log: seq<Event>, timeout: real)
    ensures ShowsAlive(AvailableNodes(log, timeout), log, timeout)
  {
    hide Replay, Matching, AliveIds, IsFirstBeat;
    var d, nodes := Replay(log, timeout), AvailableNodes(log, timeout);
    ReplayValid(log, timeout);
    var at := MatchingPicks(Rows(d), {Available});
    forall i | 0 <= i < |nodes|
      ensures at[i] < |d.keys| && nodes[i].nodeId == d.keys[at[i]] && d.m[d.keys[at[i]]].status == Available
      ensures nodes[i] == d.m[d.keys[at[i]]].facts
    {
      IdFromLog(log, d.keys[at[i]], timeout);
    }
    forall id
      ensures id in AliveIds(log, timeout) <==> exists i :: 0 <= i < |nodes| && nodes[i].nodeId == id
    {
      AvailableIsAlive(log, id, timeout);
      if id in d.m && d.m[id].status == Available {
        var k :| 0 <= k < |d.keys| && d.keys[k] == id;
        assert Rows(d)[k] == d.m[id];
        var i :| 0 <= i < |at| && at[i] == k;
        assert nodes[i].nodeId == id;
      }
    }
    forall i, k | 0 <= i < |nodes| && IsLastBeat(log, nodes[i].nodeId, k)
      ensures nodes[i] == log[k].facts
    {
      StatusFromLog(log, nodes[i].nodeId, k, timeout);
    }
    forall i, j, a, b | 0 <= i < j < |nodes| && IsFirstBeat(log, nodes[i].nodeId, a) &&
                        IsFirstBeat(log, nodes[j].nodeId, b)
      ensures a < b
    {
      OrderFromLog(log, at[i], at[j], a, b, timeout);
    }
  }

  /** The registry lists a node id once, so no plan made from it names a node twice. */
  lemma {:induction false} PlanIdsApart(
    plan: DispatchPlan, manifest: Manifest, log: seq<Event>, timeout: real, i: nat, j: nat)
    requires IsPlan(plan, manifest, AvailableNodes(log, timeout)) && i < j < |plan.assignments|
    ensures plan.assignments[i].nodeId != plan.assignments[j].nodeId
  {
    hide AvailableNodes;
    var nodes := AvailableNodes(log, timeout);
    AvailableShowsAlive(log, timeout);
    assert IsAssignment(plan.assignments[i], nodes, i) && IsAssignment(plan.assignments[j], nodes, j);
  }

  /** The plan's nodes, as the log tells them: one assignment for each node that is alive and none for
      any other, at the address its last heartbeat gave, in the order of their first heartbeats. */
  ghost predicate PlansAlive(plan: DispatchPlan, log: seq<Event>, timeout: real) {
    var shards := plan.assignments;
    && |shards| == |AliveIds(log, timeout)|
    && (forall id :: id in AliveIds(log, timeout) <==> exists i :: 0 <= i < |shards| && shards[i].nodeId == id)
    && (forall i, k :: 0 <= i < |shards| && IsLastBeat(log, shards[i].nodeId, k) ==>
          shards[i].ipAddress == log[k].facts.ipAddress && shards[i].inferencePort == log[k].facts.inferencePort)
    && (forall i, j, a, b ::
          && 0 <= i < j < |shards|
          && IsFirstBeat(log, shards[i].nodeId, a) && IsFirstBeat(log, shards[j].nodeId, b)
          ==> a < b)
  }

  lemma {:induction false} PlanShowsAlive(plan: DispatchPlan, manifest: Manifest, log: seq<Event>, timeout: real)
    requires IsPlan(plan, manifest, AvailableNodes(log, timeout))
    ensures PlansAlive(plan, log, timeout)
  {
    hide AvailableNodes, AliveIds, IsLastBeat, IsFirstBeat, IsSplit;
    var nodes, shards := AvailableNodes(log, timeout), plan.assignments;
    AvailableShowsAlive(log, timeout);
    AliveAreAvailable(log, timeout);
    assert forall i :: 0 <= i < |shards| ==> IsAssignment(shards[i], nodes, i);
    forall id
      ensures id in AliveIds(log, timeout) <==> exists i :: 0 <= i < |shards| && shards[i].nodeId == id
    {
      if i :| 0 <= i < |nodes| && nodes[i].nodeId == id {
        assert shards[i].nodeId == id;
      }
      if i :| 0 <= i < |shards| && shards[i].nodeId == id {
        assert nodes[i].nodeId == id;
      }
    }
  }

  ghost function Ids(nodes: seq<NodeFacts>): (ids: set<string>)
    ensures forall id :: id in ids <==> exists i :: 0 <= i < |nodes| && nodes[i].nodeId == id
  {
    set i | 0 <= i < |nodes| :: nodes[i].nodeId
  }

  lemma {:induction false} OneMoreId(nodes: seq<NodeFacts>, node: NodeFacts)
    ensures Ids(nodes + [node]) == Ids(nodes) + {node.nodeId}
  {
    hide Ids;
    forall id
      ensures id in Ids(nodes + [node]) <==> id in Ids(nodes) || id == node.nodeId
    {
      if i :| 0 <= i < |nodes| && nodes[i].nodeId == id {
        assert (nodes + [node])[i].nodeId == id;
      }
      if id == node.nodeId {
        assert (nodes + [node])[|nodes|].nodeId == id;
      }
    }
  }

  lemma {:induction false} ApartCount(nodes: seq<NodeFacts>)
    requires forall i, j :: 0 <= i < j < |nodes| ==> nodes[i].nodeId != nodes[j].nodeId
    ensures |Ids(nodes)| == |nodes|
    decreases |nodes|
  {
    if nodes != [] {
      var n := |nodes| - 1;
      var front, last := nodes[..n], nodes[n].nodeId;
      ApartCount(front);
      assert nodes == front + [nodes[n]];
      hide Ids;
      assert Ids(nodes) == Ids(front) + {last} by {
        OneMoreId(front, nodes[n]);
      }
      assert last !in Ids(front);
    }
  }

  /** As many nodes are available as are alive. */
  lemma {:induction false} AliveAreAvailable(log: seq<Event>, timeout: real)
    ensures |AvailableNodes(log, timeout)| == |AliveIds(log, timeout)|
  {
    hide AvailableNodes, AliveIds, IsLastBeat, IsFirstBeat;
    var nodes := AvailableNodes(log, timeout);
    AvailableShowsAlive(log, timeout);
    ApartCount(nodes);
    assert Ids(nodes) == AliveIds(log, timeout);
  }

  /** The node that answers at an address. */
  ghost predicate AnswersAt(plan: DispatchPlan, addr: string, i: int) {
    0 <= i < |plan.assignments| && AddressOf(plan.assignments[i]) == addr
  }

  ghost predicate DistinctEndpoints(nodes: seq<NodeFacts>) {
    forall i, j :: 0 <= i < j < |nodes| ==>
      (nodes[i].ipAddress, nodes[i].inferencePort) != (nodes[j].ipAddress, nodes[j].inferencePort)
  }

  ghost function UpFrom(k: int, n: nat): seq<int>
    decreases n
  {
    if n == 0 then [] else [k] + UpFrom(k + 1, n - 1)
  }

  /** The assignment whose node answers at an address, or -1. */
  ghost function Answerer(plan: DispatchPlan, addr: string): int {
    if i :| AnswersAt(plan, addr, i) then i else -1
  }

  /** The assignments visited from an address on, by whoever answers there; at most `fuel` hops. */
  ghost function Walk(plan: DispatchPlan, addr: string, fuel: nat): seq<int>
    decreases fuel
  {
    var i := Answerer(plan, addr);
    if fuel == 0 || !(0 <= i < |plan.assignments|) then []
    else [i] + Walk(plan, plan.assignments[i].nextWorkerAddress, fuel - 1)
  }

  lemma {:induction false} OneAnswers(plan: DispatchPlan, manifest: Manifest, nodes: seq<NodeFacts>, k: nat)
    requires IsPlan(plan, manifest, nodes) && DistinctEndpoints(nodes) && k < |nodes|
    ensures Answerer(plan, AddressOf(plan.assignments[k])) == k
  {
    var addr := AddressOf(plan.assignments[k]);
    assert AnswersAt(plan, addr, k);
    var i := Answerer(plan, addr);
    assert AnswersAt(plan, addr, i);
    assert IsAssignment(plan.assignments[i], nodes, i) && IsAssignment(plan.assignments[k], nodes, k);
    AddressInjective(nodes[i].ipAddress, nodes[i].inferencePort, nodes[k].ipAddress, nodes[k].inferencePort);
  }

  /** The k-th node alone answers at its address, and its next address is the following node's. */
  ghost predicate LinkedAt(plan: DispatchPlan, k: int) {
    0 <= k < |plan.assignments| &&
    Answerer(plan, AddressOf(plan.assignments[k])) == k &&
    var next := plan.assignments[k].nextWorkerAddress;
    if k == |plan.assignments| - 1 then next == "" else next == AddressOf(plan.assignments[k + 1])
  }

  lemma {:induction false} WalkAlong(plan: DispatchPlan, k: nat, addr: string, fuel: nat)
    requires forall i :: k <= i < |plan.assignments| ==> LinkedAt(plan, i)
    requires k < |plan.assignments| && addr == AddressOf(plan.assignments[k]) && fuel >= |plan.assignments| - k
    ensures Walk(plan, addr, fuel) == UpFrom(k, |plan.assignments| - k)
    decreases |plan.assignments| - k
  {
    assert LinkedAt(plan, k);
    WalkStep(plan, addr, k, fuel);
    var next := plan.assignments[k].nextWorkerAddress;
    if k == |plan.assignments| - 1 {
      NobodyAnswersAtEmpty(plan);
    } else {
      WalkAlong(plan, k + 1, next, fuel - 1);
    }
  }

  /** Following next addresses from the first node visits every assignment once, in order, and
      stops, however far one is willing to go. */
  lemma {:induction false} WalkVisitsInOrder(plan: DispatchPlan, manifest: Manifest, nodes: seq<NodeFacts>, fuel: nat)
    requires IsPlan(plan, manifest, nodes) && DistinctEndpoints(nodes) && fuel >= |nodes|
    ensures Walk(plan, AddressOf(plan.assignments[0]), fuel) == UpFrom(0, |nodes|)
  {
    forall i | 0 <= i < |nodes|
      ensures LinkedAt(plan, i)
    {
      OneAnswers(plan, manifest, nodes, i);
      Link(plan, manifest, nodes, i);
    }
    WalkAlong(plan, 0, AddressOf(plan.assignments[0]), fuel);
  }

  lemma {:induction false} WalkStep(plan: DispatchPlan, addr: string, i: nat, fuel: nat)
    requires fuel > 0 && Answerer(plan, addr) == i < |plan.assignments|
    ensures Walk(plan, addr, fuel) == [i] + Walk(plan, plan.assignments[i].nextWorkerAddress, fuel - 1)
  {
  }

  lemma {:induction false} Link(plan: DispatchPlan, manifest: Manifest, nodes: seq<NodeFacts>, k: nat)
    requires IsPlan(plan, manifest, nodes) && k < |nodes|
    ensures plan.assignments[k].nextWorkerAddress == if k == |nodes| - 1 then "" else AddressOf(plan.assignments[k + 1])
  {
    assert IsAssignment(plan.assignments[k], nodes, k);
    if k < |nodes| - 1 {
      assert IsAssignment(plan.assignments[k + 1], nodes, k + 1);
    }
  }

  lemma {:induction false} NobodyAnswersAtEmpty(plan: DispatchPlan)
    ensures Answerer(plan, "") == -1
  {
    assert forall i :: 0 <= i < |plan.assignments| ==> |AddressOf(plan.assignments[i])| > 0;
  }
}
