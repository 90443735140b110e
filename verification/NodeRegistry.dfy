/**
 orchestrator/node_registry.py: worker nodes tracked by heartbeats and reaped when they fall
 silent.  Every method is one atomic step; the clock reading is a parameter.
 */
module NodeRegistry {
  import opened Wrappers
  import opened OrderedDict

  datatype Status = Available | Busy | Unavailable

  /** What a heartbeat carries. */
  datatype NodeFacts = NodeFacts(
    nodeId: string, ipAddress: string, availableRamMb: int, totalRamMb: int, cpuCount: int,
    arch: string, osName: string, osVersion: string, inferencePort: nat)

  class NodeInfo {
    const facts: NodeFacts
    const lastHeartbeat: real
    const firstSeen: real
    var status: Status

    constructor (facts: NodeFacts, status: Status, lastHeartbeat: real, firstSeen: real)
      ensures this.facts == facts && this.status == status
      ensures this.lastHeartbeat == lastHeartbeat && this.firstSeen == firstSeen
    {
      this.facts := facts;
      this.status := status;
      this.lastHeartbeat := lastHeartbeat;
      this.firstSeen := firstSeen;
    }

    function View(): NodeView
      reads this
    {
      NodeView(facts, status, lastHeartbeat, firstSeen)
    }
  }

  datatype NodeView = NodeView(facts: NodeFacts, status: Status, lastHeartbeat: real, firstSeen: real)

  // ---------- The registry as a function of what happened ----------

  datatype Event = Heartbeat(facts: NodeFacts, at: real) | Reap(at: real)

  predicate Stale(v: NodeView, now: real, timeout: real) {
    (v.status == Available || v.status == Busy) && now - v.lastHeartbeat > timeout
  }

  function ReapedView(v: NodeView, now: real, timeout: real): NodeView {
    if Stale(v, now, timeout) then v.(status := Unavailable) else v
  }

  function Apply(d: Dict<string, NodeView>, e: Event, timeout: real): Dict<string, NodeView> {
    match e
    case Heartbeat(facts, now) =>
      var id := facts.nodeId;
      Put(d, id, NodeView(facts, Available, now, if id in d.m then d.m[id].firstSeen else now))
    case Reap(now) =>
      Dict(d.keys, map id | id in d.m :: ReapedView(d.m[id], now, timeout))
  }

  function Replay(log: seq<Event>, timeout: real): (d: Dict<string, NodeView>)
    ensures forall i :: 0 <= i < |d.keys| ==> d.keys[i] in d.m
  {
    if log == [] then Empty()
    else Apply(Replay(log[..|log| - 1], timeout), log[|log| - 1], timeout)
  }

  lemma {:induction false} ReplayValid(log: seq<Event>, timeout: real)
    ensures Valid(Replay(log, timeout))
    decreases |log|
  {
    if log != [] {
      ReplayValid(log[..|log| - 1], timeout);
    }
  }

  /** The records in listing order. */
  function Rows(d: Dict<string, NodeView>): (vs: seq<NodeView>)
    requires forall i :: 0 <= i < |d.keys| ==> d.keys[i] in d.m
    ensures |vs| == |d.keys|
  {
    seq(|d.keys|, i requires 0 <= i < |d.keys| => d.m[d.keys[i]])
  }

  function Matching(vs: seq<NodeView>, filter: set<Status>): (r: seq<NodeView>)
    decreases |vs|
  {
    if vs == [] then []
    else
      var last := vs[|vs| - 1];
      Matching(vs[..|vs| - 1], filter) + (if last.status in filter then [last] else [])
  }

  /** These are the records at these ascending positions: all that match, and no other. */
  ghost predicate Picks(at: seq<nat>, r: seq<NodeView>, vs: seq<NodeView>, filter: set<Status>) {
    && |at| == |r|
    && (forall i :: 0 <= i < |at| ==> at[i] < |vs| && r[i] == vs[at[i]] && r[i].status in filter)
    && (forall i, j :: 0 <= i < j < |at| ==> at[i] < at[j])
    && (forall k :: 0 <= k < |vs| && vs[k].status in filter ==> k in at)
  }

  lemma {:induction false} PicksOneMore(
    at: seq<nat>, r: seq<NodeView>, vs: seq<NodeView>, filter: set<Status>, v: NodeView)
    requires Picks(at, r, vs, filter)
    ensures v.status in filter ==> Picks(at + [|vs|], r + [v], vs + [v], filter)
    ensures v.status !in filter ==> Picks(at, r, vs + [v], filter)
  {
    if v.status in filter {
      assert (at + [|vs|])[|at|] == |vs|;
      forall k | 0 <= k < |vs| && vs[k].status in filter
        ensures k in at + [|vs|]
      {
        assert k in at;
      }
    }
  }

  lemma {:induction false} MatchingPicks(vs: seq<NodeView>, filter: set<Status>) returns (at: seq<nat>)
    ensures Picks(at, Matching(vs, filter), vs, filter)
    decreases |vs|
  {
    at := [];
    if vs != [] {
      hide Picks;
      var n := |vs| - 1;
      at := MatchingPicks(vs[..n], filter);
      PicksOneMore(at, Matching(vs[..n], filter), vs[..n], filter, vs[n]);
      assert vs == vs[..n] + [vs[n]];
      if vs[n].status in filter {
        at := at + [n];
      } else {
        assert Matching(vs[..n], filter) + [] == Matching(vs[..n], filter);
      }
    }
  }

  /** The ids a reap at `now` reports, in listing order. */
  function StaleIds(vs: seq<NodeView>, now: real, timeout: real): (ids: seq<string>)
    decreases |vs|
  {
    if vs == [] then []
    else
      var last := vs[|vs| - 1];
      StaleIds(vs[..|vs| - 1], now, timeout) + (if Stale(last, now, timeout) then [last.facts.nodeId] else [])
  }

  lemma {:induction false} StaleIdsExactly(vs: seq<NodeView>, now: real, timeout: real, id: string)
    ensures id in StaleIds(vs, now, timeout) <==>
            exists i :: 0 <= i < |vs| && vs[i].facts.nodeId == id && Stale(vs[i], now, timeout)
    decreases |vs|
  {
    if vs != [] {
      var front := vs[..|vs| - 1];
      StaleIdsExactly(front, now, timeout, id);
      assert forall i :: 0 <= i < |front| ==> vs[i] == front[i];
    }
  }

  lemma {:induction false} StaleIdsPicks(vs: seq<NodeView>, now: real, timeout: real) returns (at: seq<nat>)
    ensures |at| == |StaleIds(vs, now, timeout)|
    ensures forall i :: 0 <= i < |at| ==> at[i] < |vs| && StaleIds(vs, now, timeout)[i] == vs[at[i]].facts.nodeId
    ensures forall i, j :: 0 <= i < j < |at| ==> at[i] < at[j]
    decreases |vs|
  {
    at := [];
    if vs != [] {
      var n := |vs| - 1;
      var front := vs[..n];
      var before := StaleIdsPicks(front, now, timeout);
      var stale := Stale(vs[n], now, timeout);
      assert StaleIds(vs, now, timeout) ==
             StaleIds(front, now, timeout) + (if stale then [vs[n].facts.nodeId] else []);
      hide StaleIds, Stale;
      at := before + (if stale then [n] else []);
    }
  }

  /** What the reap at position j of the log reported. */
  function Reported(log: seq<Event>, j: nat, timeout: real): seq<string>
    requires j < |log| && log[j].Reap?
  {
    StaleIds(Rows(Replay(log[..j], timeout)), log[j].at, timeout)
  }

  // ---------- The program ----------

  class NodeRegistry {
    const heartbeatIntervalS: real
    const missedThreshold: int
    const timeoutS: real
    var nodes: Dict<string, NodeInfo>
    ghost var log: seq<Event>

    ghost function Infos(): set<NodeInfo>
      reads this`nodes
    {
      set id | id in nodes.m :: nodes.m[id]
    }

    /** The objects in the dict show exactly the records of d. */
    ghost predicate Shows(d: Dict<string, NodeView>)
      reads this`nodes, Infos()
    {
      && nodes.keys == d.keys && nodes.m.Keys == d.m.Keys
      && forall id :: id in nodes.m ==> nodes.m[id].View() == d.m[id]
    }

    /** The dict's own invariant: one object per id, which carries that id. */
    ghost predicate OwnNodes()
      reads this`nodes, Infos()
    {
      && (forall a, b :: a in nodes.m && b in nodes.m && a != b ==> nodes.m[a] != nodes.m[b])
      && (forall id :: id in nodes.m ==> nodes.m[id].facts.nodeId == id)
    }

    ghost predicate Valid()
      reads this, Infos()
    {
      OwnNodes() && Shows(Replay(log, timeoutS))
    }

    constructor (heartbeatIntervalS: real, missedThreshold: int)
      ensures timeoutS == heartbeatIntervalS * (missedThreshold as real)
      ensures Valid() && log == []
    {
      this.heartbeatIntervalS := heartbeatIntervalS;
      this.missedThreshold := missedThreshold;
      timeoutS := heartbeatIntervalS * (missedThreshold as real);
      nodes := Empty();
      log := [];
    }

    method UpdateNode(facts: NodeFacts, now: real)
      requires Valid()
      modifies this
      ensures Valid() && log == old(log) + [Heartbeat(facts, now)]
      ensures facts.nodeId in nodes.m && fresh(nodes.m[facts.nodeId])
      ensures nodes.m == old(nodes.m)[facts.nodeId := nodes.m[facts.nodeId]]
    {
      hide Replay, Put, Apply;
      var id := facts.nodeId;
      var firstSeen := if id in nodes.m then nodes.m[id].firstSeen else now;
      var node := new NodeInfo(facts, Available, now, firstSeen);
      ghost var d := Replay(log, timeoutS);
      BeatReplayed(log, facts, now, timeoutS);
      log := log + [Heartbeat(facts, now)];
      PutNode(node, d);
    }

    /** The new record takes the place of the one with its id, if any. */
    method PutNode(node: NodeInfo, ghost d: Dict<string, NodeView>)
      requires OwnNodes() && Shows(d) && node !in Infos()
      modifies this`nodes
      ensures OwnNodes() && Shows(Put(d, node.facts.nodeId, node.View()))
      ensures nodes.m == old(nodes.m)[node.facts.nodeId := node]
    {
      nodes := Put(nodes, node.facts.nodeId, node);
    }

    /** The records, in the order in which their ids first came. */
    function Values(): (vs: seq<NodeInfo>)
      requires Valid()
      reads this, Infos()
    {
      seq(|nodes.keys|, i requires 0 <= i < |nodes.keys| && Valid() reads this, Infos() => nodes.m[nodes.keys[i]])
    }

    method ListNodes(filter: set<Status>) returns (r: seq<NodeInfo>)
      requires Valid()
      ensures forall k :: 0 <= k < |r| ==> r[k] in Infos()
      ensures ListsViews(r, Matching(Rows(Replay(log, timeoutS)), filter))
      ensures forall k :: 0 <= k < |r| ==>
                && r[k].facts.nodeId in nodes.m && nodes.m[r[k].facts.nodeId] == r[k]
                && r[k].status in filter
      ensures forall id :: id in nodes.m && nodes.m[id].status in filter ==> nodes.m[id] in r
      ensures forall i, j :: 0 <= i < j < |r| ==> ComesBefore(nodes.keys, r[i].facts.nodeId, r[j].facts.nodeId)
    {
      hide Replay, Matching;
      var values := Values();
      r := Filter(values, filter, Rows(Replay(log, timeoutS)));
      ListsExactly(this, r, filter);
    }

    /** The record of one node: the object in the dict itself, not a copy of it. */
    method GetNode(id: string) returns (r: Option<NodeInfo>)
      requires Valid()
      ensures r == if id in nodes.m then Some(nodes.m[id]) else None
      ensures r.Some? <==> id in Replay(log, timeoutS).m
      ensures r.Some? ==> r.value.View() == Replay(log, timeoutS).m[id]
    {
      return if id in nodes.m then Some(nodes.m[id]) else None;
    }

    method ReapStaleNodes(now: real) returns (reaped: seq<string>)
      requires Valid()
      modifies this`log, Infos()
      ensures Valid() && log == old(log) + [Reap(now)]
      ensures reaped == Reported(log, |old(log)|, timeoutS)
      ensures forall id :: id in nodes.m ==> nodes.m[id].View() == ReapedView(old(nodes.m[id].View()), now, timeoutS)
    {
      hide Replay, StaleIds, Rows;
      reaped := ReapValues(now);
      log := log + [Reap(now)];
      assert log[..|old(log)|] == old(log);
      ReplayAppend(old(log), Reap(now), timeoutS);
    }

    /** The objects in the dict, each once, and what they show. */
    method ValuesOf(ghost d: Dict<string, NodeView>) returns (values: seq<NodeInfo>)
      requires Valid() && OrderedDict.Valid(d) && d == Replay(log, timeoutS)
      ensures |values| == |d.keys| && forall k :: 0 <= k < |values| ==> values[k] == nodes.m[d.keys[k]]
      ensures ListsViews(values, Rows(d)) && Distinct(values)
      ensures forall k :: 0 <= k < |values| ==> values[k] in Infos()
    {
      hide Replay;
      values := Values();
    }

    method ReapValues(now: real) returns (reaped: seq<string>)
      requires Valid()
      modifies Infos()
      ensures Shows(Apply(Replay(log, timeoutS), Reap(now), timeoutS))
      ensures reaped == StaleIds(Rows(Replay(log, timeoutS)), now, timeoutS)
    {
      hide Replay, StaleIds;
      ghost var d := Replay(log, timeoutS);
      ReplayValid(log, timeoutS);
      var values := ValuesOf(d);
      reaped := MarkStale(values, now, timeoutS, Rows(d));
      forall id | id in nodes.m
        ensures nodes.m[id].View() == ReapedView(d.m[id], now, timeoutS)
      {
        var k :| 0 <= k < |d.keys| && d.keys[k] == id;
        assert values[k] == nodes.m[id] && Rows(d)[k] == d.m[id];
      }
    }
  }

  method Filter(values: seq<NodeInfo>, filter: set<Status>, ghost vs: seq<NodeView>) returns (r: seq<NodeInfo>)
    requires ListsViews(values, vs)
    ensures forall k :: 0 <= k < |r| ==> r[k] in values
    ensures ListsViews(r, Matching(vs, filter))
  {
    r := [];
    for i := 0 to |values|
      invariant forall k :: 0 <= k < |r| ==> r[k] in values
      invariant ListsViews(r, Matching(vs[..i], filter))
    {
      assert vs[..i + 1][..i] == vs[..i];
      if values[i].status in filter {
        r := r + [values[i]];
      }
    }
    assert vs[..|values|] == vs;
  }

  /** Objects of the registry that show the matching rows are its matching records, each once and in
      the dict's order. */
  lemma {:induction false} ListsExactly(registry: NodeRegistry, r: seq<NodeInfo>, filter: set<Status>)
    requires registry.Valid() && forall k :: 0 <= k < |r| ==> r[k] in registry.Infos()
    requires ListsViews(r, Matching(Rows(Replay(registry.log, registry.timeoutS)), filter))
    ensures forall k :: 0 <= k < |r| ==>
              && r[k].facts.nodeId in registry.nodes.m && registry.nodes.m[r[k].facts.nodeId] == r[k]
              && r[k].status in filter
    ensures forall id :: id in registry.nodes.m && registry.nodes.m[id].status in filter ==> registry.nodes.m[id] in r
    ensures forall i, j :: 0 <= i < j < |r| ==>
              ComesBefore(registry.nodes.keys, r[i].facts.nodeId, r[j].facts.nodeId)
  {
    hide Replay, Matching;
    var d := Replay(registry.log, registry.timeoutS);
    ReplayValid(registry.log, registry.timeoutS);
    var at := MatchingPicks(Rows(d), filter);
    forall k | 0 <= k < |r|
      ensures r[k].facts.nodeId == d.keys[at[k]] && registry.nodes.m[d.keys[at[k]]] == r[k]
      ensures r[k].status in filter
    {
      var id := d.keys[at[k]];
      assert r[k].View() == Rows(d)[at[k]] == registry.nodes.m[id].View();
    }
    forall id | id in registry.nodes.m && registry.nodes.m[id].status in filter
      ensures registry.nodes.m[id] in r
    {
      var i :| 0 <= i < |d.keys| && d.keys[i] == id;
      assert Rows(d)[i] == registry.nodes.m[id].View();
      var k :| 0 <= k < |at| && at[k] == i;
      assert r[k] == registry.nodes.m[id];
    }
  }

  /** The reaper's loop over the dict's values. */
  method MarkStale(values: seq<NodeInfo>, now: real, timeout: real, ghost vs: seq<NodeView>)
    returns (reaped: seq<string>)
    requires ListsViews(values, vs) && Distinct(values)
    modifies values
    ensures forall k :: 0 <= k < |values| ==> values[k].View() == ReapedView(vs[k], now, timeout)
    ensures reaped == StaleIds(vs, now, timeout)
  {
    reaped := [];
    for i := 0 to |values|
      invariant forall k :: 0 <= k < |values| ==>
                  values[k].View() == if k < i then ReapedView(vs[k], now, timeout) else vs[k]
      invariant reaped == StaleIds(vs[..i], now, timeout)
    {
      assert vs[..i + 1][..i] == vs[..i];
      var node := values[i];
      if (node.status == Available || node.status == Busy) && now - node.lastHeartbeat > timeout {
        node.status := Unavailable;
        reaped := reaped + [node.facts.nodeId];
      }
    }
    assert vs[..|values|] == vs;
  }

  /** The listed objects currently show these records. */
  ghost predicate ListsViews(r: seq<NodeInfo>, vs: seq<NodeView>)
    reads r
  {
    |r| == |vs| && forall k :: 0 <= k < |r| ==> r[k].View() == vs[k]
  }

  // ---------- What happens to records that were handed out ----------

  /** A record handed out earlier, after more events: what it shows, and whether it is still the
      registry's own.  A heartbeat replaces the registry's record; a reap writes into it. */
  function HeldAfter(v: NodeView, events: seq<Event>, timeout: real): (r: (NodeView, bool))
    decreases |events|
  {
    if events == [] then (v, true)
    else
      var before := HeldAfter(v, events[..|events| - 1], timeout);
      match events[|events| - 1]
      case Heartbeat(facts, _) => (before.0, before.1 && facts.nodeId != v.facts.nodeId)
      case Reap(now) => (if before.1 then ReapedView(before.0, now, timeout) else before.0, before.1)
  }

  ghost predicate NoBeatBefore(events: seq<Event>, id: string, j: int) {
    forall i :: 0 <= i < j && i < |events| ==> !BeatAt(events, id, i)
  }

  /** The reap at j sees too large a gap in this record, which no heartbeat has replaced by then. */
  ghost predicate ReapStrikes(v: NodeView, events: seq<Event>, j: int, timeout: real) {
    && 0 <= j < |events| && events[j].Reap? && Stale(v, events[j].at, timeout)
    && NoBeatBefore(events, v.facts.nodeId, j)
  }

  /** A record that was handed out stops showing what it showed exactly when some reap, before the
      node's next heartbeat, finds it stale; then, and in no other way, it turns unavailable. */
  lemma {:induction false} HeldChangesExactlyWhen(v: NodeView, events: seq<Event>, timeout: real)
    ensures var r := HeldAfter(v, events, timeout);
            && (r.0 != v <==> exists j :: ReapStrikes(v, events, j, timeout))
            && (r.0 == v || r.0 == v.(status := Unavailable))
            && (r.1 <==> NoBeatBefore(events, v.facts.nodeId, |events|))
    decreases |events|
  {
    if events != [] {
      var n := |events| - 1;
      var front := events[..n];
      HeldChangesExactlyWhen(v, front, timeout);
      assert forall i :: 0 <= i < n ==> (BeatAt(events, v.facts.nodeId, i) <==> BeatAt(front, v.facts.nodeId, i));
      assert forall j :: 0 <= j < n ==> (ReapStrikes(v, events, j, timeout) <==> ReapStrikes(v, front, j, timeout));
      assert ReapStrikes(v, events, n, timeout) <==>
             events[n].Reap? && Stale(v, events[n].at, timeout) && NoBeatBefore(front, v.facts.nodeId, n);
      assert NoBeatBefore(events, v.facts.nodeId, n + 1) <==>
             NoBeatBefore(front, v.facts.nodeId, n) && !BeatAt(events, v.facts.nodeId, n);
    }
  }

  /** The records in someone's hands show what the events so far make of them, and are the registry's
      own as long as no heartbeat has replaced them. */
  ghost predicate Tracks(registry: NodeRegistry, held: seq<NodeInfo>, vs: seq<NodeView>, events: seq<Event>)
    reads registry, registry.Infos(), held
  {
    && |held| == |vs|
    && forall k :: 0 <= k < |held| ==> TracksOne(registry, held[k], vs[k], events)
  }

  ghost predicate TracksOne(registry: NodeRegistry, node: NodeInfo, v: NodeView, events: seq<Event>)
    reads registry, registry.Infos(), node
  {
    var r := HeldAfter(v, events, registry.timeoutS);
    && node.View() == r.0 && node.facts.nodeId == v.facts.nodeId
    && if r.1 then v.facts.nodeId in registry.nodes.m && registry.nodes.m[v.facts.nodeId] == node
       else node !in registry.Infos()
  }

  lemma {:induction false} HeldStep(v: NodeView, events: seq<Event>, e: Event, timeout: real)
    ensures var before := HeldAfter(v, events, timeout);
            HeldAfter(v, events + [e], timeout) ==
              match e
              case Heartbeat(facts, _) => (before.0, before.1 && facts.nodeId != v.facts.nodeId)
              case Reap(now) => (if before.1 then ReapedView(before.0, now, timeout) else before.0, before.1)
  {
    assert (events + [e])[..|events + [e]| - 1] == events;
  }

  method StepBeat(
    registry: NodeRegistry, facts: NodeFacts, now: real, ghost held: seq<NodeInfo>, ghost vs: seq<NodeView>,
    ghost events: seq<Event>)
    requires registry.Valid() && Tracks(registry, held, vs, events)
    modifies registry
    ensures registry.Valid() && registry.log == old(registry.log) + [Heartbeat(facts, now)]
    ensures Tracks(registry, held, vs, events + [Heartbeat(facts, now)])
    ensures fresh(registry.Infos() - old(registry.Infos()))
  {
    hide Replay, HeldAfter, NodeRegistry.Shows;
    registry.UpdateNode(facts, now);
    forall k | 0 <= k < |held|
      ensures TracksOne(registry, held[k], vs[k], events + [Heartbeat(facts, now)])
    {
      assert old(TracksOne(registry, held[k], vs[k], events));
      HeldStep(vs[k], events, Heartbeat(facts, now), registry.timeoutS);
    }
  }

  method StepReap(
    registry: NodeRegistry, now: real, ghost held: seq<NodeInfo>, ghost vs: seq<NodeView>, ghost events: seq<Event>)
    requires registry.Valid() && Tracks(registry, held, vs, events)
    modifies registry, registry.Infos()
    ensures registry.Valid() && registry.log == old(registry.log) + [Reap(now)]
    ensures Tracks(registry, held, vs, events + [Reap(now)])
    ensures fresh(registry.Infos() - old(registry.Infos()))
  {
    hide Replay, HeldAfter;
    var _ := registry.ReapStaleNodes(now);
    forall k | 0 <= k < |held|
      ensures TracksOne(registry, held[k], vs[k], events + [Reap(now)])
    {
      assert old(TracksOne(registry, held[k], vs[k], events));
      HeldStep(vs[k], events, Reap(now), registry.timeoutS);
    }
  }

  /** One more event. */
  method Step(
    registry: NodeRegistry, e: Event, ghost held: seq<NodeInfo>, ghost vs: seq<NodeView>, ghost events: seq<Event>)
    requires registry.Valid() && Tracks(registry, held, vs, events)
    modifies registry, registry.Infos()
    ensures registry.Valid() && registry.log == old(registry.log) + [e]
    ensures Tracks(registry, held, vs, events + [e])
    ensures fresh(registry.Infos() - old(registry.Infos()))
  {
    match e
    case Heartbeat(facts, now) => StepBeat(registry, facts, now, held, vs, events);
    case Reap(now) => StepReap(registry, now, held, vs, events);
  }

  /** List the nodes and let the registry go on: every listed record then shows what
      HeldChangesExactlyWhen says, whether or not it showed the truth when it was listed. */
  method ListThenRun(registry: NodeRegistry, filter: set<Status>, events: seq<Event>) returns (r: seq<NodeInfo>)
    requires registry.Valid()
    modifies registry, registry.Infos()
    ensures registry.Valid() && registry.log == old(registry.log) + events
    ensures var vs := Matching(Rows(Replay(old(registry.log), registry.timeoutS)), filter);
            && |r| == |vs|
            && forall k :: 0 <= k < |r| ==>
                 && r[k].View() == HeldAfter(vs[k], events, registry.timeoutS).0
                 && (r[k].View() != vs[k] <==> exists j :: ReapStrikes(vs[k], events, j, registry.timeoutS))
  {
    r := registry.ListNodes(filter);
    ghost var vs := Matching(Rows(Replay(registry.log, registry.timeoutS)), filter);
    Run(registry, events, r, vs);
    forall k | 0 <= k < |r|
      ensures r[k].View() != vs[k] <==> exists j :: ReapStrikes(vs[k], events, j, registry.timeoutS)
    {
      HeldChangesExactlyWhen(vs[k], events, registry.timeoutS);
    }
  }

  /** Look a node up and let the registry go on: the record is no snapshot. */
  method GetThenRun(registry: NodeRegistry, id: string, events: seq<Event>) returns (r: Option<NodeInfo>)
    requires registry.Valid()
    modifies registry, registry.Infos()
    ensures registry.Valid() && registry.log == old(registry.log) + events
    ensures r.Some? <==> id in Replay(old(registry.log), registry.timeoutS).m
    ensures r.Some? ==>
              r.value.View() ==
                HeldAfter(Replay(old(registry.log), registry.timeoutS).m[id], events, registry.timeoutS).0
  {
    r := registry.GetNode(id);
    var held := if r.Some? then [r.value] else [];
    ghost var vs := if r.Some? then [Replay(registry.log, registry.timeoutS).m[id]] else [];
    Run(registry, events, held, vs);
    assert r.Some? ==> held[0] == r.value;
  }

  /** The shortest such history: one reap, more than the timeout after the heartbeat. */
  lemma {:induction false} OneReapStrikes(v: NodeView, timeout: real)
    requires v.status == Available
    ensures var events := [Reap(v.lastHeartbeat + timeout + 1.0)];
            ReapStrikes(v, events, 0, timeout) && HeldAfter(v, events, timeout).0 == v.(status := Unavailable)
  {
    var events := [Reap(v.lastHeartbeat + timeout + 1.0)];
    assert events[..0] == [];
    assert HeldAfter(v, [], timeout) == (v, true);
  }

  lemma {:induction false} TracksAtFirst(registry: NodeRegistry, held: seq<NodeInfo>, vs: seq<NodeView>)
    requires registry.Valid() && ListsViews(held, vs)
    requires forall k :: 0 <= k < |held| ==> held[k] in registry.Infos()
    ensures Tracks(registry, held, vs, [])
  {
    hide Replay;
    forall k | 0 <= k < |held|
      ensures TracksOne(registry, held[k], vs[k], [])
    {
      assert held[k].View() == vs[k];
    }
  }

  lemma {:induction false} TrackedViews(
    registry: NodeRegistry, held: seq<NodeInfo>, vs: seq<NodeView>, events: seq<Event>)
    requires Tracks(registry, held, vs, events)
    ensures |held| == |vs|
    ensures forall k :: 0 <= k < |held| ==> held[k].View() == HeldAfter(vs[k], events, registry.timeoutS).0
  {
    assert forall k :: 0 <= k < |held| ==> TracksOne(registry, held[k], vs[k], events);
  }

  method Run(registry: NodeRegistry, events: seq<Event>, ghost held: seq<NodeInfo>, ghost vs: seq<NodeView>)
    requires registry.Valid() && ListsViews(held, vs)
    requires forall k :: 0 <= k < |held| ==> held[k] in registry.Infos()
    modifies registry, registry.Infos()
    ensures registry.Valid() && registry.log == old(registry.log) + events
    ensures |held| == |vs|
    ensures forall k :: 0 <= k < |held| ==> held[k].View() == HeldAfter(vs[k], events, registry.timeoutS).0
  {
    hide Replay, HeldAfter, Tracks, NodeRegistry.Valid;
    TracksAtFirst(registry, held, vs);
    for k := 0 to |events|
      invariant registry.Valid() && registry.log == old(registry.log) + events[..k]
      invariant Tracks(registry, held, vs, events[..k])
      invariant fresh(registry.Infos() - old(registry.Infos()))
    {
      assert events[..k + 1] == events[..k] + [events[k]];
      Step(registry, events[k], held, vs, events[..k]);
    }
    assert events[..|events|] == events;
    TrackedViews(registry, held, vs, events);
  }

  lemma {:induction false} BeatReplayed(log: seq<Event>, facts: NodeFacts, now: real, timeout: real)
    ensures var d, id := Replay(log, timeout), facts.nodeId;
            Replay(log + [Heartbeat(facts, now)], timeout) ==
              Put(d, id, NodeView(facts, Available, now, if id in d.m then d.m[id].firstSeen else now))
  {
    ReplayAppend(log, Heartbeat(facts, now), timeout);
  }

  lemma {:induction false} ReplayAppend(log: seq<Event>, e: Event, timeout: real)
    ensures Replay(log + [e], timeout) == Apply(Replay(log, timeout), e, timeout)
  {
    assert (log + [e])[..|log + [e]| - 1] == log;
  }

  // ---------- What the log says, without replaying it ----------

  ghost predicate BeatAt(log: seq<Event>, id: string, k: int) {
    0 <= k < |log| && log[k].Heartbeat? && log[k].facts.nodeId == id
  }

  ghost predicate IsLastBeat(log: seq<Event>, id: string, k: int) {
    BeatAt(log, id, k) && forall j :: k < j < |log| ==> !BeatAt(log, id, j)
  }

  ghost predicate IsFirstBeat(log: seq<Event>, id: string, k: int) {
    BeatAt(log, id, k) && forall j :: 0 <= j < k ==> !BeatAt(log, id, j)
  }

  /** No reap after position k saw a gap above the timeout since the heartbeat at k. */
  ghost predicate NeverReapedSince(log: seq<Event>, k: int, timeout: real)
    requires 0 <= k < |log|
  {
    forall j :: k < j < |log| && log[j].Reap? ==> log[j].at - log[k].at <= timeout
  }

  /** A node is listed exactly when it ever sent a heartbeat. */
  lemma {:induction false} ListedFromLog(log: seq<Event>, id: string, timeout: real)
    ensures id in Replay(log, timeout).m <==> exists k :: BeatAt(log, id, k)
    decreases |log|
  {
    if log != [] {
      var n := |log| - 1;
      ListedFromLog(log[..n], id, timeout);
      assert forall k :: 0 <= k < n ==> (BeatAt(log, id, k) <==> BeatAt(log[..n], id, k));
      assert id in Replay(log, timeout).m <==> id in Replay(log[..n], timeout).m || BeatAt(log, id, n);
    }
  }

  /** A listed node shows its last heartbeat, and is available exactly when no reap since then saw
      too large a gap. */
  lemma {:induction false} StatusFromLog(log: seq<Event>, id: string, k: int, timeout: real)
    requires IsLastBeat(log, id, k)
    ensures id in Replay(log, timeout).m
    ensures var v := Replay(log, timeout).m[id];
            && v.facts == log[k].facts && v.lastHeartbeat == log[k].at
            && v.status == if NeverReapedSince(log, k, timeout) then Available else Unavailable
    decreases |log|
  {
    var n := |log| - 1;
    var front := log[..n];
    if k < n {
      assert BeatAt(front, id, k);
      assert forall j :: 0 <= j < n ==> (BeatAt(log, id, j) <==> BeatAt(front, id, j));
      StatusFromLog(front, id, k, timeout);
      NeverReapedStep(log, k, timeout);
      assert !BeatAt(log, id, n);
    }
  }

  lemma {:induction false} NeverReapedStep(log: seq<Event>, k: int, timeout: real)
    requires 0 <= k < |log| - 1
    ensures var n := |log| - 1;
            NeverReapedSince(log, k, timeout) <==>
            NeverReapedSince(log[..n], k, timeout) && (log[n].Reap? ==> log[n].at - log[k].at <= timeout)
  {
    var front := log[..|log| - 1];
    assert forall j :: 0 <= j < |front| ==> front[j] == log[j];
  }

  /** first_seen is the time of the first heartbeat. */
  lemma {:induction false} FirstSeenFromLog(log: seq<Event>, id: string, k: int, timeout: real)
    requires IsFirstBeat(log, id, k)
    ensures id in Replay(log, timeout).m && Replay(log, timeout).m[id].firstSeen == log[k].at
    decreases |log|
  {
    var n := |log| - 1;
    var front := log[..n];
    assert forall j :: BeatAt(front, id, j) ==> BeatAt(log, id, j);
    assert k < n ==> IsFirstBeat(front, id, k);
    assert k == n ==> forall j :: !BeatAt(front, id, j);
    hide BeatAt, IsFirstBeat;
    if k < n {
      FirstSeenFromLog(front, id, k, timeout);
    } else {
      ListedFromLog(front, id, timeout);
    }
  }

  ghost predicate HasBeat(log: seq<Event>, id: string) {
    exists e :: BeatAt(log, id, e)
  }

  /** A node's first heartbeat is its first in the log but for the last event, or is that event. */
  lemma {:induction false} FirstBeatBefore(log: seq<Event>, id: string, k: int)
    requires IsFirstBeat(log, id, k)
    ensures HasBeat(log[..|log| - 1], id) ==> IsFirstBeat(log[..|log| - 1], id, k)
    ensures !HasBeat(log[..|log| - 1], id) ==> k == |log| - 1
  {
    var front := log[..|log| - 1];
    assert forall e :: 0 <= e < |front| ==> (BeatAt(log, id, e) <==> BeatAt(front, id, e));
    if e :| BeatAt(front, id, e) {
      assert k <= e;
    }
  }

  /** Listing order is first-heartbeat order. */
  lemma {:induction false} OrderFromLog(log: seq<Event>, i: nat, j: nat, a: int, b: int, timeout: real)
    requires i < j < |Replay(log, timeout).keys|
    requires IsFirstBeat(log, Replay(log, timeout).keys[i], a) && IsFirstBeat(log, Replay(log, timeout).keys[j], b)
    ensures a < b
    decreases |log|
  {
    var n := |log| - 1;
    var front := log[..n];
    var ks, ks' := Replay(front, timeout).keys, Replay(log, timeout).keys;
    var x, y := ks'[i], ks'[j];
    assert x == ks[i];
    ReplayValid(front, timeout);
    assert j >= |ks| ==> y !in Replay(front, timeout).m;
    ListedFromLog(front, x, timeout);
    ListedFromLog(front, y, timeout);
    FirstBeatBefore(log, x, a);
    FirstBeatBefore(log, y, b);
    assert HasBeat(front, x) && IsFirstBeat(front, x, a) && a < n;
    assert j < |ks| ==> y == ks[j] && HasBeat(front, y) && IsFirstBeat(front, y, b);
    assert j >= |ks| ==> !HasBeat(front, y) && b == n;
    hide Replay, IsFirstBeat, BeatAt;
    if j < |ks| {
      OrderFromLog(front, i, j, a, b, timeout);
    }
  }

  lemma {:induction false} IdFromLog(log: seq<Event>, id: string, timeout: real)
    requires id in Replay(log, timeout).m
    ensures Replay(log, timeout).m[id].facts.nodeId == id
    decreases |log|
  {
    var front := log[..|log| - 1];
    if id in Replay(front, timeout).m {
      IdFromLog(front, id, timeout);
    }
  }

  /** A row of the listing is stale under an id exactly when that id's record is. */
  lemma {:induction false} StaleRowOf(log: seq<Event>, now: real, id: string, timeout: real)
    ensures var d := Replay(log, timeout);
            id in StaleIds(Rows(d), now, timeout) <==> id in d.m && Stale(d.m[id], now, timeout)
  {
    hide Replay, StaleIds, Stale;
    var d := Replay(log, timeout);
    ReplayValid(log, timeout);
    StaleIdsExactly(Rows(d), now, timeout, id);
    if i :| 0 <= i < |d.keys| && Rows(d)[i].facts.nodeId == id && Stale(Rows(d)[i], now, timeout) {
      IdFromLog(log, d.keys[i], timeout);
    }
    if id in d.m {
      IdFromLog(log, id, timeout);
      var i :| 0 <= i < |d.keys| && d.keys[i] == id;
      assert Rows(d)[i] == d.m[id];
    }
  }

  /** A reap reports a node exactly when it is the first, since the node's last heartbeat, to see too large a gap. */
  lemma {:induction false} ReportedExactlyWhen(log: seq<Event>, j: nat, id: string, timeout: real)
    requires j < |log| && log[j].Reap?
    ensures id in Reported(log, j, timeout) <==>
            exists k ::
              && IsLastBeat(log[..j], id, k) && log[j].at - log[k].at > timeout
              && NeverReapedSince(log[..j], k, timeout)
  {
    hide Replay, StaleIds;
    var front := log[..j];
    ListedFromLog(front, id, timeout);
    StaleRowOf(front, log[j].at, id, timeout);
    if k0 :| BeatAt(front, id, k0) {
      var k := LastBeatFrom(front, id, k0);
      StatusFromLog(front, id, k, timeout);
    }
  }

  /** A reap reports each node once, in listing order. */
  lemma {:induction false} ReportedInOrder(log: seq<Event>, j: nat, timeout: real, a: nat, b: nat)
    requires j < |log| && log[j].Reap? && a < b < |Reported(log, j, timeout)|
    ensures ComesBefore(Replay(log[..j], timeout).keys, Reported(log, j, timeout)[a], Reported(log, j, timeout)[b])
    ensures Reported(log, j, timeout)[a] != Reported(log, j, timeout)[b]
  {
    hide Replay, StaleIds;
    var d := Replay(log[..j], timeout);
    ReplayValid(log[..j], timeout);
    var at := StaleIdsPicks(Rows(d), log[j].at, timeout);
    IdFromLog(log[..j], d.keys[at[a]], timeout);
    IdFromLog(log[..j], d.keys[at[b]], timeout);
  }

  lemma {:induction false} LastBeatFrom(log: seq<Event>, id: string, k: int) returns (last: int)
    requires BeatAt(log, id, k)
    ensures k <= last && IsLastBeat(log, id, last)
    decreases |log| - k
  {
    last := k;
    if j :| k < j < |log| && BeatAt(log, id, j) {
      last := LastBeatFrom(log, id, j);
    }
  }

  /** Each outage is reported once: between two reports of a node lies one of its heartbeats. */
  lemma {:induction false} OneReportPerOutage(log: seq<Event>, i: nat, j: nat, id: string, timeout: real)
    requires i < j < |log| && log[i].Reap? && log[j].Reap?
    requires id in Reported(log, i, timeout) && id in Reported(log, j, timeout)
    ensures exists b :: i < b < j && BeatAt(log, id, b)
  {
    hide Replay, StaleIds, Reported;
    ReportedExactlyWhen(log, i, id, timeout);
    ReportedExactlyWhen(log, j, id, timeout);
    var a :| IsLastBeat(log[..i], id, a) && log[i].at - log[a].at > timeout && NeverReapedSince(log[..i], a, timeout);
    var b :| IsLastBeat(log[..j], id, b) && log[j].at - log[b].at > timeout && NeverReapedSince(log[..j], b, timeout);
    assert BeatAt(log, id, b) && BeatAt(log[..j], id, a);
    assert b < i ==> BeatAt(log[..i], id, b);
    assert log[..j][i] == log[i];
    // the reap at i saw too large a gap since a, so a is not the last heartbeat before j
    assert a != b;
  }

  /** An outage is reported: of the reaps since the last heartbeat of a node shown unavailable, some
      one reported it, and only that one. */
  lemma {:induction false} EachOutageReported(log: seq<Event>, id: string, k: int, timeout: real) returns (j: nat)
    requires IsLastBeat(log, id, k)
    requires id in Replay(log, timeout).m && Replay(log, timeout).m[id].status == Unavailable
    ensures k < j < |log| && log[j].Reap? && id in Reported(log, j, timeout)
    ensures forall i :: k < i < |log| && log[i].Reap? && id in Reported(log, i, timeout) ==> i == j
  {
    StatusFromLog(log, id, k, timeout);
    j :| k < j < |log| && log[j].Reap? && log[j].at - log[k].at > timeout;
    j := FirstStrike(log, k, j, timeout);
    assert IsLastBeat(log[..j], id, k) by {
      assert forall i :: 0 <= i < j ==> (BeatAt(log[..j], id, i) <==> BeatAt(log, id, i));
    }
    assert log[..j][k] == log[k];
    ReportedExactlyWhen(log, j, id, timeout);
    forall i | k < i < |log| && log[i].Reap? && id in Reported(log, i, timeout) && i != j
      ensures false
    {
      OneReportPerOutage(log, if i < j then i else j, if i < j then j else i, id, timeout);
    }
  }

  lemma {:induction false} FirstStrike(log: seq<Event>, k: int, j0: nat, timeout: real) returns (j: nat)
    requires 0 <= k < j0 < |log| && log[j0].Reap? && log[j0].at - log[k].at > timeout
    ensures k < j <= j0 && log[j].Reap? && log[j].at - log[k].at > timeout && NeverReapedSince(log[..j], k, timeout)
    decreases j0
  {
    j := j0;
    if !NeverReapedSince(log[..j0], k, timeout) {
      var i :| k < i < j0 && log[i].Reap? && log[i].at - log[k].at > timeout;
      j := FirstStrike(log, k, i, timeout);
    }
  }

  /** On a clock that never runs back, the latest reap alone decides. */
  lemma {:induction false} LatestReapDecides(log: seq<Event>, id: string, k: int, j: int, timeout: real)
    requires forall a, b :: 0 <= a <= b < |log| ==> log[a].at <= log[b].at
    requires IsLastBeat(log, id, k) && k < j < |log| && log[j].Reap?
    requires forall i :: j < i < |log| ==> !log[i].Reap?
    ensures id in Replay(log, timeout).m
    ensures Replay(log, timeout).m[id].status == Available <==> log[j].at - log[k].at <= timeout
  {
    StatusFromLog(log, id, k, timeout);
    assert NeverReapedSince(log, k, timeout) <==> log[j].at - log[k].at <= timeout;
  }

  // ---------- Who is available, by the log ----------

  /** The k-th event is a node's last heartbeat, and no reap since then saw too large a gap. */
  ghost predicate KeepsAlive(log: seq<Event>, k: int, timeout: real) {
    && 0 <= k < |log| && log[k].Heartbeat? && IsLastBeat(log, log[k].facts.nodeId, k)
    && NeverReapedSince(log, k, timeout)
  }

  /** The nodes whose last heartbeat no reap has found too old since. */
  ghost function AliveIds(log: seq<Event>, timeout: real): set<string> {
    set k | 0 <= k < |log| && KeepsAlive(log, k, timeout) :: log[k].facts.nodeId
  }

  /** A node is shown available exactly when it is alive. */
  lemma {:induction false} AvailableIsAlive(log: seq<Event>, id: string, timeout: real)
    ensures id in AliveIds(log, timeout) <==>
            id in Replay(log, timeout).m && Replay(log, timeout).m[id].status == Available
  {
    hide Replay;
    ListedFromLog(log, id, timeout);
    if k0 :| BeatAt(log, id, k0) {
      var k := LastBeatFrom(log, id, k0);
      StatusFromLog(log, id, k, timeout);
      assert NeverReapedSince(log, k, timeout) <==> KeepsAlive(log, k, timeout);
      assert forall j :: KeepsAlive(log, j, timeout) && log[j].facts.nodeId == id ==> j == k;
    }
  }

  /** The available records, as the log tells them: a record for each node that is alive and for no
      other, with what its last heartbeat carried, in the order of their first heartbeats. */
  ghost predicate ShowsAlive(facts: seq<NodeFacts>, log: seq<Event>, timeout: real) {
    && (forall id :: id in AliveIds(log, timeout) <==> exists i :: 0 <= i < |facts| && facts[i].nodeId == id)
    && (forall i, j :: 0 <= i < j < |facts| ==> facts[i].nodeId != facts[j].nodeId)
    && (forall i, k :: 0 <= i < |facts| && IsLastBeat(log, facts[i].nodeId, k) ==> facts[i] == log[k].facts)
    && (forall i, j, a, b ::
          && 0 <= i < j < |facts|
          && IsFirstBeat(log, facts[i].nodeId, a) && IsFirstBeat(log, facts[j].nodeId, b)
          ==> a < b)
  }
}
