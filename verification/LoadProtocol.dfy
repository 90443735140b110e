/**
 orchestrator/pipeline.py, PipelineRunner.load, together with the workers it dispatches to and the
 ResultStore through which they report: all of them stepping concurrently.

 The orchestrator creates every slot, dispatches LoadShard to the workers in plan order, then waits
 on all slots at once and collects the outcomes as they come.  Meanwhile each worker takes the
 steps of module WorkerLoad and the store those of module ResultStoreProtocol, and anything else
 may happen to other models and to other requests.
 */
module LoadProtocol {
  import opened Wrappers
  import opened Dispatch
  import Store = ResultStoreProtocol
  import WL = WorkerLoad

  /** What a worker holds for a model: the range it was built for and the address it forwards to. */
  datatype Placement = Placement(layerStart: int, layerEnd: int, nextWorkerAddress: string)

  datatype Verdict = Running | Returned | Failed

  datatype State = State(
    store: Store.State<string, WL.Report>,
    workers: seq<WL.State<Placement>>,   // at the address of each assignment, in plan order
    gone: seq<set<nat>>,                 // per worker, the threads whose report has arrived, or never will
    created: nat,                        // slots created so far
    dispatched: nat,                     // workers that have been sent their LoadShard
    waitOf: map<nat, nat>,               // which wait() each assignment's thread runs
    done: set<nat>,                      // assignments whose success has been collected
    verdict: Verdict)

  /** What becomes of one LoadShard call: it fails before it takes effect, or after, or is answered. */
  datatype Call = Lost | ReplyLost | Answered

  datatype Action =
    | CreateSlot
    | Dispatch(call: Call)
    | StartWait(i: nat)                                              // a pool thread enters wait()
    | Collect(i: nat)                                                // as_completed yields its future
    | Background(i: nat, t: nat, outcome: Result<(), string>)        // a worker's load returns or raises
    | Report(i: nat, t: nat)                                         // a worker calls ReportShardReady
    | Arrive(i: nat, t: nat)                                         // its report arrives, however late
    | Lose(i: nat, t: nat)                                           // its report will not arrive any more
    | StoreStep(step: Store.Action<string, WL.Report>)               // threads inside the store, and other requests
    // a worker is asked to load or unload another model
    | OtherModel(i: nat, ask: WL.Action<Placement>)

  function KeyOf(model: string, node: string): string {
    "shard:" + model + ":" + node
  }

  function Key(plan: DispatchPlan, i: nat): string
    requires i < |plan.assignments|
  {
    KeyOf(plan.modelName, plan.assignments[i].nodeId)
  }

  function Request(plan: DispatchPlan, callback: string, i: nat): WL.LoadRequest
    requires i < |plan.assignments|
  {
    var a := plan.assignments[i];
    WL.LoadRequest(plan.modelName, a.layerStart, a.layerEnd, plan.totalLayers, a.nextWorkerAddress, callback)
  }

  function Built(r: WL.LoadRequest): Placement {
    Placement(r.layerStart, r.layerEnd, r.nextWorkerAddress)
  }

  function Planned(plan: DispatchPlan, i: nat): Placement
    requires i < |plan.assignments|
  {
    var a := plan.assignments[i];
    Placement(a.layerStart, a.layerEnd, a.nextWorkerAddress)
  }

  /** Host names hold no colon, and the registry keeps one record per node id. */
  ghost predicate GoodPlan(plan: DispatchPlan) {
    && plan.assignments != []
    && (forall i :: 0 <= i < |plan.assignments| ==> ':' !in plan.assignments[i].nodeId)
    && (forall i, j :: 0 <= i < j < |plan.assignments| ==> plan.assignments[i].nodeId != plan.assignments[j].nodeId)
  }

  ghost predicate OurKey(plan: DispatchPlan, key: string) {
    exists i :: 0 <= i < |plan.assignments| && key == Key(plan, i)
  }

  // ---------- Steps ----------

  ghost predicate StoreStepAllowed(plan: DispatchPlan, a: Store.Action<string, WL.Report>) {
    a.Create? || a.Store? || a.Lookup? ==> !OurKey(plan, a.id)
  }

  /** A worker is asked about another model; this one is neither loaded twice nor unloaded meanwhile. */
  ghost predicate OtherModelAllowed(plan: DispatchPlan, a: WL.Action<Placement>) {
    (a.Load? && a.request.modelName != plan.modelName) || (a.Unload? && a.name != plan.modelName)
  }

  ghost predicate Collectable(s: State, i: nat) {
    && i in s.waitOf && i !in s.done && s.waitOf[i] < |s.store.waits|
    && !Store.Waiting(s.store.waits[s.waitOf[i]].phase)
  }

  /** A report has been sent and may still arrive; the worker may have given its call up by then. */
  ghost predicate UnderWay(s: State, i: nat, t: nat) {
    && i < |s.workers| == |s.gone| && t < |s.workers[i].threads|
    && s.workers[i].threads[t].phase.Done? && t !in s.gone[i]
  }

  ghost predicate Enabled(plan: DispatchPlan, s: State, a: Action) {
    var n := |plan.assignments|;
    |s.workers| == |s.gone| == n &&
    match a
    case CreateSlot => s.verdict == Running && s.created < n
    case Dispatch(_) => s.verdict == Running && s.created == n && s.dispatched < n
    case StartWait(i) =>
      s.verdict == Running && s.dispatched == n && i < n && i !in s.waitOf
    case Collect(i) => s.verdict == Running && s.dispatched == n && Collectable(s, i)
    case Background(i, t, _) => i < n && WL.Enabled(s.workers[i], WL.Finish(t, Err("")))
    case Report(i, t) => i < n && WL.Enabled(s.workers[i], WL.Attempt(t))
    case Arrive(i, t) => UnderWay(s, i, t)
    case Lose(i, t) => UnderWay(s, i, t)
    case StoreStep(act) => StoreStepAllowed(plan, act) && Store.Enabled(s.store, act)
    case OtherModel(i, act) => i < n && OtherModelAllowed(plan, act)
  }

  ghost function WorkerSteps(s: State, i: nat, a: WL.Action<Placement>): State
    requires i < |s.workers| && WL.Enabled(s.workers[i], a)
  {
    s.(workers := s.workers[i := WL.After(s.workers[i], a)])
  }

  ghost function BuildOutcome(r: WL.LoadRequest, outcome: Result<(), string>): Result<Placement, string> {
    match outcome
    case Ok(_) => Ok(Built(r))
    case Err(e) => Err(e)
  }

  ghost function AfterCollect(s: State, i: nat, n: nat): State
    requires Collectable(s, i)
  {
    var phase := s.store.waits[s.waitOf[i]].phase;
    if phase.Returned? && phase.result.Some? && phase.result.value.success then
      var done := s.done + {i};
      s.(done := done, verdict := if forall k :: 0 <= k < n ==> k in done then Returned else Running)
    else s.(verdict := Failed)
  }

  ghost function After(plan: DispatchPlan, callback: string, s: State, a: Action): State
    requires Enabled(plan, s, a)
  {
    match a
    case CreateSlot =>
      s.(store := Store.After(s.store, Store.Create(Key(plan, s.created))), created := s.created + 1)
    case Dispatch(call) =>
      if call.Lost? then s.(verdict := Failed)
      else
        var i := s.dispatched;
        var r := Request(plan, callback, i);
        var rejected := r.modelName !in s.workers[i].models && r.modelName in s.workers[i].loading;
        WorkerSteps(s, i, WL.Load(r)).(
          dispatched := i + 1, verdict := if call.ReplyLost? || rejected then Failed else Running)
    case StartWait(i) =>
      if Key(plan, i) !in s.store.slots then s.(verdict := Failed)
      else s.(store := Store.After(s.store, Store.Lookup(Key(plan, i))), waitOf := s.waitOf[i := |s.store.waits|])
    case Collect(i) => AfterCollect(s, i, |plan.assignments|)
    case Background(i, t, outcome) =>
      WorkerSteps(s, i, WL.Finish(t, BuildOutcome(s.workers[i].threads[t].request, outcome)))
    case Report(i, t) => WorkerSteps(s, i, WL.Attempt(t))
    case Arrive(i, t) =>
      var thread := s.workers[i].threads[t];
      var key := KeyOf(thread.request.modelName, plan.assignments[i].nodeId);
      s.(store := Store.After(s.store, Store.Store(key, thread.phase.report)), gone := s.gone[i := s.gone[i] + {t}])
    case Lose(i, t) => s.(gone := s.gone[i := s.gone[i] + {t}])
    case StoreStep(act) => s.(store := Store.After(s.store, act))
    case OtherModel(i, act) => WorkerSteps(s, i, act)
  }

  /** The step a step of the whole takes inside the store, where it takes one. */
  ghost function StoreAction(plan: DispatchPlan, s: State, a: Action): Store.Action<string, WL.Report>
    requires Enabled(plan, s, a) && (a.CreateSlot? || a.StartWait? || a.Arrive? || a.StoreStep?)
  {
    match a
    case CreateSlot => Store.Create(Key(plan, s.created))
    case StartWait(i) => Store.Lookup(Key(plan, i))
    case Arrive(i, t) =>
      var thread := s.workers[i].threads[t];
      Store.Store(KeyOf(thread.request.modelName, plan.assignments[i].nodeId), thread.phase.report)
    case StoreStep(act) => act
  }

  ghost predicate Follows(plan: DispatchPlan, callback: string, s: State, a: Action, s': State) {
    Enabled(plan, s, a) && s' == After(plan, callback, s, a)
  }

  // ---------- Where one assignment stands ----------

  /** A load of the model in hand at this worker, or a report on it to make, or one still under way. */
  ghost predicate Active(w: WL.State<Placement>, gone: set<nat>, name: string, t: int) {
    && 0 <= t < |w.threads| && w.threads[t].request.modelName == name
    && (w.threads[t].phase.Done? ==> t !in gone)
  }

  ghost predicate GoneOk(w: WL.State<Placement>, gone: set<nat>) {
    forall t :: t in gone ==> t < |w.threads| && w.threads[t].phase.Done?
  }

  /** load() begins, for the first time or again: nobody is loading the model or about to report on
      it, and no report on it is still under way.  The model may be resident somewhere, and an earlier
      load() may have left slots behind, and threads that still wait on them. */
  ghost predicate Start(plan: DispatchPlan, s: State) {
    && GoodPlan(plan) && |s.workers| == |s.gone| == |plan.assignments|
    && s.created == s.dispatched == 0 && s.waitOf == map[] && s.done == {} && s.verdict == Running
    && (forall i :: 0 <= i < |s.workers| ==>
          && WL.LoadingOk(s.workers[i]) && GoneOk(s.workers[i], s.gone[i])
          && forall t :: !Active(s.workers[i], s.gone[i], plan.modelName, t))
  }

  /** No thread waits on any of the slots. */
  ghost predicate Unwaited(plan: DispatchPlan, s: State) {
    forall i :: 0 <= i < |plan.assignments| ==> !Store.WaitUnderWay(s.store, Key(plan, i))
  }

  /** One assignment's part of the state. */
  datatype Local = Local(
    worker: WL.State<Placement>, gone: set<nat>, created: bool, dispatched: bool,
    slot: Option<Option<WL.Report>>, wait: Option<Store.WaitPhase<WL.Report>>)

  ghost function LocalOf(plan: DispatchPlan, s: State, i: nat): Local
    requires i < |plan.assignments| == |s.workers| == |s.gone|
  {
    var key := Key(plan, i);
    Local(s.workers[i], s.gone[i], i < s.created, i < s.dispatched,
          if key in s.store.slots then Some(s.store.slots[key].result) else None,
          if i in s.waitOf && s.waitOf[i] < |s.store.waits| then Some(s.store.waits[s.waitOf[i]].phase) else None)
  }

  /** The report that has reached this assignment's slot or its wait. */
  ghost function Heard(l: Local): Option<WL.Report> {
    if !l.created then None
    else if l.slot.Some? then l.slot.value
    else if l.wait.Some? && l.wait.value.Returned? then l.wait.value.result
    else None
  }

  /** `held` is what this worker held for the model when load() began. */
  ghost predicate LocalOk(name: string, r: WL.LoadRequest, held: Option<Placement>, l: Local)
    requires r.modelName == name
  {
    var w := l.worker;
    && WL.LoadingOk(w) && GoneOk(w, l.gone)
    && (l.dispatched ==> l.created)
    // what it holds, if anything, is what it held before or else what it was sent
    && (name in w.models ==> w.models[name] == if held.Some? then held.value else Built(r))
    && (held.Some? ==> name in w.models)
    // at most one report is to come, about our request, and only once that was sent
    && (forall t :: Active(w, l.gone, name, t) ==>
          && l.dispatched && w.threads[t].request == r && Heard(l).None?
          && (!w.threads[t].phase.Loading? && w.threads[t].phase.report.success ==> name in w.models))
    && (forall t, u :: Active(w, l.gone, name, t) && Active(w, l.gone, name, u) ==> t == u)
    && (Heard(l).Some? ==> l.dispatched && (Heard(l).value.success ==> name in w.models))
    // the slot is gone once its own wait has ended
    && (l.wait.Some? ==> l.created && (!Store.Waiting(l.wait.value) ==> l.slot.None?))
  }

  ghost predicate AssignmentOk(plan: DispatchPlan, callback: string, before: seq<Option<Placement>>, s: State, i: nat)
    requires i < |plan.assignments| == |s.workers| == |s.gone| == |before|
  {
    LocalOk(plan.modelName, Request(plan, callback, i), before[i], LocalOf(plan, s, i))
  }

  ghost predicate AssignmentsOk(plan: DispatchPlan, callback: string, before: seq<Option<Placement>>, s: State) {
    && |plan.assignments| == |s.workers| == |s.gone| == |before|
    && forall i :: 0 <= i < |before| ==> AssignmentOk(plan, callback, before, s, i)
  }

  /** Each of our threads waits on its own assignment's slot. */
  ghost predicate WaitsNamed(plan: DispatchPlan, s: State) {
    forall i :: i in s.waitOf ==>
      i < |plan.assignments| && s.waitOf[i] < |s.store.waits| && s.store.waits[s.waitOf[i]].id == Key(plan, i)
  }

  /** Only our threads wait on our slots, and a slot is there until its thread takes it. */
  ghost predicate OnlyOurs(plan: DispatchPlan, s: State) {
    && (forall i, w :: 0 <= i < |plan.assignments| && 0 <= w < |s.store.waits|
                       && s.store.waits[w].id == Key(plan, i) && Store.Waiting(s.store.waits[w].phase) ==>
                         i in s.waitOf && s.waitOf[i] == w)
    && (forall i :: 0 <= i < |plan.assignments| && i < s.created && i !in s.waitOf ==> Key(plan, i) in s.store.slots)
  }

  /** Slots first, then calls, then waits; returned means everything was collected. */
  ghost predicate Ordered(plan: DispatchPlan, s: State) {
    var n := |plan.assignments|;
    && s.created <= n && s.dispatched <= n
    && (s.dispatched > 0 ==> s.created == n)
    && (s.waitOf != map[] ==> s.dispatched == n)
    && (s.verdict == Returned ==> forall i :: 0 <= i < n ==> i in s.done)
  }

  ghost predicate Succeeded(p: Store.WaitPhase<WL.Report>) {
    p.Returned? && p.result.Some? && p.result.value.success
  }

  ghost predicate DonesOk(s: State) {
    forall i :: i in s.done ==>
      i in s.waitOf && s.waitOf[i] < |s.store.waits| && Succeeded(s.store.waits[s.waitOf[i]].phase)
  }

  ghost predicate Inv(plan: DispatchPlan, callback: string, before: seq<Option<Placement>>, s: State) {
    && GoodPlan(plan) && Ordered(plan, s) && WaitsNamed(plan, s) && DonesOk(s)
    && AssignmentsOk(plan, callback, before, s)
  }

  // ---------- Keys ----------

  /** Node ids without a colon make the keys of different models and nodes different. */
  lemma {:induction false} KeyInjective(m1: string, n1: string, m2: string, n2: string)
    requires ':' !in n1 && ':' !in n2 && KeyOf(m1, n1) == KeyOf(m2, n2)
    ensures m1 == m2 && n1 == n2
  {
    var s := KeyOf(m1, n1);
    assert s[6 + |m1|] == ':' && s[6 + |m2|] == ':';
    assert forall j :: 6 + |m1| < j < |s| ==> s[j] == n1[j - 7 - |m1|];
    assert forall j :: 6 + |m2| < j < |s| ==> s[j] == n2[j - 7 - |m2|];
    assert |m1| == |m2|;
    assert s[6..6 + |m1|] == m1 && s[6..6 + |m2|] == m2;
    assert s[7 + |m1|..] == n1 && s[7 + |m2|..] == n2;
  }

  /** With a colon in a node id, two models' reports can meet in one slot. */
  lemma {:induction false} ColonsCollide()
    ensures KeyOf("a", "b:c") == KeyOf("a:b", "c")
  {
  }

  lemma {:induction false} KeysDiffer(plan: DispatchPlan, i: nat, j: nat)
    requires GoodPlan(plan) && i < |plan.assignments| && j < |plan.assignments| && Key(plan, i) == Key(plan, j)
    ensures i == j
  {
    KeyInjective(plan.modelName, plan.assignments[i].nodeId, plan.modelName, plan.assignments[j].nodeId);
  }

  // ---------- What one step does to one assignment ----------

  lemma {:induction false} LocalDispatch(name: string, r: WL.LoadRequest, held: Option<Placement>, l: Local)
    requires r.modelName == name && LocalOk(name, r, held, l) && l.created && !l.dispatched
    ensures name in l.worker.models || name !in l.worker.loading
    ensures LocalOk(name, r, held, l.(worker := WL.After(l.worker, WL.Load(r)), dispatched := true))
  {
    hide KeyOf;
    var w := l.worker;
    assert forall t :: WL.LoadsIn(w.threads, t, name) ==> Active(w, l.gone, name, t);
    WL.KeepsLoadingOk(w, WL.Load(r));
    var w' := WL.After(w, WL.Load(r));
    forall t | Active(w', l.gone, name, t)
      ensures t == |w.threads|
    {
      assert t < |w.threads| ==> Active(w, l.gone, name, t);
    }
  }

  /** While our request is loading, nothing is resident for it. */
  lemma {:induction false} OursNotResident(
    name: string, r: WL.LoadRequest, held: Option<Placement>, l: Local, t: nat)
    requires r.modelName == name && LocalOk(name, r, held, l) && t < |l.worker.threads| &&
             l.worker.threads[t].phase == WL.Loading && l.worker.threads[t].request.modelName == name
    ensures Active(l.worker, l.gone, name, t) && name !in l.worker.models && held.None?
  {
    hide KeyOf, Heard, GoneOk;
  }

  lemma {:induction false} LocalBackground(
    name: string, r: WL.LoadRequest, held: Option<Placement>, l: Local, t: nat, outcome: Result<(), string>)
    requires r.modelName == name && LocalOk(name, r, held, l) && t < |l.worker.threads| &&
             l.worker.threads[t].phase == WL.Loading
    ensures LocalOk(name, r, held,
                    l.(worker := WL.After(l.worker, WL.Finish(t, BuildOutcome(l.worker.threads[t].request, outcome)))))
  {
    hide KeyOf, WL.LoadingOk;
    var w := l.worker;
    var a := WL.Finish(t, BuildOutcome(w.threads[t].request, outcome));
    WL.KeepsLoadingOk(w, a);
    if w.threads[t].request.modelName == name {
      OursNotResident(name, r, held, l, t);
    }
    var w' := WL.After(w, a);
    assert Heard(l.(worker := w')) == Heard(l) && GoneOk(w', l.gone);
    hide Heard, GoneOk;
    assert forall u :: Active(w', l.gone, name, u) <==> Active(w, l.gone, name, u);
  }

  lemma {:induction false} LocalReport(name: string, r: WL.LoadRequest, held: Option<Placement>, l: Local, t: nat)
    requires r.modelName == name && LocalOk(name, r, held, l)
    requires t < |l.worker.threads| && l.worker.threads[t].phase.Reporting?
    ensures LocalOk(name, r, held, l.(worker := WL.After(l.worker, WL.Attempt(t))))
  {
    hide KeyOf, WL.LoadingOk;
    var w := l.worker;
    WL.KeepsLoadingOk(w, WL.Attempt(t));
    var w' := WL.After(w, WL.Attempt(t));
    assert forall u :: Active(w', l.gone, name, u) <==> Active(w, l.gone, name, u);
  }

  /** A report arrives at our slot if it is about our model and the slot is there. */
  ghost function SlotAfterArrival(l: Local, name: string, t: nat): Option<Option<WL.Report>>
    requires t < |l.worker.threads| && l.worker.threads[t].phase.Done?
  {
    var thread := l.worker.threads[t];
    if thread.request.modelName == name && l.slot.Some? then Some(Some(thread.phase.report)) else l.slot
  }

  lemma {:induction false} LocalArrival(
    name: string, r: WL.LoadRequest, held: Option<Placement>, l: Local, t: nat, slot: Option<Option<WL.Report>>)
    requires r.modelName == name && LocalOk(name, r, held, l)
    requires t < |l.worker.threads| && l.worker.threads[t].phase.Done? && t !in l.gone
    requires slot == l.slot || slot == SlotAfterArrival(l, name, t)
    ensures LocalOk(name, r, held, l.(gone := l.gone + {t}, slot := slot))
  {
    var w := l.worker;
    assert forall u :: Active(w, l.gone + {t}, name, u) <==> Active(w, l.gone, name, u) && u != t;
    if w.threads[t].request.modelName == name {
      assert Active(w, l.gone, name, t);
    }
  }

  lemma {:induction false} LocalOther(
    name: string, r: WL.LoadRequest, held: Option<Placement>, l: Local, a: WL.Action<Placement>)
    requires r.modelName == name && LocalOk(name, r, held, l)
    requires (a.Load? && a.request.modelName != name) || (a.Unload? && a.name != name)
    ensures LocalOk(name, r, held, l.(worker := WL.After(l.worker, a)))
  {
    hide KeyOf, WL.LoadingOk;
    var w := l.worker;
    WL.KeepsLoadingOk(w, a);
    var w' := WL.After(w, a);
    assert Heard(l.(worker := w')) == Heard(l) && GoneOk(w', l.gone);
    hide Heard, GoneOk;
    assert forall u :: Active(w', l.gone, name, u) <==> Active(w, l.gone, name, u);
  }

  /** What a step inside the store may do to one of our slots: nothing, move its wait along, end its
      wait and take the slot out, or take the slot out for a wait that an earlier load() left. */
  ghost predicate LocalStoreStep(l: Local, l': Local) {
    || l' == l
    || l' == l.(slot := None)
    || (l.wait.Some? && Store.Waiting(l.wait.value) && WaitMoves(l, l'))
  }

  ghost predicate WaitMoves(l: Local, l': Local) {
    || (l'.wait.Some? && Store.Waiting(l'.wait.value) && l' == l.(wait := l'.wait))
    || l' == l.(slot := None, wait := Some(Store.TimedOut))
    || l' == l.(slot := None, wait := Some(Store.Returned(if l.slot.Some? then l.slot.value else None)))
  }

  lemma {:induction false} LocalStore(name: string, r: WL.LoadRequest, held: Option<Placement>, l: Local, l': Local)
    requires r.modelName == name && LocalOk(name, r, held, l) && LocalStoreStep(l, l')
    ensures LocalOk(name, r, held, l')
  {
    hide WL.LoadingOk, Active, KeyOf;
  }

  // ---------- What one step does to the whole ----------

  lemma {:induction false} KeyIsOurs(plan: DispatchPlan, i: nat)
    requires i < |plan.assignments|
    ensures OurKey(plan, Key(plan, i))
  {
  }

  /** The store's own steps, seen from one of our slots. */
  lemma {:induction false} StoreStepLocally(plan: DispatchPlan, s: State, act: Store.Action<string, WL.Report>, i: nat)
    requires i < |plan.assignments| == |s.workers| == |s.gone| && WaitsNamed(plan, s)
    requires StoreStepAllowed(plan, act) && Store.Enabled(s.store, act)
    ensures LocalStoreStep(LocalOf(plan, s, i), LocalOf(plan, s.(store := Store.After(s.store, act)), i))
  {
    hide KeyOf, Key;
    KeyIsOurs(plan, i);
    hide OurKey;
  }

  /** A delivery for a key, seen from one of our slots. */
  lemma {:induction false} DeliveryLocally(plan: DispatchPlan, s: State, key: string, report: WL.Report, i: nat)
    requires i < |plan.assignments| == |s.workers| == |s.gone|
    ensures var l := LocalOf(plan, s, i);
            LocalOf(plan, s.(store := Store.After(s.store, Store.Store(key, report))), i)
              == if key == Key(plan, i) && l.slot.Some? then l.(slot := Some(Some(report))) else l
  {
  }

  /** Waits only ever gain phases, and finished ones stay as they are. */
  ghost predicate WaitProgresses(before: Store.State<string, WL.Report>, after: Store.State<string, WL.Report>, w: nat)
    requires w < |before.waits|
  {
    && w < |after.waits| && after.waits[w].id == before.waits[w].id
    && (Store.Waiting(after.waits[w].phase) ==> Store.Waiting(before.waits[w].phase))
    && (!Store.Waiting(before.waits[w].phase) ==> after.waits[w] == before.waits[w])
  }

  lemma {:induction false} StoreWaitsProgress(
    store: Store.State<string, WL.Report>, act: Store.Action<string, WL.Report>, w: nat)
    requires Store.Enabled(store, act) && w < |store.waits|
    ensures WaitProgresses(store, Store.After(store, act), w)
  {
  }

  lemma {:induction false} WaitsProgress(plan: DispatchPlan, callback: string, s: State, a: Action, w: nat)
    requires Enabled(plan, s, a) && w < |s.store.waits|
    ensures WaitProgresses(s.store, After(plan, callback, s, a).store, w)
  {
    hide WL.After, WL.Enabled, KeyOf, GoodPlan, Key, Store.After;
    var s' := After(plan, callback, s, a);
    if s'.store != s.store {
      var act := StoreAction(plan, s, a);
      StoreWaitsProgress(s.store, act, w);
    }
  }

  lemma {:induction false} OldWaitStaysLinked(plan: DispatchPlan, callback: string, s: State, a: Action, i: nat, w: nat)
    requires Enabled(plan, s, a) && i in s.waitOf && s.waitOf[i] == w
    ensures var s' := After(plan, callback, s, a); i in s'.waitOf && s'.waitOf[i] == w
  {
    hide WL.After, Store.After, KeyOf;
  }

  /** A wait that one of our threads begins is on its own slot. */
  lemma {:induction false} NewWaitNamed(plan: DispatchPlan, callback: string, s: State, a: Action, i: nat)
    requires Enabled(plan, s, a) && i in After(plan, callback, s, a).waitOf && i !in s.waitOf
    ensures var s' := After(plan, callback, s, a);
            i < |plan.assignments| && s'.waitOf[i] < |s'.store.waits| && s'.store.waits[s'.waitOf[i]].id == Key(plan, i)
  {
    hide WL.After, KeyOf;
  }

  lemma {:induction false} KeepsWaitsNamed(plan: DispatchPlan, callback: string, s: State, a: Action)
    requires WaitsNamed(plan, s) && Enabled(plan, s, a)
    ensures WaitsNamed(plan, After(plan, callback, s, a))
  {
    hide After, Enabled, KeyOf, Key;
    var s' := After(plan, callback, s, a);
    forall i | i in s'.waitOf
      ensures i < |plan.assignments| && s'.waitOf[i] < |s'.store.waits| &&
              s'.store.waits[s'.waitOf[i]].id == Key(plan, i)
    {
      if i in s.waitOf {
        WaitsProgress(plan, callback, s, a, s.waitOf[i]);
        OldWaitStaysLinked(plan, callback, s, a, i, s.waitOf[i]);
      } else {
        NewWaitNamed(plan, callback, s, a, i);
      }
    }
  }

  lemma {:induction false} NewWaitIsLinked(plan: DispatchPlan, callback: string, s: State, a: Action, i: nat, w: nat)
    requires GoodPlan(plan) && Enabled(plan, s, a) && i < |plan.assignments|
    requires |s.store.waits| <= w < |After(plan, callback, s, a).store.waits|
    requires After(plan, callback, s, a).store.waits[w].id == Key(plan, i)
    ensures var s' := After(plan, callback, s, a); i in s'.waitOf && s'.waitOf[i] == w
  {
    hide WL.After, KeyOf, GoodPlan;
    KeyIsOurs(plan, i);
    if a.StartWait? {
      KeysDiffer(plan, i, a.i);
    }
  }

  /** Only a wait takes a slot out. */
  lemma {:induction false} StoreKeepsSlot(
    store: Store.State<string, WL.Report>, act: Store.Action<string, WL.Report>, key: string)
    requires Store.Enabled(store, act) && key in store.slots
    requires act.Pop? ==> store.waits[act.w].id != key
    ensures key in Store.After(store, act).slots
  {
  }

  lemma {:induction false} StoreHasCreated(store: Store.State<string, WL.Report>, key: string)
    ensures key in Store.After(store, Store.Create(key)).slots
  {
  }

  /** A slot that only our own threads wait on stays until its own thread has begun to wait. */
  lemma {:induction false} SlotStays(plan: DispatchPlan, callback: string, s: State, a: Action, i: nat)
    requires GoodPlan(plan) && Ordered(plan, s) && OnlyOurs(plan, s) && Enabled(plan, s, a)
    requires i < |plan.assignments| && i < After(plan, callback, s, a).created &&
             i !in After(plan, callback, s, a).waitOf
    ensures Key(plan, i) in After(plan, callback, s, a).store.slots
  {
    hide WL.After, WL.Enabled, Store.After, KeyOf, GoodPlan, Key;
    if a.CreateSlot? || a.StartWait? || a.Arrive? || a.StoreStep? {
      var act := StoreAction(plan, s, a);
      if a.CreateSlot? && i == s.created {
        StoreHasCreated(s.store, Key(plan, i));
      } else {
        assert act.Pop? ==> a.StoreStep? && Store.Waiting(s.store.waits[act.w].phase);
        StoreKeepsSlot(s.store, act, Key(plan, i));
      }
    }
  }

  lemma {:induction false} KeepsOnlyOurs(plan: DispatchPlan, callback: string, s: State, a: Action)
    requires GoodPlan(plan) && Ordered(plan, s) && OnlyOurs(plan, s) && Enabled(plan, s, a)
    ensures OnlyOurs(plan, After(plan, callback, s, a))
  {
    hide After, Enabled, GoodPlan, Ordered, KeyOf, Key;
    var s' := After(plan, callback, s, a);
    forall i, w | 0 <= i < |plan.assignments| && 0 <= w < |s'.store.waits|
                  && s'.store.waits[w].id == Key(plan, i) && Store.Waiting(s'.store.waits[w].phase)
      ensures i in s'.waitOf && s'.waitOf[i] == w
    {
      if w < |s.store.waits| {
        WaitsProgress(plan, callback, s, a, w);
        OldWaitStaysLinked(plan, callback, s, a, i, w);
      } else {
        NewWaitIsLinked(plan, callback, s, a, i, w);
      }
    }
    forall i | 0 <= i < |plan.assignments| && i < s'.created && i !in s'.waitOf
      ensures Key(plan, i) in s'.store.slots
    {
      SlotStays(plan, callback, s, a, i);
    }
  }

  lemma {:induction false} KeepsDonesOk(plan: DispatchPlan, callback: string, s: State, a: Action)
    requires DonesOk(s) && Enabled(plan, s, a)
    ensures DonesOk(After(plan, callback, s, a))
  {
    hide Store.After, WL.After, KeyOf, Key;
    var s' := After(plan, callback, s, a);
    forall i | i in s'.done
      ensures i in s'.waitOf && s'.waitOf[i] < |s'.store.waits| && Succeeded(s'.store.waits[s'.waitOf[i]].phase)
    {
      if i in s.done {
        WaitsProgress(plan, callback, s, a, s.waitOf[i]);
      }
    }
  }

  lemma {:induction false} KeepsOrdered(plan: DispatchPlan, callback: string, s: State, a: Action)
    requires Ordered(plan, s) && Enabled(plan, s, a)
    ensures Ordered(plan, After(plan, callback, s, a))
  {
  }

  /** What a step does nothing to: every assignment, or all but the worker's that takes it. */
  lemma {:induction false} OthersUntouched(plan: DispatchPlan, callback: string, s: State, a: Action, i: nat)
    requires Enabled(plan, s, a) && i < |plan.assignments|
    requires a.Collect? || ((a.Background? || a.Report? || a.Lose? || a.OtherModel?) && a.i != i)
    ensures var s' := After(plan, callback, s, a);
            |s'.workers| == |s'.gone| == |plan.assignments| && LocalOf(plan, s', i) == LocalOf(plan, s, i)
  {
    hide WL.After, KeyOf;
  }

  lemma {:induction false} KeepsAssignmentOk(
    plan: DispatchPlan, callback: string, before: seq<Option<Placement>>, s: State, a: Action, i: nat)
    requires Inv(plan, callback, before, s) && Enabled(plan, s, a) && i < |plan.assignments|
    ensures |After(plan, callback, s, a).workers| == |After(plan, callback, s, a).gone| == |before|
    ensures AssignmentOk(plan, callback, before, After(plan, callback, s, a), i)
  {
    hide LocalOk, LocalOf, After, KeyOf, Inv;
    InvAt(plan, callback, before, s, i);
    KeepsLengths(plan, callback, s, a);
    match a
    case CreateSlot => CreateLocally(plan, callback, before, s, i);
    case Dispatch(call) => DispatchLocally(plan, callback, before, s, call, i);
    case StartWait(k) => StartWaitLocally(plan, callback, before, s, k, i);
    case Collect(k) => OthersUntouched(plan, callback, s, a, i);
    case Arrive(k, t) => ArriveLocally(plan, callback, before, s, k, t, i);
    case StoreStep(step) => StoreLocally(plan, callback, before, s, step, i);
    case _ =>
      if a.i == i {
        OwnWorkerStep(plan, callback, before, s, a);
      } else {
        OthersUntouched(plan, callback, s, a, i);
      }
  }

  lemma {:induction false} StoreLocally(plan: DispatchPlan, callback: string, before: seq<Option<Placement>>, s: State,
                                        step: Store.Action<string, WL.Report>, i: nat)
    requires Inv(plan, callback, before, s) && Enabled(plan, s, StoreStep(step)) && i < |plan.assignments|
    ensures AssignmentOk(plan, callback, before, After(plan, callback, s, StoreStep(step)), i)
  {
    hide LocalOk, WL.After, Store.After, KeyOf;
    assert AssignmentOk(plan, callback, before, s, i);
    StoreStepLocally(plan, s, step, i);
    LocalStore(plan.modelName, Request(plan, callback, i), before[i], LocalOf(plan, s, i),
               LocalOf(plan, After(plan, callback, s, StoreStep(step)), i));
  }

  /** The invariant, read for one assignment. */
  lemma {:induction false} InvAt(
    plan: DispatchPlan, callback: string, before: seq<Option<Placement>>, s: State, i: nat)
    requires Inv(plan, callback, before, s) && i < |plan.assignments|
    ensures |plan.assignments| == |s.workers| == |s.gone| == |before|
    ensures LocalOk(plan.modelName, Request(plan, callback, i), before[i], LocalOf(plan, s, i))
  {
    hide LocalOk, KeyOf, GoodPlan, Ordered, DonesOk, WaitsNamed;
    assert AssignmentOk(plan, callback, before, s, i);
  }

  /** A worker's own step is one of its worker's, and changes nothing else its assignment sees. */
  lemma {:induction false} OwnWorkerView(plan: DispatchPlan, callback: string, s: State, a: Action)
    requires Enabled(plan, s, a) && (a.Background? || a.Report? || a.OtherModel?)
    ensures |After(plan, callback, s, a).workers| == |s.workers| && After(plan, callback, s, a).gone == s.gone
    ensures var l, l' := LocalOf(plan, s, a.i), LocalOf(plan, After(plan, callback, s, a), a.i);
            var step := match a
                        case Background(_, t, outcome) =>
                          WL.Finish(t, BuildOutcome(l.worker.threads[t].request, outcome))
                        case Report(_, t) => WL.Attempt(t)
                        case OtherModel(_, ask) => ask;
            WL.Enabled(l.worker, step) && l' == l.(worker := WL.After(l.worker, step))
  {
    hide WL.After, KeyOf;
  }

  /** A worker's own step, or the loss of one of its reports, seen from its assignment. */
  lemma {:induction false} OwnWorkerStep(
    plan: DispatchPlan, callback: string, before: seq<Option<Placement>>, s: State, a: Action)
    requires Inv(plan, callback, before, s) && Enabled(plan, s, a)
    requires a.Background? || a.Report? || a.Lose? || a.OtherModel?
    ensures AssignmentOk(plan, callback, before, After(plan, callback, s, a), a.i)
  {
    hide Inv, LocalOk, WL.After, KeyOf;
    InvAt(plan, callback, before, s, a.i);
    if a.Lose? {
      LoseReportLocally(plan, callback, before, s, a.i, a.t);
    } else {
      hide After, LocalOf;
      var name, r, held := plan.modelName, Request(plan, callback, a.i), before[a.i];
      var l := LocalOf(plan, s, a.i);
      OwnWorkerView(plan, callback, s, a);
      match a
      case Background(_, t, outcome) => LocalBackground(name, r, held, l, t, outcome);
      case Report(_, t) => LocalReport(name, r, held, l, t);
      case OtherModel(_, ask) => LocalOther(name, r, held, l, ask);
    }
  }

  lemma {:induction false} LoseReportLocally(
    plan: DispatchPlan, callback: string, before: seq<Option<Placement>>, s: State, i: nat, t: nat)
    requires Inv(plan, callback, before, s) && Enabled(plan, s, Lose(i, t))
    ensures AssignmentOk(plan, callback, before, After(plan, callback, s, Lose(i, t)), i)
  {
    hide Inv, LocalOk, KeyOf;
    InvAt(plan, callback, before, s, i);
    var l := LocalOf(plan, s, i);
    LocalArrival(plan.modelName, Request(plan, callback, i), before[i], l, t, l.slot);
    assert LocalOf(plan, After(plan, callback, s, Lose(i, t)), i) == l.(gone := l.gone + {t}, slot := l.slot);
  }

  lemma {:induction false} CreateLocally(
    plan: DispatchPlan, callback: string, before: seq<Option<Placement>>, s: State, i: nat)
    requires Inv(plan, callback, before, s) && Enabled(plan, s, CreateSlot) && i < |plan.assignments|
    ensures AssignmentOk(plan, callback, before, After(plan, callback, s, CreateSlot), i)
  {
    var l, l' := LocalOf(plan, s, i), LocalOf(plan, After(plan, callback, s, CreateSlot), i);
    assert AssignmentOk(plan, callback, before, s, i);
    if i == s.created {
      assert l' == l.(created := true, slot := Some(None));
    } else {
      if Key(plan, i) == Key(plan, s.created) {
        KeysDiffer(plan, i, s.created);
      }
      assert l' == l;
    }
  }

  lemma {:induction false} DispatchLocally(
    plan: DispatchPlan, callback: string, before: seq<Option<Placement>>, s: State, call: Call, i: nat)
    requires Inv(plan, callback, before, s) && Enabled(plan, s, Dispatch(call)) && i < |plan.assignments|
    ensures AssignmentOk(plan, callback, before, After(plan, callback, s, Dispatch(call)), i)
  {
    var l, l' := LocalOf(plan, s, i), LocalOf(plan, After(plan, callback, s, Dispatch(call)), i);
    assert AssignmentOk(plan, callback, before, s, i);
    if i == s.dispatched && !call.Lost? {
      LocalDispatch(plan.modelName, Request(plan, callback, i), before[i], l);
      assert l' == l.(worker := l'.worker, dispatched := true);
    } else {
      assert l' == l;
    }
  }

  lemma {:induction false} LocalStartWait(name: string, r: WL.LoadRequest, held: Option<Placement>, l: Local)
    requires r.modelName == name && LocalOk(name, r, held, l) && l.created && l.slot.Some?
    ensures LocalOk(name, r, held, l.(wait := Some(Store.Blocked)))
  {
    hide WL.LoadingOk, Active, GoneOk, KeyOf;
  }

  lemma {:induction false} StartWaitView(plan: DispatchPlan, callback: string, s: State, k: nat, i: nat)
    requires Enabled(plan, s, StartWait(k)) && i < |plan.assignments| && WaitsNamed(plan, s)
    ensures var s' := After(plan, callback, s, StartWait(k));
            && |s'.workers| == |s'.gone| == |plan.assignments|
            && var l := LocalOf(plan, s, i);
               LocalOf(plan, s', i) == if i == k && l.slot.Some? then l.(wait := Some(Store.Blocked)) else l
  {
    hide KeyOf;
  }

  lemma {:induction false} StartWaitLocally(
    plan: DispatchPlan, callback: string, before: seq<Option<Placement>>, s: State, k: nat, i: nat)
    requires Inv(plan, callback, before, s) && Enabled(plan, s, StartWait(k)) && i < |plan.assignments|
    ensures AssignmentOk(plan, callback, before, After(plan, callback, s, StartWait(k)), i)
  {
    hide LocalOk, After, KeyOf, GoodPlan, DonesOk;
    var l := LocalOf(plan, s, i);
    InvAt(plan, callback, before, s, i);
    hide Inv, WaitsNamed;
    StartWaitView(plan, callback, s, k, i);
    if i == k && l.slot.Some? {
      LocalStartWait(plan.modelName, Request(plan, callback, i), before[i], l);
    }
  }

  lemma {:induction false} ArriveLocally(plan: DispatchPlan, callback: string, before: seq<Option<Placement>>, s: State,
                                         k: nat, t: nat, i: nat)
    requires Inv(plan, callback, before, s) && Enabled(plan, s, Arrive(k, t)) && i < |plan.assignments|
    ensures AssignmentOk(plan, callback, before, After(plan, callback, s, Arrive(k, t)), i)
  {
    hide WL.After, LocalOk;
    var name := plan.modelName;
    var l, l' := LocalOf(plan, s, i), LocalOf(plan, After(plan, callback, s, Arrive(k, t)), i);
    assert AssignmentOk(plan, callback, before, s, i);
    var thread := s.workers[k].threads[t];
    var key := KeyOf(thread.request.modelName, plan.assignments[k].nodeId);
    var noted := s.(gone := s.gone[k := s.gone[k] + {t}]);
    DeliveryLocally(plan, noted, key, thread.phase.report, i);
    if key == Key(plan, i) {
      KeyInjective(thread.request.modelName, plan.assignments[k].nodeId, name, plan.assignments[i].nodeId);
    }
    if k == i {
      LocalArrival(name, Request(plan, callback, i), before[i], l, t, SlotAfterArrival(l, name, t));
      assert l' == l.(gone := l.gone + {t}, slot := SlotAfterArrival(l, name, t));
    } else {
      assert l' == l;
    }
  }

  lemma {:induction false} KeepsLengths(plan: DispatchPlan, callback: string, s: State, a: Action)
    requires Enabled(plan, s, a)
    ensures var s' := After(plan, callback, s, a); |s'.workers| == |s.workers| && |s'.gone| == |s.gone|
  {
    hide WL.After, KeyOf, Store.After;
  }

  lemma {:induction false} KeepsInv(
    plan: DispatchPlan, callback: string, before: seq<Option<Placement>>, s: State, a: Action)
    requires Inv(plan, callback, before, s) && Enabled(plan, s, a)
    ensures Inv(plan, callback, before, After(plan, callback, s, a))
  {
    hide WL.After, KeyOf, LocalOk, After;
    KeepsLengths(plan, callback, s, a);
    KeepsWaitsNamed(plan, callback, s, a);
    KeepsDonesOk(plan, callback, s, a);
    KeepsOrdered(plan, callback, s, a);
    forall i | 0 <= i < |before|
      ensures AssignmentOk(plan, callback, before, After(plan, callback, s, a), i)
    {
      KeepsAssignmentOk(plan, callback, before, s, a, i);
    }
  }

  // ---------- Whole runs ----------

  /** What each worker holds for the model when load() begins. */
  ghost function HeldAt(plan: DispatchPlan, s: State): (held: seq<Option<Placement>>)
    ensures |held| == |s.workers|
  {
    seq(|s.workers|, i requires 0 <= i < |s.workers| =>
      if plan.modelName in s.workers[i].models then Some(s.workers[i].models[plan.modelName]) else None)
  }

  ghost predicate IsRun(plan: DispatchPlan, callback: string, states: seq<State>, actions: seq<Action>) {
    && |states| == |actions| + 1 && Start(plan, states[0])
    && forall i, j :: 0 <= i < |actions| && j == i + 1 ==> Follows(plan, callback, states[i], actions[i], states[j])
  }

  lemma {:induction false} StartHasInv(plan: DispatchPlan, callback: string, s: State)
    requires Start(plan, s)
    ensures Inv(plan, callback, HeldAt(plan, s), s)
  {
    forall i | 0 <= i < |s.workers|
      ensures AssignmentOk(plan, callback, HeldAt(plan, s), s, i)
    {
    }
  }

  lemma {:induction false} RunKeepsInv(
    plan: DispatchPlan, callback: string, states: seq<State>, actions: seq<Action>, i: nat)
    requires IsRun(plan, callback, states, actions) && i < |states|
    ensures Inv(plan, callback, HeldAt(plan, states[0]), states[i])
    decreases i
  {
    hide After, LocalOk, KeyOf;
    if i == 0 {
      StartHasInv(plan, callback, states[0]);
    } else {
      RunKeepsInv(plan, callback, states, actions, i - 1);
      assert Follows(plan, callback, states[i - 1], actions[i - 1], states[i]);
      KeepsInv(plan, callback, HeldAt(plan, states[0]), states[i - 1], actions[i - 1]);
    }
  }

  // ---------- What load() promises ----------

  /** No report can arrive before its slot exists: a worker has a load of this model in hand, or a
      report on it to make, only once every slot has been created. */
  lemma {:induction false} NoReportBeforeItsSlot(
    plan: DispatchPlan, callback: string, states: seq<State>, actions: seq<Action>, i: nat, k: nat, t: nat)
    requires IsRun(plan, callback, states, actions) && i < |states| && k < |plan.assignments|
    ensures |states[i].workers| == |states[i].gone| == |plan.assignments|
    ensures Active(states[i].workers[k], states[i].gone[k], plan.modelName, t) ==>
              states[i].created == |plan.assignments|
  {
    RunKeepsInv(plan, callback, states, actions, i);
    assert AssignmentOk(plan, callback, HeldAt(plan, states[0]), states[i], k);
  }

  /** load() never meets a worker that is already loading the model. */
  lemma {:induction false} NeverRejected(
    plan: DispatchPlan, callback: string, states: seq<State>, actions: seq<Action>, i: nat)
    requires IsRun(plan, callback, states, actions) && i < |states| && states[i].verdict == Running
    requires states[i].created == |plan.assignments| && states[i].dispatched < |plan.assignments|
    ensures |states[i].workers| == |states[i].gone| == |plan.assignments|
    ensures After(plan, callback, states[i], Dispatch(Answered)).verdict == Running
  {
    var s := states[i];
    var before := HeldAt(plan, states[0]);
    RunKeepsInv(plan, callback, states, actions, i);
    var k := s.dispatched;
    assert AssignmentOk(plan, callback, before, s, k);
    LocalDispatch(plan.modelName, Request(plan, callback, k), before[k], LocalOf(plan, s, k));
  }

  lemma {:induction false} RunKeepsOnlyOurs(
    plan: DispatchPlan, callback: string, states: seq<State>, actions: seq<Action>, i: nat)
    requires IsRun(plan, callback, states, actions) && i < |states| && Unwaited(plan, states[0])
    ensures OnlyOurs(plan, states[i])
    decreases i
  {
    hide WL.After, KeyOf;
    if i == 0 {
      forall k, w | 0 <= k < |plan.assignments| && 0 <= w < |states[0].store.waits|
                    && states[0].store.waits[w].id == Key(plan, k)
        ensures !Store.Waiting(states[0].store.waits[w].phase)
      {
        assert !Store.WaitUnderWay(states[0].store, Key(plan, k));
      }
    } else {
      RunKeepsOnlyOurs(plan, callback, states, actions, i - 1);
      RunKeepsInv(plan, callback, states, actions, i - 1);
      assert Follows(plan, callback, states[i - 1], actions[i - 1], states[i]);
      KeepsOnlyOurs(plan, callback, states[i - 1], actions[i - 1]);
    }
  }

  /** If nobody waited on the slots when load() began, each is there for its own thread to find, and
      no other thread waits on it. */
  lemma {:induction false} NeverMissesASlot(
    plan: DispatchPlan, callback: string, states: seq<State>, actions: seq<Action>, i: nat, k: nat)
    requires IsRun(plan, callback, states, actions) && i < |states| && k < |plan.assignments|
    requires Unwaited(plan, states[0]) && k < states[i].created && k !in states[i].waitOf
    ensures Key(plan, k) in states[i].store.slots && !Store.WaitUnderWay(states[i].store, Key(plan, k))
  {
    RunKeepsOnlyOurs(plan, callback, states, actions, i);
  }

  /** When load() returns, every assigned worker holds the model: what it already held when load()
      began or, if it held nothing, exactly its planned range and next address. */
  lemma {:induction false} ReturnedMeansHeld(
    plan: DispatchPlan, callback: string, states: seq<State>, actions: seq<Action>, i: nat, k: nat)
    requires IsRun(plan, callback, states, actions) && i < |states| && k < |plan.assignments|
    requires states[i].verdict == Returned
    ensures |states[i].workers| == |plan.assignments| && plan.modelName in states[i].workers[k].models
    ensures states[i].workers[k].models[plan.modelName]
              == if HeldAt(plan, states[0])[k].Some? then HeldAt(plan, states[0])[k].value else Planned(plan, k)
  {
    hide WL.LoadingOk, Active, GoneOk, KeyOf;
    RunKeepsInv(plan, callback, states, actions, i);
    assert AssignmentOk(plan, callback, HeldAt(plan, states[0]), states[i], k);
    assert k in states[i].done;
  }

  ghost predicate AllHoldPlanned(plan: DispatchPlan, s: State)
    requires |s.workers| == |plan.assignments|
  {
    forall k :: 0 <= k < |plan.assignments| ==>
      plan.modelName in s.workers[k].models && s.workers[k].models[plan.modelName] == Planned(plan, k)
  }

  /** Load safety, exactly: a load() that returns has put every worker where the plan wants it if
      and only if no worker already held the model in any other way. */
  lemma {:induction false} LoadSafety(
    plan: DispatchPlan, callback: string, states: seq<State>, actions: seq<Action>, i: nat)
    requires IsRun(plan, callback, states, actions) && i < |states| && states[i].verdict == Returned
    ensures |states[i].workers| == |plan.assignments|
    ensures AllHoldPlanned(plan, states[i]) <==>
            forall k :: 0 <= k < |plan.assignments| && plan.modelName in states[0].workers[k].models ==>
              states[0].workers[k].models[plan.modelName] == Planned(plan, k)
  {
    RunKeepsInv(plan, callback, states, actions, i);
    var held := HeldAt(plan, states[0]);
    forall k | 0 <= k < |plan.assignments|
      ensures plan.modelName in states[i].workers[k].models
      ensures states[i].workers[k].models[plan.modelName] == if held[k].Some? then held[k].value else Planned(plan, k)
    {
      ReturnedMeansHeld(plan, callback, states, actions, i, k);
    }
  }

  // ---------- How load() ends ----------

  /** The step is one of load()'s own. */
  predicate IsOwn(a: Action) {
    a.CreateSlot? || a.Dispatch? || a.StartWait? || a.Collect?
  }

  /** A worker that is loading the model refuses to load it. */
  ghost predicate Rejects(w: WL.State<Placement>, name: string) {
    name in w.loading && name !in w.models
  }

  /** What makes load() raise: a LoadShard call that fails, its effect notwithstanding, or that the
      worker rejects; a slot that is not there; a wait that timed out or reports no success. */
  ghost predicate Raises(plan: DispatchPlan, s: State, a: Action) {
    match a
    case Dispatch(call) =>
      call != Answered || (s.dispatched < |s.workers| && Rejects(s.workers[s.dispatched], plan.modelName))
    case StartWait(i) => i < |plan.assignments| && Key(plan, i) !in s.store.slots
    case Collect(i) =>
      i in s.waitOf && s.waitOf[i] < |s.store.waits| && !Succeeded(s.store.waits[s.waitOf[i]].phase)
    case _ => false
  }

  /** One step and how load() stands: it fails exactly by what makes it raise, a success is collected
      with the assignment it belongs to, and it returns with the last one. */
  lemma {:induction false} OneStepVerdict(plan: DispatchPlan, callback: string, s: State, a: Action)
    requires Enabled(plan, s, a)
    ensures var s' := After(plan, callback, s, a);
            && (IsOwn(a) ==> s.verdict == Running)
            && (s'.verdict == Failed <==> s.verdict == Failed || Raises(plan, s, a))
            && (s'.verdict == Returned <==>
                  s.verdict == Returned ||
                  (a.Collect? && !Raises(plan, s, a) && forall k :: 0 <= k < |plan.assignments| ==> k in s'.done))
            && s'.done == s.done + (if a.Collect? && !Raises(plan, s, a) then {a.i} else {})
  {
    hide WL.After, Store.After, KeyOf, GoodPlan;
  }

  /** A dispatch asks the next worker in plan order, and no other, for its own range and with its own
      next address, unless the call fails before it takes effect. */
  lemma {:induction false} DispatchAsks(plan: DispatchPlan, callback: string, s: State, call: Call)
    requires Enabled(plan, s, Dispatch(call))
    ensures var s', i := After(plan, callback, s, Dispatch(call)), s.dispatched;
            && |s'.workers| == |s.workers|
            && (forall k :: 0 <= k < |s.workers| && k != i ==> s'.workers[k] == s.workers[k])
            && if call == Lost then s'.workers == s.workers && s'.dispatched == i
               else
                 var a, log, log' := plan.assignments[i], s.workers[i].log, s'.workers[i].log;
                 && s'.dispatched == i + 1 && |log'| == |log| + 1 && log'[..|log|] == log
                 && !log'[|log|].Attempted? && (log'[|log|].Rejected? <==> Rejects(s.workers[i], plan.modelName))
                 && log'[|log|].request == WL.LoadRequest(plan.modelName, a.layerStart, a.layerEnd, plan.totalLayers,
                                                          a.nextWorkerAddress, callback)
  {
    hide KeyOf, GoodPlan;
  }

  /** At every point of every run, load() has failed exactly when one of its own steps raised. */
  lemma {:induction false} FailedExactly(
    plan: DispatchPlan, callback: string, states: seq<State>, actions: seq<Action>, i: nat)
    requires IsRun(plan, callback, states, actions) && i < |states|
    ensures states[i].verdict == Failed <==> exists k :: 0 <= k < i && Raises(plan, states[k], actions[k])
    decreases i
  {
    hide After, Enabled, Start, Raises;
    if i == 0 {
      StartsRunning(plan, states[0]);
    } else {
      var s, a := states[i - 1], actions[i - 1];
      FailedExactly(plan, callback, states, actions, i - 1);
      assert Follows(plan, callback, s, a, states[i]);
      OneStepVerdict(plan, callback, s, a);
    }
  }

  lemma {:induction false} StartsRunning(plan: DispatchPlan, s: State)
    requires Start(plan, s)
    ensures s.verdict == Running && s.done == {} && plan.assignments != []
  {
  }

  /** The thread's success has been collected by then. */
  ghost predicate CollectedBy(plan: DispatchPlan, states: seq<State>, actions: seq<Action>, i: nat, k: nat)
    requires i <= |actions| < |states|
  {
    exists j :: 0 <= j < i && actions[j] == Collect(k) && !Raises(plan, states[j], actions[j])
  }

  lemma {:induction false} DoneIsCollected(
    plan: DispatchPlan, callback: string, states: seq<State>, actions: seq<Action>, i: nat, k: nat)
    requires IsRun(plan, callback, states, actions) && i < |states|
    ensures k in states[i].done <==> CollectedBy(plan, states, actions, i, k)
    decreases i
  {
    hide After, Enabled, Start, Raises;
    if i == 0 {
      StartsRunning(plan, states[0]);
    } else {
      var s, a := states[i - 1], actions[i - 1];
      DoneIsCollected(plan, callback, states, actions, i - 1, k);
      assert Follows(plan, callback, s, a, states[i]);
      OneStepVerdict(plan, callback, s, a);
    }
  }

  lemma {:induction false} ReturnedWhenAllDone(
    plan: DispatchPlan, callback: string, states: seq<State>, actions: seq<Action>, i: nat)
    requires IsRun(plan, callback, states, actions) && i < |states|
    ensures states[i].verdict == Returned <==>
            states[i].verdict != Failed && forall k :: 0 <= k < |plan.assignments| ==> k in states[i].done
    decreases i
  {
    hide After, Enabled, Start, Raises;
    if i == 0 {
      StartsRunning(plan, states[0]);
      assert 0 !in states[0].done;
    } else {
      var s, a := states[i - 1], actions[i - 1];
      ReturnedWhenAllDone(plan, callback, states, actions, i - 1);
      assert Follows(plan, callback, s, a, states[i]);
      OneStepVerdict(plan, callback, s, a);
    }
  }

  /** load() has returned exactly when none of its steps raised and the success of every assignment
      has been collected. */
  lemma {:induction false} ReturnedExactly(
    plan: DispatchPlan, callback: string, states: seq<State>, actions: seq<Action>, i: nat)
    requires IsRun(plan, callback, states, actions) && i < |states|
    ensures states[i].verdict == Returned <==>
            && (forall k :: 0 <= k < i ==> !Raises(plan, states[k], actions[k]))
            && (forall k :: 0 <= k < |plan.assignments| ==> CollectedBy(plan, states, actions, i, k))
  {
    hide After, Enabled, Start, Raises, CollectedBy, Follows;
    FailedExactly(plan, callback, states, actions, i);
    ReturnedWhenAllDone(plan, callback, states, actions, i);
    forall k | 0 <= k < |plan.assignments|
      ensures k in states[i].done <==> CollectedBy(plan, states, actions, i, k)
    {
      DoneIsCollected(plan, callback, states, actions, i, k);
    }
  }

  /** Once it has failed or returned, load() does nothing more and its outcome stands. */
  lemma {:induction false} EndedForGood(
    plan: DispatchPlan, callback: string, states: seq<State>, actions: seq<Action>, i: nat, j: nat)
    requires IsRun(plan, callback, states, actions) && i <= j < |states| && states[i].verdict != Running
    ensures states[j].verdict == states[i].verdict
    ensures j < |actions| ==> !IsOwn(actions[j])
    decreases j
  {
    hide After, Enabled, Start, Raises;
    if i < j {
      var s, a := states[j - 1], actions[j - 1];
      EndedForGood(plan, callback, states, actions, i, j - 1);
      assert Follows(plan, callback, s, a, states[j]);
      OneStepVerdict(plan, callback, s, a);
    }
    if j < |actions| {
      var next := j + 1;
      assert Follows(plan, callback, states[j], actions[j], states[next]);
      OneStepVerdict(plan, callback, states[j], actions[j]);
    }
  }

  // ---------- Trying again ----------

  /** A new load() of the same plan begins in this state. */
  ghost function Retry(s: State): State {
    s.(created := 0, dispatched := 0, waitOf := map[], done := {}, verdict := Running)
  }

  /** At any point of a run, and so after a load() that failed, a new one may begin, with LoadSafety
      to hold of it, exactly when no worker has a load of the model in hand, or a report on it to
      make, and no report on it is still under way: a report may arrive after its worker gave up the
      call.  Threads left waiting do not matter for that; they matter for NeverMissesASlot. */
  lemma {:induction false} RetryCoveredExactly(
    plan: DispatchPlan, callback: string, states: seq<State>, actions: seq<Action>, i: nat)
    requires IsRun(plan, callback, states, actions) && i < |states|
    ensures |states[i].workers| == |states[i].gone| == |plan.assignments|
    ensures Start(plan, Retry(states[i])) <==>
            forall k, t :: 0 <= k < |plan.assignments| ==>
              !Active(states[i].workers[k], states[i].gone[k], plan.modelName, t)
  {
    RunKeepsInv(plan, callback, states, actions, i);
    forall k | 0 <= k < |plan.assignments|
      ensures WL.LoadingOk(states[i].workers[k]) && GoneOk(states[i].workers[k], states[i].gone[k])
    {
      assert AssignmentOk(plan, callback, HeldAt(plan, states[0]), states[i], k);
    }
  }
}
