/**
 Runs of the load protocol that show what its theorems allow: a load() that returns although a
 worker holds the wrong range, one that fails and leaves a thread waiting, and a first one that
 returns with its worker in place.
 */
module LoadRuns {
  import opened Wrappers
  import opened Dispatch
  import opened LoadProtocol

  ghost predicate Reachable(plan: DispatchPlan, callback: string, s0: State, s: State) {
    exists states, actions :: IsRun(plan, callback, states, actions) && states[0] == s0 && states[|actions|] == s
  }

  lemma {:induction false} ReachStart(plan: DispatchPlan, callback: string, s: State)
    requires Start(plan, s)
    ensures Reachable(plan, callback, s, s)
  {
    var none: seq<Action> := [];
    assert IsRun(plan, callback, [s], none) && [s][|none|] == s;
  }

  lemma {:induction false} Reach(plan: DispatchPlan, callback: string, s0: State, s: State, a: Action)
    requires Reachable(plan, callback, s0, s) && Enabled(plan, s, a)
    ensures Reachable(plan, callback, s0, After(plan, callback, s, a))
  {
    var s' := After(plan, callback, s, a);
    assert Follows(plan, callback, s, a, s');
    hide Follows, Start, After, Enabled;
    var states, actions :| IsRun(plan, callback, states, actions) && states[0] == s0 && states[|actions|] == s;
    var states', actions' := states + [s'], actions + [a];
    forall i, j | 0 <= i < |actions'| && j == i + 1
      ensures Follows(plan, callback, states'[i], actions'[i], states'[j])
    {
      assert i < |actions| ==> Follows(plan, callback, states[i], actions[i], states[j]);
    }
    assert IsRun(plan, callback, states', actions') && states'[0] == s0 && states'[|actions'|] == s';
  }

  /** Nothing has happened yet, and the workers hold these models. */
  ghost function Quiet(workers: seq<WL.State<Placement>>): State {
    State(Store.State(map[], {}, multiset{}, 0, [], []), workers, seq(|workers|, _ => {}), 0, 0, map[], {}, Running)
  }

  ghost function Holding(name: string, p: Placement): WL.State<Placement> {
    WL.State(map[name := p], {}, [], [])
  }

  /** A blocked wait whose event is set wakes and pops its slot. */
  lemma {:induction false} WakeAndPop(plan: DispatchPlan, callback: string, s0: State, s: State, w: nat)
    returns (s': State)
    requires Reachable(plan, callback, s0, s) && |s.workers| == |s.gone| == |plan.assignments|
    requires w < |s.store.waits| && s.store.waits[w].phase == Store.Blocked && s.store.waits[w].event in s.store.fired
    ensures Reachable(plan, callback, s0, s')
    ensures s' == s.(store := s'.store)
    ensures var wait := s.store.waits[w];
            s'.store.waits == s.store.waits[w := wait.(phase := Store.Returned(
              if wait.id in s.store.slots then s.store.slots[wait.id].result else None))]
  {
    Reach(plan, callback, s0, s, StoreStep(Store.Wake(w)));
    var s1 := After(plan, callback, s, StoreStep(Store.Wake(w)));
    Reach(plan, callback, s0, s1, StoreStep(Store.Pop(w)));
    s' := After(plan, callback, s1, StoreStep(Store.Pop(w)));
  }

  /** A worker reports, and its report arrives. */
  lemma {:induction false} ReportArrives(plan: DispatchPlan, callback: string, s0: State, s: State, i: nat, t: nat)
    returns (s': State)
    requires Reachable(plan, callback, s0, s) && i < |s.workers| == |s.gone| == |plan.assignments|
    requires t < |s.workers[i].threads| && s.workers[i].threads[t].phase.Reporting? && t !in s.gone[i]
    requires KeyOf(s.workers[i].threads[t].request.modelName, plan.assignments[i].nodeId) in s.store.slots
    ensures Reachable(plan, callback, s0, s')
    ensures var thread := s.workers[i].threads[t];
            var key := KeyOf(thread.request.modelName, plan.assignments[i].nodeId);
            s' == s.(store := Store.After(s.store, Store.Store(key, thread.phase.report)),
                     workers := s.workers[i := WL.After(s.workers[i], WL.Attempt(t))],
                     gone := s.gone[i := s.gone[i] + {t}])
  {
    Reach(plan, callback, s0, s, Report(i, t));
    var s1 := After(plan, callback, s, Report(i, t));
    Reach(plan, callback, s0, s1, Arrive(i, t));
    s' := After(plan, callback, s1, Arrive(i, t));
  }

  /** A report arrives at its slot, and its deliver runs to its end. */
  lemma {:induction false} ReportAndSet(plan: DispatchPlan, callback: string, s0: State, s: State, i: nat, t: nat)
    returns (s': State)
    requires Reachable(plan, callback, s0, s) && i < |s.workers| == |s.gone| == |plan.assignments|
    requires t < |s.workers[i].threads| && s.workers[i].threads[t].phase.Reporting? && t !in s.gone[i]
    requires KeyOf(s.workers[i].threads[t].request.modelName, plan.assignments[i].nodeId) in s.store.slots
    ensures Reachable(plan, callback, s0, s')
    ensures s' == s.(store := s'.store, workers := s.workers[i := WL.After(s.workers[i], WL.Attempt(t))],
                     gone := s.gone[i := s.gone[i] + {t}])
    ensures s'.store.waits == s.store.waits
    ensures var thread := s.workers[i].threads[t];
            var key := KeyOf(thread.request.modelName, plan.assignments[i].nodeId);
            var e := s.store.slots[key].event;
            && s'.store.slots == s.store.slots[key := Store.Entry(e, Some(thread.phase.report))]
            && s'.store.fired == s.store.fired + {e}
  {
    var thread := s.workers[i].threads[t];
    var e := s.store.slots[KeyOf(thread.request.modelName, plan.assignments[i].nodeId)].event;
    var s1 := ReportArrives(plan, callback, s0, s, i, t);
    assert e in s1.store.pending;
    Reach(plan, callback, s0, s1, StoreStep(Store.SetEvent(e)));
    s' := After(plan, callback, s1, StoreStep(Store.SetEvent(e)));
  }

  // ---------- A resident model with the wrong range ----------

  lemma {:induction false} ResidentWaiting(plan: DispatchPlan, callback: string, p: Placement) returns (s: State)
    requires GoodPlan(plan) && |plan.assignments| == 1
    ensures Reachable(plan, callback, Quiet([Holding(plan.modelName, p)]), s)
    ensures s == State(s.store, s.workers, [{}], 1, 1, map[0 := 0], {}, Running) && |s.workers| == 1
    ensures s.workers[0].models == map[plan.modelName := p]
    ensures var r := Request(plan, callback, 0);
            s.workers[0].threads == [WL.Thread(r, WL.Reporting(WL.LoadedReport(r)))]
    ensures s.store.slots == map[Key(plan, 0) := Store.Entry(0, None)] && s.store.fired == {}
    ensures s.store.waits == [Store.Wait(Key(plan, 0), 0, Store.Blocked)]
  {
    hide Reachable, KeyOf;
    var s0 := Quiet([Holding(plan.modelName, p)]);
    ReachStart(plan, callback, s0);
    Reach(plan, callback, s0, s0, CreateSlot);
    var s1 := After(plan, callback, s0, CreateSlot);
    Reach(plan, callback, s0, s1, Dispatch(Answered));
    var s2 := After(plan, callback, s1, Dispatch(Answered));
    Reach(plan, callback, s0, s2, StartWait(0));
    s := After(plan, callback, s2, StartWait(0));
  }

  /** One worker, up to the point where its report is in the slot and its event set. */
  lemma {:induction false} ResidentReports(plan: DispatchPlan, callback: string, p: Placement) returns (s: State)
    requires GoodPlan(plan) && |plan.assignments| == 1
    ensures Reachable(plan, callback, Quiet([Holding(plan.modelName, p)]), s)
    ensures s.created == s.dispatched == 1 && s.verdict == Running && s.waitOf == map[0 := 0] && s.done == {}
    ensures s.store.waits == [Store.Wait(Key(plan, 0), 0, Store.Blocked)] && s.store.fired == {0}
    ensures s.store.slots == map[Key(plan, 0) := Store.Entry(0, Some(WL.LoadedReport(Request(plan, callback, 0))))]
    ensures |s.workers| == |s.gone| == 1 && s.workers[0].models == map[plan.modelName := p]
  {
    hide Reachable, Quiet, KeyOf;
    var s0 := Quiet([Holding(plan.modelName, p)]);
    var s1 := ResidentWaiting(plan, callback, p);
    s := ReportAndSet(plan, callback, s0, s1, 0, 0);
  }

  /** A load() that returns while its worker holds the model in any other placement than the planned one. */
  lemma {:induction false} ReturnsOverWrongRange(plan: DispatchPlan, callback: string, p: Placement)
    returns (s0: State, s: State)
    requires GoodPlan(plan) && |plan.assignments| == 1 && p != Planned(plan, 0)
    ensures Start(plan, s0) && Unwaited(plan, s0) && Reachable(plan, callback, s0, s) && s.verdict == Returned
    ensures |s.workers| == 1 && !AllHoldPlanned(plan, s) && s.workers[0].models == map[plan.modelName := p]
  {
    s0 := Quiet([Holding(plan.modelName, p)]);
    var s1 := ResidentReports(plan, callback, p);
    var s2 := WakeAndPop(plan, callback, s0, s1, 0);
    s := CollectTheOnly(plan, callback, s0, s2);
  }

  /** The only thread's success is collected, and load() returns. */
  lemma {:induction false} CollectTheOnly(plan: DispatchPlan, callback: string, s0: State, s: State) returns (s': State)
    requires Reachable(plan, callback, s0, s) && |s.workers| == |s.gone| == |plan.assignments| == 1
    requires s.verdict == Running && s.dispatched == 1 && s.waitOf == map[0 := 0] && s.done == {}
    requires |s.store.waits| == 1 && Succeeded(s.store.waits[0].phase)
    ensures Reachable(plan, callback, s0, s') && s' == s.(done := {0}, verdict := Returned)
  {
    Reach(plan, callback, s0, s, Collect(0));
    s' := After(plan, callback, s, Collect(0));
  }

  // ---------- A failed load() that leaves a thread waiting ----------

  ghost function Fresh(): WL.State<Placement> {
    WL.State(map[], {}, [], [])
  }

  /** A worker that has been sent its request and is loading. */
  ghost function Busy(r: WL.LoadRequest): WL.State<Placement> {
    WL.State(map[], {r.modelName}, [WL.Thread(r, WL.Loading)], [WL.Accepted(r)])
  }

  /** The same worker once its load has returned or raised. */
  ghost function Recorded(r: WL.LoadRequest, outcome: Result<(), string>): WL.State<Placement> {
    WL.State(if outcome.Ok? then map[r.modelName := Built(r)] else map[], {},
             [WL.Thread(r, WL.Reporting(WL.OutcomeReport(r, outcome)))],
             [WL.Accepted(r)])
  }

  lemma {:induction false} BusyFinishes(r: WL.LoadRequest, outcome: Result<(), string>)
    ensures WL.After(Busy(r), WL.Finish(0, BuildOutcome(r, outcome))) == Recorded(r, outcome)
  {
  }

  lemma {:induction false} RecordedReports(r: WL.LoadRequest, outcome: Result<(), string>)
    ensures var s := Recorded(r, outcome);
            && s.threads[0].request == r && s.threads[0].phase.Reporting?
            && s.threads[0].phase.report == WL.OutcomeReport(r, outcome)
            && WL.After(s, WL.Attempt(0)).threads == [WL.Thread(r, WL.Done(WL.OutcomeReport(r, outcome)))]
            && WL.After(s, WL.Attempt(0)).models == s.models
  {
  }

  lemma {:induction false} LoadFinishes(plan: DispatchPlan, callback: string, s0: State, s: State, i: nat,
                                        outcome: Result<(), string>) returns (s': State)
    requires Reachable(plan, callback, s0, s) && i < |s.workers| == |s.gone| == |plan.assignments|
    requires s.workers[i] == Busy(Request(plan, callback, i))
    ensures Reachable(plan, callback, s0, s')
    ensures s' == s.(workers := s.workers[i := Recorded(Request(plan, callback, i), outcome)])
  {
    BusyFinishes(Request(plan, callback, i), outcome);
    Reach(plan, callback, s0, s, Background(i, 0, outcome));
    s' := After(plan, callback, s, Background(i, 0, outcome));
  }

  lemma {:induction false} TwoCreated(plan: DispatchPlan, callback: string) returns (s: State)
    requires GoodPlan(plan) && |plan.assignments| == 2
    ensures Reachable(plan, callback, Quiet([Fresh(), Fresh()]), s)
    ensures s == Quiet([Fresh(), Fresh()]).(store := s.store, created := 2)
    ensures s.store.slots == map[Key(plan, 0) := Store.Entry(0, None), Key(plan, 1) := Store.Entry(1, None)]
    ensures s.store.waits == [] && s.store.fired == {} && Key(plan, 0) != Key(plan, 1)
  {
    var s0 := Quiet([Fresh(), Fresh()]);
    if Key(plan, 0) == Key(plan, 1) {
      KeysDiffer(plan, 0, 1);
    }
    ReachStart(plan, callback, s0);
    Reach(plan, callback, s0, s0, CreateSlot);
    var s1 := After(plan, callback, s0, CreateSlot);
    Reach(plan, callback, s0, s1, CreateSlot);
    s := After(plan, callback, s1, CreateSlot);
  }

  lemma {:induction false} TwoDispatched(plan: DispatchPlan, callback: string) returns (s: State)
    requires GoodPlan(plan) && |plan.assignments| == 2
    ensures Reachable(plan, callback, Quiet([Fresh(), Fresh()]), s)
    ensures s == State(s.store, [Busy(Request(plan, callback, 0)), Busy(Request(plan, callback, 1))], [{}, {}], 2, 2,
                       map[], {}, Running)
    ensures s.store.slots == map[Key(plan, 0) := Store.Entry(0, None), Key(plan, 1) := Store.Entry(1, None)]
    ensures s.store.waits == [] && s.store.fired == {} && Key(plan, 0) != Key(plan, 1)
  {
    var s0 := Quiet([Fresh(), Fresh()]);
    var s1 := TwoCreated(plan, callback);
    var s2 := DispatchFresh(plan, callback, s0, s1);
    s := DispatchFresh(plan, callback, s0, s2);
  }

  /** A worker that has nothing to do accepts its request. */
  lemma {:induction false} DispatchFresh(plan: DispatchPlan, callback: string, s0: State, s: State) returns (s': State)
    requires Reachable(plan, callback, s0, s) && |s.workers| == |s.gone| == |plan.assignments| && s.verdict == Running
    requires s.created == |plan.assignments| && s.dispatched < s.created && s.workers[s.dispatched] == Fresh()
    ensures Reachable(plan, callback, s0, s')
    ensures s' == s.(workers := s.workers[s.dispatched := Busy(Request(plan, callback, s.dispatched))],
                     dispatched := s.dispatched + 1)
  {
    Reach(plan, callback, s0, s, Dispatch(Answered));
    s' := After(plan, callback, s, Dispatch(Answered));
    var r := Request(plan, callback, s.dispatched);
    assert WL.After(Fresh(), WL.Load(r)) == Busy(r);
  }

  lemma {:induction false} TwoWaiting(plan: DispatchPlan, callback: string) returns (s: State)
    requires GoodPlan(plan) && |plan.assignments| == 2
    ensures Reachable(plan, callback, Quiet([Fresh(), Fresh()]), s)
    ensures s == State(s.store, [Busy(Request(plan, callback, 0)), Busy(Request(plan, callback, 1))], [{}, {}], 2, 2,
                       map[0 := 0, 1 := 1], {}, Running)
    ensures s.store.slots == map[Key(plan, 0) := Store.Entry(0, None), Key(plan, 1) := Store.Entry(1, None)]
    ensures s.store.waits == [Store.Wait(Key(plan, 0), 0, Store.Blocked), Store.Wait(Key(plan, 1), 1, Store.Blocked)]
    ensures Key(plan, 0) != Key(plan, 1)
  {
    var s0 := Quiet([Fresh(), Fresh()]);
    var s1 := TwoDispatched(plan, callback);
    Reach(plan, callback, s0, s1, StartWait(0));
    var s2 := After(plan, callback, s1, StartWait(0));
    Reach(plan, callback, s0, s2, StartWait(1));
    s := After(plan, callback, s2, StartWait(1));
  }

  lemma {:induction false} KeyOfRequest(plan: DispatchPlan, callback: string, i: nat)
    requires i < |plan.assignments|
    ensures KeyOf(Request(plan, callback, i).modelName, plan.assignments[i].nodeId) == Key(plan, i)
  {
  }

  /** The first worker's load fails, and its report is heard. */
  lemma {:induction false} FirstFails(plan: DispatchPlan, callback: string, error: string) returns (s: State)
    requires GoodPlan(plan) && |plan.assignments| == 2
    ensures Reachable(plan, callback, Quiet([Fresh(), Fresh()]), s)
    ensures s.created == s.dispatched == 2 && s.waitOf == map[0 := 0, 1 := 1] && s.done == {} && s.verdict == Running
    ensures |s.workers| == |s.gone| == 2 && s.workers[1] == Busy(Request(plan, callback, 1)) && s.gone == [{0}, {}]
    ensures |s.workers[0].threads| == 1 && s.workers[0].threads[0].phase.Done?
    ensures s.store.waits == [Store.Wait(Key(plan, 0), 0, Store.Returned(Some(WL.Report(false, error, 0)))),
                              Store.Wait(Key(plan, 1), 1, Store.Blocked)]
  {
    var s0 := Quiet([Fresh(), Fresh()]);
    var s1 := TwoWaiting(plan, callback);
    var s2 := LoadFinishes(plan, callback, s0, s1, 0, Err(error));
    KeyOfRequest(plan, callback, 0);
    RecordedReports(Request(plan, callback, 0), Err(error));
    hide KeyOf, Key, Reachable, WL.After, Busy, Quiet;
    var s3 := ReportAndSet(plan, callback, s0, s2, 0, 0);
    assert s1.gone[0] + {0} == {0};
    assert s3.gone == [{0}, {}] && s3.workers[1] == s1.workers[1];
    s := WakeAndPop(plan, callback, s0, s3, 0);
  }

  /** The second worker's load succeeds, but its report is lost. */
  lemma {:induction false} SecondUnheard(plan: DispatchPlan, callback: string, error: string) returns (s: State)
    requires GoodPlan(plan) && |plan.assignments| == 2
    ensures Reachable(plan, callback, Quiet([Fresh(), Fresh()]), s)
    ensures s.created == s.dispatched == 2 && s.waitOf == map[0 := 0, 1 := 1] && s.done == {} && s.verdict == Running
    ensures |s.workers| == |s.gone| == 2 && AllReported(s)
    ensures s.store.waits == [Store.Wait(Key(plan, 0), 0, Store.Returned(Some(WL.Report(false, error, 0)))),
                              Store.Wait(Key(plan, 1), 1, Store.Blocked)]
  {
    var s0 := Quiet([Fresh(), Fresh()]);
    var s1 := FirstFails(plan, callback, error);
    var s2 := LoadFinishes(plan, callback, s0, s1, 1, Ok(()));
    s := LoseReport(plan, callback, s0, s2);
  }

  /** Every thread has reported, and no report is under way. */
  ghost predicate AllReported(s: State)
    requires |s.workers| == |s.gone|
  {
    forall k, t :: 0 <= k < |s.workers| && 0 <= t < |s.workers[k].threads| ==>
      s.workers[k].threads[t].phase.Done? && t in s.gone[k]
  }

  /** load() fails because of the first worker.  Nothing is left to do for any worker, and still a
      thread waits on the second slot: a new load() may begin, but its second slot is not its own alone. */
  lemma {:induction false} FailedWhileWaiting(plan: DispatchPlan, callback: string, error: string)
    returns (s0: State, s: State)
    requires GoodPlan(plan) && |plan.assignments| == 2
    ensures Start(plan, s0) && Unwaited(plan, s0) && Reachable(plan, callback, s0, s) && s.verdict == Failed
    ensures Store.WaitUnderWay(s.store, Key(plan, 1)) && !Unwaited(plan, Retry(s)) && Start(plan, Retry(s))
  {
    hide AllReported;
    s0 := Quiet([Fresh(), Fresh()]);
    QuietStarts(plan, [Fresh(), Fresh()]);
    var s1 := SecondUnheard(plan, callback, error);
    s := CollectFailure(plan, callback, s0, s1);
    NothingLeft(plan, callback, s0, s);
    StillWaiting(plan, s);
  }

  lemma {:induction false} QuietStarts(plan: DispatchPlan, workers: seq<WL.State<Placement>>)
    requires GoodPlan(plan) && |workers| == |plan.assignments|
    requires forall i :: 0 <= i < |workers| ==> workers[i].threads == [] && workers[i].loading == {}
    ensures Start(plan, Quiet(workers)) && Unwaited(plan, Quiet(workers))
  {
  }

  lemma {:induction false} CollectFailure(plan: DispatchPlan, callback: string, s0: State, s: State)
    returns (s': State)
    requires Reachable(plan, callback, s0, s) && |s.workers| == |s.gone| == |plan.assignments| == 2
    requires s.verdict == Running && s.dispatched == 2 && Collectable(s, 0) && AllReported(s)
    requires !Succeeded(s.store.waits[s.waitOf[0]].phase)
    ensures Reachable(plan, callback, s0, s') && s' == s.(verdict := Failed) && AllReported(s')
  {
    Reach(plan, callback, s0, s, Collect(0));
    s' := After(plan, callback, s, Collect(0));
  }

  lemma {:induction false} StillWaiting(plan: DispatchPlan, s: State)
    requires |plan.assignments| == 2 && |s.store.waits| == 2
    requires s.store.waits[1].id == Key(plan, 1) && s.store.waits[1].phase == Store.Blocked
    ensures Store.WaitUnderWay(s.store, Key(plan, 1)) && !Unwaited(plan, Retry(s))
  {
    assert Store.WaitUnderWay(Retry(s).store, Key(plan, 1));
  }

  /** The second worker reports, and its report never arrives. */
  lemma {:induction false} LoseReport(plan: DispatchPlan, callback: string, s0: State, s: State)
    returns (s': State)
    requires Reachable(plan, callback, s0, s) && |s.workers| == |s.gone| == |plan.assignments| == 2
    requires |s.workers[0].threads| == 1 && s.workers[0].threads[0].phase.Done? && s.gone == [{0}, {}]
    requires |s.workers[1].threads| == 1 && s.workers[1].threads[0].phase.Reporting?
    ensures Reachable(plan, callback, s0, s') && s' == s.(workers := s'.workers, gone := s'.gone)
    ensures |s'.workers| == |s'.gone| == 2 && AllReported(s')
  {
    hide Reachable;
    Reach(plan, callback, s0, s, Report(1, 0));
    var s1 := After(plan, callback, s, Report(1, 0));
    Reach(plan, callback, s0, s1, Lose(1, 0));
    s' := After(plan, callback, s1, Lose(1, 0));
  }

  lemma {:induction false} NothingLeft(plan: DispatchPlan, callback: string, s0: State, s: State)
    requires Reachable(plan, callback, s0, s) && |s.workers| == |s.gone| == |plan.assignments| && AllReported(s)
    ensures Start(plan, Retry(s))
  {
    var states, actions :|
      IsRun(plan, callback, states, actions) && states[0] == s0 && states[|actions|] == s;
    RetryCoveredExactly(plan, callback, states, actions, |actions|);
  }

  // ---------- A first load() that returns ----------

  /** One worker that holds nothing: load() returns, and the worker is where the plan wants it. */
  lemma {:induction false} FreshLoadReturns(plan: DispatchPlan, callback: string) returns (s0: State, s: State)
    requires GoodPlan(plan) && |plan.assignments| == 1
    ensures Start(plan, s0) && Unwaited(plan, s0) && s0.workers == [Fresh()]
    ensures Reachable(plan, callback, s0, s) && s.verdict == Returned
    ensures |s.workers| == 1 && AllHoldPlanned(plan, s)
    ensures s.workers[0].models == map[plan.modelName := Planned(plan, 0)]
  {
    s0 := Quiet([Fresh()]);
    QuietStarts(plan, [Fresh()]);
    var s1 := FreshLoaded(plan, callback);
    var s2 := ReportAndSet(plan, callback, s0, s1, 0, 0);
    var s3 := WakeAndPop(plan, callback, s0, s2, 0);
    s := CollectTheOnly(plan, callback, s0, s3);
  }

  lemma {:induction false} FreshWaiting(plan: DispatchPlan, callback: string) returns (s: State)
    requires GoodPlan(plan) && |plan.assignments| == 1
    ensures Reachable(plan, callback, Quiet([Fresh()]), s)
    ensures s == State(s.store, [Busy(Request(plan, callback, 0))], [{}], 1, 1, map[0 := 0], {}, Running)
    ensures s.store.slots == map[Key(plan, 0) := Store.Entry(0, None)]
    ensures s.store.waits == [Store.Wait(Key(plan, 0), 0, Store.Blocked)]
  {
    hide Reachable;
    var s0 := Quiet([Fresh()]);
    QuietStarts(plan, [Fresh()]);
    ReachStart(plan, callback, s0);
    Reach(plan, callback, s0, s0, CreateSlot);
    var s1 := After(plan, callback, s0, CreateSlot);
    var s2 := DispatchFresh(plan, callback, s0, s1);
    Reach(plan, callback, s0, s2, StartWait(0));
    s := After(plan, callback, s2, StartWait(0));
  }

  lemma {:induction false} FreshLoaded(plan: DispatchPlan, callback: string) returns (s: State)
    requires GoodPlan(plan) && |plan.assignments| == 1
    ensures Reachable(plan, callback, Quiet([Fresh()]), s)
    ensures s.dispatched == 1 && s.waitOf == map[0 := 0] && s.done == {} && s.verdict == Running && s.gone == [{}]
    ensures s.store.slots == map[Key(plan, 0) := Store.Entry(0, None)]
    ensures s.store.waits == [Store.Wait(Key(plan, 0), 0, Store.Blocked)]
    ensures |s.workers| == 1 && s.workers[0].models == map[plan.modelName := Planned(plan, 0)]
    ensures s.workers[0].threads ==
              [WL.Thread(Request(plan, callback, 0), WL.Reporting(WL.LoadedReport(Request(plan, callback, 0))))]
  {
    var s0 := Quiet([Fresh()]);
    var s1 := FreshWaiting(plan, callback);
    s := LoadFinishes(plan, callback, s0, s1, 0, Ok(()));
  }
}
