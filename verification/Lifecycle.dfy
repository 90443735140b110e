/**
 orchestrator/http_api.py: the shared model_states dict under the load and redistribute handlers
 and the background threads they start.

 Handlers run one at a time; each is cut into its sections under states_lock and the unload calls
 between them, and a background load may record its outcome between any two of those.
 */
module Lifecycle {
  import opened Wrappers
  import opened OrderedDict
  import opened Dispatch

  datatype Status = Loading | Ready | Error

  /** A session is named by the background load that built it. */
  datatype ModelState = ModelState(status: Status, plan: Option<DispatchPlan>, session: Option<nat>,
                                   error: Option<string>)

  datatype Outcome = Running | BecameReady | Broke

  datatype BackgroundLoad = BackgroundLoad(name: string, plan: DispatchPlan, outcome: Outcome)

  /** Where the one running handler stands, and the sessions it has taken out and must still unload. */
  datatype Handler =
    | Idle
    | Freeing(name: string, toUnload: seq<nat>)    // redistribute: the old session first
    | Evicting(name: string, toUnload: seq<nat>)   // _ensure_loading_started: whatever else was ready

  datatype State = State(
    states: Dict<string, ModelState>,
    loads: seq<BackgroundLoad>,      // every background load started so far
    handler: Handler,
    unloaded: multiset<nat>)         // sessions handed to _unload_session

  datatype Action =
    | Ensure(name: string)                                // first section of _ensure_loading_started
    | Redistribute(name: string)                          // first section of redistribute_model
    | Unload                                              // the handler unloads the next session
    | Proceed                                             // redistribute goes on to _ensure_loading_started
    | Plan(plan: Result<DispatchPlan, string>)            // plan_dispatch, and the second section
    | Finish(t: nat, outcome: Result<(), string>)         // a background load records its outcome

  predicate IsActive(st: ModelState) {
    st.status == Loading || st.status == Ready
  }

  // ---------- The dict ----------

  ghost predicate KeysIn(keys: seq<string>, m: map<string, ModelState>) {
    forall k :: 0 <= k < |keys| ==> keys[k] in m
  }

  /** The sessions of ready models, in the dict's order. */
  function ReadySessions(keys: seq<string>, m: map<string, ModelState>): seq<nat>
    requires KeysIn(keys, m)
    decreases |keys|
  {
    if keys == [] then []
    else
      var last := m[keys[|keys| - 1]];
      ReadySessions(keys[..|keys| - 1], m)
      + (if last.status == Ready && last.session.Some? then [last.session.value] else [])
  }

  /** The names of ready models, in the dict's order. */
  function ReadyNames(keys: seq<string>, m: map<string, ModelState>): (names: seq<string>)
    requires KeysIn(keys, m)
    decreases |keys|
  {
    if keys == [] then []
    else
      ReadyNames(keys[..|keys| - 1], m) + (if m[keys[|keys| - 1]].status == Ready then [keys[|keys| - 1]] else [])
  }

  /** The dict once these names are deleted, one after the other. */
  function Deleted(d: Dict<string, ModelState>, names: seq<string>): (r: Dict<string, ModelState>)
    requires Valid(d)
    ensures Valid(r)
    decreases |names|
  {
    if names == [] then d else Remove(Deleted(d, names[..|names| - 1]), names[|names| - 1])
  }

  function EvictReady(d: Dict<string, ModelState>): (r: Dict<string, ModelState>)
    requires Valid(d)
    ensures Valid(r)
  {
    Deleted(d, ReadyNames(d.keys, d.m))
  }

  lemma {:induction false} ReadyNamesExactly(keys: seq<string>, m: map<string, ModelState>, x: string)
    requires KeysIn(keys, m)
    ensures x in ReadyNames(keys, m) <==> x in keys && m[x].status == Ready
    decreases |keys|
  {
    if keys != [] {
      var front := keys[..|keys| - 1];
      ReadyNamesExactly(front, m, x);
      assert keys == front + [keys[|keys| - 1]];
    }
  }

  lemma {:induction false} DeletedExactly(d: Dict<string, ModelState>, names: seq<string>, x: string)
    requires Valid(d)
    ensures x in Deleted(d, names).m <==> x in d.m && x !in names
    ensures x in Deleted(d, names).m ==> Deleted(d, names).m[x] == d.m[x]
    decreases |names|
  {
    hide Without;
    if names != [] {
      var front := names[..|names| - 1];
      DeletedExactly(d, front, x);
      assert names == front + [names[|names| - 1]];
    }
  }

  /** Evicting takes out the ready entries and leaves the others as they are. */
  lemma {:induction false} EvictedExactly(d: Dict<string, ModelState>)
    requires Valid(d)
    ensures EvictReady(d).m == map x | x in d.m && d.m[x].status != Ready :: d.m[x]
  {
    forall x: string
      ensures x in EvictReady(d).m <==> x in d.m && d.m[x].status != Ready
      ensures x in EvictReady(d).m ==> EvictReady(d).m[x] == d.m[x]
    {
      ReadyNamesExactly(d.keys, d.m, x);
      DeletedExactly(d, ReadyNames(d.keys, d.m), x);
    }
  }

  // ---------- Steps ----------

  ghost predicate Enabled(s: State, a: Action) {
    match a
    case Ensure(_) => s.handler == Idle
    case Redistribute(_) => s.handler == Idle
    case Unload => !s.handler.Idle? && s.handler.toUnload != []
    case Proceed => s.handler.Freeing? && s.handler.toUnload == []
    case Plan(_) => s.handler.Evicting? && s.handler.toUnload == []
    case Finish(t, _) => t < |s.loads| && s.loads[t].outcome == Running
  }

  function FirstSection(s: State, name: string): State
    requires Valid(s.states)
  {
    if name in s.states.m && IsActive(s.states.m[name]) then s.(handler := Idle)
    else s.(states := EvictReady(s.states), handler := Evicting(name, ReadySessions(s.states.keys, s.states.m)))
  }

  function AfterRedistribute(s: State, name: string): State
  {
    if name !in s.states.m || s.states.m[name].status == Loading then s
    else
      var oldSession := s.states.m[name].session;
      s.(states := Remove(s.states, name),
         handler := Freeing(name, if oldSession.Some? then [oldSession.value] else []))
  }

  function AfterPlan(s: State, plan: Result<DispatchPlan, string>): State
    requires s.handler.Evicting?
  {
    var name := s.handler.name;
    match plan
    case Err(e) => s.(states := Put(s.states, name, ModelState(Error, None, None, Some(e))), handler := Idle)
    case Ok(p) =>
      s.(states := Put(s.states, name, ModelState(Loading, Some(p), None, None)),
         loads := s.loads + [BackgroundLoad(name, p, Running)], handler := Idle)
  }

  function AfterFinish(s: State, t: nat, outcome: Result<(), string>): State
    requires t < |s.loads|
  {
    var load := s.loads[t];
    match outcome
    case Ok(_) =>
      s.(states := Put(s.states, load.name, ModelState(Ready, Some(load.plan), Some(t), None)),
         loads := s.loads[t := load.(outcome := BecameReady)])
    case Err(e) =>
      s.(states := Put(s.states, load.name, ModelState(Error, Some(load.plan), None, Some(e))),
         loads := s.loads[t := load.(outcome := Broke)])
  }

  ghost function After(s: State, a: Action): State
    requires Valid(s.states) && Enabled(s, a)
  {
    match a
    case Ensure(name) => FirstSection(s, name)
    case Redistribute(name) => AfterRedistribute(s, name)
    case Unload =>
      s.(handler := s.handler.(toUnload := s.handler.toUnload[1..]),
         unloaded := s.unloaded + multiset{s.handler.toUnload[0]})
    case Proceed => FirstSection(s, s.handler.name)
    case Plan(plan) => AfterPlan(s, plan)
    case Finish(t, outcome) => AfterFinish(s, t, outcome)
  }

  ghost predicate Init(s: State) {
    s == State(Empty(), [], Idle, multiset{})
  }

  ghost predicate Follows(s: State, a: Action, s': State) {
    Valid(s.states) && Enabled(s, a) && s' == After(s, a)
  }

  ghost predicate IsRun(states: seq<State>, actions: seq<Action>) {
    && |states| == |actions| + 1 && Init(states[0])
    && forall i, j :: 0 <= i < |actions| && j == i + 1 ==> Follows(states[i], actions[i], states[j])
  }

  // ---------- Entries and the loads behind them ----------

  ghost predicate InFlight(loads: seq<BackgroundLoad>, t: int) {
    0 <= t < |loads| && loads[t].outcome == Running
  }

  /** An entry says loading while its load runs, and ready while it holds the session of one that succeeded. */
  ghost predicate EntryOk(s: State, name: string)
    requires name in s.states.m
  {
    var st := s.states.m[name];
    && (st.status == Loading <==> exists t :: InFlight(s.loads, t) && s.loads[t].name == name)
    && (st.status == Ready <==> st.session.Some?)
    && (st.session.Some? ==>
        st.session.value < |s.loads| &&
        s.loads[st.session.value] == BackgroundLoad(name, s.loads[st.session.value].plan, BecameReady))
    && (IsActive(st) ==> st.plan.Some?)
  }

  ghost predicate LoadsOk(s: State) {
    && (forall t :: InFlight(s.loads, t) ==> s.loads[t].name in s.states.m)
    && (forall t, u :: InFlight(s.loads, t) && InFlight(s.loads, u) && s.loads[t].name == s.loads[u].name ==> t == u)
  }

  ghost predicate HandlerOk(s: State) {
    !s.handler.Idle? && s.handler.name in s.states.m ==> s.states.m[s.handler.name].status == Error
  }

  ghost predicate Inv(s: State) {
    && Valid(s.states) && LoadsOk(s) && HandlerOk(s)
    && forall name :: name in s.states.m ==> EntryOk(s, name)
  }

  lemma {:induction false} FirstSectionKeepsInv(s: State, name: string)
    requires Inv(s)
    requires s.handler == Idle || (s.handler.Freeing? && s.handler.toUnload == [])
    ensures Inv(FirstSection(s, name))
  {
    var s' := FirstSection(s, name);
    EvictedExactly(s.states);
    forall n | n in s'.states.m
      ensures EntryOk(s', n)
    {
      assert EntryOk(s, n);
    }
    forall t | InFlight(s'.loads, t)
      ensures s'.loads[t].name in s'.states.m
    {
      assert EntryOk(s, s.loads[t].name);
    }
  }

  /** An entry that a step did not touch, with the same loads behind it. */
  lemma {:induction false} UntouchedEntry(s: State, s': State, name: string)
    requires name in s.states.m && name in s'.states.m && s'.states.m[name] == s.states.m[name] && EntryOk(s, name)
    requires |s.loads| <= |s'.loads|
    requires forall t :: 0 <= t < |s.loads| ==>
               s'.loads[t] == s.loads[t] ||
               (s.loads[t].name == s'.loads[t].name != name && s.loads[t].outcome == Running)
    requires forall t :: |s.loads| <= t < |s'.loads| ==> s'.loads[t].name != name
    ensures EntryOk(s', name)
  {
    assert forall t :: InFlight(s.loads, t) && s.loads[t].name == name ==>
             InFlight(s'.loads, t) && s'.loads[t].name == name;
    assert forall t :: InFlight(s'.loads, t) && s'.loads[t].name == name ==>
             InFlight(s.loads, t) && s.loads[t].name == name;
  }

  /** Nothing loads the model a handler is working on. */
  lemma {:induction false} HandlerHasNoLoad(s: State, t: int)
    requires Inv(s) && !s.handler.Idle? && InFlight(s.loads, t)
    ensures s.loads[t].name != s.handler.name
  {
    assert EntryOk(s, s.loads[t].name);
  }

  lemma {:induction false} PlanKeepsEntries(s: State, plan: Result<DispatchPlan, string>, n: string)
    requires Inv(s) && s.handler.Evicting? && s.handler.toUnload == [] && n in AfterPlan(s, plan).states.m
    ensures EntryOk(AfterPlan(s, plan), n)
  {
    var s' := AfterPlan(s, plan);
    if n != s.handler.name {
      UntouchedEntry(s, s', n);
    } else if plan.Ok? {
      assert InFlight(s'.loads, |s.loads|) && s'.loads[|s.loads|].name == n;
    } else {
      forall t | InFlight(s.loads, t)
        ensures s.loads[t].name != n
      {
        HandlerHasNoLoad(s, t);
      }
    }
  }

  lemma {:induction false} PlanKeepsLoads(s: State, plan: Result<DispatchPlan, string>)
    requires Inv(s) && s.handler.Evicting? && s.handler.toUnload == []
    ensures LoadsOk(AfterPlan(s, plan))
  {
    hide EntryOk, HandlerOk, Valid;
    forall t | InFlight(s.loads, t)
      ensures s.loads[t].name != s.handler.name
    {
      HandlerHasNoLoad(s, t);
    }
  }

  lemma {:induction false} PlanKeepsInv(s: State, plan: Result<DispatchPlan, string>)
    requires Inv(s) && s.handler.Evicting? && s.handler.toUnload == []
    ensures Inv(AfterPlan(s, plan))
  {
    hide EntryOk, LoadsOk;
    PlanKeepsLoads(s, plan);
    forall n | n in AfterPlan(s, plan).states.m
      ensures EntryOk(AfterPlan(s, plan), n)
    {
      PlanKeepsEntries(s, plan, n);
    }
  }

  lemma {:induction false} FinishKeepsEntry(s: State, t: nat, outcome: Result<(), string>, n: string)
    requires Inv(s) && Enabled(s, Finish(t, outcome)) && n in AfterFinish(s, t, outcome).states.m
    ensures EntryOk(AfterFinish(s, t, outcome), n)
  {
    var s' := AfterFinish(s, t, outcome);
    assert InFlight(s.loads, t);
    if n != s.loads[t].name {
      UntouchedEntry(s, s', n);
    } else {
      StillRunning(s, t, outcome);
    }
  }

  /** The loads still running after one has finished: all the others, for other models. */
  lemma {:induction false} StillRunning(s: State, t: nat, outcome: Result<(), string>)
    requires Inv(s) && Enabled(s, Finish(t, outcome))
    ensures forall u :: InFlight(AfterFinish(s, t, outcome).loads, u) ==>
              && InFlight(s.loads, u) && AfterFinish(s, t, outcome).loads[u] == s.loads[u]
              && s.loads[u].name != s.loads[t].name
  {
    hide EntryOk;
    assert InFlight(s.loads, t);
  }

  lemma {:induction false} FinishKeepsInv(s: State, t: nat, outcome: Result<(), string>)
    requires Inv(s) && Enabled(s, Finish(t, outcome))
    ensures Inv(AfterFinish(s, t, outcome))
  {
    hide EntryOk;
    FinishKeepsHandler(s, t, outcome);
    StillRunning(s, t, outcome);
    forall n | n in AfterFinish(s, t, outcome).states.m
      ensures EntryOk(AfterFinish(s, t, outcome), n)
    {
      FinishKeepsEntry(s, t, outcome, n);
    }
  }

  lemma {:induction false} FinishKeepsHandler(s: State, t: nat, outcome: Result<(), string>)
    requires Inv(s) && Enabled(s, Finish(t, outcome))
    ensures HandlerOk(AfterFinish(s, t, outcome))
  {
    assert InFlight(s.loads, t);
    assert EntryOk(s, s.loads[t].name);
  }

  lemma {:induction false} RedistributeKeepsInv(s: State, name: string)
    requires Inv(s) && s.handler == Idle
    ensures Inv(AfterRedistribute(s, name))
  {
    var s' := AfterRedistribute(s, name);
    forall n | n in s'.states.m
      ensures EntryOk(s', n)
    {
      assert EntryOk(s, n);
    }
    forall t | InFlight(s'.loads, t)
      ensures s'.loads[t].name in s'.states.m
    {
      assert EntryOk(s, s.loads[t].name);
    }
  }

  lemma {:induction false} KeepsInv(s: State, a: Action)
    requires Inv(s) && Enabled(s, a)
    ensures Inv(After(s, a))
  {
    match a
    case Ensure(name) => FirstSectionKeepsInv(s, name);
    case Redistribute(name) => RedistributeKeepsInv(s, name);
    case Unload =>
      forall n | n in s.states.m
        ensures EntryOk(After(s, a), n)
      {
        assert EntryOk(s, n);
      }
    case Proceed => FirstSectionKeepsInv(s, s.handler.name);
    case Plan(plan) => PlanKeepsInv(s, plan);
    case Finish(t, outcome) => FinishKeepsInv(s, t, outcome);
  }

  lemma {:induction false} RunKeepsInv(states: seq<State>, actions: seq<Action>, i: nat)
    requires IsRun(states, actions) && i < |states|
    ensures Inv(states[i])
    decreases i
  {
    if i > 0 {
      RunKeepsInv(states, actions, i - 1);
      assert Follows(states[i - 1], actions[i - 1], states[i]);
      KeepsInv(states[i - 1], actions[i - 1]);
    }
  }

  // ---------- Sessions are conserved ----------

  function Held(h: Handler): seq<nat> {
    if h.Idle? then [] else h.toUnload
  }

  ghost predicate IsStored(s: State, t: nat) {
    t < |s.loads| && s.loads[t].name in s.states.m && s.states.m[s.loads[t].name].session == Some(t)
  }

  /** In how many places a session is: the dict, the running handler's hands, and the unload calls made. */
  ghost function Places(s: State, t: nat): nat {
    (if IsStored(s, t) then 1 else 0) + multiset(Held(s.handler))[t] + s.unloaded[t]
  }

  ghost predicate IsReadyLoad(s: State, t: nat) {
    t < |s.loads| && s.loads[t].outcome == BecameReady
  }

  /** A session that became ready is in exactly one place; nothing else is anywhere. */
  ghost predicate ConservedAt(s: State, t: nat) {
    Places(s, t) == if IsReadyLoad(s, t) then 1 else 0
  }

  lemma {:induction false} StoredAt(s: State, n: string, t: nat)
    requires Inv(s) && n in s.states.m
    ensures s.states.m[n].session == Some(t) <==> IsStored(s, t) && s.loads[t].name == n
    ensures s.states.m[n].status == Ready <==> s.states.m[n].session.Some?
  {
    assert EntryOk(s, n);
  }

  /** Evicting collects each stored session once. */
  lemma {:induction false} ReadySessionsCount(s: State, keys: seq<string>, t: nat)
    requires Inv(s) && Distinct(keys) && KeysIn(keys, s.states.m)
    ensures multiset(ReadySessions(keys, s.states.m))[t] == if IsStored(s, t) && s.loads[t].name in keys then 1 else 0
    decreases |keys|
  {
    if keys != [] {
      var front, last := keys[..|keys| - 1], keys[|keys| - 1];
      ReadySessionsCount(s, front, t);
      StoredAt(s, last, t);
      LastIsNew(keys);
      var before := ReadySessions(front, s.states.m);
      if s.states.m[last].session.Some? {
        CountOneMore(before, s.states.m[last].session.value, t);
      } else {
        assert before + [] == before;
      }
    }
  }

  lemma {:induction false} LastIsNew(keys: seq<string>)
    requires Distinct(keys) && keys != []
    ensures Distinct(keys[..|keys| - 1]) && keys[|keys| - 1] !in keys[..|keys| - 1]
    ensures forall x :: x in keys <==> x in keys[..|keys| - 1] || x == keys[|keys| - 1]
  {
    assert keys == keys[..|keys| - 1] + [keys[|keys| - 1]];
  }

  lemma {:induction false} CountOneMore(held: seq<nat>, session: nat, t: nat)
    ensures multiset(held + [session])[t] == multiset(held)[t] + (if session == t then 1 else 0)
  {
  }

  lemma {:induction false} FirstSectionConserves(s: State, name: string, t: nat)
    requires Inv(s) && ConservedAt(s, t) && Held(s.handler) == []
    ensures ConservedAt(FirstSection(s, name), t)
  {
    hide ReadySessions, ReadyNames, Deleted;
    ReadySessionsCount(s, s.states.keys, t);
    EvictedExactly(s.states);
    if t < |s.loads| && s.loads[t].name in s.states.m {
      assert EntryOk(s, s.loads[t].name);
      assert s.loads[t].name in s.states.keys;
    }
  }

  lemma {:induction false} RedistributeConserves(s: State, name: string, t: nat)
    requires Inv(s) && ConservedAt(s, t) && s.handler == Idle
    ensures ConservedAt(AfterRedistribute(s, name), t)
  {
    if name in s.states.m {
      assert EntryOk(s, name);
    }
  }

  lemma {:induction false} UnloadConserves(s: State, t: nat)
    requires Inv(s) && ConservedAt(s, t) && Enabled(s, Unload)
    ensures ConservedAt(After(s, Unload), t)
  {
    var held := s.handler.toUnload;
    assert multiset(held) == multiset{held[0]} + multiset(held[1..]) by {
      assert held == [held[0]] + held[1..];
    }
  }

  lemma {:induction false} PlanConserves(s: State, plan: Result<DispatchPlan, string>, t: nat)
    requires Inv(s) && ConservedAt(s, t) && Enabled(s, Plan(plan))
    ensures ConservedAt(AfterPlan(s, plan), t)
  {
    if s.handler.name in s.states.m {
      assert EntryOk(s, s.handler.name);
    }
  }

  lemma {:induction false} FinishConserves(s: State, u: nat, outcome: Result<(), string>, t: nat)
    requires Inv(s) && ConservedAt(s, t) && Enabled(s, Finish(u, outcome))
    ensures ConservedAt(AfterFinish(s, u, outcome), t)
  {
    assert InFlight(s.loads, u);
    assert EntryOk(s, s.loads[u].name);
  }

  lemma {:induction false} KeepsConserved(s: State, a: Action, t: nat)
    requires Inv(s) && ConservedAt(s, t) && Enabled(s, a)
    ensures ConservedAt(After(s, a), t)
  {
    match a
    case Ensure(name) => FirstSectionConserves(s, name, t);
    case Redistribute(name) => RedistributeConserves(s, name, t);
    case Unload => UnloadConserves(s, t);
    case Proceed => FirstSectionConserves(s, s.handler.name, t);
    case Plan(plan) => PlanConserves(s, plan, t);
    case Finish(u, outcome) => FinishConserves(s, u, outcome, t);
  }

  lemma {:induction false} RunConserves(states: seq<State>, actions: seq<Action>, i: nat, t: nat)
    requires IsRun(states, actions) && i < |states|
    ensures ConservedAt(states[i], t)
    decreases i
  {
    if i > 0 {
      RunConserves(states, actions, i - 1, t);
      RunKeepsInv(states, actions, i - 1);
      assert Follows(states[i - 1], actions[i - 1], states[i]);
      KeepsConserved(states[i - 1], actions[i - 1], t);
    }
  }

  /** Between handlers, every session that ever became ready is either the one stored for its model
      or was handed to unload exactly once, never both; and nothing else was ever unloaded. */
  lemma {:induction false} SessionsConserved(states: seq<State>, actions: seq<Action>, i: nat, t: nat)
    requires IsRun(states, actions) && i < |states| && states[i].handler == Idle
    ensures IsReadyLoad(states[i], t) ==>
              (IsStored(states[i], t) && states[i].unloaded[t] == 0) ||
              (!IsStored(states[i], t) && states[i].unloaded[t] == 1)
    ensures !IsReadyLoad(states[i], t) ==> !IsStored(states[i], t) && states[i].unloaded[t] == 0
  {
    RunConserves(states, actions, i, t);
  }

  /** A model has a load in flight exactly while its entry says loading, and never two. */
  lemma {:induction false} LoadingMeansInFlight(states: seq<State>, actions: seq<Action>, i: nat, name: string)
    requires IsRun(states, actions) && i < |states|
    ensures var s := states[i];
            && ((name in s.states.m && s.states.m[name].status == Loading) <==>
                exists t :: InFlight(s.loads, t) && s.loads[t].name == name)
            && (forall t, u ::
                  && InFlight(s.loads, t) && s.loads[t].name == name
                  && InFlight(s.loads, u) && s.loads[u].name == name
                  ==> t == u)
  {
    RunKeepsInv(states, actions, i);
    if name in states[i].states.m {
      assert EntryOk(states[i], name);
    }
  }

  // ---------- At most one model ----------

  ghost predicate NoneLoading(s: State) {
    forall n :: n in s.states.m ==> s.states.m[n].status != Loading
  }

  /** No load is started while another model is loading. */
  ghost predicate Calm(s: State, a: Action) {
    match a
    case Ensure(name) => !(name in s.states.m && IsActive(s.states.m[name])) ==> NoneLoading(s)
    case Redistribute(name) => name in s.states.m && s.states.m[name].status != Loading ==> NoneLoading(s)
    case _ => true
  }

  ghost predicate OneActive(s: State) {
    && (forall a, b :: a in s.states.m && b in s.states.m && IsActive(s.states.m[a]) && IsActive(s.states.m[b]) ==>
        a == b)
    && (s.handler.Freeing? ==> NoneLoading(s))
    && (s.handler.Evicting? ==> forall n :: n in s.states.m ==> !IsActive(s.states.m[n]))
  }

  lemma {:induction false} FirstSectionKeepsOneActive(s: State, name: string)
    requires Inv(s) && OneActive(s) && ((name in s.states.m && IsActive(s.states.m[name])) || NoneLoading(s))
    ensures OneActive(FirstSection(s, name))
  {
    EvictedExactly(s.states);
  }

  lemma {:induction false} FinishKeepsOneActive(s: State, t: nat, outcome: Result<(), string>)
    requires Inv(s) && OneActive(s) && Enabled(s, Finish(t, outcome))
    ensures OneActive(AfterFinish(s, t, outcome))
  {
    var name := s.loads[t].name;
    assert InFlight(s.loads, t);
    assert EntryOk(s, name);
    assert s.states.m[name].status == Loading;
  }

  lemma {:induction false} KeepsOneActive(s: State, a: Action)
    requires Inv(s) && OneActive(s) && Enabled(s, a) && Calm(s, a)
    ensures OneActive(After(s, a))
  {
    match a
    case Ensure(name) => FirstSectionKeepsOneActive(s, name);
    case Proceed => FirstSectionKeepsOneActive(s, s.handler.name);
    case Finish(t, outcome) => FinishKeepsOneActive(s, t, outcome);
    case _ =>
  }

  /** If no load starts while another model is loading, at most one model is loading or ready. */
  lemma {:induction false} AtMostOneActive(states: seq<State>, actions: seq<Action>, i: nat)
    requires IsRun(states, actions) && i < |states|
    requires forall k :: 0 <= k < |actions| ==> Calm(states[k], actions[k])
    ensures OneActive(states[i])
    decreases i
  {
    if i > 0 {
      AtMostOneActive(states, actions, i - 1);
      RunKeepsInv(states, actions, i - 1);
      assert Follows(states[i - 1], actions[i - 1], states[i]);
      KeepsOneActive(states[i - 1], actions[i - 1]);
    }
  }

  ghost predicate AtMostOne(s: State) {
    forall a, b :: a in s.states.m && b in s.states.m && IsActive(s.states.m[a]) && IsActive(s.states.m[b]) ==> a == b
  }

  ghost predicate NoneActive(s: State) {
    forall n :: n in s.states.m ==> !IsActive(s.states.m[n])
  }

  /** The only step that can make a second model active is the one that starts a load. */
  lemma {:induction false} StepKeepsOneExactly(s: State, a: Action)
    requires Inv(s) && AtMostOne(s) && Enabled(s, a)
    ensures AtMostOne(After(s, a)) <==> (a.Plan? && a.plan.Ok? ==> NoneActive(s))
  {
    match a
    case Plan(plan) =>
      PlanKeepsOneExactly(s, plan);
    case Finish(t, outcome) =>
      assert InFlight(s.loads, t);
      assert EntryOk(s, s.loads[t].name);
    case _ => EvictedExactly(s.states);
  }

  lemma {:induction false} PlanKeepsOneExactly(s: State, plan: Result<DispatchPlan, string>)
    requires Inv(s) && AtMostOne(s) && s.handler.Evicting?
    ensures AtMostOne(AfterPlan(s, plan)) <==> (plan.Ok? ==> NoneActive(s))
  {
    var name, m := s.handler.name, AfterPlan(s, plan).states.m;
    if plan.Ok? {
      assert IsActive(m[name]);
      forall n | n in s.states.m && IsActive(s.states.m[n])
        ensures n != name && n in m && IsActive(m[n])
      {
      }
    }
  }

  /** Over every run: never are two models loading or ready exactly if every load is started, in the
      second section, at a moment when no model is. */
  lemma {:induction false} AtMostOneExactly(states: seq<State>, actions: seq<Action>, n: nat)
    requires IsRun(states, actions) && n <= |actions|
    ensures (forall i :: 0 <= i <= n ==> AtMostOne(states[i])) <==>
            (forall i :: 0 <= i < n && actions[i].Plan? && actions[i].plan.Ok? ==> NoneActive(states[i]))
    decreases n
  {
    hide After, Inv;
    if n > 0 {
      AtMostOneExactly(states, actions, n - 1);
      RunKeepsInv(states, actions, n - 1);
      assert Follows(states[n - 1], actions[n - 1], states[n]);
      if AtMostOne(states[n - 1]) {
        StepKeepsOneExactly(states[n - 1], actions[n - 1]);
      }
    }
  }

  /** A whole _ensure_loading_started that nothing interrupts: an active model is left alone; any
      other is started, or marked failed, once every ready model is evicted and unloaded. */
  ghost function Started(s: State, name: string, plan: Result<DispatchPlan, string>): State
    requires Valid(s.states) && s.handler == Idle
  {
    var s1 := FirstSection(s, name);
    if s1.handler == Idle then s
    else AfterPlan(s1.(handler := Evicting(name, []), unloaded := s.unloaded + multiset(s1.handler.toUnload)), plan)
  }

  /** It leaves at most one model active exactly when the model was active already, or no model was
      loading, or the plan fails. */
  lemma {:induction false} StartKeepsOneExactly(s: State, name: string, plan: Result<DispatchPlan, string>)
    requires Inv(s) && s.handler == Idle && AtMostOne(s)
    ensures AtMostOne(Started(s, name, plan)) <==>
            (name in s.states.m && IsActive(s.states.m[name])) || NoneLoading(s) || plan.Err?
  {
    hide EntryOk, LoadsOk, EvictReady, NoneLoading, ReadySessions;
    if !(name in s.states.m && IsActive(s.states.m[name])) {
      EvictedNoneActive(s, name);
      var s1 := FirstSection(s, name);
      var s2 := s1.(handler := Evicting(name, []), unloaded := s.unloaded + multiset(s1.handler.toUnload));
      FirstSectionKeepsInv(s, name);
      SameDict(s1, s2);
      PlanKeepsOneExactly(s2, plan);
    }
  }

  /** Once the ready models are evicted, a model is active only if it was loading. */
  lemma {:induction false} EvictedNoneActive(s: State, name: string)
    requires Valid(s.states) && !(name in s.states.m && IsActive(s.states.m[name]))
    ensures NoneActive(FirstSection(s, name)) <==> NoneLoading(s)
    ensures AtMostOne(s) ==> AtMostOne(FirstSection(s, name))
  {
    hide EvictReady, ReadySessions;
    EvictedExactly(s.states);
    var m := FirstSection(s, name).states.m;
    forall n | n in s.states.m && s.states.m[n].status == Loading
      ensures n in m && IsActive(m[n])
    {
    }
  }

  lemma {:induction false} SameDict(s: State, s': State)
    requires Inv(s) && s'.states == s.states && s'.loads == s.loads && s.handler.Evicting? &&
             s'.handler == Evicting(s.handler.name, [])
    ensures Inv(s')
  {
    forall n | n in s'.states.m
      ensures EntryOk(s', n)
    {
      assert EntryOk(s, n);
    }
  }

  lemma {:induction false} OneMoreStep(states: seq<State>, actions: seq<Action>, a: Action, s': State)
    requires IsRun(states, actions) && Follows(states[|actions|], a, s')
    ensures IsRun(states + [s'], actions + [a])
  {
    hide Follows, Init;
    var states', actions' := states + [s'], actions + [a];
    forall i, j | 0 <= i < |actions'| && j == i + 1
      ensures Follows(states'[i], actions'[i], states'[j])
    {
      assert i < |actions| ==> Follows(states[i], actions[i], states[j]);
    }
  }

  /** Two loads, one started beside the other. */
  lemma {:induction false} TwoLoading(a: string, b: string, p: DispatchPlan)
    returns (states: seq<State>, actions: seq<Action>)
    requires a != b
    ensures IsRun(states, actions) && actions == [Ensure(a), Plan(Ok(p)), Ensure(b), Plan(Ok(p))]
    ensures states[4].handler == Idle && BothLoading(states[4], a, b) && !AtMostOne(states[4])
  {
    var s0 := State(Empty(), [], Idle, multiset{});
    states, actions := [s0], [];
    assert IsRun(states, actions);
    hide IsRun, Follows, AfterPlan, AtMostOne, BothLoading, OneLoading;
    FirstOfTwo(a, p);
    NothingToEvict(a, b, p);
    SecondBeside(a, b, p);
    var s1 := s0.(handler := Evicting(a, []));
    var s2 := OneLoading(a, p);
    var s3 := s2.(handler := Evicting(b, []));
    OneMoreStep(states, actions, Ensure(a), s1);
    OneMoreStep([s0, s1], [Ensure(a)], Plan(Ok(p)), s2);
    OneMoreStep([s0, s1, s2], [Ensure(a), Plan(Ok(p))], Ensure(b), s3);
    states, actions := [s0, s1, s2, s3], [Ensure(a), Plan(Ok(p)), Ensure(b)];
    OneMoreStep(states, actions, Plan(Ok(p)), AfterPlan(s3, Ok(p)));
    states, actions := states + [AfterPlan(s3, Ok(p))], actions + [Plan(Ok(p))];
  }

  ghost predicate BothLoading(s: State, a: string, b: string) {
    && a in s.states.m && s.states.m[a].status == Loading
    && b in s.states.m && s.states.m[b].status == Loading
  }

  ghost function OneLoading(a: string, p: DispatchPlan): State {
    State(Dict([a], map[a := ModelState(Loading, Some(p), None, None)]), [BackgroundLoad(a, p, Running)], Idle,
          multiset{})
  }

  lemma {:induction false} FirstOfTwo(a: string, p: DispatchPlan)
    ensures var s0 := State(Empty(), [], Idle, multiset{});
            var s1 := s0.(handler := Evicting(a, []));
            Follows(s0, Ensure(a), s1) && Follows(s1, Plan(Ok(p)), OneLoading(a, p))
  {
  }

  lemma {:induction false} NothingToEvict(a: string, b: string, p: DispatchPlan)
    requires a != b
    ensures var s := OneLoading(a, p);
            Follows(s, Ensure(b), s.(handler := Evicting(b, [])))
  {
    var keys, m := OneLoading(a, p).states.keys, OneLoading(a, p).states.m;
    assert keys[..|keys| - 1] == [];
    assert ReadySessions(keys[..0], m) == [] && ReadyNames(keys[..0], m) == [];
    assert ReadySessions(keys, m) == [] + [];
    assert ReadyNames(keys, m) == [] + [];
  }

  lemma {:induction false} SecondBeside(a: string, b: string, p: DispatchPlan)
    requires a != b
    ensures var s := OneLoading(a, p).(handler := Evicting(b, []));
            var s' := AfterPlan(s, Ok(p));
            Follows(s, Plan(Ok(p)), s') && BothLoading(s', a, b) && !AtMostOne(s') && s'.handler == Idle
  {
    hide EvictReady, ReadySessions;
  }

  // ---------- /topology ----------

  /** The first loading or ready model with a plan, in the dict's order. */
  function FirstActive(keys: seq<string>, m: map<string, ModelState>): Option<string>
    requires KeysIn(keys, m)
  {
    if keys == [] then None
    else if m[keys[0]].plan.Some? && IsActive(m[keys[0]]) then Some(keys[0])
    else
      assert forall k :: 0 <= k < |keys[1..]| ==> keys[1..][k] == keys[k + 1];
      FirstActive(keys[1..], m)
  }

  lemma {:induction false} FirstActiveFinds(keys: seq<string>, m: map<string, ModelState>)
    requires KeysIn(keys, m)
    ensures var r := FirstActive(keys, m);
            && (r.Some? ==> r.value in keys && m[r.value].plan.Some? && IsActive(m[r.value]))
            && (r.None? ==> forall x :: x in keys ==> !(m[x].plan.Some? && IsActive(m[x])))
    decreases |keys|
  {
    if keys != [] {
      assert forall k :: 0 <= k < |keys[1..]| ==> keys[1..][k] == keys[k + 1];
      FirstActiveFinds(keys[1..], m);
      assert keys == [keys[0]] + keys[1..];
    }
  }

  /** What /topology may show: a plan, of a model that is loading or ready. */
  predicate IsShown(st: ModelState) {
    st.plan.Some? && (st.status == Loading || st.status == Ready)
  }

  /** Of several, /topology shows the one whose entry came first. */
  lemma {:induction false} FirstActiveIsFirst(keys: seq<string>, m: map<string, ModelState>)
    requires KeysIn(keys, m)
    ensures var r := FirstActive(keys, m);
            && (r == None ==> forall x :: x in keys ==> !IsShown(m[x]))
            && (r.Some? ==>
                  && r.value in keys && IsShown(m[r.value])
                  && forall x :: x in keys && x != r.value && IsShown(m[x]) ==> ComesBefore(keys, r.value, x))
    decreases |keys|
  {
    if keys != [] {
      var rest := keys[1..];
      assert forall k :: 0 <= k < |rest| ==> rest[k] == keys[k + 1];
      FirstActiveIsFirst(rest, m);
      var r := FirstActive(keys, m);
      if r.Some? {
        forall x | x in keys && x != r.value && IsShown(m[x])
          ensures ComesBefore(keys, r.value, x)
        {
          if IsShown(m[keys[0]]) {
            var b :| 0 <= b < |keys| && keys[b] == x;
            assert keys[0] == r.value && 0 < b;
          } else {
            var a, b :| 0 <= a < b < |rest| && rest[a] == r.value && rest[b] == x;
            assert keys[a + 1] == r.value && keys[b + 1] == x;
          }
        }
      }
    }
  }

  /** Under the same premise, what /topology shows is the one active model, or that there is none. */
  lemma {:induction false} TopologyShowsTheOne(states: seq<State>, actions: seq<Action>, i: nat, name: string)
    requires IsRun(states, actions) && i < |states|
    requires forall k :: 0 <= k < |actions| ==> Calm(states[k], actions[k])
    ensures Valid(states[i].states)
    ensures var d := states[i].states;
            FirstActive(d.keys, d.m) == Some(name) <==> name in d.m && IsActive(d.m[name])
  {
    RunKeepsInv(states, actions, i);
    AtMostOneActive(states, actions, i);
    var d := states[i].states;
    FirstActiveFinds(d.keys, d.m);
    if name in d.m {
      assert EntryOk(states[i], name);
      assert name in d.keys;
    }
  }

  /** /topology shows every active model, whichever there is, exactly when there is at most one. */
  lemma {:induction false} TopologyExactly(states: seq<State>, actions: seq<Action>, i: nat)
    requires IsRun(states, actions) && i < |states|
    ensures Valid(states[i].states)
    ensures var d := states[i].states;
            AtMostOne(states[i]) <==>
              forall name :: name in d.m && IsActive(d.m[name]) ==> FirstActive(d.keys, d.m) == Some(name)
  {
    RunKeepsInv(states, actions, i);
    var d := states[i].states;
    FirstActiveFinds(d.keys, d.m);
    forall name | name in d.m && IsActive(d.m[name])
      ensures name in d.keys && d.m[name].plan.Some?
    {
      assert EntryOk(states[i], name);
    }
  }

  // ---------- What each section does to the dict ----------

  /** Some ready entry of the dict holds the session. */
  ghost predicate IsReadySession(d: Dict<string, ModelState>, t: nat) {
    exists n :: n in d.m && d.m[n].status == Ready && d.m[n].session == Some(t)
  }

  /** These are the sessions of the ready entries, each once. */
  ghost predicate AreReadySessions(d: Dict<string, ModelState>, sessions: multiset<nat>) {
    forall t: nat :: sessions[t] == if IsReadySession(d, t) then 1 else 0
  }

  /** The ready entries are gone; the others are as they were, and in the same order. */
  ghost predicate ReadyGone(d: Dict<string, ModelState>, d': Dict<string, ModelState>) {
    && (forall n :: n in d'.m <==> n in d.m && d.m[n].status != Ready)
    && (forall n :: n in d'.m ==> d'.m[n] == d.m[n])
    && KeepsOrder(d.keys, d'.keys)
  }

  /** A model's entry is recorded, in its old place or else behind all others. */
  ghost predicate Recorded(d: Dict<string, ModelState>, d': Dict<string, ModelState>, name: string, st: ModelState) {
    && (forall n :: n in d'.m <==> n in d.m || n == name)
    && (forall n :: n in d'.m ==> d'.m[n] == if n == name then st else d.m[n])
    && d'.keys == if name in d.m then d.keys else d.keys + [name]
  }

  /** The entry that a started model gets: loading by the plan, or in error because there is none. */
  function StartedEntry(plan: Result<DispatchPlan, string>): ModelState {
    match plan
    case Ok(p) => ModelState(Loading, Some(p), None, None)
    case Err(e) => ModelState(Error, None, None, Some(e))
  }

  lemma {:induction false} DeletedKeepsOrder(d: Dict<string, ModelState>, names: seq<string>)
    requires Valid(d)
    ensures KeepsOrder(d.keys, Deleted(d, names).keys)
    decreases |names|
  {
    if names != [] {
      var n := |names| - 1;
      DeletedKeepsOrder(d, names[..n]);
      WithoutKeepsOrder(Deleted(d, names[..n]).keys, names[n]);
    }
  }

  /** The first section leaves a loading or ready model alone; otherwise it takes out all that is
      ready, to be unloaded. */
  lemma {:induction false} FirstSectionExactly(s: State, name: string)
    requires Inv(s)
    ensures var d, s' := s.states, FirstSection(s, name);
            && s'.loads == s.loads && s'.unloaded == s.unloaded
            && if name in d.m && (d.m[name].status == Loading || d.m[name].status == Ready) then
                 s'.states == d && s'.handler == Idle
               else
                 && s'.handler.Evicting? && s'.handler.name == name
                 && AreReadySessions(d, multiset(s'.handler.toUnload)) && ReadyGone(d, s'.states)
  {
    hide ReadySessions, ReadyNames, Deleted, KeepsOrder, EntryOk, LoadsOk, HandlerOk;
    var d := s.states;
    EvictedExactly(d);
    DeletedKeepsOrder(d, ReadyNames(d.keys, d.m));
    forall t: nat
      ensures multiset(ReadySessions(d.keys, d.m))[t] == if IsReadySession(d, t) then 1 else 0
    {
      ReadySessionsCount(s, d.keys, t);
      StoredIsReady(s, t);
    }
  }

  /** It is the step that begins a call, and the one with which a redistribution goes on to start its
      own model, and no other. */
  lemma {:induction false} FirstSectionIsStep(s: State, a: Action)
    requires Inv(s) && Enabled(s, a) && (a.Ensure? || a.Proceed?)
    ensures var name, d, s' := if a.Ensure? then a.name else s.handler.name, s.states, After(s, a);
            if name in d.m && (d.m[name].status == Loading || d.m[name].status == Ready) then
              s' == s.(handler := Idle)
            else
              && s'.handler.Evicting? && s'.handler.name == name
              && AreReadySessions(d, multiset(s'.handler.toUnload)) && ReadyGone(d, s'.states)
              && s'.loads == s.loads && s'.unloaded == s.unloaded
  {
    hide FirstSection, AreReadySessions, ReadyGone, EntryOk, LoadsOk, HandlerOk;
    FirstSectionExactly(s, if a.Ensure? then a.name else s.handler.name);
  }

  lemma {:induction false} StoredIsReady(s: State, t: nat)
    requires Inv(s)
    ensures IsReadySession(s.states, t) <==> IsStored(s, t)
    ensures IsStored(s, t) ==> s.loads[t].name in s.states.keys
  {
    hide EntryOk, LoadsOk, HandlerOk;
    if IsStored(s, t) {
      StoredAt(s, s.loads[t].name, t);
    }
    if n :| n in s.states.m && s.states.m[n].status == Ready && s.states.m[n].session == Some(t) {
      StoredAt(s, n, t);
    }
  }

  /** The second section records the error, or the plan and the load it starts. */
  lemma {:induction false} PlanRecords(s: State, plan: Result<DispatchPlan, string>)
    requires s.handler.Evicting?
    ensures var name, s' := s.handler.name, AfterPlan(s, plan);
            && Recorded(s.states, s'.states, name, StartedEntry(plan))
            && s'.loads == s.loads + (if plan.Ok? then [BackgroundLoad(name, plan.value, Running)] else [])
            && s'.handler == Idle && s'.unloaded == s.unloaded
  {
  }

  /** A background load records its own session, or its error, with its plan in either case. */
  lemma {:induction false} FinishRecords(s: State, t: nat, outcome: Result<(), string>)
    requires t < |s.loads|
    ensures var load, s' := s.loads[t], AfterFinish(s, t, outcome);
            && Recorded(s.states, s'.states, load.name,
                        if outcome.Ok? then ModelState(Ready, Some(load.plan), Some(t), None)
                        else ModelState(Error, Some(load.plan), None, Some(outcome.error)))
            && |s'.loads| == |s.loads| && (forall u :: 0 <= u < |s.loads| && u != t ==> s'.loads[u] == s.loads[u])
            && s'.loads[t] == BackgroundLoad(load.name, load.plan, if outcome.Ok? then BecameReady else Broke)
            && s'.handler == s.handler && s'.unloaded == s.unloaded
  {
  }

  /** Redistributing takes a model's entry out, with its session to be unloaded, unless there is none
      or it is loading. */
  lemma {:induction false} RedistributeTakesOut(s: State, name: string)
    requires Valid(s.states) && s.handler == Idle
    ensures var d, s' := s.states, AfterRedistribute(s, name);
            if name !in d.m || d.m[name].status == Loading then s' == s
            else
              && (forall n :: n in s'.states.m <==> n in d.m && n != name)
              && (forall n :: n in s'.states.m ==> s'.states.m[n] == d.m[n])
              && KeepsOrder(d.keys, s'.states.keys)
              && s'.handler.Freeing? && s'.handler.name == name
              && s'.handler.toUnload == (if d.m[name].session.Some? then [d.m[name].session.value] else [])
              && s'.loads == s.loads && s'.unloaded == s.unloaded
  {
    hide KeepsOrder;
    WithoutKeepsOrder(s.states.keys, name);
  }

  /** A whole call starts the model: what was ready is gone, and its own entry is the new one. */
  ghost predicate Restarted(d: Dict<string, ModelState>, d': Dict<string, ModelState>, name: string, st: ModelState) {
    && (forall n :: n in d'.m <==> n == name || (n in d.m && d.m[n].status != Ready))
    && (forall n :: n in d'.m ==> d'.m[n] == if n == name then st else d.m[n])
  }

  /** Of a whole call that nothing interrupts: a model that is loading or ready is left alone; any
      other is started, and whatever was ready is unloaded. */
  lemma {:induction false} StartedExactly(s: State, name: string, plan: Result<DispatchPlan, string>)
    requires Inv(s) && s.handler == Idle
    ensures var d, s' := s.states, Started(s, name, plan);
            if name in d.m && (d.m[name].status == Loading || d.m[name].status == Ready) then s' == s
            else
              && Restarted(d, s'.states, name, StartedEntry(plan)) && KeepsOrder(d.keys, s'.states.keys)
              && (name !in d.m ==> s'.states.keys != [] && s'.states.keys[|s'.states.keys| - 1] == name)
              && UnloadsReady(d, s.unloaded, s'.unloaded)
              && s'.loads == s.loads + (if plan.Ok? then [BackgroundLoad(name, plan.value, Running)] else [])
              && s'.handler == Idle
  {
    hide FirstSection, AfterPlan, KeepsOrder, EntryOk, LoadsOk, HandlerOk;
    FirstSectionExactly(s, name);
    var s1 := FirstSection(s, name);
    if s1.handler != Idle {
      var s2 := s1.(handler := Evicting(name, []), unloaded := s.unloaded + multiset(s1.handler.toUnload));
      PlanRecords(s2, plan);
      if name !in s.states.m {
        OrderWithLast(s.states.keys, s1.states.keys, name);
      }
    }
  }

  /** The unload calls made meanwhile were one for each session of a ready entry. */
  ghost predicate UnloadsReady(d: Dict<string, ModelState>, before: multiset<nat>, after: multiset<nat>) {
    forall t: nat :: after[t] == before[t] + (if IsReadySession(d, t) then 1 else 0)
  }

  lemma {:induction false} OrderWithLast(before: seq<string>, after: seq<string>, name: string)
    requires KeepsOrder(before, after) && name !in before
    ensures KeepsOrder(before, after + [name])
  {
    forall x, y | x in after + [name] && y in after + [name] && ComesBefore(before, x, y)
      ensures ComesBefore(after + [name], x, y)
    {
      assert ComesBefore(after, x, y);
      var a, b :| 0 <= a < b < |after| && after[a] == x && after[b] == y;
      assert (after + [name])[a] == x && (after + [name])[b] == y;
    }
  }

  lemma {:induction false} IdleKeepsInv(s: State)
    requires Inv(s)
    ensures Inv(s.(handler := Idle))
  {
    forall n | n in s.states.m
      ensures EntryOk(s.(handler := Idle), n)
    {
      assert EntryOk(s, n);
    }
  }

  /** Starting a model anew once its own entry has been taken out and its session unloaded. */
  lemma {:induction false} RedistributesReady(
    s: State, name: string, left: State, own: seq<nat>, plan: Result<DispatchPlan, string>)
    requires Inv(s) && Inv(left) && left.handler == Idle && name in s.states.m && |own| <= 1
    requires forall n :: n in left.states.m <==> n in s.states.m && n != name
    requires forall n :: n in left.states.m ==> left.states.m[n] == s.states.m[n]
    requires forall t: nat :: t in own <==> s.states.m[name].session == Some(t)
    requires left.unloaded == s.unloaded + multiset(own) && left.loads == s.loads
    ensures var s' := Started(left, name, plan);
            && Restarted(s.states, s'.states, name, StartedEntry(plan)) && s'.handler == Idle
            && UnloadsReady(s.states, s.unloaded, s'.unloaded)
            && s'.loads == s.loads + (if plan.Ok? then [BackgroundLoad(name, plan.value, Running)] else [])
  {
    hide Started, EntryOk, LoadsOk, HandlerOk, KeepsOrder, StartedEntry, IsReadySession;
    StartedExactly(left, name, plan);
    forall t: nat
      ensures (if IsReadySession(s.states, t) then 1 else 0) ==
              multiset(own)[t] + (if IsReadySession(left.states, t) then 1 else 0)
    {
      OwnAndOthers(s, name, left.states, own, t);
    }
  }

  /** A session is the model's own or another ready model's, never both. */
  lemma {:induction false} OwnAndOthers(s: State, name: string, left: Dict<string, ModelState>, own: seq<nat>, t: nat)
    requires Inv(s) && name in s.states.m && |own| <= 1
    requires forall n :: n in left.m <==> n in s.states.m && n != name
    requires forall n :: n in left.m ==> left.m[n] == s.states.m[n]
    requires forall u: nat :: u in own <==> s.states.m[name].session == Some(u)
    ensures (if IsReadySession(s.states, t) then 1 else 0) ==
            multiset(own)[t] + (if IsReadySession(left, t) then 1 else 0)
  {
    hide EntryOk, LoadsOk, HandlerOk;
    StoredAt(s, name, t);
    StoredIsReady(s, t);
    OwnCount(own, t);
    if IsReadySession(left, t) {
      var n :| n in left.m && left.m[n].status == Ready && left.m[n].session == Some(t);
      StoredAt(s, n, t);
    }
    if IsReadySession(s.states, t) && s.states.m[name].session != Some(t) {
      var n :| n in s.states.m && s.states.m[n].status == Ready && s.states.m[n].session == Some(t);
      assert n in left.m;
    }
  }

  lemma {:induction false} OwnCount(own: seq<nat>, t: nat)
    requires |own| <= 1
    ensures multiset(own)[t] == if t in own then 1 else 0
  {
    if own != [] {
      assert own == [own[0]];
    }
  }

  // ---------- The program ----------

  /** The sessions of the ready entries, in the dict's order. */
  method CollectReady(d: Dict<string, ModelState>) returns (sessions: seq<nat>)
    requires Valid(d)
    ensures sessions == ReadySessions(d.keys, d.m)
  {
    sessions := [];
    for k := 0 to |d.keys|
      invariant sessions == ReadySessions(d.keys[..k], d.m)
    {
      assert d.keys[..k + 1][..k] == d.keys[..k];
      var st := d.m[d.keys[k]];
      if st.status == Ready && st.session.Some? {
        sessions := sessions + [st.session.value];
      }
    }
    assert d.keys[..|d.keys|] == d.keys;
  }

  /** The names of the ready entries, in the same order. */
  method CollectReadyNames(d: Dict<string, ModelState>) returns (names: seq<string>)
    requires Valid(d)
    ensures names == ReadyNames(d.keys, d.m)
  {
    names := [];
    for k := 0 to |d.keys|
      invariant names == ReadyNames(d.keys[..k], d.m)
    {
      assert d.keys[..k + 1][..k] == d.keys[..k];
      if d.m[d.keys[k]].status == Ready {
        names := names + [d.keys[k]];
      }
    }
    assert d.keys[..|d.keys|] == d.keys;
  }

  /** Delete these entries one after the other. */
  method DeleteNames(d: Dict<string, ModelState>, names: seq<string>) returns (r: Dict<string, ModelState>)
    requires Valid(d)
    ensures r == Deleted(d, names)
  {
    r := d;
    for k := 0 to |names|
      invariant r == Deleted(d, names[..k])
    {
      assert names[..k + 1][..k] == names[..k];
      r := Remove(r, names[k]);
    }
    assert names[..|names|] == names;
  }

  /** What the application shares between its handlers and the background loads.  The field
      `handler` is the running handler's place in its code. */
  class Orchestrator {
    var states: Dict<string, ModelState>
    var loads: seq<BackgroundLoad>
    var handler: Handler
    ghost var unloaded: multiset<nat>

    constructor ()
      ensures Init(View())
    {
      states, loads, handler, unloaded := Empty(), [], Idle, multiset{};
    }

    ghost function View(): State
      reads this
    {
      State(states, loads, handler, unloaded)
    }

    /** _ensure_loading_started up to the first unload. */
    method EnsureFirstSection(name: string)
      requires Inv(View()) && (handler == Idle || (handler.Freeing? && handler.toUnload == [] && handler.name == name))
      modifies this
      ensures Inv(View()) && View() == FirstSection(old(View()), name)
      ensures loads == old(loads) && unloaded == old(unloaded)
      ensures if name in old(states).m && (old(states).m[name].status == Loading || old(states).m[name].status == Ready)
              then states == old(states) && handler == Idle
              else
                && handler.Evicting? && handler.name == name
                && AreReadySessions(old(states), multiset(handler.toUnload)) && ReadyGone(old(states), states)
    {
      hide AreReadySessions, ReadyGone, KeepsOrder;
      FirstSectionExactly(View(), name);
      hide EntryOk, LoadsOk, HandlerOk, ReadySessions, ReadyNames, Deleted;
      FirstSectionKeepsInv(View(), name);
      if name in states.m {
        var state := states.m[name];
        if state.status == Loading || state.status == Ready {
          handler := Idle;
          return;
        }
      }
      var sessions := CollectReady(states);
      var names := CollectReadyNames(states);
      states := DeleteNames(states, names);
      handler := Evicting(name, sessions);
    }

    /** The unload calls, one session after the other. */
    method UnloadHeld()
      requires Inv(View()) && !handler.Idle?
      modifies this`handler, this`unloaded
      ensures Inv(View()) && handler == old(handler).(toUnload := [])
      ensures unloaded == old(unloaded) + multiset(old(handler).toUnload)
    {
      while handler.toUnload != []
        invariant Inv(View()) && !handler.Idle? && handler == old(handler).(toUnload := handler.toUnload)
        invariant unloaded + multiset(handler.toUnload) == old(unloaded) + multiset(old(handler).toUnload)
        decreases |handler.toUnload|
      {
        KeepsInv(View(), Unload);
        assert handler.toUnload == [handler.toUnload[0]] + handler.toUnload[1..];
        unloaded := unloaded + multiset{handler.toUnload[0]};
        handler := handler.(toUnload := handler.toUnload[1..]);
      }
    }

    /** plan_dispatch has answered: record the error, or start the background load. */
    method EnsureSecondSection(plan: Result<DispatchPlan, string>)
      requires Inv(View()) && handler.Evicting? && handler.toUnload == []
      modifies this
      ensures Inv(View()) && View() == AfterPlan(old(View()), plan) == After(old(View()), Plan(plan))
      ensures Recorded(old(states), states, old(handler).name, StartedEntry(plan))
      ensures loads == old(loads) + (if plan.Ok? then [BackgroundLoad(old(handler).name, plan.value, Running)] else [])
      ensures handler == Idle && unloaded == old(unloaded)
    {
      hide EntryOk, LoadsOk, HandlerOk, Recorded, StartedEntry, Inv;
      PlanKeepsInv(View(), plan);
      PlanRecords(View(), plan);
      var name := handler.name;
      match plan {
        case Err(e) =>
          states := Put(states, name, ModelState(Error, None, None, Some(e)));
        case Ok(p) =>
          states := Put(states, name, ModelState(Loading, Some(p), None, None));
          loads := loads + [BackgroundLoad(name, p, Running)];
      }
      handler := Idle;
    }

    /** Both sections of _ensure_loading_started and the unload calls between them. */
    method EnsureSections(name: string, plan: Result<DispatchPlan, string>)
      requires Inv(View()) && (handler == Idle || (handler.Freeing? && handler.toUnload == [] && handler.name == name))
      modifies this
      ensures Inv(View()) && View() == Started(old(View()).(handler := Idle), name, plan)
    {
      hide AfterPlan, Inv, AreReadySessions, ReadyGone, Recorded, StartedEntry, EvictReady, ReadySessions;
      EnsureFirstSection(name);
      if handler == Idle {
        return;
      }
      UnloadHeld();
      EnsureSecondSection(plan);
    }

    /** A whole _ensure_loading_started that nothing interrupts. */
    method EnsureLoadingStarted(name: string, plan: Result<DispatchPlan, string>)
      requires Inv(View()) && handler == Idle
      modifies this
      ensures Inv(View()) && View() == Started(old(View()), name, plan)
      ensures if name in old(states).m && (old(states).m[name].status == Loading || old(states).m[name].status == Ready)
              then View() == old(View())
              else
                && Restarted(old(states), states, name, StartedEntry(plan)) && KeepsOrder(old(states).keys, states.keys)
                && UnloadsReady(old(states), old(unloaded), unloaded)
                && loads == old(loads) + (if plan.Ok? then [BackgroundLoad(name, plan.value, Running)] else [])
                && handler == Idle
    {
      hide Started, Inv, Restarted, KeepsOrder, UnloadsReady, StartedEntry;
      StartedExactly(View(), name, plan);
      EnsureSections(name, plan);
    }

    /** The background thread's last section. */
    method FinishLoad(t: nat, outcome: Result<(), string>)
      requires Inv(View()) && Enabled(View(), Finish(t, outcome))
      modifies this`states, this`loads
      ensures Inv(View()) && View() == AfterFinish(old(View()), t, outcome)
      ensures View() == After(old(View()), Finish(t, outcome))
      ensures var load := old(loads)[t];
              && Recorded(old(states), states, load.name,
                          if outcome.Ok? then ModelState(Ready, Some(load.plan), Some(t), None)
                          else ModelState(Error, Some(load.plan), None, Some(outcome.error)))
              && |loads| == |old(loads)| && (forall u :: 0 <= u < |loads| && u != t ==> loads[u] == old(loads)[u])
              && loads[t] == BackgroundLoad(load.name, load.plan, if outcome.Ok? then BecameReady else Broke)
    {
      hide EntryOk, LoadsOk, HandlerOk, Recorded;
      FinishKeepsInv(View(), t, outcome);
      FinishRecords(View(), t, outcome);
      var load := loads[t];
      match outcome {
        case Ok(_) =>
          states := Put(states, load.name, ModelState(Ready, Some(load.plan), Some(t), None));
          loads := loads[t := load.(outcome := BecameReady)];
        case Err(e) =>
          states := Put(states, load.name, ModelState(Error, Some(load.plan), None, Some(e)));
          loads := loads[t := load.(outcome := Broke)];
      }
    }

    /** redistribute_model up to its unload call; an HTTP error code if there is nothing to do. */
    method RedistributeSection(name: string) returns (refused: Option<int>)
      requires Inv(View()) && handler == Idle
      modifies this`states, this`handler
      ensures Inv(View()) && View() == AfterRedistribute(old(View()), name) == After(old(View()), Redistribute(name))
      ensures refused == if name !in old(states).m then Some(400)
                         else if old(states).m[name].status == Loading then Some(409) else None
      ensures refused.Some? ==> View() == old(View())
      ensures refused == None ==>
                && (forall n :: n in states.m <==> n in old(states).m && n != name)
                && (forall n :: n in states.m ==> states.m[n] == old(states).m[n])
                && KeepsOrder(old(states).keys, states.keys)
                && handler.Freeing? && handler.name == name
                && (forall t: nat :: t in handler.toUnload <==> old(states).m[name].session == Some(t))
                && |handler.toUnload| <= 1 && (handler.toUnload != [] <==> old(states).m[name].status == Ready)
    {
      RedistributeKeepsInv(View(), name);
      RedistributeTakesOut(View(), name);
      assert name in states.m ==> EntryOk(View(), name);
      if name !in states.m {
        return Some(400);
      }
      var state := states.m[name];
      if state.status == Loading {
        return Some(409);
      }
      states := Remove(states, name);
      handler := Freeing(name, if state.session.Some? then [state.session.value] else []);
      return None;
    }

    /** A whole redistribute_model that nothing interrupts: the model itself, and whatever else is
        ready, is unloaded, and the model is started anew. */
    method RedistributeModel(name: string, plan: Result<DispatchPlan, string>) returns (refused: Option<int>)
      requires Inv(View()) && handler == Idle
      modifies this
      ensures Inv(View()) && handler == Idle
      ensures refused == if name !in old(states).m then Some(400)
                         else if old(states).m[name].status == Loading then Some(409) else None
      ensures refused.Some? ==> View() == old(View())
      ensures refused == None ==>
                && Restarted(old(states), states, name, StartedEntry(plan))
                && UnloadsReady(old(states), old(unloaded), unloaded)
                && loads == old(loads) + (if plan.Ok? then [BackgroundLoad(name, plan.value, Running)] else [])
    {
      hide Started, Inv, Restarted, KeepsOrder, UnloadsReady, StartedEntry, AfterRedistribute;
      ghost var s := View();
      refused := RedistributeSection(name);
      if refused.Some? {
        return;
      }
      ghost var own := handler.toUnload;
      UnloadHeld();
      ghost var left := View().(handler := Idle);
      IdleKeepsInv(View());
      EnsureSections(name, plan);
      RedistributesReady(s, name, left, own, plan);
    }

    method GetTopology() returns (name: Option<string>)
      requires Valid(states)
      ensures name == FirstActive(states.keys, states.m)
      ensures name == None ==> forall x :: x in states.m ==> !IsShown(states.m[x])
      ensures name.Some? ==>
                && name.value in states.m && IsShown(states.m[name.value])
                && forall x :: x in states.m && x != name.value && IsShown(states.m[x]) ==>
                     ComesBefore(states.keys, name.value, x)
    {
      hide IsShown, ComesBefore;
      FirstActiveIsFirst(states.keys, states.m);
      name := None;
      var k := 0;
      while k < |states.keys|
        invariant k <= |states.keys|
        invariant KeysIn(states.keys[k..], states.m)
        invariant FirstActive(states.keys[k..], states.m) == FirstActive(states.keys, states.m)
      {
        var st := states.m[states.keys[k]];
        assert states.keys[k..][1..] == states.keys[k + 1..];
        if st.plan.Some? && (st.status == Loading || st.status == Ready) {
          return Some(states.keys[k]);
        }
        k := k + 1;
      }
    }
  }
}
