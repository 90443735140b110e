/**
 inference/service.py, LoadShard, its background thread and UnloadShard, as the steps one worker
 takes: each step is one section under the worker's lock, or one attempt to report.

 The thread that LoadShard starts is entered in `threads` by the step that adds the name to
 `loading`.  Reporting fails only with RpcError, which is logged and swallowed.
 */
module WorkerLoad {
  import opened Wrappers

  /** What the orchestrator sends; the tensor locations and the config belong to the build, which
      module ShardLoading models. */
  datatype LoadRequest = LoadRequest(
    modelName: string, layerStart: int, layerEnd: int, totalLayers: int,
    nextWorkerAddress: string, callbackAddress: string)

  datatype Report = Report(success: bool, error: string, layersLoaded: int)

  datatype LoadResponse = LoadResponse(success: bool, error: string)

  datatype ThreadPhase =
    | Loading                      // the outcome is not recorded yet
    | Reporting(report: Report)    // recorded; the report is still to be attempted
    | Done(report: Report)         // the report has been attempted

  datatype Thread = Thread(request: LoadRequest, phase: ThreadPhase)

  /** What this worker answered and reported, in order: history that no step reads. */
  datatype Happening = Accepted(request: LoadRequest) | Rejected(request: LoadRequest) | Attempted(request: LoadRequest,
    report: Report)

  datatype State<+H> = State(models: map<string, H>, loading: set<string>, threads: seq<Thread>, log: seq<Happening>)

  datatype Action<+H> =
    | Load(request: LoadRequest)
    | Finish(t: nat, outcome: Result<H, string>)   // the background load returns or raises
    | Attempt(t: nat)                              // its report is sent, arriving or not
    | Unload(name: string)

  function LoadedReport(r: LoadRequest): Report {
    Report(true, "", r.layerEnd - r.layerStart)
  }

  function OutcomeReport<H>(r: LoadRequest, outcome: Result<H, string>): Report {
    if outcome.Ok? then LoadedReport(r) else Report(false, outcome.error, 0)
  }

  function AlreadyLoaded(name: string): string {
    "Model '" + name + "' is already loaded"
  }

  ghost predicate Enabled<H>(s: State<H>, a: Action<H>) {
    match a
    case Load(_) => true
    case Finish(t, _) => t < |s.threads| && s.threads[t].phase == Loading
    case Attempt(t) => t < |s.threads| && s.threads[t].phase.Reporting?
    case Unload(_) => true
  }

  ghost function After<H>(s: State<H>, a: Action<H>): State<H>
    requires Enabled(s, a)
  {
    match a
    case Load(r) =>
      if r.modelName in s.models then
        s.(threads := s.threads + [Thread(r, Reporting(LoadedReport(r)))], log := s.log + [Accepted(r)])
      else if r.modelName in s.loading then
        s.(log := s.log + [Rejected(r)])
      else
        s.(loading := s.loading + {r.modelName}, threads := s.threads + [Thread(r, Loading)],
           log := s.log + [Accepted(r)])
    case Finish(t, outcome) =>
      var r := s.threads[t].request;
      s.(models := if outcome.Ok? then s.models[r.modelName := outcome.value] else s.models,
         loading := s.loading - {r.modelName},
         threads := s.threads[t := Thread(r, Reporting(OutcomeReport(r, outcome)))])
    case Attempt(t) =>
      var thread := s.threads[t];
      s.(threads := s.threads[t := Thread(thread.request, Done(thread.phase.report))],
         log := s.log + [Attempted(thread.request, thread.phase.report)])
    case Unload(name) => s.(models := s.models - {name})
  }

  ghost predicate Init<H>(s: State<H>) {
    s == State(map[], {}, [], [])
  }

  ghost predicate Follows<H>(s: State<H>, a: Action<H>, s': State<H>) {
    Enabled(s, a) && s' == After(s, a)
  }

  ghost predicate IsRun<H>(states: seq<State<H>>, actions: seq<Action<H>>) {
    && |states| == |actions| + 1 && Init(states[0])
    && forall i, j :: 0 <= i < |actions| && j == i + 1 ==> Follows(states[i], actions[i], states[j])
  }

  // ---------- Which names are loading ----------

  ghost predicate LoadsIn(threads: seq<Thread>, t: int, name: string) {
    0 <= t < |threads| && threads[t].phase == Loading && threads[t].request.modelName == name
  }

  /** A name is loading exactly when one background load has yet to record its outcome for it, and
      then it is not resident. */
  ghost predicate LoadingOk<H>(s: State<H>) {
    && (forall name :: name in s.loading ==> name !in s.models && exists t :: LoadsIn(s.threads, t, name))
    && (forall t :: 0 <= t < |s.threads| && s.threads[t].phase == Loading ==>
        s.threads[t].request.modelName in s.loading)
    && (forall t, u :: 0 <= t < u < |s.threads| && s.threads[t].phase == Loading && s.threads[u].phase == Loading ==>
          s.threads[t].request.modelName != s.threads[u].request.modelName)
  }

  /** Each name in `loading` still has its load. */
  lemma {:induction false} KeepsLoads<H>(s: State<H>, a: Action<H>, name: string)
    requires LoadingOk(s) && Enabled(s, a) && name in After(s, a).loading
    ensures name !in After(s, a).models && exists t :: LoadsIn(After(s, a).threads, t, name)
  {
    hide OutcomeReport, LoadedReport;
    if name in s.loading {
      var t :| LoadsIn(s.threads, t, name);
      assert LoadsIn(After(s, a).threads, t, name);
    } else {
      assert LoadsIn(After(s, a).threads, |s.threads|, name);
    }
  }

  lemma {:induction false} KeepsLoadingOk<H>(s: State<H>, a: Action<H>)
    requires LoadingOk(s) && Enabled(s, a)
    ensures LoadingOk(After(s, a))
  {
    hide OutcomeReport, LoadedReport;
    forall name | name in After(s, a).loading
      ensures name !in After(s, a).models && exists t :: LoadsIn(After(s, a).threads, t, name)
    {
      KeepsLoads(s, a, name);
    }
  }

  // ---------- One report for every accepted request ----------

  /** How often a request was accepted. */
  ghost function TimesAccepted(log: seq<Happening>, r: LoadRequest): nat {
    if log == [] then 0
    else TimesAccepted(log[..|log| - 1], r) + (if log[|log| - 1] == Accepted(r) then 1 else 0)
  }

  /** How often a report on a request was attempted. */
  ghost function TimesAttempted(log: seq<Happening>, r: LoadRequest): nat {
    if log == [] then 0
    else
      var h := log[|log| - 1];
      TimesAttempted(log[..|log| - 1], r) + (if h.Attempted? && h.request == r then 1 else 0)
  }

  /** How many threads have yet to attempt their report on a request. */
  ghost function Pending(threads: seq<Thread>, r: LoadRequest): nat {
    if threads == [] then 0
    else
      var thread := threads[|threads| - 1];
      Pending(threads[..|threads| - 1], r) + (if thread.request == r && !thread.phase.Done? then 1 else 0)
  }

  /** Every accepted request has its report attempted or pending, once. */
  ghost predicate Conserved<H>(s: State<H>, r: LoadRequest) {
    TimesAccepted(s.log, r) == TimesAttempted(s.log, r) + Pending(s.threads, r)
  }

  lemma {:induction false} PendingChanges(threads: seq<Thread>, t: nat, phase: ThreadPhase, r: LoadRequest)
    requires t < |threads| && !threads[t].phase.Done?
    ensures Pending(threads[t := Thread(threads[t].request, phase)], r)
              == Pending(threads, r) - (if phase.Done? && threads[t].request == r then 1 else 0)
    decreases |threads|
  {
    var n := |threads| - 1;
    var after := threads[t := Thread(threads[t].request, phase)];
    if t == n {
      assert after[..n] == threads[..n];
    } else {
      PendingChanges(threads[..n], t, phase, r);
      assert after[..n] == threads[..n][t := Thread(threads[t].request, phase)];
    }
  }

  lemma {:induction false} OneMoreHappening(log: seq<Happening>, h: Happening, r: LoadRequest)
    ensures TimesAccepted(log + [h], r) == TimesAccepted(log, r) + (if h == Accepted(r) then 1 else 0)
    ensures TimesAttempted(log + [h], r) == TimesAttempted(log, r) + (if h.Attempted? && h.request == r then 1 else 0)
  {
    assert (log + [h])[..|log + [h]| - 1] == log;
  }

  lemma {:induction false} OneMoreThread(threads: seq<Thread>, thread: Thread, r: LoadRequest)
    ensures Pending(threads + [thread], r) ==
              Pending(threads, r) + (if thread.request == r && !thread.phase.Done? then 1 else 0)
  {
    assert (threads + [thread])[..|threads + [thread]| - 1] == threads;
  }

  lemma {:induction false} LoadConserves<H>(s: State<H>, request: LoadRequest, r: LoadRequest)
    requires Conserved(s, r)
    ensures Conserved(After(s, Load(request)), r)
  {
    hide TimesAccepted, TimesAttempted, Pending, LoadedReport;
    OneMoreHappening(s.log, Accepted(request), r);
    OneMoreHappening(s.log, Rejected(request), r);
    OneMoreThread(s.threads, Thread(request, Loading), r);
    OneMoreThread(s.threads, Thread(request, Reporting(LoadedReport(request))), r);
  }

  lemma {:induction false} AttemptConserves<H>(s: State<H>, t: nat, r: LoadRequest)
    requires Conserved(s, r) && t < |s.threads| && s.threads[t].phase.Reporting?
    ensures Conserved(After(s, Attempt(t)), r)
  {
    var thread := s.threads[t];
    OneMoreHappening(s.log, Attempted(thread.request, thread.phase.report), r);
    PendingChanges(s.threads, t, Done(thread.phase.report), r);
  }

  lemma {:induction false} KeepsConserved<H>(s: State<H>, a: Action<H>, r: LoadRequest)
    requires Conserved(s, r) && Enabled(s, a)
    ensures Conserved(After(s, a), r)
  {
    match a
    case Load(request) => LoadConserves(s, request, r);
    case Finish(t, _) => PendingChanges(s.threads, t, After(s, a).threads[t].phase, r);
    case Attempt(t) => AttemptConserves(s, t, r);
    case Unload(_) =>
  }

  // ---------- Over whole runs ----------

  lemma {:induction false} RunKeepsLoadingOk<H>(states: seq<State<H>>, actions: seq<Action<H>>, i: nat)
    requires IsRun(states, actions) && i < |states|
    ensures LoadingOk(states[i])
    decreases i
  {
    if i > 0 {
      RunKeepsLoadingOk(states, actions, i - 1);
      assert Follows(states[i - 1], actions[i - 1], states[i]);
      KeepsLoadingOk(states[i - 1], actions[i - 1]);
    }
  }

  /** No two loads ever race for a name, none runs for a resident one, and `loading` lists exactly
      the names being loaded. */
  lemma {:induction false} OneLoadPerName<H>(states: seq<State<H>>, actions: seq<Action<H>>, i: nat, name: string)
    requires IsRun(states, actions) && i < |states|
    ensures var s := states[i];
            && (name in s.loading <==> exists t :: LoadsIn(s.threads, t, name))
            && (forall t, u :: LoadsIn(s.threads, t, name) && LoadsIn(s.threads, u, name) ==> t == u)
            && !(name in s.loading && name in s.models)
  {
    RunKeepsLoadingOk(states, actions, i);
  }

  // ---------- Which models are resident ----------

  /** The step stores a handle that a background load has built for the name. */
  ghost predicate Stores<H>(s: State<H>, a: Action<H>, name: string, h: H) {
    a.Finish? && a.t < |s.threads| && s.threads[a.t].request.modelName == name && a.outcome == Ok(h)
  }

  /** The step stores some handle for the name, or unloads it. */
  ghost predicate Displaces<H>(s: State<H>, a: Action<H>, name: string) {
    || a == Unload(name)
    || (a.Finish? && a.outcome.Ok? && Stores(s, a, name, a.outcome.value))
  }

  ghost predicate LeftAlone<H>(states: seq<State<H>>, actions: seq<Action<H>>, name: string, k: int, i: int)
    requires 0 <= k && i <= |actions| <= |states|
  {
    forall j :: k < j < i ==> !Displaces(states[j], actions[j], name)
  }

  /** At every point of every run, a name is resident with a handle exactly when a load of it brought
      that handle and since then none brought another and nobody unloaded it. */
  lemma {:induction false} ResidentExactly<H>(
    states: seq<State<H>>, actions: seq<Action<H>>, i: nat, name: string, h: H)
    requires IsRun(states, actions) && i < |states|
    ensures name in states[i].models && states[i].models[name] == h <==>
            exists k ::
              0 <= k < i && Stores(states[k], actions[k], name, h) && LeftAlone(states, actions, name, k, i)
    decreases i
  {
    if i > 0 {
      var n := i - 1;
      var s, a := states[n], actions[n];
      ResidentExactly(states, actions, n, name, h);
      assert Follows(s, a, states[i]);
      OneStepResident(s, a, name, h);
      if Stores(s, a, name, h) {
        assert LeftAlone(states, actions, name, n, i);
      }
      assert forall k :: 0 <= k < n ==>
               (LeftAlone(states, actions, name, k, i) <==>
                LeftAlone(states, actions, name, k, n) && !Displaces(s, a, name));
    }
  }

  lemma {:induction false} OneStepResident<H>(s: State<H>, a: Action<H>, name: string, h: H)
    requires Enabled(s, a)
    ensures name in After(s, a).models && After(s, a).models[name] == h <==>
            || Stores(s, a, name, h)
            || (name in s.models && s.models[name] == h && !Displaces(s, a, name))
  {
  }

  /** So a name is resident exactly when a load of it has succeeded since it was last unloaded. */
  lemma {:induction false} ResidentSinceUnload<H>(
    states: seq<State<H>>, actions: seq<Action<H>>, i: nat, name: string)
    requires IsRun(states, actions) && i < |states|
    ensures name in states[i].models <==>
            exists k ::
              && 0 <= k < i && Displaces(states[k], actions[k], name) && actions[k].Finish?
              && forall j :: k < j < i ==> actions[j] != Unload(name)
    decreases i
  {
    if i > 0 {
      var n := i - 1;
      ResidentSinceUnload(states, actions, n, name);
      assert Follows(states[n], actions[n], states[i]);
    }
  }

  /** At every point of every run, a request has been accepted as often as its report was attempted
      or is still to come; a rejected request has no report. */
  lemma {:induction false} ReportsConserved<H>(states: seq<State<H>>, actions: seq<Action<H>>, i: nat, r: LoadRequest)
    requires IsRun(states, actions) && i < |states|
    ensures TimesAccepted(states[i].log, r) == TimesAttempted(states[i].log, r) + Pending(states[i].threads, r)
    decreases i
  {
    if i > 0 {
      ReportsConserved(states, actions, i - 1, r);
      assert Follows(states[i - 1], actions[i - 1], states[i]);
      KeepsConserved(states[i - 1], actions[i - 1], r);
    }
  }

  /** When no thread is left running, every accepted request has been reported on exactly once. */
  lemma {:induction false} QuietMeansReported<H>(states: seq<State<H>>, actions: seq<Action<H>>, i: nat, r: LoadRequest)
    requires IsRun(states, actions) && i < |states|
    requires forall t :: 0 <= t < |states[i].threads| ==> states[i].threads[t].phase.Done?
    ensures TimesAccepted(states[i].log, r) == TimesAttempted(states[i].log, r)
  {
    ReportsConserved(states, actions, i, r);
    AllDoneNonePending(states[i].threads, r);
  }

  lemma {:induction false} AllDoneNonePending(threads: seq<Thread>, r: LoadRequest)
    requires forall t :: 0 <= t < |threads| ==> threads[t].phase.Done?
    ensures Pending(threads, r) == 0
    decreases |threads|
  {
    if threads != [] {
      AllDoneNonePending(threads[..|threads| - 1], r);
    }
  }
}
