/**
 orchestrator/pipeline.py, ResultStore under concurrency: any number of threads inside
 create_slot, deliver and wait, interleaved at the grain of their lock sections and event calls.

 Nothing is asked of the callers: a slot may be created again under a running wait, as a load()
 that is tried again after a failure does, and several waits may run for one id.
 */
module ResultStoreProtocol {
  import opened Wrappers
  import ResultStore

  /** A slot names the event object it was created with. */
  datatype Entry<+T> = Entry(event: nat, result: Option<T>)

  /** Where one call of wait() stands. */
  datatype WaitPhase<+T> =
    | Blocked                       // in event.wait
    | Woken(fired: bool)            // event.wait has returned; the slot is not popped yet
    | Returned(result: Option<T>)   // None is the placeholder a popped slot may hold
    | TimedOut

  datatype Wait<Id, +T> = Wait(id: Id, event: nat, phase: WaitPhase<T>)

  /** What happened, in order: history that no step reads.  A delivery names the event of the slot
      that accepted it, if any. */
  datatype Happening<Id, +T> =
    | Created(id: Id, event: nat)
    | Delivered(id: Id, result: T, slot: Option<nat>)
    | Ended(id: Id)

  datatype State<Id(==), +T> = State(
    slots: map<Id, Entry<T>>,
    fired: set<nat>,            // events that are set
    pending: multiset<nat>,     // deliveries that have stored their result and not yet called event.set
    events: nat,                // how many events exist
    waits: seq<Wait<Id, T>>,
    log: seq<Happening<Id, T>>)

  datatype Action<Id, +T> =
    | Create(id: Id)
    | Store(id: Id, result: T)   // deliver(), first half: under the lock
    | SetEvent(event: nat)       // deliver(), second half: outside it
    | Lookup(id: Id)             // wait() begins; it raises KeyError when there is no slot
    | Wake(w: nat)               // event.wait returns because the event is set
    | Expire(w: nat)             // event.wait gives up
    | Pop(w: nat)                // wait() takes the slot out and returns or raises

  predicate Waiting<T>(p: WaitPhase<T>) {
    p.Blocked? || p.Woken?
  }

  ghost predicate WaitUnderWay<Id, T>(s: State<Id, T>, id: Id) {
    exists w :: 0 <= w < |s.waits| && s.waits[w].id == id && Waiting(s.waits[w].phase)
  }

  ghost predicate Enabled<Id, T>(s: State<Id, T>, a: Action<Id, T>) {
    match a
    case Create(id) => true
    case Store(id, result) => true
    case SetEvent(e) => e in s.pending
    case Lookup(id) => true
    case Wake(w) => w < |s.waits| && s.waits[w].phase == Blocked && s.waits[w].event in s.fired
    case Expire(w) => w < |s.waits| && s.waits[w].phase == Blocked
    case Pop(w) => w < |s.waits| && s.waits[w].phase.Woken?
  }

  ghost function After<Id, T>(s: State<Id, T>, a: Action<Id, T>): State<Id, T>
    requires Enabled(s, a)
  {
    match a
    case Create(id) =>
      s.(slots := s.slots[id := Entry(s.events, None)], events := s.events + 1, log := s.log + [Created(id, s.events)])
    case Store(id, result) =>
      if id !in s.slots then s.(log := s.log + [Delivered(id, result, None)])
      else
        var e := s.slots[id].event;
        s.(slots := s.slots[id := Entry(e, Some(result))], pending := s.pending + multiset{e},
           log := s.log + [Delivered(id, result, Some(e))])
    case SetEvent(e) => s.(fired := s.fired + {e}, pending := s.pending - multiset{e})
    case Lookup(id) =>
      if id !in s.slots then s else s.(waits := s.waits + [Wait(id, s.slots[id].event, Blocked)])
    case Wake(w) => s.(waits := s.waits[w := s.waits[w].(phase := Woken(true))])
    case Expire(w) => s.(waits := s.waits[w := s.waits[w].(phase := Woken(false))])
    case Pop(w) =>
      var wait := s.waits[w];
      var result := if wait.id in s.slots then s.slots[wait.id].result else None;
      s.(slots := s.slots - {wait.id},
         waits := s.waits[w := wait.(phase := if wait.phase.fired then Returned(result) else TimedOut)],
         log := s.log + [Ended(wait.id)])
  }

  ghost predicate Init<Id, T>(s: State<Id, T>) {
    s == State(map[], {}, multiset{}, 0, [], [])
  }

  ghost predicate Follows<Id, T>(s: State<Id, T>, a: Action<Id, T>, s': State<Id, T>) {
    Enabled(s, a) && s' == After(s, a)
  }

  ghost predicate IsRun<Id, T>(states: seq<State<Id, T>>, actions: seq<Action<Id, T>>) {
    && |states| == |actions| + 1 && Init(states[0])
    && forall i, j :: 0 <= i < |actions| && j == i + 1 ==> Follows(states[i], actions[i], states[j])
  }

  // ---------- The invariant ----------

  /** A delivery of this result was accepted into this slot of the id, after the slot was created. */
  ghost predicate StoredIn<Id, T>(log: seq<Happening<Id, T>>, id: Id, e: nat, result: T) {
    exists j, k :: 0 <= j < k < |log| && log[j] == Created(id, e) && log[k] == Delivered(id, result, Some(e))
  }

  ghost predicate SlotOk<Id, T>(s: State<Id, T>, id: Id)
    requires id in s.slots
  {
    var e := s.slots[id].event;
    && e < s.events
    && (exists j :: 0 <= j < |s.log| && s.log[j] == Created(id, e))
    && (forall other :: other in s.slots && s.slots[other].event == e ==> other == id)
    && (s.slots[id].result.Some? <==> e in s.fired || e in s.pending)
    && (s.slots[id].result.Some? ==> StoredIn(s.log, id, e, s.slots[id].result.value))
  }

  ghost predicate SlotsOk<Id(!new), T>(s: State<Id, T>) {
    && (forall id :: id in s.slots ==> SlotOk(s, id))
    && (forall e :: e in s.fired || e in s.pending ==> e < s.events)
  }

  ghost predicate WaitsOk<Id, T>(s: State<Id, T>) {
    forall w :: 0 <= w < |s.waits| ==>
      && s.waits[w].event < s.events
      && (s.waits[w].phase == Woken(true) ==> s.waits[w].event in s.fired)
  }

  /** The log's last word on an id: its slot was created and no wait has ended since. */
  ghost predicate Live<Id, T>(log: seq<Happening<Id, T>>, id: Id) {
    log != [] &&
    match log[|log| - 1]
    case Created(x, _) => x == id || Live(log[..|log| - 1], id)
    case Delivered(_, _, _) => Live(log[..|log| - 1], id)
    case Ended(x) => x != id && Live(log[..|log| - 1], id)
  }

  /** The last delivery accepted for an id since its slot was created, if any. */
  ghost function LastAccepted<Id, T>(log: seq<Happening<Id, T>>, id: Id): Option<T> {
    if log == [] then None
    else
      match log[|log| - 1]
      case Created(x, _) => if x == id then None else LastAccepted(log[..|log| - 1], id)
      case Delivered(x, result, slot) =>
        if x == id && slot.Some? then Some(result) else LastAccepted(log[..|log| - 1], id)
      case Ended(x) => if x == id then None else LastAccepted(log[..|log| - 1], id)
  }

  ghost predicate LogOk<Id(!new), T>(s: State<Id, T>) {
    && (forall id :: id in s.slots <==> Live(s.log, id))
    && (forall id :: id in s.slots ==> s.slots[id].result == LastAccepted(s.log, id))
    && VerdictsOk(s.log)
  }

  /** Each delivery was accepted exactly when the log then said that its slot was there. */
  ghost predicate VerdictsOk<Id(!new), T>(log: seq<Happening<Id, T>>) {
    forall k :: 0 <= k < |log| && log[k].Delivered? ==> (log[k].slot.Some? <==> Live(log[..k], log[k].id))
  }

  ghost predicate Inv<Id(!new), T>(s: State<Id, T>) {
    SlotsOk(s) && WaitsOk(s) && LogOk(s)
  }

  /** What a log says stays said as it grows. */
  lemma {:induction false} GrowthKeeps<Id, T>(log: seq<Happening<Id, T>>, log': seq<Happening<Id, T>>, id: Id, e: nat)
    requires log <= log'
    ensures forall result :: StoredIn(log, id, e, result) ==> StoredIn(log', id, e, result)
    ensures (exists j :: 0 <= j < |log| && log[j] == Created(id, e)) ==>
              (exists j :: 0 <= j < |log'| && log'[j] == Created(id, e))
  {
    assert forall j :: 0 <= j < |log| ==> log'[j] == log[j];
    forall result | StoredIn(log, id, e, result)
      ensures StoredIn(log', id, e, result)
    {
      var j, k :| 0 <= j < k < |log| && log[j] == Created(id, e) && log[k] == Delivered(id, result, Some(e));
      assert log'[j] == Created(id, e) && log'[k] == Delivered(id, result, Some(e));
    }
  }

  lemma {:induction false} ActionGrowsLog<Id, T>(s: State<Id, T>, a: Action<Id, T>)
    requires Enabled(s, a)
    ensures s.log <= After(s, a).log && |After(s, a).log| <= |s.log| + 1
  {
  }

  lemma {:induction false} StoreKeepsSlotOk<Id(!new), T>(s: State<Id, T>, x: Id, result: T, id: Id)
    requires SlotsOk(s) && id in s.slots
    ensures SlotOk(After(s, Store(x, result)), id)
  {
    var s' := After(s, Store(x, result));
    var e := s.slots[id].event;
    GrowthKeeps(s.log, s'.log, id, e);
    assert SlotOk(s, id);
    if x in s.slots {
      assert SlotOk(s, x);
    }
    if x == id {
      var j :| 0 <= j < |s.log| && s.log[j] == Created(id, e);
      assert s'.log[j] == Created(id, e) && s'.log[|s.log|] == Delivered(id, result, Some(e));
    }
  }

  lemma {:induction false} CreateKeepsSlotOk<Id(!new), T>(s: State<Id, T>, x: Id, id: Id)
    requires SlotsOk(s) && id in After(s, Create(x)).slots
    ensures SlotOk(After(s, Create(x)), id)
  {
    hide StoredIn;
    var s' := After(s, Create(x));
    GrowthKeeps(s.log, s'.log, id, s'.slots[id].event);
    assert forall other :: other in s.slots ==> SlotOk(s, other);
    assert s'.log[|s.log|] == Created(x, s.events);
  }

  lemma {:induction false} KeepsSlotOk<Id(!new), T>(s: State<Id, T>, a: Action<Id, T>, id: Id)
    requires SlotsOk(s) && Enabled(s, a) && id in After(s, a).slots
    ensures SlotOk(After(s, a), id)
  {
    hide StoredIn;
    match a
    case Create(x) => CreateKeepsSlotOk(s, x, id);
    case Store(x, result) => StoreKeepsSlotOk(s, x, result, id);
    case SetEvent(e) => SetKeepsSlotOk(s, e, id);
    case _ =>
      ActionGrowsLog(s, a);
      GrowthKeeps(s.log, After(s, a).log, id, s.slots[id].event);
      assert SlotOk(s, id);
  }

  lemma {:induction false} SetKeepsSlotOk<Id(!new), T>(s: State<Id, T>, e: nat, id: Id)
    requires SlotsOk(s) && e in s.pending && id in s.slots
    ensures SlotOk(After(s, SetEvent(e)), id)
  {
    hide StoredIn;
    assert SlotOk(s, id);
  }

  lemma {:induction false} KeepsSlotsOk<Id(!new), T>(s: State<Id, T>, a: Action<Id, T>)
    requires SlotsOk(s) && Enabled(s, a)
    ensures SlotsOk(After(s, a))
  {
    forall id | id in After(s, a).slots
      ensures SlotOk(After(s, a), id)
    {
      KeepsSlotOk(s, a, id);
    }
    assert forall id :: id in s.slots ==> SlotOk(s, id);
  }

  lemma {:induction false} KeepsWaitsOk<Id(!new), T>(s: State<Id, T>, a: Action<Id, T>)
    requires SlotsOk(s) && WaitsOk(s) && Enabled(s, a)
    ensures WaitsOk(After(s, a))
  {
    if a.Lookup? && a.id in s.slots {
      assert SlotOk(s, a.id);
    }
  }

  lemma {:induction false} OneMoreVerdict<Id(!new), T>(log: seq<Happening<Id, T>>, h: Happening<Id, T>)
    requires VerdictsOk(log) && (h.Delivered? ==> (h.slot.Some? <==> Live(log, h.id)))
    ensures VerdictsOk(log + [h])
  {
    hide Live;
    assert forall k :: 0 <= k < |log| ==> (log + [h])[..k] == log[..k];
    assert (log + [h])[..|log|] == log;
  }

  /** What one more happening says of an id. */
  lemma {:induction false} OneMoreHappening<Id, T>(log: seq<Happening<Id, T>>, h: Happening<Id, T>, id: Id)
    ensures Live(log + [h], id) <==>
            if h.Delivered? || h.id != id then Live(log, id) else h.Created?
    ensures LastAccepted(log + [h], id) ==
            if h.id != id || (h.Delivered? && h.slot.None?) then LastAccepted(log, id)
            else if h.Delivered? then Some(h.result) else None
  {
    assert (log + [h])[..|log|] == log;
  }

  /** A step that logs nothing leaves the slots alone, and one that logs does to them what it says. */
  lemma {:induction false} LogTellsSlots<Id, T>(s: State<Id, T>, a: Action<Id, T>)
    requires Enabled(s, a)
    ensures var s' := After(s, a);
            if s'.log == s.log then s'.slots == s.slots
            else
              && |s'.log| == |s.log| + 1 && s'.log == s.log + [s'.log[|s.log|]]
              && match s'.log[|s.log|]
                 case Created(x, e) => s'.slots == s.slots[x := Entry(e, None)]
                 case Delivered(x, result, slot) =>
                   && (slot.Some? <==> x in s.slots)
                   && s'.slots == if slot.Some? then s.slots[x := Entry(s.slots[x].event, Some(result))] else s.slots
                 case Ended(x) => s'.slots == s.slots - {x}
  {
  }

  lemma {:induction false} KeepsLogOk<Id(!new), T>(s: State<Id, T>, a: Action<Id, T>)
    requires LogOk(s) && Enabled(s, a)
    ensures LogOk(After(s, a))
  {
    hide After, Live, LastAccepted, VerdictsOk;
    var s' := After(s, a);
    LogTellsSlots(s, a);
    if s'.log != s.log {
      var h := s'.log[|s.log|];
      forall id
        ensures Live(s'.log, id) <==> if h.Delivered? || h.id != id then Live(s.log, id) else h.Created?
        ensures LastAccepted(s'.log, id) ==
                if h.id != id || (h.Delivered? && h.slot.None?) then LastAccepted(s.log, id)
                else if h.Delivered? then Some(h.result) else None
      {
        OneMoreHappening(s.log, h, id);
      }
      OneMoreVerdict(s.log, h);
    }
  }

  lemma {:induction false} RunKeepsInv<Id(!new), T>(states: seq<State<Id, T>>, actions: seq<Action<Id, T>>, i: nat)
    requires IsRun(states, actions) && i < |states|
    ensures Inv(states[i])
    decreases i
  {
    if i > 0 {
      RunKeepsInv(states, actions, i - 1);
      var s, a := states[i - 1], actions[i - 1];
      assert Follows(s, a, states[i]);
      KeepsSlotsOk(s, a);
      KeepsWaitsOk(s, a);
      KeepsLogOk(s, a);
    }
  }

  // ---------- A wait from its first step to its last ----------

  /** The wait w begins at step i of a run. */
  ghost predicate Begins<Id, T>(
    states: seq<State<Id, T>>, actions: seq<Action<Id, T>>, i: int, w: nat, wait: Wait<Id, T>) {
    && 0 <= i < |actions| < |states| && actions[i] == Lookup(wait.id) && |states[i].waits| == w
    && wait.id in states[i].slots && wait == Wait(wait.id, states[i].slots[wait.id].event, Blocked)
  }

  /** The slot that is there now is the one this wait found. */
  ghost predicate Own<Id, T>(s: State<Id, T>, wait: Wait<Id, T>) {
    wait.id in s.slots && s.slots[wait.id].event == wait.event
  }

  /** A step creates the id's slot anew, or ends a wait for the id. */
  ghost predicate Touches<Id, T>(s: State<Id, T>, a: Action<Id, T>, id: Id) {
    a == Create(id) || (a.Pop? && a.w < |s.waits| && s.waits[a.w].id == id)
  }

  /** Between its first step and step p, nobody touched the wait's slot. */
  ghost predicate Untouched<Id, T>(states: seq<State<Id, T>>, actions: seq<Action<Id, T>>, i: int, p: int, id: Id)
    requires 0 <= i && p <= |actions| <= |states|
  {
    forall k :: i < k < p ==> !Touches(states[k], actions[k], id)
  }

  ghost predicate Did<Id, T>(actions: seq<Action<Id, T>>, i: int, p: int, a: Action<Id, T>)
    requires 0 <= i && p <= |actions|
  {
    exists k :: i < k < p && actions[k] == a
  }

  lemma {:induction false} OwnStep<Id, T>(s: State<Id, T>, a: Action<Id, T>, wait: Wait<Id, T>)
    requires Enabled(s, a) && wait.event < s.events
    ensures Own(After(s, a), wait) <==> Own(s, wait) && !Touches(s, a, wait.id)
  {
    match a
    case Pop(w) => assert s.waits[w].id == wait.id ==> Touches(s, a, wait.id);
    case _ =>
  }

  /** After its first step a wait keeps its id and event, and has been woken, or has expired,
      exactly if such a step was taken. */
  lemma {:induction false} WaitSoFar<Id(!new), T>(
    states: seq<State<Id, T>>, actions: seq<Action<Id, T>>, i: nat, w: nat, wait: Wait<Id, T>, p: nat)
    requires IsRun(states, actions) && Begins(states, actions, i, w, wait) && i < p <= |actions|
    requires forall k :: i < k < p ==> actions[k] != Pop(w)
    ensures w < |states[p].waits|
    ensures states[p].waits[w] == wait.(phase := states[p].waits[w].phase) && Waiting(states[p].waits[w].phase)
    ensures Did(actions, i, p, Wake(w)) <==> states[p].waits[w].phase == Woken(true)
    ensures Did(actions, i, p, Expire(w)) <==> states[p].waits[w].phase == Woken(false)
    decreases p
  {
    assert Follows(states[p - 1], actions[p - 1], states[p]);
    if i < p - 1 {
      WaitSoFar(states, actions, i, w, wait, p - 1);
      WaitStep(states[p - 1], actions[p - 1], w);
      DidStep(actions, i, p, Wake(w));
      DidStep(actions, i, p, Expire(w));
    }
  }

  lemma {:induction false} WaitStep<Id, T>(s: State<Id, T>, a: Action<Id, T>, w: nat)
    requires Enabled(s, a) && w < |s.waits| && Waiting(s.waits[w].phase) && a != Pop(w)
    ensures w < |After(s, a).waits|
    ensures After(s, a).waits[w] == s.waits[w].(phase := if a == Wake(w) then Woken(true)
                                                         else if a == Expire(w) then Woken(false) else s.waits[w].phase)
    ensures a == Wake(w) || a == Expire(w) ==> s.waits[w].phase == Blocked
  {
  }

  /** A running wait's slot is its own as long as nobody touched it. */
  lemma {:induction false} OwnSoFar<Id(!new), T>(states: seq<State<Id, T>>, actions: seq<Action<Id, T>>, i: nat, w: nat,
                                                 wait: Wait<Id, T>, p: nat)
    requires IsRun(states, actions) && Begins(states, actions, i, w, wait) && i < p <= |actions|
    ensures wait.event < states[p].events
    ensures Own(states[p], wait) <==> Untouched(states, actions, i, p, wait.id)
    decreases p
  {
    assert Follows(states[p - 1], actions[p - 1], states[p]);
    if i < p - 1 {
      hide SlotOk, Own, Live;
      OwnSoFar(states, actions, i, w, wait, p - 1);
      OwnStep(states[p - 1], actions[p - 1], wait);
    } else {
      RunKeepsInv(states, actions, i);
      assert SlotOk(states[i], wait.id);
    }
  }

  lemma {:induction false} DidStep<Id, T>(actions: seq<Action<Id, T>>, i: nat, p: nat, a: Action<Id, T>)
    requires i < p - 1 < |actions|
    ensures Did(actions, i, p, a) <==> Did(actions, i, p - 1, a) || actions[p - 1] == a
  {
    if Did(actions, i, p - 1, a) {
      var k :| i < k < p - 1 && actions[k] == a;
      assert Did(actions, i, p, a);
    }
  }

  lemma {:induction false} FiredBySet<Id(!new), T>(
    states: seq<State<Id, T>>, actions: seq<Action<Id, T>>, p: nat, e: nat)
    requires IsRun(states, actions) && p <= |actions| && e in states[p].fired
    ensures exists k :: 0 <= k < p && actions[k] == SetEvent(e)
    decreases p
  {
    if p > 0 {
      assert Follows(states[p - 1], actions[p - 1], states[p]);
      if actions[p - 1] != SetEvent(e) {
        FiredBySet(states, actions, p - 1, e);
      }
    }
  }

  /** A wait that has popped its slot has ended for good. */
  lemma {:induction false} PoppedOnce<Id, T>(
    states: seq<State<Id, T>>, actions: seq<Action<Id, T>>, k: nat, p: nat, w: nat)
    requires IsRun(states, actions) && k < p <= |actions| && actions[k] == Pop(w)
    ensures w < |states[p].waits| && !Waiting(states[p].waits[w].phase)
    decreases p
  {
    assert Follows(states[p - 1], actions[p - 1], states[p]);
    if k < p - 1 {
      PoppedOnce(states, actions, k, p - 1, w);
    }
  }

  lemma {:induction false} NotPoppedBefore<Id, T>(
    states: seq<State<Id, T>>, actions: seq<Action<Id, T>>, p: nat, w: nat)
    requires IsRun(states, actions) && p < |actions| && actions[p] == Pop(w)
    ensures forall k :: 0 <= k < p ==> actions[k] != Pop(w)
  {
    assert Follows(states[p], actions[p], states[p + 1]);
    forall k | 0 <= k < p && actions[k] == Pop(w)
      ensures false
    {
      PoppedOnce(states, actions, k, p, w);
    }
  }

  // ---------- What callers may rely on ----------

  /** What the wait w, begun at step i, makes of its Pop at step p. */
  ghost function Result<Id, T>(states: seq<State<Id, T>>, p: nat, w: nat): WaitPhase<T>
    requires p + 1 < |states| && w < |states[p + 1].waits|
  {
    states[p + 1].waits[w].phase
  }

  /** A wait pops its own slot exactly when nobody created that slot anew, or ended another wait for
      it, while it ran.  Then, if it returns, it returns a result that was accepted into its own slot
      after the slot was created, and never the placeholder.  Otherwise what it returns was not its
      own: it is the placeholder, or comes from a slot created later. */
  lemma {:induction false} ReturnsOwnResultExactly<Id(!new), T>(states: seq<State<Id, T>>, actions: seq<Action<Id, T>>,
                                                                i: nat, w: nat, wait: Wait<Id, T>, p: nat)
    requires IsRun(states, actions) && Begins(states, actions, i, w, wait) && i < p < |actions| && actions[p] == Pop(w)
    ensures w < |states[p + 1].waits|
    ensures Own(states[p], wait) <==> Untouched(states, actions, i, p, wait.id)
    ensures var r := Result(states, p, w);
            r.Returned? ==>
              if Untouched(states, actions, i, p, wait.id) then
                r.result.Some? && StoredIn(states[p].log, wait.id, wait.event, r.result.value)
              else
                r.result.Some? ==> exists e :: e != wait.event && StoredIn(states[p].log, wait.id, e, r.result.value)
  {
    NotPoppedBefore(states, actions, p, w);
    WaitSoFar(states, actions, i, w, wait, p);
    OwnSoFar(states, actions, i, w, wait, p);
    RunKeepsInv(states, actions, p);
    assert Follows(states[p], actions[p], states[p + 1]);
    if wait.id in states[p].slots {
      assert SlotOk(states[p], wait.id);
    }
  }

  /** No created slot of an id and no wait's end after it, up to k. */
  ghost predicate CreatedAndOpen<Id, T>(log: seq<Happening<Id, T>>, id: Id, k: nat)
    requires k <= |log|
  {
    exists j :: 0 <= j < k && log[j].Created? && log[j].id == id && forall e :: j < e < k ==> log[e] != Ended(id)
  }

  lemma {:induction false} LiveIsOpen<Id, T>(log: seq<Happening<Id, T>>, id: Id)
    ensures Live(log, id) <==> CreatedAndOpen(log, id, |log|)
    decreases |log|
  {
    if log != [] {
      var front := log[..|log| - 1];
      LiveIsOpen(front, id);
      assert forall j :: 0 <= j < |front| ==> front[j] == log[j];
      if CreatedAndOpen(front, id, |front|) && log[|front|] != Ended(id) {
        var j :| 0 <= j < |front| && front[j].Created? && front[j].id == id && forall e :: j < e < |front| ==>
          front[e] != Ended(id);
        assert log[j].Created? && log[j].id == id && forall e :: j < e < |log| ==> log[e] != Ended(id);
      }
      if log[|front|].Created? && log[|front|].id == id {
        assert CreatedAndOpen(log, id, |log|);
      }
      if CreatedAndOpen(log, id, |log|) {
        var j :| 0 <= j < |log| && log[j].Created? && log[j].id == id && forall e :: j < e < |log| ==>
          log[e] != Ended(id);
        assert j < |front| ==> front[j].Created? && forall e :: j < e < |front| ==> front[e] != Ended(id);
      }
    }
  }

  /** deliver() answers True exactly when the id's slot was created and no wait for it, timed out
      or not, has ended since. */
  lemma {:induction false} AcceptedExactlyWhenOpen<Id(!new), T>(
    states: seq<State<Id, T>>, actions: seq<Action<Id, T>>, i: nat, k: nat)
    requires IsRun(states, actions) && i < |states| && k < |states[i].log| && states[i].log[k].Delivered?
    ensures states[i].log[k].slot.Some? <==> CreatedAndOpen(states[i].log, states[i].log[k].id, k)
  {
    RunKeepsInv(states, actions, i);
    var log := states[i].log;
    LiveIsOpen(log[..k], log[k].id);
    assert forall j :: 0 <= j < k ==> log[..k][j] == log[j];
    assert CreatedAndOpen(log[..k], log[k].id, k) <==> CreatedAndOpen(log, log[k].id, k);
  }

  /** A wait that has ended, timed out or not, leaves no slot behind. */
  lemma {:induction false} EndedWaitLeavesNoSlot<Id(!new), T>(
    states: seq<State<Id, T>>, actions: seq<Action<Id, T>>, i: nat, k: nat)
    requires IsRun(states, actions) && i < |states| && k < |states[i].log| && states[i].log[k].Ended?
    requires forall j :: k < j < |states[i].log| ==>
               !(states[i].log[j].Created? && states[i].log[j].id == states[i].log[k].id)
    ensures states[i].log[k].id !in states[i].slots
  {
    RunKeepsInv(states, actions, i);
    LiveIsOpen(states[i].log, states[i].log[k].id);
  }

  /** No wake-up is lost: as long as a blocked wait's slot is its own, it holds a result exactly when
      its event is set or a deliver that will set it is still running. */
  lemma {:induction false} NoLostWakeup<Id(!new), T>(
    states: seq<State<Id, T>>, actions: seq<Action<Id, T>>, i: nat, w: nat)
    requires IsRun(states, actions) && i < |states| && w < |states[i].waits|
    requires states[i].waits[w].phase == Blocked && Own(states[i], states[i].waits[w])
    ensures var s := states[i]; var wait := s.waits[w];
            s.slots[wait.id].result.Some? <==> Enabled(s, Wake(w)) || Enabled(s, SetEvent(wait.event))
  {
    RunKeepsInv(states, actions, i);
    assert SlotOk(states[i], states[i].waits[w].id);
  }

  // ---------- Which accepted deliveries reach their waiter ----------

  /** An accepted delivery reaches the wait on its slot exactly when that wait is woken, and is lost
      exactly when the wait gives up, before the delivery or after it, even after its event was set.
      Here r is the last delivery accepted before the wait ends; a wait is woken only after the
      second half of some deliver. */
  lemma {:induction false} DeliveryReachesExactly<Id(!new), T>(states: seq<State<Id, T>>, actions: seq<Action<Id, T>>,
                                                               i: nat, w: nat, wait: Wait<Id, T>, p: nat, r: T)
    requires IsRun(states, actions) && Begins(states, actions, i, w, wait) && i < p < |actions| && actions[p] == Pop(w)
    requires Untouched(states, actions, i, p, wait.id) && LastAccepted(states[p].log, wait.id) == Some(r)
    ensures w < |states[p + 1].waits|
    ensures Result(states, p, w) == Returned(Some(r)) <==> Did(actions, i, p, Wake(w))
    ensures Result(states, p, w) == TimedOut <==> Did(actions, i, p, Expire(w))
    ensures Did(actions, i, p, Wake(w)) <==> !Did(actions, i, p, Expire(w))
    ensures Did(actions, i, p, Wake(w)) ==> exists k :: 0 <= k < p && actions[k] == SetEvent(wait.event)
  {
    NotPoppedBefore(states, actions, p, w);
    WaitSoFar(states, actions, i, w, wait, p);
    OwnSoFar(states, actions, i, w, wait, p);
    RunKeepsInv(states, actions, p);
    assert Follows(states[p], actions[p], states[p + 1]);
    if states[p].waits[w].phase == Woken(true) {
      FiredBySet(states, actions, p, wait.event);
    }
  }

  // ---------- Runs that show it ----------

  ghost predicate Reachable(s: State<nat, nat>) {
    exists states, actions :: IsRun<nat, nat>(states, actions) && states[|actions|] == s
  }

  lemma {:induction false} Reach(s: State<nat, nat>, a: Action<nat, nat>)
    requires Reachable(s) && Enabled(s, a)
    ensures Reachable(After(s, a))
  {
    var states, actions :| IsRun<nat, nat>(states, actions) && states[|actions|] == s;
    var states', actions' := states + [After(s, a)], actions + [a];
    forall i, j | 0 <= i < |actions'| && j == i + 1
      ensures Follows(states'[i], actions'[i], states'[j])
    {
      assert i < |actions| ==> Follows(states[i], actions[i], states[j]);
    }
    assert IsRun(states', actions') && states'[|actions'|] == After(s, a);
  }

  /** A slot with its result delivered and its event set, under a wait that is still blocked. */
  ghost function Delivered9(): State<nat, nat> {
    State(map[7 := Entry(0, Some(9))], {0}, multiset{}, 1, [Wait(7, 0, Blocked)],
          [Created(7, 0), Delivered(7, 9, Some(0))])
  }

  lemma {:induction false} Delivered9Reachable()
    ensures Reachable(Delivered9())
  {
    var s0: State<nat, nat> := State(map[], {}, multiset{}, 0, [], []);
    var none: seq<Action<nat, nat>> := [];
    assert IsRun([s0], none) && [s0][|none|] == s0;
    Reach(s0, Create(7));
    var s1: State<nat, nat> := State(map[7 := Entry(0, None)], {}, multiset{}, 1, [], [Created(7, 0)]);
    assert After(s0, Create(7)) == s1;
    Reach(s1, Lookup(7));
    var s2 := s1.(waits := [Wait(7, 0, Blocked)]);
    assert After(s1, Lookup(7)) == s2;
    Reach(s2, Store(7, 9));
    StoreThenSet(s2);
    Reach(After(s2, Store(7, 9)), SetEvent(0));
  }

  lemma {:induction false} StoreThenSet(s: State<nat, nat>)
    requires s == State(map[7 := Entry(0, None)], {}, multiset{}, 1, [Wait(7, 0, Blocked)], [Created(7, 0)])
    ensures Enabled(After(s, Store(7, 9)), SetEvent(0)) && After(After(s, Store(7, 9)), SetEvent(0)) == Delivered9()
  {
    assert multiset{} + multiset{0} - multiset{0} == multiset{};
  }

  /** A delivery that was accepted, and whose event was set, before the wait gave up: lost all the same. */
  lemma {:induction false} LostThoughSet() returns (s: State<nat, nat>)
    ensures Reachable(s) && s.waits == [Wait(7, 0, TimedOut)]
    ensures s.log == [Created(7, 0), Delivered(7, 9, Some(0)), Ended(7)] && s.fired == {0}
  {
    Delivered9Reachable();
    var s0 := Delivered9();
    Reach(s0, Expire(0));
    var s1 := After(s0, Expire(0));
    Reach(s1, Pop(0));
    s := After(s1, Pop(0));
  }

  /** A slot created anew under a wait whose event has fired: the wait returns the placeholder. */
  lemma {:induction false} RecreationReturnsPlaceholder() returns (s: State<nat, nat>)
    ensures Reachable(s) && s.waits == [Wait(7, 0, Returned(None))]
    ensures s.log == [Created(7, 0), Delivered(7, 9, Some(0)), Created(7, 1), Ended(7)]
  {
    Delivered9Reachable();
    var s0 := Delivered9();
    Reach(s0, Wake(0));
    var s1 := After(s0, Wake(0));
    Reach(s1, Create(7));
    var s2 := After(s1, Create(7));
    Reach(s2, Pop(0));
    s := After(s2, Pop(0));
  }

  // ---------- The sequential store ----------

  /** What the slots look like to calls that run one at a time. */
  ghost function View<T>(slots: map<string, Entry<T>>, fired: set<nat>): map<string, ResultStore.Slot<T>> {
    map id | id in slots :: ResultStore.Slot(slots[id].event in fired, slots[id].result)
  }

  lemma {:induction false} ViewAfterBothHalves<T>(slots: map<string, Entry<T>>, fired: set<nat>, id: string, result: T)
    requires id in slots
    requires forall other :: other in slots && other != id ==> slots[other].event != slots[id].event
    ensures var e := slots[id].event;
            View(slots[id := Entry(e, Some(result))], fired + {e}) ==
              ResultStore.Delivered(View(slots, fired), id, result)
  {
  }

  lemma {:induction false} OthersUnfired<T>(s: State<string, T>, id: string)
    requires SlotsOk(s) && id in s.slots
    ensures forall other :: other in s.slots && other != id ==> s.slots[other].event != s.slots[id].event
  {
    assert SlotOk(s, id);
  }

  /** A deliver that nothing interrupts has the effect that the class ResultStore is proved to have. */
  lemma {:induction false} UninterruptedDeliver<T>(s: State<string, T>, id: string, result: T)
    requires SlotsOk(s)
    ensures var stored := After(s, Store(id, result));
            var delivered := ResultStore.Delivered(View(s.slots, s.fired), id, result);
            if id !in s.slots then View(stored.slots, stored.fired) == delivered
            else
              var e := s.slots[id].event;
              && Enabled(stored, SetEvent(e))
              && View(After(stored, SetEvent(e)).slots, After(stored, SetEvent(e)).fired) == delivered
  {
    if id in s.slots {
      OthersUnfired(s, id);
      ViewAfterBothHalves(s.slots, s.fired, id, result);
    }
  }
}
