/**
 orchestrator/pipeline.py, ResultStore and PipelineCallbackServicer: the slot map that correlates
 requests with their results, each call run to its end.  Module ResultStoreProtocol interleaves
 the same calls at the grain of their lock sections.
 */
module ResultStore {
  import opened Wrappers

  /** A slot: whether its event is set, and the result stored in it, if any. */
  datatype Slot<+T> = Slot(fired: bool, result: Option<T>)

  datatype WaitOutcome<+T> = NoSlot | TimedOut | Got(result: Option<T>)

  /** What one delivery does to the slots. */
  ghost function Delivered<T>(slots: map<string, Slot<T>>, id: string, result: T): map<string, Slot<T>> {
    if id in slots then slots[id := Slot(true, Some(result))] else slots
  }

  /** One call of deliver(). */
  datatype Message<+T> = Message(id: string, result: T)

  /** The slots, and every deliver() called so far, accepted or not. */
  datatype StoreView<+T> = StoreView(slots: map<string, Slot<T>>, delivers: seq<Message<T>>)

  class ResultStore<T> {
    var slots: map<string, Slot<T>>
    ghost var delivers: seq<Message<T>>

    constructor ()
      ensures slots == map[] && delivers == []
    {
      slots, delivers := map[], [];
    }

    ghost function View(): StoreView<T>
      reads this
    {
      StoreView(slots, delivers)
    }

    method CreateSlot(id: string)
      modifies this`slots
      ensures slots == old(slots)[id := Slot(false, None)]
    {
      slots := slots[id := Slot(false, None)];
    }

    method Deliver(id: string, result: T) returns (ok: bool)
      modifies this
      ensures ok == (id in old(slots))
      ensures slots == Delivered(old(slots), id, result)
      ensures slots == if ok then old(slots)[id := Slot(true, Some(result))] else old(slots)
      ensures delivers == old(delivers) + [Message(id, result)]
    {
      delivers := delivers + [Message(id, result)];
      if id !in slots {
        return false;
      }
      slots := slots[id := slots[id].(result := Some(result))];
      slots := slots[id := slots[id].(fired := true)];
      return true;
    }

    /** The wait of a caller that nothing else runs beside: the event is already set or never will be. */
    method Wait(id: string) returns (outcome: WaitOutcome<T>)
      modifies this`slots
      ensures outcome == if id !in old(slots) then NoSlot
                         else if !old(slots)[id].fired then TimedOut
                         else Got(old(slots)[id].result)
      ensures slots == old(slots) - {id}
    {
      if id !in slots {
        return NoSlot;
      }
      var slot := slots[id];
      slots := slots - {id};
      if !slot.fired {
        return TimedOut;
      }
      return Got(slot.result);
    }
  }
}
