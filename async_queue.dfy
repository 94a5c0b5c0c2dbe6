// `AsyncQueue`: an unbounded queue whose `next()` promise resolves with
// the value of the enqueue that has the same index. The resolver a waiting
// `next()` registers is identified by its index; calling it is recorded in
// `deliveries`.
module AsyncQueueModule {
  import opened Common

  /** What `next()` gives back: a value at once, `done`, or a promise still waiting for the enqueue of `index`. */
  datatype NextResult<+T> = Item(value: T) | Done | Waiting(index: nat)

  const EnqueueAfterCloseMessage: string := "cannot enqueue after closing"

  class AsyncQueue<T> {
    var closed: bool
    var dataQueue: map<nat, T>
    var dataQueueIndex: nat
    /** The indices of the `next()` calls whose resolver is registered. */
    var resolveQueue: set<nat>
    var resolveQueueIndex: nat
    /** The resolver calls made so far: index of the `next()` call and the value it received. */
    var deliveries: map<nat, T>

    /** Every value ever enqueued, in order. */
    ghost var enqueued: seq<T>
    /** The value each `next()` call has received so far, at once or through its resolver. */
    ghost var received: map<nat, T>

    ghost predicate Valid()
      reads this
    {
      dataQueueIndex == |enqueued| &&
      (forall i :: i in dataQueue ==> resolveQueueIndex <= i < dataQueueIndex && dataQueue[i] == enqueued[i]) &&
      (forall i: nat :: resolveQueueIndex <= i < dataQueueIndex ==> i in dataQueue) &&
      (forall i :: i in resolveQueue ==> dataQueueIndex <= i < resolveQueueIndex) &&
      (forall i: nat :: dataQueueIndex <= i < resolveQueueIndex && i !in resolveQueue ==> closed) &&
      (forall i: nat :: i in received <==> i < dataQueueIndex && i < resolveQueueIndex) &&
      (forall i :: i in received ==> received[i] == enqueued[i]) &&
      (forall i :: i in deliveries ==> i in received && deliveries[i] == received[i])
    }

    /** No index is buffered and awaited at the same time. */
    lemma QueuesDisjoint()
      requires Valid()
      ensures dataQueue.Keys !! resolveQueue
    {
    }

    constructor ()
      ensures Valid()
      ensures !closed && dataQueue == map[] && resolveQueue == {} && deliveries == map[]
      ensures dataQueueIndex == 0 && resolveQueueIndex == 0 && enqueued == []
    {
      closed := false;
      dataQueue := map[];
      dataQueueIndex := 0;
      resolveQueue := {};
      resolveQueueIndex := 0;
      deliveries := map[];
      enqueued := [];
      received := map[];
    }

    /**
     * After `close` this throws and changes nothing. Otherwise the value
     * takes the next enqueue index; if the `next()` call of that index is
     * waiting its resolver is called, else the value is buffered.
     */
    method Enqueue(value: T) returns (r: Completion<(), string>)
      requires Valid()
      modifies this
      ensures Valid()
      ensures old(closed) ==> r == Threw(EnqueueAfterCloseMessage) && unchanged(this)
      ensures !old(closed) ==> r == Returned(())
      ensures !old(closed) ==> enqueued == old(enqueued) + [value] && closed == old(closed)
      ensures !old(closed) && old(dataQueueIndex) in old(resolveQueue) ==>
        deliveries == old(deliveries)[old(dataQueueIndex) := value] &&
        received == old(received)[old(dataQueueIndex) := value] &&
        resolveQueue == old(resolveQueue) - {old(dataQueueIndex)} && dataQueue == old(dataQueue)
      ensures !old(closed) && old(dataQueueIndex) !in old(resolveQueue) ==>
        dataQueue == old(dataQueue)[old(dataQueueIndex) := value] &&
        resolveQueue == old(resolveQueue) && deliveries == old(deliveries)
      ensures resolveQueueIndex == old(resolveQueueIndex)
    {
      if closed {
        return Threw(EnqueueAfterCloseMessage);
      }
      var index := dataQueueIndex;
      dataQueueIndex := dataQueueIndex + 1;
      enqueued := enqueued + [value];
      if index in resolveQueue {
        deliveries := deliveries[index := value];
        received := received[index := value];
        resolveQueue := resolveQueue - {index};
      } else {
        dataQueue := dataQueue[index := value];
      }
      r := Returned(());
    }

    /** Sets the flag only; waiting `next()` calls stay waiting. */
    method Close()
      requires Valid()
      modifies this`closed
      ensures Valid()
      ensures closed
    {
      closed := true;
    }

    /**
     * The call takes the next `next()` index. A buffered value for it is
     * handed over and removed; otherwise a closed queue answers `done`;
     * otherwise the call's resolver is registered under its index.
     */
    method Next() returns (r: NextResult<T>)
      requires Valid()
      modifies this
      ensures Valid()
      ensures resolveQueueIndex == old(resolveQueueIndex) + 1
      ensures enqueued == old(enqueued) && closed == old(closed) && deliveries == old(deliveries)
      ensures old(resolveQueueIndex) < |enqueued| ==>
        r == Item(enqueued[old(resolveQueueIndex)]) && received == old(received)[old(resolveQueueIndex) := r.value] &&
        dataQueue == old(dataQueue) - {old(resolveQueueIndex)} && resolveQueue == old(resolveQueue)
      ensures old(resolveQueueIndex) >= |enqueued| && closed ==> r == Done && resolveQueue == old(resolveQueue)
      ensures old(resolveQueueIndex) >= |enqueued| && !closed ==>
        r == Waiting(old(resolveQueueIndex)) && resolveQueue == old(resolveQueue) + {old(resolveQueueIndex)}
      ensures old(resolveQueueIndex) >= |enqueued| ==> dataQueue == old(dataQueue) && received == old(received)
    {
      var index := resolveQueueIndex;
      resolveQueueIndex := resolveQueueIndex + 1;
      if index in dataQueue {
        var event := dataQueue[index];
        dataQueue := dataQueue - {index};
        received := received[index := event];
        r := Item(event);
      } else if closed {
        r := Done;
      } else {
        resolveQueue := resolveQueue + {index};
        r := Waiting(index);
      }
    }
  }
}
