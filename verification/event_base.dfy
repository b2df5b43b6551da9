// The event base of event.c: which events are on which lists, and what time and activity do to them.
module EventBases {
  import opened Bytes
  import opened Events
  import opened EventLists
  import opened TimerHeap

  // The events of priority k, in the order given.
  function OfPri(es: seq<Event>, k: nat): seq<Event> {
    if es == [] then []
    else (if es[0].pri == k then [es[0]] else []) + OfPri(es[1..], k)
  }

  lemma {:induction false} OfPriAppend(es: seq<Event>, e: Event, k: nat)
    ensures OfPri(es + [e], k) == OfPri(es, k) + if e.pri == k then [e] else []
  {
    if es == [] {
      assert [e][1..] == [];
    } else {
      OfPriAppend(es[1..], e, k);
      assert (es + [e])[1..] == es[1..] + [e];
    }
  }

  lemma {:induction false} OfPriMembers(es: seq<Event>, k: nat)
    ensures forall i :: 0 <= i < |OfPri(es, k)| ==> OfPri(es, k)[i] in es && OfPri(es, k)[i].pri == k
  {
    if es != [] {
      OfPriMembers(es[1..], k);
      assert forall x :: x in es[1..] ==> x in es;
    }
  }

  // ---------- Which events are on which lists ----------

  ghost predicate QueueOk(q: seq<Event>, events: set<Event>)
    reads events`onInserted
  {
    && Distinct(q)
    && (forall e :: e in q ==> e in events)
    && (forall e :: e in events ==> (e.onInserted <==> e in q))
  }

  ghost predicate ActiveOk(qs: seq<seq<Event>>, events: set<Event>)
    reads events`onActive
  {
    && (forall k :: 0 <= k < |qs| ==> Distinct(qs[k]))
    && (forall k, e :: 0 <= k < |qs| && e in qs[k] ==> e in events && e.pri == k)
    && (forall e :: e in events ==> e.pri < |qs| && (e.onActive <==> e in qs[e.pri]))
  }

  ghost predicate TimersOk(timers: set<Event>, events: set<Event>)
    reads events`onTimeout
  {
    timers <= events && forall e :: e in events ==> (e.onTimeout <==> e in timers)
  }

  // Every queue has lost the events in es and nothing else.
  ghost predicate AllMinus(qs: seq<seq<Event>>, qs': seq<seq<Event>>, es: set<Event>) {
    |qs'| == |qs| && forall k :: 0 <= k < |qs| ==> qs'[k] == Minus(qs[k], es)
  }

  ghost function Elements(es: seq<Event>): set<Event> {
    set e | e in es
  }

  // Every queue has lost these events wherever they were and has got those of its priority at its end.
  ghost predicate QueuesFired(qs: seq<seq<Event>>, qs': seq<seq<Event>>, es: seq<Event>) {
    |qs'| == |qs| && forall k :: 0 <= k < |qs| ==> qs'[k] == Minus(qs[k], Elements(es)) + OfPri(es, k)
  }

  ghost predicate Fired(es: set<Event>)
    reads es`onTimeout, es`onActive, es`onInserted, es`res, es`ncalls
  {
    forall e :: e in es ==> e.onActive && !e.onTimeout && !e.onInserted && e.res == {ByTimeout} && e.ncalls == 1
  }

  // What an event says about itself.
  datatype Standing = Standing(onTimeout: bool, onActive: bool, onInserted: bool, res: set<Cause>, ncalls: nat)

  function Now(e: Event): Standing
    reads e`onTimeout, e`onActive, e`onInserted, e`res, e`ncalls
  {
    Standing(e.onTimeout, e.onActive, e.onInserted, e.res, e.ncalls)
  }

  ghost predicate Untouched(es: set<Event>, before: map<Event, Standing>)
    reads es`onTimeout, es`onActive, es`onInserted, es`res, es`ncalls
  {
    forall e :: e in es ==> e in before && Now(e) == before[e]
  }

  ghost predicate InOrder(es: seq<Event>)
    reads es`deadline
  {
    forall i, j :: 0 <= i < j < |es| ==> es[i] != es[j] && !Later(es[i].deadline, es[j].deadline)
  }

  lemma NothingFired(q: seq<Event>, qs: seq<seq<Event>>)
    ensures Minus(q, Elements([])) == q && QueuesFired(qs, qs, [])
  {
    hide Minus;
    MinusNothing(q, {});
    assert Elements([]) == {};
    forall k | 0 <= k < |qs|
      ensures qs[k] == Minus(qs[k], {}) + OfPri([], k)
    {
      MinusNothing(qs[k], {});
      assert OfPri([], k) == [];
    }
  }

  lemma NothingTouched(es: set<Event>, before: map<Event, Standing>)
    requires before == map e | e in es :: Now(e)
    ensures Untouched(es, before)
  {
  }

  lemma AmongTimers(e: Event, timers: set<Event>)
    requires Earliest(e, timers)
    ensures e in timers
  {
  }

  lemma LessUntouched(es: set<Event>, fs: set<Event>, before: map<Event, Standing>)
    requires fs <= es && Untouched(es, before)
    ensures Untouched(fs, before)
  {
  }

  lemma StillUntouched(es: set<Event>, before: map<Event, Standing>)
    requires Untouched(es, before)
    ensures forall e :: e in es ==> e in before && Now(e) == before[e]
  {
  }

  lemma OneMoreFired(es: set<Event>, e: Event)
    requires Fired(es) && Fired({e})
    ensures Fired(es + {e})
  {
    assert e in {e};
  }

  ghost predicate Earliest(e: Event?, timers: set<Event>)
    reads timers`deadline
  {
    if e == null then timers == {} else e in timers && forall x :: x in timers ==> !Later(e.deadline, x.deadline)
  }

  // The events handled so far are due, in order, and due before all that are left.
  ghost predicate DueFirst(es: seq<Event>, timers: set<Event>, now: TimeVal)
    reads es`deadline, timers`deadline
  {
    && InOrder(es)
    && (forall i :: 0 <= i < |es| ==> !Later(es[i].deadline, now))
    && (forall i, x :: 0 <= i < |es| && x in timers ==> !Later(es[i].deadline, x.deadline))
  }

  lemma DueNow(es: seq<Event>, timers: set<Event>, now: TimeVal)
    requires DueFirst(es, timers, now)
    ensures InOrder(es) && forall e :: e in es ==> !Later(e.deadline, now)
  {
  }

  lemma OneMoreDue(es: seq<Event>, timers: set<Event>, now: TimeVal, e: Event)
    requires DueFirst(es, timers, now) && e in timers && e !in es && !Later(e.deadline, now) && Earliest(e, timers)
    ensures DueFirst(es + [e], timers - {e}, now)
  {
    hide Later;
  }

  // Once e is off every queue, appending it to its own makes it fired.
  lemma QueuesFireOne(qs: seq<seq<Event>>, qs': seq<seq<Event>>, e: Event)
    requires AllMinus(qs, qs', {e}) && e.pri < |qs|
    ensures QueuesFired(qs, qs'[e.pri := qs'[e.pri] + [e]], [e])
  {
    hide Minus;
    assert Elements([e]) == {e};
    forall k | 0 <= k < |qs|
      ensures OfPri([e], k) == if k == e.pri then [e] else []
    {
      assert [] + [e] == [e];
      OfPriAppend([], e, k);
    }
  }

  lemma FiredOneMore(q0: seq<Event>, q: seq<Event>, qs0: seq<seq<Event>>, qs: seq<seq<Event>>, qs': seq<seq<Event>>,
                     es: seq<Event>, e: Event)
    requires q == Minus(q0, Elements(es)) && QueuesFired(qs0, qs, es) && QueuesFired(qs, qs', [e]) && e !in es
    ensures Elements(es + [e]) == Elements(es) + {e}
    ensures Minus(q, {e}) == Minus(q0, Elements(es + [e]))
    ensures QueuesFired(qs0, qs', es + [e])
  {
    hide Minus, OfPri;
    assert Elements(es + [e]) == Elements(es) + {e} && Elements([e]) == {e};
    MinusTwice(q0, Elements(es), {e});
    forall k | 0 <= k < |qs0|
      ensures qs'[k] == Minus(qs0[k], Elements(es) + {e}) + OfPri(es + [e], k)
    {
      QueueFiresOneMore(qs0[k], es, e, k);
    }
  }

  lemma QueueFiresOneMore(q0: seq<Event>, es: seq<Event>, e: Event, k: nat)
    requires e !in es
    ensures Minus(Minus(q0, Elements(es)) + OfPri(es, k), {e}) + OfPri([e], k) == Minus(q0, Elements(es) + {e}) + OfPri(es + [e], k)
  {
    hide Minus, OfPri;
    MinusConcat(Minus(q0, Elements(es)), OfPri(es, k), {e});
    MinusTwice(q0, Elements(es), {e});
    OfPriMembers(es, k);
    MinusNothing(OfPri(es, k), {e});
    OfPriSplit(es, e, k);
  }

  lemma OfPriSplit(es: seq<Event>, e: Event, k: nat)
    ensures OfPri(es + [e], k) == OfPri(es, k) + OfPri([e], k)
  {
    OfPriAppend(es, e, k);
    OfPriAppend([], e, k);
    assert [] + [e] == [e];
  }

  lemma EveryOneLater(timers: set<Event>, e: Event?, now: TimeVal)
    requires Earliest(e, timers) && (e != null ==> Later(e.deadline, now))
    ensures forall x :: x in timers ==> Later(x.deadline, now)
  {
    forall x | x in timers
      ensures Later(x.deadline, now)
    {
      LaterIsTotal(e.deadline, x.deadline, now);
    }
  }

  // event_add hands an event to the backend when it waits for I/O or a signal and is neither there nor active.
  predicate ForBackend(e: Event, inserted: bool, active: bool) {
    (e.wantsRead || e.wantsWrite || e.wantsSignal) && !inserted && !active
  }

  lemma OnlyItsOwnQueue(qs: seq<seq<Event>>, events: set<Event>, e: Event)
    requires ActiveOk(qs, events) && e in events
    ensures e.onActive ==> AllMinus(qs, qs[e.pri := Minus(qs[e.pri], {e})], {e})
    ensures !e.onActive ==> AllMinus(qs, qs, {e})
  {
    hide Minus;
    forall k | 0 <= k < |qs| && (k != e.pri || !e.onActive)
      ensures Minus(qs[k], {e}) == qs[k]
    {
      assert forall i :: 0 <= i < |qs[k]| ==> qs[k][i] in qs[k];
      MinusNothing(qs[k], {e});
    }
  }

  class EventBase {
    const heap: MinHeap
    var eventQueue: seq<Event>
    var active: seq<seq<Event>>
    var eventCount: int
    var eventCountActive: int
    var eventTv: TimeVal
    ghost var events: set<Event>

    ghost predicate CountsOk()
      reads this`eventQueue, this`active, this`eventCount, this`eventCountActive, heap`members
    {
      && eventCount == Listed(eventQueue) + ListedAll(active) + ListedSet(heap.members)
      && eventCountActive == LengthAll(active)
    }

    // The flags of every event name exactly the lists it is on, and the counters count the lists.
    ghost predicate Valid()
      reads this, heap, heap.p, events
    {
      && TimersOk(heap.members, events)
      && heap.Valid()
      && QueueOk(eventQueue, events)
      && ActiveOk(active, events)
      && CountsOk()
    }

    constructor (priorities: nat)
      ensures Valid() && events == {} && eventQueue == [] && heap.members == {}
      ensures |active| == priorities && forall k :: 0 <= k < priorities ==> active[k] == []
    {
      heap := new MinHeap();
      eventQueue := [];
      active := seq(priorities, _ => []);
      eventCount, eventCountActive, events := 0, 0, {};
      eventTv := TimeVal(0, 0);
      new;
      EmptyTotals(active);
    }

    // event_set gives a fresh event a base.
    method Assign(e: Event)
      requires Valid() && e !in events && e.pri < |active|
      requires !e.onTimeout && !e.onInserted && !e.onActive
      modifies this`events
      ensures Valid() && events == old(events) + {e}
    {
      events := events + {e};
      assert forall k :: 0 <= k < |active| ==> e !in active[k];
    }

    // A timeout needs a place in the heap that is neither there nor to be had.
    ghost predicate NoRoom(e: Event, tv: Option<TimeVal>, memory: bool)
      reads e`onTimeout, heap`n, heap`a
    {
      tv.Some? && !e.onTimeout && heap.a < heap.n + 1 && !memory
    }

    // The first part of event_add: min_heap_reserve for one event more.
    method Reserve(memory: bool) returns (r: int)
      requires Valid()
      modifies heap`p, heap`a
      ensures Valid() && r == if heap.n + 1 <= old(heap.a) || memory then 0 else -1
      ensures r == 0 ==> heap.n < heap.a
      ensures heap.p == old(heap.p) || fresh(heap.p)
    {
      hide Placed, Heap, Deadlines, QueueOk, ActiveOk, Listed, ListedAll, LengthAll, ListedSet;
      r := heap.Reserve(heap.n + 1, memory);
    }

    // ---------- event_queue_insert and event_queue_remove, one list at a time ----------

    method InsertIO(e: Event)
      requires Valid() && e in events && !e.onInserted
      modifies this`eventQueue, this`eventCount, e`onInserted
      ensures Valid() && eventQueue == old(eventQueue) + [e] && e.onInserted
    {
      hide Placed, Heap, Deadlines, ActiveOk, Listed, ListedAll, LengthAll, ListedSet;
      ListedAppend(eventQueue, e);
      if !e.isInternal {
        eventCount := eventCount + 1;
      }
      e.onInserted := true;
      eventQueue := eventQueue + [e];
    }

    method RemoveIO(e: Event)
      requires Valid() && e in events && e.onInserted
      modifies this`eventQueue, this`eventCount, e`onInserted
      ensures Valid() && eventQueue == Minus(old(eventQueue), {e}) && !e.onInserted
    {
      hide Placed, Heap, Deadlines, ActiveOk, Listed, ListedAll, LengthAll, ListedSet, Minus;
      MinusOne(eventQueue, e);
      MinusDistinct(eventQueue, {e});
      MinusMembers(eventQueue, {e});
      if !e.isInternal {
        eventCount := eventCount - 1;
      }
      e.onInserted := false;
      eventQueue := Minus(eventQueue, {e});
    }

    method InsertActive(e: Event)
      requires Valid() && e in events && !e.onActive
      modifies this`active, this`eventCount, this`eventCountActive, e`onActive
      ensures Valid() && e.pri < |old(active)| && active == old(active)[e.pri := old(active)[e.pri] + [e]] && e.onActive
    {
      hide Placed, Heap, Deadlines, QueueOk, Listed, ListedAll, LengthAll, ListedSet;
      ListedAppend(active[e.pri], e);
      TotalsAfterChange(active, e.pri, active[e.pri] + [e]);
      if !e.isInternal {
        eventCount := eventCount + 1;
      }
      e.onActive := true;
      eventCountActive := eventCountActive + 1;
      active := active[e.pri := active[e.pri] + [e]];
    }

    method RemoveActive(e: Event)
      requires Valid() && e in events && e.onActive
      modifies this`active, this`eventCount, this`eventCountActive, e`onActive
      ensures Valid() && e.pri < |old(active)| && active == old(active)[e.pri := Minus(old(active)[e.pri], {e})] && !e.onActive
    {
      hide Placed, Heap, Deadlines, QueueOk, Listed, ListedAll, LengthAll, ListedSet, Minus;
      MinusOne(active[e.pri], e);
      MinusDistinct(active[e.pri], {e});
      MinusMembers(active[e.pri], {e});
      TotalsAfterChange(active, e.pri, Minus(active[e.pri], {e}));
      if !e.isInternal {
        eventCount := eventCount - 1;
      }
      e.onActive := false;
      eventCountActive := eventCountActive - 1;
      active := active[e.pri := Minus(active[e.pri], {e})];
    }

    // The result of min_heap_push is not looked at: callers have reserved the room.
    method InsertTimer(e: Event)
      requires Valid() && e in events && !e.onTimeout && heap.n < heap.a
      modifies this`eventCount, heap, heap.p, heap.members`minHeapIdx, e`minHeapIdx, e`onTimeout
      ensures Valid() && heap.members == old(heap.members) + {e} && e.onTimeout
      ensures heap.p == old(heap.p) && heap.a == old(heap.a)
    {
      hide Placed, Heap, Deadlines, ActiveOk, QueueOk, Listed, ListedAll, LengthAll, ListedSet;
      ListedSetWith(heap.members, e);
      if !e.isInternal {
        eventCount := eventCount + 1;
      }
      e.onTimeout := true;
      var r := heap.Push(e, false);
    }

    method RemoveTimer(e: Event)
      requires Valid() && e in events && e.onTimeout
      modifies this`eventCount, heap, heap.p, heap.members`minHeapIdx, e`onTimeout
      ensures Valid() && heap.members == old(heap.members) - {e} && !e.onTimeout && e.minHeapIdx == -1
      ensures heap.p == old(heap.p) && heap.a == old(heap.a) && heap.n < heap.a
    {
      hide Placed, Heap, Deadlines, ActiveOk, QueueOk, Listed, ListedAll, LengthAll, ListedSet;
      HasPlace(heap, e);
      ListedSetWithout(heap.members, e);
      if !e.isInternal {
        eventCount := eventCount - 1;
      }
      e.onTimeout := false;
      var r := heap.Erase(e);
    }

    // ---------- event_add, event_del and event_active ----------

    // Whatever lists e is on, it is off the queue of active events afterwards.
    method OffActive(e: Event)
      requires Valid() && e in events
      modifies this`active, this`eventCount, this`eventCountActive, e`onActive
      ensures Valid() && AllMinus(old(active), active, {e}) && !e.onActive
    {
      hide Placed, Heap, Deadlines, QueueOk, Listed, ListedAll, LengthAll, ListedSet, Minus;
      OnlyItsOwnQueue(active, events, e);
      if e.onActive {
        RemoveActive(e);
      }
    }

    method OffIO(e: Event, deleted: bool) returns (r: int)
      requires Valid() && e in events
      modifies this`eventQueue, this`eventCount, e`onInserted
      ensures Valid() && eventQueue == Minus(old(eventQueue), {e}) && !e.onInserted
      ensures r == if old(e.onInserted) && !deleted then -1 else 0
    {
      hide Placed, Heap, Deadlines, ActiveOk, Listed, ListedAll, LengthAll, ListedSet, Minus;
      if e.onInserted {
        RemoveIO(e);
        return if deleted then 0 else -1;
      }
      assert forall i :: 0 <= i < |eventQueue| ==> eventQueue[i] in eventQueue;
      MinusNothing(eventQueue, {e});
      return 0;
    }

    method OffTimers(e: Event)
      requires Valid() && e in events
      modifies this`eventCount, heap, heap.p, heap.members`minHeapIdx, e`onTimeout
      ensures Valid() && heap.members == old(heap.members) - {e} && !e.onTimeout
      ensures heap.p == old(heap.p) && heap.a == old(heap.a)
      ensures old(e.onTimeout) ==> heap.n < heap.a
      ensures !old(e.onTimeout) ==> heap.n == old(heap.n)
    {
      hide Placed, Heap, Deadlines, QueueOk, ActiveOk, Listed, ListedAll, LengthAll, ListedSet;
      if e.onTimeout {
        RemoveTimer(e);
      }
    }

    // event_del; `deleted` is what the backend says.
    method EventDel(e: Event, deleted: bool) returns (r: int)
      requires Valid() && e in events
      modifies this`eventQueue, this`active, this`eventCount, this`eventCountActive
      modifies heap, heap.p, heap.members`minHeapIdx, e`onTimeout, e`onActive, e`onInserted
      ensures Valid() && !e.onTimeout && !e.onActive && !e.onInserted
      ensures heap.members == old(heap.members) - {e}
      ensures eventQueue == Minus(old(eventQueue), {e})
      ensures AllMinus(old(active), active, {e})
      ensures r == if old(e.onInserted) && !deleted then -1 else 0
      ensures heap.p == old(heap.p)
    {
      hide *;
      OffTimers(e);
      OffActive(e);
      r := OffIO(e, deleted);
    }

    // event_active
    method EventActive(e: Event, why: set<Cause>, calls: nat)
      requires Valid() && e in events
      modifies this`active, this`eventCount, this`eventCountActive, e`onActive, e`res, e`ncalls
      ensures Valid() && e.onActive && e.pri < |old(active)|
      ensures old(e.onActive) ==> e.res == old(e.res) + why && e.ncalls == old(e.ncalls) && active == old(active)
      ensures !old(e.onActive) ==>
        && e.res == why && e.ncalls == calls
        && active == old(active)[e.pri := old(active)[e.pri] + [e]]
    {
      hide Placed, Heap, Deadlines, QueueOk, Listed, ListedAll, LengthAll, ListedSet;
      if e.onActive {
        e.res := e.res + why;
        return;
      }
      e.res := why;
      e.ncalls := calls;
      InsertActive(e);
    }

    // The second part of event_add: I/O and signal events go to the backend unless they are there already.
    method AddIO(e: Event, added: bool) returns (r: int)
      requires Valid() && e in events
      modifies this`eventQueue, this`eventCount, e`onInserted
      ensures Valid()
      ensures r == if ForBackend(e, old(e.onInserted), e.onActive) && !added then -1 else 0
      ensures r == 0 && ForBackend(e, old(e.onInserted), e.onActive) ==> e.onInserted && eventQueue == old(eventQueue) + [e]
      ensures r != 0 || !ForBackend(e, old(e.onInserted), e.onActive) ==>
        e.onInserted == old(e.onInserted) && eventQueue == old(eventQueue) && eventCount == old(eventCount)
    {
      hide Placed, Heap, Deadlines, QueueOk, ActiveOk, Listed, ListedAll, LengthAll, ListedSet;
      if ForBackend(e, e.onInserted, e.onActive) {
        if !added {
          return -1;
        }
        InsertIO(e);
      }
      return 0;
    }

    // The last part of event_add: the new deadline replaces an old one and calls off an expiry not yet handled.
    method Reschedule(e: Event, tv: TimeVal, now: TimeVal)
      requires Valid() && e in events && (e.onTimeout || heap.n < heap.a)
      modifies this`active, this`eventCount, this`eventCountActive
      modifies heap, heap.p, heap.members`minHeapIdx, e`minHeapIdx, e`onTimeout, e`onActive, e`deadline
      ensures Valid() && heap.members == old(heap.members) + {e} && e.onTimeout && e.deadline == TimeAdd(now, tv)
      ensures heap.p == old(heap.p) && heap.a == old(heap.a)
      ensures old(e.onActive) && ByTimeout in e.res ==> !e.onActive && AllMinus(old(active), active, {e})
      ensures !(old(e.onActive) && ByTimeout in e.res) ==> e.onActive == old(e.onActive) && active == old(active)
    {
      hide AllMinus, Minus, MinHeap.Valid, QueueOk, ActiveOk, CountsOk, TimeAdd;
      OffTimers(e);
      if e.onActive && ByTimeout in e.res {
        OffActive(e);
      }
      e.deadline := TimeAdd(now, tv);
      InsertTimer(e);
    }

    // event_add; `now` is the clock, `memory` whether the heap can grow, `added` what the backend says. Once room
    // is reserved the heap keeps its array, and an event_add that fails has changed nothing but that room.
    method EventAdd(e: Event, tv: Option<TimeVal>, now: TimeVal, memory: bool, added: bool) returns (r: int)
      requires Valid() && e in events
      modifies this`eventQueue, this`active, this`eventCount, this`eventCountActive
      modifies heap, heap.p, heap.members`minHeapIdx
      modifies e`minHeapIdx, e`onTimeout, e`onActive, e`onInserted, e`deadline
      ensures Valid()
      ensures r == if old(NoRoom(e, tv, memory)) || (old(ForBackend(e, e.onInserted, e.onActive)) && !added) then -1 else 0
      ensures r != 0 ==>
        && eventQueue == old(eventQueue) && active == old(active) && heap.members == old(heap.members)
        && eventCount == old(eventCount) && eventCountActive == old(eventCountActive)
        && e.onTimeout == old(e.onTimeout) && e.onActive == old(e.onActive) && e.onInserted == old(e.onInserted)
        && e.deadline == old(e.deadline)
      ensures r == 0 ==>
        && e.onInserted == old(e.onInserted || ForBackend(e, e.onInserted, e.onActive))
        && eventQueue == old(eventQueue) + if old(ForBackend(e, e.onInserted, e.onActive)) then [e] else []
      ensures r == 0 && tv.Some? ==>
        && e.onTimeout && heap.members == old(heap.members) + {e} && e.deadline == TimeAdd(now, tv.value)
        && (old(e.onActive) && ByTimeout in e.res ==> !e.onActive && AllMinus(old(active), active, {e}))
        && (!(old(e.onActive) && ByTimeout in e.res) ==> e.onActive == old(e.onActive) && active == old(active))
      ensures tv.None? ==>
        && e.onTimeout == old(e.onTimeout) && heap.members == old(heap.members) && e.deadline == old(e.deadline)
        && e.onActive == old(e.onActive) && active == old(active)
    {
      hide AllMinus, Minus, TimeAdd, Placed, Heap, Deadlines, QueueOk, ActiveOk, CountsOk;
      if tv.Some? && !e.onTimeout {
        r := Reserve(memory);
        if r != 0 {
          return -1;
        }
      }
      r := AddIO(e, added);
      if r != -1 && tv.Some? {
        Reschedule(e, tv.value, now);
      }
    }

    // ---------- Time ----------

    // What timeout_process does with an event that is due.
    method Expire(e: Event, deleted: bool)
      requires Valid() && e in events
      modifies this`eventQueue, this`active, this`eventCount, this`eventCountActive
      modifies heap, heap.p, heap.members`minHeapIdx
      modifies e`onTimeout, e`onActive, e`onInserted, e`res, e`ncalls
      ensures Valid() && Fired({e})
      ensures heap.p == old(heap.p) && heap.members == old(heap.members) - {e}
      ensures eventQueue == Minus(old(eventQueue), {e})
      ensures QueuesFired(old(active), active, [e])
    {
      hide Minus, Valid;
      var r := EventDel(e, deleted);
      ghost var queues := active;
      EventActive(e, {ByTimeout}, 1);
      QueuesFireOne(old(active), queues, e);
    }

    // How far timeout_process has come from a base whose lists were q0, qs0 and timers.
    ghost predicate Progress(due: seq<Event>, q0: seq<Event>, qs0: seq<seq<Event>>, timers: set<Event>)
      reads this`eventQueue, this`active, heap`members
    {
      && Elements(due) <= timers
      && heap.members == timers - Elements(due)
      && eventQueue == Minus(q0, Elements(due))
      && QueuesFired(qs0, active, due)
    }

    // One more event is due: the top of the heap.
    method ExpireTop(e: Event, deleted: bool, now: TimeVal, ghost due: seq<Event>, ghost q0: seq<Event>,
                     ghost qs0: seq<seq<Event>>, ghost timers: set<Event>, ghost before: map<Event, Standing>)
      requires Valid() && Earliest(e, heap.members) && !Later(e.deadline, now)
      requires Progress(due, q0, qs0, timers) && DueFirst(due, heap.members, now)
      requires Fired(Elements(due)) && Untouched(heap.members, before)
      modifies this`eventQueue, this`active, this`eventCount, this`eventCountActive
      modifies heap, heap.p, heap.members`minHeapIdx
      modifies e`onTimeout, e`onActive, e`onInserted, e`res, e`ncalls
      ensures Valid() && heap.p == old(heap.p) && heap.members == old(heap.members) - {e} && e !in due
      ensures Progress(due + [e], q0, qs0, timers) && DueFirst(due + [e], heap.members, now)
      ensures Fired(Elements(due + [e])) && Untouched(heap.members, before)
    {
      hide Minus, Valid, OfPri, QueuesFired, InOrder, Fired, Untouched, DueFirst, Later, Earliest;
      ghost var queue, queues := eventQueue, active;
      AmongTimers(e, heap.members);
      LessUntouched(heap.members, heap.members - {e}, before);
      OneMoreDue(due, heap.members, now, e);
      BaseHas(e);
      Expire(e, deleted);
      OneMoreFired(Elements(due), e);
      FiredOneMore(q0, queue, qs0, queues, active, due, e);
    }

    lemma BaseHas(e: Event)
      requires Valid() && e in heap.members
      ensures e in events
    {
    }

    // The loop of timeout_process.
    method ExpireAll(now: TimeVal, deleted: bool, ghost before: map<Event, Standing>) returns (ghost due: seq<Event>)
      requires Valid() && Untouched(heap.members, before)
      modifies this`eventQueue, this`active, this`eventCount, this`eventCountActive
      modifies heap, heap.p, heap.members`minHeapIdx
      modifies heap.members`onTimeout, heap.members`onActive, heap.members`onInserted, heap.members`res, heap.members`ncalls
      ensures Valid() && Progress(due, old(eventQueue), old(active), old(heap.members))
      ensures DueFirst(due, heap.members, now) && forall e :: e in heap.members ==> Later(e.deadline, now)
      ensures Fired(Elements(due)) && Untouched(heap.members, before)
    {
      hide Valid, Progress, QueuesFired, Fired, InOrder, Untouched, Minus, OfPri, Now, Later, DueFirst, Earliest;
      due := [];
      ghost var q0, qs0, timers := eventQueue, active, heap.members;
      Begin(now);
      var e := EarliestTimer();
      while e != null && !Later(e.deadline, now)
        invariant Valid() && heap.p == old(heap.p) && heap.members <= timers
        invariant Progress(due, q0, qs0, timers) && DueFirst(due, heap.members, now)
        invariant Fired(Elements(due)) && Untouched(heap.members, before)
        invariant Earliest(e, heap.members)
        decreases |heap.members|
      {
        AmongTimers(e, heap.members);
        ExpireTop(e, deleted, now, due, q0, qs0, timers, before);
        due := due + [e];
        e := EarliestTimer();
      }
      EveryOneLater(heap.members, e, now);
    }

    lemma Begin(now: TimeVal)
      ensures Progress([], eventQueue, active, heap.members)
      ensures Fired(Elements([])) && DueFirst([], heap.members, now)
    {
      hide Minus, OfPri, QueuesFired;
      NothingFired(eventQueue, active);
    }

    // timeout_process: every event due by now is off the heap and the I/O list and active with EV_TIMEOUT as its
    // only result, at the end of its queue in the order in which they fell due; nothing else has changed.
    method TimeoutProcess(now: TimeVal, deleted: bool) returns (ghost due: seq<Event>)
      requires Valid()
      modifies this`eventQueue, this`active, this`eventCount, this`eventCountActive
      modifies heap, heap.p, heap.members`minHeapIdx
      modifies heap.members`onTimeout, heap.members`onActive, heap.members`onInserted, heap.members`res, heap.members`ncalls
      ensures Valid()
      ensures forall e :: e in due <==> e in old(heap.members) && !Later(e.deadline, now)
      ensures heap.members == old(heap.members) - Elements(due)
      ensures forall e :: e in heap.members ==> Later(e.deadline, now) && Now(e) == old(Now(e))
      ensures eventQueue == Minus(old(eventQueue), Elements(due))
      ensures QueuesFired(old(active), active, due)
      ensures Fired(Elements(due)) && InOrder(due)
    {
      hide Valid, QueuesFired, Fired, InOrder, Untouched, Minus, OfPri, Now, Later, DueFirst, Earliest;
      ghost var timers := heap.members;
      ghost var before := map e | e in timers :: Now(e);
      NothingTouched(timers, before);
      due := ExpireAll(now, deleted, before);
      StillUntouched(heap.members, before);
      DueNow(due, heap.members, now);
    }

    method EarliestTimer() returns (e: Event?)
      requires Valid()
      ensures Earliest(e, heap.members)
    {
      hide Heap, Placed, Deadlines, QueueOk, ActiveOk, CountsOk, TimersOk;
      e := heap.Top();
    }

    // timeout_next: how long to wait so that nothing falls due unnoticed and something is due by then; zero when
    // something is due already, no limit without timers.
    method TimeoutNext(now: TimeVal, clock: bool) returns (wait: Option<TimeVal>, r: int)
      requires Valid() && now.Normal() && forall e :: e in heap.members ==> e.deadline.Normal()
      ensures r == if heap.members != {} && !clock then -1 else 0
      ensures r == 0 ==> (wait.None? <==> heap.members == {})
      ensures r == 0 && wait.Some? ==> wait.value.Normal() && wait.value.sec >= 0
      ensures r == 0 && wait.Some? ==> forall e :: e in heap.members ==>
        e.deadline.Micros() >= now.Micros() + wait.value.Micros() || (wait.value.Micros() == 0 && !Later(e.deadline, now))
      ensures r == 0 && wait.Some? ==> exists e :: e in heap.members && e.deadline.Micros() <= now.Micros() + wait.value.Micros()
    {
      hide Heap, Placed, Deadlines, QueueOk, ActiveOk, CountsOk, TimersOk;
      var e := heap.Top();
      if e == null {
        return None, 0;
      }
      if !clock {
        return None, -1;
      }
      TimesAreInstants(e.deadline, now);
      forall x | x in heap.members
        ensures e.deadline.Micros() <= x.deadline.Micros()
        ensures !Later(x.deadline, now) <==> x.deadline.Micros() <= now.Micros()
      {
        TimesAreInstants(e.deadline, x.deadline);
        TimesAreInstants(x.deadline, now);
      }
      if !Later(e.deadline, now) {
        return Some(TimeVal(0, 0)), 0;
      }
      return Some(TimeSub(e.deadline, now)), 0;
    }

    // timeout_correct: when the clock `tv` has gone back, every deadline goes back as far, straight in the heap's
    // array, and the heap is still in order.
    method TimeoutCorrect(tv: TimeVal, monotonic: bool)
      requires Valid() && tv.Normal() && eventTv.Normal() && forall e :: e in heap.members ==> e.deadline.Normal()
      modifies this`eventTv, heap.members`deadline
      ensures Valid() && eventTv == if monotonic then old(eventTv) else tv
      ensures forall e :: e in heap.members ==>
        && e.deadline.Normal()
        && e.deadline.Micros() == old(e.deadline.Micros()) - if monotonic then 0 else old(GoneBack(eventTv, tv))
    {
      hide Heap, Placed, Deadlines, QueueOk, ActiveOk, CountsOk, TimersOk, Later, TimeSub, TimeVal.Micros;
      if monotonic {
        return;
      }
      TimesAreInstants(eventTv, tv);
      if Later(eventTv, tv) {
        ShiftDeadlines(TimeSub(eventTv, tv));
      }
      eventTv := tv;
    }

    method ShiftDeadlines(off: TimeVal)
      requires Valid() && off.Normal() && forall e :: e in heap.members ==> e.deadline.Normal()
      modifies heap.members`deadline
      ensures Valid()
      ensures forall e :: e in heap.members ==> e.deadline.Normal() && e.deadline.Micros() == old(e.deadline.Micros()) - off.Micros()
    {
      hide Heap, QueueOk, ActiveOk, CountsOk, Placed, TimeVal.Micros, Deadlines;
      ghost var ks := Deadlines(heap.p[..], heap.n, heap.members);
      ghost var before := map e | e in heap.members :: e.deadline;
      NoneShifted(heap.p[..], heap.n, heap.members, before, off);
      var i := 0;
      while i < heap.n
        invariant 0 <= i <= heap.n
        invariant Shifted(heap.members, before, i, off)
      {
        InPlace(heap.p[..], heap.n, heap.members, i);
        heap.p[i].deadline := TimeSub(heap.p[i].deadline, off);
        i := i + 1;
      }
      AllShifted(heap.p[..], heap.n, heap.members, before, off, ks);
    }

    // ---------- Running what is active ----------

    // event_process_active first looks for the queue that goes first: there is one when something is active.
    method FirstQueue() returns (k: nat)
      requires Valid() && eventCountActive > 0
      ensures k < |active| && active[k] != []
      ensures forall j :: 0 <= j < k ==> active[j] == []
      ensures forall e :: e in events && e.onActive ==> k <= e.pri
    {
      k := 0;
      SomethingQueued(active);
      while active[k] == []
        invariant k < |active| && forall j :: 0 <= j < k ==> active[j] == []
        decreases |active| - k
      {
        k := k + 1;
        if k == |active| {
          EmptyTotals(active);
        }
      }
    }

    ghost function Front(k: nat): set<Event>
      reads this`active
    {
      if k < |active| && active[k] != [] then {active[k][0]} else {}
    }

    // One turn of its loop over that queue: the event at the front leaves it, and every other list with it unless
    // it persists.
    method TakeNext(k: nat, deleted: bool) returns (e: Event?)
      requires Valid() && k < |active|
      modifies this`eventQueue, this`active, this`eventCount, this`eventCountActive
      modifies heap, heap.p, heap.members`minHeapIdx
      modifies Front(k)`onTimeout, Front(k)`onActive, Front(k)`onInserted
      ensures Valid() && (e == null <==> old(active)[k] == [])
      ensures e == null ==> eventQueue == old(eventQueue) && active == old(active) && heap.members == old(heap.members)
      ensures e != null ==>
        && e == old(active)[k][0] && !e.onActive && |active| == |old(active)|
        && active == old(active)[k := old(active)[k][1..]]
        && e.onTimeout == (e.persists && old(active[k][0].onTimeout))
        && e.onInserted == (e.persists && old(active[k][0].onInserted))
      ensures e != null && e.persists ==> eventQueue == old(eventQueue) && heap.members == old(heap.members)
      ensures e != null && !e.persists ==>
        eventQueue == Minus(old(eventQueue), {e}) && heap.members == old(heap.members) - {e}
    {
      hide Minus, Heap, Placed, Deadlines, QueueOk, CountsOk, TimersOk;
      if active[k] == [] {
        return null;
      }
      e := active[k][0];
      FrontLeaves(active, events, k);
      if e.persists {
        RemoveActive(e);
      } else {
        var r := EventDel(e, deleted);
      }
    }

    // The counters are what event_haveevents and event_base_loop take them for.
    lemma CountersTell()
      requires Valid()
      ensures eventCount >= 0 && eventCountActive >= 0
      ensures eventCount == 0 <==> forall e :: e in events && !e.isInternal ==> !e.onTimeout && !e.onInserted && !e.onActive
      ensures eventCountActive == 0 <==> forall e :: e in events ==> !e.onActive
    {
      hide Heap, Placed, Deadlines, Distinct;
      NoneListed(eventQueue);
      NoneQueued(active);
      NoneInSet(heap.members);
      if eventCountActive == 0 {
        assert forall e :: e in events ==> active[e.pri] == [];
      } else {
        var k :| 0 <= k < |active| && active[k] != [];
        var e := active[k][0];
        assert e in active[k] && e.pri == k;
        assert e.onActive;
      }
    }
  }

  // How far a clock that was at `then` has gone back when it shows `now`, in microseconds.
  function GoneBack(was: TimeVal, now: TimeVal): nat
    requires was.Normal() && now.Normal()
  {
    if was.Micros() > now.Micros() then was.Micros() - now.Micros() else 0
  }

  // The deadlines of the first i events in the heap have been moved.
  ghost predicate Shifted(es: set<Event>, before: map<Event, TimeVal>, i: nat, off: TimeVal)
    reads es`deadline, es`minHeapIdx
  {
    forall e :: e in es ==>
      && e in before && before[e].Normal()
      && e.deadline == if e.minHeapIdx < i then TimeSub(before[e], off) else before[e]
  }

  lemma InPlace(ps: seq<Event?>, n: nat, es: set<Event>, i: nat)
    requires Placed(ps, n, -1, es) && i < n
    ensures ps[i] != null && ps[i] in es && ps[i].minHeapIdx == i
    ensures forall e :: e in es && e.minHeapIdx == i ==> e == ps[i]
  {
  }

  lemma NoneShifted(ps: seq<Event?>, n: nat, es: set<Event>, before: map<Event, TimeVal>, off: TimeVal)
    requires Placed(ps, n, -1, es) && forall e :: e in es ==> e in before && before[e] == e.deadline && e.deadline.Normal()
    ensures Shifted(es, before, 0, off)
  {
  }

  lemma AllShifted(ps: seq<Event?>, n: nat, es: set<Event>, before: map<Event, TimeVal>, off: TimeVal, ks: seq<TimeVal>)
    requires Placed(ps, n, -1, es) && Shifted(es, before, n, off) && off.Normal()
    requires Heap(ks) && |ks| == n
    requires forall i :: 0 <= i < n ==> ks[i] == if ps[i] in before then before[ps[i]] else TimeVal(0, 0)
    ensures Heap(Deadlines(ps, n, es))
    ensures forall e :: e in es ==> e.deadline.Normal() && e.deadline.Micros() == before[e].Micros() - off.Micros()
  {
    hide TimeVal.Micros, Heap;
    forall e | e in es
      ensures e.deadline.Normal() && e.deadline.Micros() == before[e].Micros() - off.Micros()
    {
      TimesAreInstants(before[e], off);
    }
    HeapShifted(ks, Deadlines(ps, n, es), off);
  }

  lemma HeapShifted(ks: seq<TimeVal>, ks': seq<TimeVal>, off: TimeVal)
    requires Heap(ks) && |ks'| == |ks| && off.Normal()
    requires forall i :: 0 <= i < |ks| ==> ks[i].Normal() && ks'[i] == TimeSub(ks[i], off)
    ensures Heap(ks')
  {
  }

  lemma {:induction false} SomethingQueued(qs: seq<seq<Event>>)
    ensures LengthAll(qs) > 0 ==> |qs| > 0
  {
  }

  lemma FrontLeaves(qs: seq<seq<Event>>, events: set<Event>, k: nat)
    requires ActiveOk(qs, events) && k < |qs| && qs[k] != []
    ensures var e := qs[k][0];
      && e in events && e.onActive && e.pri == k && Minus(qs[k], {e}) == qs[k][1..]
      && forall qs' :: AllMinus(qs, qs', {e}) ==> qs' == qs[k := qs[k][1..]]
  {
    var e := qs[k][0];
    assert qs[k] == [e] + qs[k][1..];
    MinusCons(e, qs[k][1..], {e});
    MinusNothing(qs[k][1..], {e});
    OnlyItsOwnQueue(qs, events, e);
  }

  lemma {:induction false} NoneListed(q: seq<Event>)
    ensures Listed(q) == 0 <==> forall e :: e in q ==> e.isInternal
  {
    if q != [] {
      NoneListed(q[1..]);
      assert forall e :: e in q <==> e == q[0] || e in q[1..];
    }
  }

  lemma {:induction false} NoneQueued(qs: seq<seq<Event>>)
    ensures ListedAll(qs) == 0 <==> forall k, e :: 0 <= k < |qs| && e in qs[k] ==> e.isInternal
    ensures LengthAll(qs) == 0 <==> forall k :: 0 <= k < |qs| ==> qs[k] == []
  {
    if qs != [] {
      NoneListed(qs[0]);
      NoneQueued(qs[1..]);
      assert forall k :: 0 < k < |qs| ==> qs[k] == qs[1..][k - 1];
      assert forall k :: 0 <= k < |qs| - 1 ==> qs[1..][k] == qs[k + 1];
    }
  }

  lemma NoneInSet(es: set<Event>)
    ensures ListedSet(es) == 0 <==> forall e :: e in es ==> e.isInternal
  {
    if e :| e in es && !e.isInternal {
      assert e in Counted(es);
    } else {
      assert Counted(es) == {};
    }
  }

  lemma HasPlace(h: MinHeap, e: Event)
    requires h.Valid() && e in h.members
    ensures e.minHeapIdx != -1 && h.n > 0
  {
  }

  lemma {:induction false} EmptyTotals(qs: seq<seq<Event>>)
    requires forall k :: 0 <= k < |qs| ==> qs[k] == []
    ensures ListedAll(qs) == 0 && LengthAll(qs) == 0
  {
    if qs != [] {
      EmptyTotals(qs[1..]);
    }
  }
}
