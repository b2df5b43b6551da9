// The timer heap of min_heap.h: a binary heap of events that know their own place in it.
module TimerHeap {
  import opened Events

  // ---------- Heap order, on the deadlines alone ----------

  function Parent(i: nat): nat
    requires i > 0
  {
    (i - 1) / 2
  }

  // No deadline is later than one below it; the hole is left out, and what is above it takes its part.
  ghost predicate HeapBut(ks: seq<TimeVal>, hole: int) {
    && (forall i :: 0 < i < |ks| && i != hole && Parent(i) != hole ==> !Later(ks[Parent(i)], ks[i]))
    && (forall i :: 0 < i < |ks| && i != hole && Parent(i) == hole && hole > 0 ==> !Later(ks[Parent(hole)], ks[i]))
  }

  ghost predicate Heap(ks: seq<TimeVal>) {
    forall i :: 0 < i < |ks| ==> !Later(ks[Parent(i)], ks[i])
  }

  // Nothing below the hole comes before t, and nothing above it after t.
  ghost predicate Below(ks: seq<TimeVal>, hole: nat, t: TimeVal) {
    forall i :: 0 < i < |ks| && Parent(i) == hole ==> !Later(t, ks[i])
  }

  ghost predicate Above(ks: seq<TimeVal>, hole: nat, t: TimeVal) {
    0 < hole < |ks| ==> !Later(ks[Parent(hole)], t)
  }

  // Moving the hole up keeps the order, and what is now below it still comes after t.
  lemma HoleMovesUp(ks: seq<TimeVal>, hole: nat, t: TimeVal)
    requires 0 < hole < |ks| && HeapBut(ks, hole) && Below(ks, hole, t) && Later(ks[Parent(hole)], t)
    ensures var ks' := ks[hole := ks[Parent(hole)]]; HeapBut(ks', Parent(hole)) && Below(ks', Parent(hole), t)
  {
    var ks' := ks[hole := ks[Parent(hole)]];
    var p := Parent(hole);
    forall i | 0 < i < |ks| && Parent(i) == p
      ensures !Later(t, ks'[i])
    {
      if i != hole {
        LaterIsTotal(t, ks[p], ks[i]);
      }
    }
  }

  // Moving the hole down to its smaller child keeps the order, and the moved deadline is not after t.
  lemma HoleMovesDown(ks: seq<TimeVal>, hole: nat, child: nat, t: TimeVal)
    requires hole < child < |ks| && Parent(child) == hole && HeapBut(ks, hole)
    requires forall i :: 0 < i < |ks| && Parent(i) == hole ==> !Later(ks[child], ks[i])
    requires Later(t, ks[child])
    ensures var ks' := ks[hole := ks[child]]; HeapBut(ks', child) && Above(ks', child, t)
  {
  }

  lemma HoleFilled(ks: seq<TimeVal>, hole: nat, t: TimeVal)
    requires hole < |ks| && HeapBut(ks, hole) && Below(ks, hole, t) && Above(ks, hole, t)
    ensures Heap(ks[hole := t])
  {
  }

  lemma HeapHasHole(ks: seq<TimeVal>, hole: nat)
    requires hole < |ks| && Heap(ks)
    ensures HeapBut(ks, hole) && Below(ks, hole, ks[hole]) && Above(ks, hole, ks[hole])
  {
    forall i | 0 < i < |ks| && Parent(i) == hole && hole > 0
      ensures !Later(ks[Parent(hole)], ks[i])
    {
      LaterIsTotal(ks[Parent(hole)], ks[hole], ks[i]);
    }
  }

  // The deadline at the top is no later than any other.
  lemma {:induction false} TopIsFirst(ks: seq<TimeVal>, i: nat)
    requires Heap(ks) && i < |ks|
    ensures !Later(ks[0], ks[i])
    decreases i
  {
    if i > 0 {
      TopIsFirst(ks, Parent(i));
      LaterIsTotal(ks[0], ks[Parent(i)], ks[i]);
    }
  }

  lemma HeapPrefix(ks: seq<TimeVal>, n: nat)
    requires Heap(ks) && n <= |ks|
    ensures Heap(ks[..n])
  {
  }

  // ---------- Events in their places ----------

  // Of the m places in ps, all but the hole hold an event that knows its place, and these are the events in es.
  ghost predicate Placed(ps: seq<Event?>, m: nat, hole: int, es: set<Event>)
    reads es`minHeapIdx
  {
    && m <= |ps|
    && (forall i :: 0 <= i < m && i != hole ==> ps[i] != null && ps[i] in es && ps[i].minHeapIdx == i)
    && (forall e :: e in es ==> 0 <= e.minHeapIdx < m && e.minHeapIdx != hole && ps[e.minHeapIdx] == e)
  }

  // The deadlines of the events in the first m places; whatever is in the hole does not matter.
  ghost function Deadlines(ps: seq<Event?>, m: nat, es: set<Event>): (ks: seq<TimeVal>)
    requires m <= |ps|
    reads es`deadline
    ensures |ks| == m
    ensures forall i :: 0 <= i < m ==> ks[i] == if ps[i] in es then ps[i].deadline else TimeVal(0, 0)
  {
    if m == 0 then []
    else Deadlines(ps, m - 1, es) + [if ps[m - 1] in es then ps[m - 1].deadline else TimeVal(0, 0)]
  }

  // ---------- How far a hole sinks ----------

  function EarlierChild(ks: seq<TimeVal>, n: nat, hole: nat): (child: nat)
    requires 2 * (hole + 1) <= n <= |ks|
    ensures hole < child < n
  {
    if 2 * (hole + 1) == n || Later(ks[2 * (hole + 1)], ks[2 * (hole + 1) - 1]) then 2 * (hole + 1) - 1 else 2 * (hole + 1)
  }

  // Where the hole comes to rest, and what the places then hold.
  datatype Rest = Rest(place: nat, ps: seq<Event?>)

  ghost function Sink(ps: seq<Event?>, ks: seq<TimeVal>, n: nat, hole: nat, t: TimeVal): Rest
    requires n <= |ks| <= |ps| && hole < |ks|
    decreases |ks| - hole
  {
    if 2 * (hole + 1) > n then Rest(hole, ps)
    else
      var child := EarlierChild(ks, n, hole);
      if !Later(t, ks[child]) then Rest(hole, ps) else Sink(ps[hole := ps[child]], ks[hole := ks[child]], n, child, t)
  }

  lemma SinkStep(ps: seq<Event?>, ks: seq<TimeVal>, n: nat, hole: nat, t: TimeVal)
    requires n <= |ks| <= |ps| && 2 * (hole + 1) <= n
    ensures var child := EarlierChild(ks, n, hole);
      Sink(ps, ks, n, hole, t) ==
      if !Later(t, ks[child]) then Rest(hole, ps) else Sink(ps[hole := ps[child]], ks[hole := ks[child]], n, child, t)
  {
  }

  lemma SinkEnds(ps: seq<Event?>, ks: seq<TimeVal>, n: nat, hole: nat, t: TimeVal)
    requires n <= |ks| <= |ps| && hole < |ks| && 2 * (hole + 1) > n
    ensures Sink(ps, ks, n, hole, t) == Rest(hole, ps)
  {
  }

  // The hole sinks; what lies outside its way stays, and what was where it rests has moved to the parent.
  lemma {:induction false} SinksAlongOnePath(ps: seq<Event?>, ks: seq<TimeVal>, n: nat, hole: nat, t: TimeVal)
    requires n <= |ks| <= |ps| && hole < |ks|
    ensures var r := Sink(ps, ks, n, hole, t);
      && hole <= r.place < |ks| && |r.ps| == |ps|
      && (forall i :: 0 <= i < |ps| && !(hole <= i < r.place) ==> r.ps[i] == ps[i])
      && (r.place != hole ==> r.ps[Parent(r.place)] == ps[r.place])
    decreases |ks| - hole
  {
    if 2 * (hole + 1) <= n {
      var child := EarlierChild(ks, n, hole);
      if Later(t, ks[child]) {
        SinksAlongOnePath(ps[hole := ps[child]], ks[hole := ks[child]], n, child, t);
      }
    }
  }

  class MinHeap {
    var p: array<Event?>
    var n: nat
    var a: nat
    ghost var members: set<Event>

    ghost predicate Valid()
      reads this, p, members`minHeapIdx, members`deadline
    {
      && n <= a == p.Length
      && Placed(p[..], n, -1, members)
      && Heap(Deadlines(p[..], n, members))
    }

    constructor ()
      ensures Valid() && members == {} && fresh(p)
    {
      p, n, a, members := new Event?[0], 0, 0, {};
    }

    // min_heap_top
    method Top() returns (e: Event?)
      requires Valid()
      ensures (e == null) == (members == {})
      ensures e == if n == 0 then null else p[0]
      ensures e != null ==> e in members && forall x :: x in members ==> !Later(e.deadline, x.deadline)
    {
      if n == 0 {
        return null;
      }
      e := p[0];
      forall x | x in members
        ensures !Later(e.deadline, x.deadline)
      {
        TopIsFirst(Deadlines(p[..], n, members), x.minHeapIdx);
      }
    }

    // Moves the event at `from` into the hole, which leaves the hole at `from`.
    method MoveInto(hole: nat, from: nat, ghost m: nat)
      requires hole < m <= p.Length && from < m && hole != from
      requires Placed(p[..], m, hole, members)
      modifies p, members`minHeapIdx
      ensures p[..] == old(p[..])[hole := old(p[from])]
      ensures Placed(p[..], m, from, members)
      ensures Deadlines(p[..], m, members) == old(Deadlines(p[..], m, members))[hole := old(Deadlines(p[..], m, members)[from])]
    {
      p[hole] := p[from];
      p[hole].minHeapIdx := hole;
    }

    // Puts e into the hole.
    method Fill(hole: nat, e: Event, ghost m: nat)
      requires hole < m <= p.Length && e !in members
      requires Placed(p[..], m, hole, members)
      modifies p, e`minHeapIdx
      ensures p[..] == old(p[..])[hole := e]
      ensures Placed(p[..], m, -1, members + {e})
      ensures Deadlines(p[..], m, members + {e}) == old(Deadlines(p[..], m, members))[hole := e.deadline]
    {
      p[hole] := e;
      e.minHeapIdx := hole;
    }

    // min_heap_shift_up_: fills the hole among m places with e, moving later events down first.
    method ShiftUp(hole: nat, e: Event, ghost m: nat)
      requires hole < m <= p.Length && e !in members
      requires Placed(p[..], m, hole, members)
      requires HeapBut(Deadlines(p[..], m, members), hole) && Below(Deadlines(p[..], m, members), hole, e.deadline)
      modifies p, members`minHeapIdx, e`minHeapIdx
      ensures Placed(p[..], m, -1, members + {e}) && Heap(Deadlines(p[..], m, members + {e}))
      ensures p[m..] == old(p[m..])
      ensures old(Above(Deadlines(p[..], m, members), hole, e.deadline)) ==> p[..] == old(p[..])[hole := e]
    {
      hide HeapBut, Below, Heap, Deadlines;
      var h := hole;
      while h != 0 && Later(p[Parent(h)].deadline, e.deadline)
        invariant 0 <= h <= hole
        invariant Placed(p[..], m, h, members)
        invariant HeapBut(Deadlines(p[..], m, members), h) && Below(Deadlines(p[..], m, members), h, e.deadline)
        invariant p[m..] == old(p[m..])
        invariant old(Above(Deadlines(p[..], m, members), hole, e.deadline)) ==> h == hole && p[..] == old(p[..])
      {
        HoleMovesUp(Deadlines(p[..], m, members), h, e.deadline);
        MoveInto(h, Parent(h), m);
        h := Parent(h);
      }
      HoleFilled(Deadlines(p[..], m, members), h, e.deadline);
      Fill(h, e, m);
    }

    // The child of the hole that is due first, when the hole is one of the n places and has children.
    method FirstChild(hole: nat) returns (child: nat)
      requires hole < n <= p.Length && 2 * (hole + 1) <= n
      requires Placed(p[..], n, hole, members)
      ensures child == EarlierChild(Deadlines(p[..], n, members), n, hole) && Parent(child) == hole
      ensures forall i :: 0 < i < n && Parent(i) == hole ==> !Later(Deadlines(p[..], n, members)[child], Deadlines(p[..], n, members)[i])
      ensures p[child] != null && p[child].deadline == Deadlines(p[..], n, members)[child]
    {
      child := 2 * (hole + 1);
      if child == n || Later(p[child].deadline, p[child - 1].deadline) {
        child := child - 1;
      }
      MinOfChildren(Deadlines(p[..], n, members), hole, child);
    }

    // min_heap_shift_down_: the hole sinks below earlier events, and e goes where it comes to rest. The call
    // of min_heap_shift_up_ that puts it there moves nothing. The hole is one of the n places of the heap, or
    // the place after them when the last event is taken out.
    method ShiftDown(hole: nat, e: Event, ghost m: nat)
      requires hole < m <= p.Length && m == (if hole < n then n else hole + 1) && hole <= n && e !in members
      requires Placed(p[..], m, hole, members)
      requires HeapBut(Deadlines(p[..], m, members), hole) && Above(Deadlines(p[..], m, members), hole, e.deadline)
      modifies p, members`minHeapIdx, e`minHeapIdx
      ensures Placed(p[..], m, -1, members + {e}) && Heap(Deadlines(p[..], m, members + {e}))
      ensures p[m..] == old(p[m..])
      ensures var r := old(Sink(p[..], Deadlines(p[..], m, members), n, hole, e.deadline));
        r.place < |r.ps| && p[..] == r.ps[r.place := e]
    {
      hide HeapBut, Above, Heap, Below, Placed, Parent, Later, Deadlines, Sink, EarlierChild;
      ghost var rest := Sink(p[..], Deadlines(p[..], m, members), n, hole, e.deadline);
      var h := hole;
      while 2 * (h + 1) <= n
        invariant hole <= h < m && (h < n || h == hole)
        invariant Placed(p[..], m, h, members)
        invariant HeapBut(Deadlines(p[..], m, members), h) && Above(Deadlines(p[..], m, members), h, e.deadline)
        invariant p[m..] == old(p[m..])
        invariant Sink(p[..], Deadlines(p[..], m, members), n, h, e.deadline) == rest
        decreases n - h
      {
        var minChild := FirstChild(h);
        SinkStep(p[..], Deadlines(p[..], m, members), n, h, e.deadline);
        if !Later(e.deadline, p[minChild].deadline) {
          NothingEarlierBelow(Deadlines(p[..], m, members), h, minChild, e.deadline);
          break;
        }
        HoleMovesDown(Deadlines(p[..], m, members), h, minChild, e.deadline);
        MoveInto(h, minChild, m);
        h := minChild;
      }
      if 2 * (h + 1) > n {
        NoChildren(Deadlines(p[..], m, members), h, e.deadline);
        SinkEnds(p[..], Deadlines(p[..], m, members), n, h, e.deadline);
      }
      ShiftUp(h, e, m);
    }

    // realloc: a larger array that starts with the old one.
    method Copied(size: nat) returns (q: array<Event?>)
      requires p.Length <= size
      ensures fresh(q) && q.Length == size && q[..p.Length] == p[..]
    {
      q := new Event?[size];
      var k := 0;
      while k < p.Length
        invariant 0 <= k <= p.Length
        invariant q[..k] == p[..k]
      {
        q[k] := p[k];
        k := k + 1;
      }
    }

    // min_heap_reserve
    method Reserve(want: nat, memory: bool) returns (r: int)
      requires Valid()
      modifies this`p, this`a
      ensures Valid()
      ensures r == if want <= old(a) || memory then 0 else -1
      ensures r == 0 ==> want <= a
      ensures r != 0 || want <= old(a) ==> p == old(p) && a == old(a)
      ensures p != old(p) ==> fresh(p)
    {
      hide Deadlines, Heap;
      if a < want {
        var size := if a != 0 then a * 2 else 8;
        if size < want {
          size := want;
        }
        if !memory {
          return -1;
        }
        var q := Copied(size);
        SamePrefix(p[..], q[..], n, members);
        p := q;
        a := size;
      }
      return 0;
    }

    // min_heap_push
    method Push(e: Event, memory: bool) returns (r: int)
      requires Valid() && e !in members
      modifies this, p, members`minHeapIdx, e`minHeapIdx
      ensures Valid()
      ensures r == if old(n) + 1 <= old(a) || memory then 0 else -1
      ensures r == 0 ==> members == old(members) + {e} && n == old(n) + 1
      ensures r != 0 ==> members == old(members) && n == old(n) && p == old(p) && a == old(a)
      ensures old(n) + 1 <= old(a) ==> p == old(p) && a == old(a)
      ensures p != old(p) ==> fresh(p)
    {
      r := Reserve(n + 1, memory);
      if r != 0 {
        return -1;
      }
      Append(e);
    }

    // The part of min_heap_push after memory is reserved.
    method Append(e: Event)
      requires Valid() && e !in members && n < a
      modifies this`n, this`members, p, members`minHeapIdx, e`minHeapIdx
      ensures Valid() && members == old(members) + {e} && n == old(n) + 1
    {
      hide Placed, Heap, HeapBut, Below, Deadlines;
      HoleAtEnd(Deadlines(p[..], n, members), Deadlines(p[..], n + 1, members), e.deadline);
      assert Deadlines(p[..], n + 1, members)[..n] == Deadlines(p[..], n, members);
      OnePlaceMore(p[..], n, members);
      n := n + 1;
      ShiftUp(n - 1, e, n);
      members := members + {e};
    }

    // Takes the event at place k out of the heap: the last event fills the hole it leaves.
    method TakeOut(k: nat)
      requires Valid() && k < n
      modifies this`n, this`members, p, members`minHeapIdx
      ensures p == old(p) && n == old(n) - 1 && members == old(members) - {old(p[k])}
      ensures n <= p.Length && Placed(p[..], n, -1, members) && Heap(Deadlines(p[..], n, members))
    {
      hide Heap;
      n := n - 1;
      if k == n {
        TakeLast();
      } else {
        TakeInner(k);
      }
    }

    // The last event is put back where it was, just past the end.
    method TakeLast()
      requires n < p.Length && Placed(p[..], n + 1, -1, members) && Heap(Deadlines(p[..], n + 1, members))
      modifies this`members, p, members`minHeapIdx
      ensures members == old(members) - {old(p[n])}
      ensures Placed(p[..], n, -1, members) && Heap(Deadlines(p[..], n, members))
    {
      hide HeapBut, Below, Above, Heap, Placed, Parent, Later, Deadlines;
      LeavesHole(p[..], n + 1, n, members);
      var last := p[n];
      HeapHasHole(Deadlines(p[..], n + 1, members), n);
      LeavesDeadlines(p[..], n + 1, n, members, members - {last});
      members := members - {last};
      ShiftDown(n, last, n + 1);
      HeapPrefix(Deadlines(p[..], n + 1, members + {last}), n);
      LastDrops(p[..], n, members, last);
    }

    method TakeInner(k: nat)
      requires k < n < p.Length && Placed(p[..], n + 1, -1, members) && Heap(Deadlines(p[..], n + 1, members))
      modifies this`members, p, members`minHeapIdx
      ensures members == old(members) - {old(p[k])}
      ensures Placed(p[..], n, -1, members) && Heap(Deadlines(p[..], n, members))
    {
      hide HeapBut, Below, Above, Heap, Parent, Later, Deadlines, Placed;
      FreesHole(p[..], n, k, members);
      var e, last := p[k], p[n];
      HoleInPrefix(Deadlines(p[..], n + 1, members), n, k);
      assert Deadlines(p[..], n, members) == Deadlines(p[..], n + 1, members)[..n];
      FrontStays(p[..], n, k, members);
      members := members - {e} - {last};
      Refill(k, last);
      members := members + {last};
    }

    // Puts the last event where another has left: upwards if it is due before the one above, else downwards.
    method Refill(k: nat, last: Event)
      requires k < n < p.Length && last !in members
      requires Placed(p[..], n, k, members)
      requires HeapBut(Deadlines(p[..], n, members), k)
      modifies p, members`minHeapIdx, last`minHeapIdx
      ensures Placed(p[..], n, -1, members + {last}) && Heap(Deadlines(p[..], n, members + {last}))
    {
      if k > 0 && Later(p[Parent(k)].deadline, last.deadline) {
        StillBelow(Deadlines(p[..], n, members), k, last.deadline);
        ShiftUp(k, last, n);
      } else {
        ShiftDown(k, last, n);
      }
    }

    // min_heap_pop
    method Pop() returns (e: Event?)
      requires Valid()
      modifies this`n, this`members, p, members`minHeapIdx
      ensures Valid() && p == old(p) && a == old(a)
      ensures (e == null) == (old(members) == {})
      ensures e == null ==> members == {} && n == 0
      ensures e != null ==>
        && e in old(members) && members == old(members) - {e} && n == old(n) - 1 && e.minHeapIdx == -1
        && forall x :: x in old(members) ==> !Later(e.deadline, x.deadline)
    {
      hide Heap, Deadlines;
      e := Top();
      if n == 0 {
        return null;
      }
      TakeOut(0);
      ghost var ks := Deadlines(p[..], n, members);
      e.minHeapIdx := -1;
      assert Deadlines(p[..], n, members) == ks;
    }

    // min_heap_erase
    method Erase(e: Event) returns (r: int)
      requires Valid() && (e.minHeapIdx != -1 ==> e in members)
      modifies this`n, this`members, p, members`minHeapIdx
      ensures Valid() && p == old(p) && a == old(a)
      ensures r == if old(e.minHeapIdx) == -1 then -1 else 0
      ensures r == 0 ==> members == old(members) - {e} && n == old(n) - 1 && e.minHeapIdx == -1
      ensures r != 0 ==> members == old(members) && n == old(n) && e.minHeapIdx == -1 && p[..] == old(p[..])
    {
      if e.minHeapIdx == -1 {
        return -1;
      }
      TakeOut(e.minHeapIdx);
      e.minHeapIdx := -1;
      return 0;
    }
  }

  lemma MinOfChildren(ks: seq<TimeVal>, hole: nat, child: nat)
    requires child < |ks| && (child == 2 * hole + 1 || child == 2 * hole + 2)
    requires child == 2 * hole + 1 && child + 1 < |ks| ==> !Later(ks[child], ks[child + 1])
    requires child == 2 * hole + 2 ==> !Later(ks[child], ks[child - 1])
    ensures Parent(child) == hole
    ensures forall i :: 0 < i < |ks| && Parent(i) == hole ==> !Later(ks[child], ks[i])
  {
  }

  lemma NothingEarlierBelow(ks: seq<TimeVal>, hole: nat, child: nat, t: TimeVal)
    requires child < |ks| && !Later(t, ks[child])
    requires forall i :: 0 < i < |ks| && Parent(i) == hole ==> !Later(ks[child], ks[i])
    ensures Below(ks, hole, t)
  {
    forall i | 0 < i < |ks| && Parent(i) == hole
      ensures !Later(t, ks[i])
    {
      LaterIsTotal(t, ks[child], ks[i]);
    }
  }

  lemma NoChildren(ks: seq<TimeVal>, hole: nat, t: TimeVal)
    requires |ks| <= 2 * hole + 1
    ensures Below(ks, hole, t)
  {
  }

  lemma SamePrefix(ps: seq<Event?>, qs: seq<Event?>, n: nat, es: set<Event>)
    requires n <= |ps| <= |qs| && qs[..|ps|] == ps
    ensures Deadlines(qs, n, es) == Deadlines(ps, n, es)
    ensures Placed(ps, n, -1, es) ==> Placed(qs, n, -1, es)
  {
    assert forall i :: 0 <= i < n ==> qs[i] == qs[..|ps|][i];
  }

  lemma LeavesHole(ps: seq<Event?>, m: nat, k: nat, es: set<Event>)
    requires k < m && Placed(ps, m, -1, es)
    ensures ps[k] != null && ps[k] in es && Placed(ps, m, k, es - {ps[k]})
    ensures forall i :: 0 <= i < m && i != k ==> ps[i] in es - {ps[k]}
  {
  }

  lemma LastDrops(ps: seq<Event?>, n: nat, es: set<Event>, e: Event)
    requires n < |ps| && Placed(ps, n + 1, -1, es + {e}) && ps[n] == e && e !in es
    ensures Placed(ps, n, -1, es)
    ensures Deadlines(ps, n, es) == Deadlines(ps, n + 1, es + {e})[..n]
  {
  }

  // What is in the hole does not matter for the order around it.
  lemma HoleIsFree(ks: seq<TimeVal>, ks': seq<TimeVal>, hole: nat)
    requires |ks| == |ks'| && HeapBut(ks, hole)
    requires forall i :: 0 <= i < |ks| && i != hole ==> ks'[i] == ks[i]
    ensures HeapBut(ks', hole) && forall t :: Above(ks, hole, t) ==> Above(ks', hole, t)
  {
  }

  // Deadlines once the events at place k and at the end are no longer counted in.
  lemma LeavesDeadlines(ps: seq<Event?>, m: nat, k: nat, es: set<Event>, es': set<Event>)
    requires k < m && Placed(ps, m, -1, es) && es' <= es && HeapBut(Deadlines(ps, m, es), k)
    requires forall i :: 0 <= i < m && i != k ==> ps[i] in es'
    ensures var ks, ks' := Deadlines(ps, m, es), Deadlines(ps, m, es');
      HeapBut(ks', k) && forall t :: Above(ks, k, t) ==> Above(ks', k, t)
  {
    hide HeapBut, Above;
    HoleIsFree(Deadlines(ps, m, es), Deadlines(ps, m, es'), k);
  }

  // The last event fills the hole of another.
  lemma FreesHole(ps: seq<Event?>, n: nat, k: nat, es: set<Event>)
    requires k < n < |ps| && Placed(ps, n + 1, -1, es)
    ensures ps[k] != null && ps[n] != null
    ensures ps[k] in es && ps[n] in es && ps[k] != ps[n] && Placed(ps, n, k, es - {ps[k]} - {ps[n]})
  {
  }

  lemma FrontStays(ps: seq<Event?>, n: nat, k: nat, es: set<Event>)
    requires k < n < |ps| && Placed(ps, n + 1, -1, es) && HeapBut(Deadlines(ps, n, es), k)
    ensures ps[k] != null && ps[n] != null && HeapBut(Deadlines(ps, n, es - {ps[k]} - {ps[n]}), k)
  {
    FreesHole(ps, n, k, es);
    HoleIsFree(Deadlines(ps, n, es), Deadlines(ps, n, es - {ps[k]} - {ps[n]}), k);
  }

  lemma OnePlaceMore(ps: seq<Event?>, n: nat, es: set<Event>)
    requires n < |ps| && Placed(ps, n, -1, es)
    ensures Placed(ps, n + 1, n, es)
  {
  }

  lemma HoleInPrefix(ks: seq<TimeVal>, n: nat, hole: nat)
    requires hole < n <= |ks| && Heap(ks)
    ensures var ks' := ks[..n]; HeapBut(ks', hole) && Below(ks', hole, ks'[hole]) && Above(ks', hole, ks'[hole])
  {
    HeapPrefix(ks, n);
    HeapHasHole(ks[..n], hole);
  }

  // A deadline before the one above the hole is also before all below it.
  lemma StillBelow(ks: seq<TimeVal>, hole: nat, t: TimeVal)
    requires 0 < hole < |ks| && HeapBut(ks, hole) && Later(ks[Parent(hole)], t)
    ensures Below(ks, hole, t)
  {
    forall i | 0 < i < |ks| && Parent(i) == hole
      ensures !Later(t, ks[i])
    {
      LaterIsTotal(t, ks[Parent(hole)], ks[i]);
    }
  }

  lemma HoleAtEnd(ks: seq<TimeVal>, ks': seq<TimeVal>, t: TimeVal)
    requires Heap(ks) && |ks'| == |ks| + 1 && ks'[..|ks|] == ks
    ensures HeapBut(ks', |ks|) && Below(ks', |ks|, t)
  {
    assert forall i :: 0 <= i < |ks| ==> ks'[i] == ks[i];
  }
}
