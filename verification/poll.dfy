// The poll backend: a dense array of descriptors, and where each descriptor is in it.
module PollBackend {
  import opened Bytes
  import opened Watches

  // struct pollfd, without revents
  datatype PollFd = PollFd(fd: int, pollin: bool, pollout: bool)

  // The arrays of struct pollop, as far as they are in use.
  datatype Table = Table(nfds: nat, eventSet: seq<PollFd>, rBack: seq<Option<Watcher>>, wBack: seq<Option<Watcher>>, idxplus1: seq<nat>) {
    predicate Sized() {
      nfds <= |eventSet| && nfds <= |rBack| && nfds <= |wBack|
    }

    // The array and the index are inverse to each other.
    ghost predicate Inverse()
      requires Sized()
    {
      && (forall i :: 0 <= i < nfds ==> 0 <= eventSet[i].fd < |idxplus1| && idxplus1[eventSet[i].fd] == i + 1)
      && (forall fd :: 0 <= fd < |idxplus1| && idxplus1[fd] > 0 ==> idxplus1[fd] <= nfds && eventSet[idxplus1[fd] - 1].fd == fd)
    }

    // What is asked of the kernel for place i is what its events are there for, and that is something.
    ghost predicate Backed(i: nat)
      requires Sized() && i < nfds
    {
      && (eventSet[i].pollin <==> rBack[i].Some?) && (eventSet[i].pollout <==> wBack[i].Some?)
      && (eventSet[i].pollin || eventSet[i].pollout)
    }

    ghost predicate Valid() {
      Sized() && Inverse() && forall i :: 0 <= i < nfds ==> Backed(i)
    }

    // The watch that the table holds for a descriptor.
    ghost function WatchOf(fd: int): Watch
      requires Sized() && Inverse()
    {
      if 0 <= fd < |idxplus1| && idxplus1[fd] > 0 then Watch(rBack[idxplus1[fd] - 1], wBack[idxplus1[fd] - 1]) else NOBODY
    }

    // The table with other contents in place i, for the same descriptor.
    function Put(i: nat, w: Watch): Table
      requires Sized() && i < nfds
    {
      this.(eventSet := eventSet[i := PollFd(eventSet[i].fd, w.reader.Some?, w.writer.Some?)],
            rBack := rBack[i := w.reader], wBack := wBack[i := w.writer])
    }

    // The table with a new, empty place at the end.
    function Open(fd: nat): Table
      requires Sized() && fd < |idxplus1| && nfds < |eventSet| && nfds < |rBack| && nfds < |wBack|
    {
      Table(nfds + 1, eventSet[nfds := PollFd(fd, false, false)], rBack[nfds := None], wBack[nfds := None], idxplus1[fd := nfds + 1])
    }

    // The table without place i: the last place moves there.
    function Close(i: nat): Table
      requires Sized() && Inverse() && i < nfds
    {
      var idx, n := idxplus1[eventSet[i].fd := 0], nfds - 1;
      if i == n then Table(n, eventSet, rBack, wBack, idx)
      else Table(n, eventSet[i := eventSet[n]], rBack[i := rBack[n]], wBack[i := wBack[n]], idx[eventSet[n].fd := i + 1])
    }
  }

  // Two tables hold the same watches, but for one descriptor.
  ghost predicate SameBut(t: Table, t': Table, fd: int)
    requires t.Sized() && t.Inverse() && t'.Sized() && t'.Inverse()
  {
    forall x: int :: x != fd ==> t'.WatchOf(x) == t.WatchOf(x)
  }

  lemma PutInverse(t: Table, i: nat, w: Watch)
    requires t.Sized() && t.Inverse() && i < t.nfds
    ensures t.Put(i, w).Sized() && t.Put(i, w).Inverse()
  {
    var t' := t.Put(i, w);
    assert forall k :: 0 <= k < t.nfds ==> t'.eventSet[k].fd == t.eventSet[k].fd;
  }

  // Only the watch of the descriptor in place i changes.
  lemma PutIsLocal(t: Table, i: nat, w: Watch)
    requires t.Sized() && t.Inverse() && i < t.nfds
    ensures t.Put(i, w).Sized() && t.Put(i, w).Inverse()
    ensures t.Put(i, w).WatchOf(t.eventSet[i].fd) == w && SameBut(t, t.Put(i, w), t.eventSet[i].fd)
  {
    PutInverse(t, i, w);
    var t', fd := t.Put(i, w), t.eventSet[i].fd;
    forall x: int | x != fd
      ensures t'.WatchOf(x) == t.WatchOf(x)
    {
      if 0 <= x < |t.idxplus1| && t.idxplus1[x] > 0 {
        assert t.eventSet[t.idxplus1[x] - 1].fd == x;
      }
    }
  }

  lemma PutBacked(t: Table, i: nat, w: Watch)
    requires t.Sized() && t.Inverse() && i < t.nfds
    requires forall k :: 0 <= k < t.nfds && k != i ==> t.Backed(k)
    ensures forall k :: 0 <= k < t.nfds && k != i ==> t.Put(i, w).Backed(k)
    ensures w != NOBODY ==> t.Put(i, w).Backed(i)
  {
    forall k | 0 <= k < t.nfds && k != i
      ensures t.Put(i, w).Backed(k)
    {
      assert t.Backed(k);
    }
  }

  lemma OpenInverse(t: Table, fd: nat)
    requires t.Sized() && t.Inverse() && fd < |t.idxplus1| && t.nfds < |t.eventSet| && t.nfds < |t.rBack| && t.nfds < |t.wBack|
    requires t.idxplus1[fd] == 0
    ensures t.Open(fd).Sized() && t.Open(fd).Inverse()
  {
    var t' := t.Open(fd);
    forall i | 0 <= i < t'.nfds
      ensures 0 <= t'.eventSet[i].fd < |t'.idxplus1| && t'.idxplus1[t'.eventSet[i].fd] == i + 1
    {
      if i < t.nfds {
        assert t.idxplus1[t.eventSet[i].fd] == i + 1;
      }
    }
  }

  lemma OpenIsLocal(t: Table, fd: nat)
    requires t.Valid() && fd < |t.idxplus1| && t.nfds < |t.eventSet| && t.nfds < |t.rBack| && t.nfds < |t.wBack|
    requires t.idxplus1[fd] == 0
    ensures t.Open(fd).Sized() && t.Open(fd).Inverse() && t.Open(fd).WatchOf(fd) == NOBODY && SameBut(t, t.Open(fd), fd)
    ensures forall k :: 0 <= k < t.nfds ==> t.Open(fd).Backed(k)
  {
    OpenInverse(t, fd);
    forall k | 0 <= k < t.nfds
      ensures t.Open(fd).Backed(k)
    {
      assert t.Backed(k);
    }
  }

  lemma CloseIsLocal(t: Table, i: nat)
    requires t.Sized() && t.Inverse() && i < t.nfds
    requires forall k :: 0 <= k < t.nfds && k != i ==> t.Backed(k)
    ensures t.Close(i).Valid() && t.Close(i).WatchOf(t.eventSet[i].fd) == NOBODY && SameBut(t, t.Close(i), t.eventSet[i].fd)
  {
    CloseInverse(t, i);
    CloseWatches(t, i);
    forall k | 0 <= k < t.nfds - 1
      ensures t.Close(i).Backed(k)
    {
      assert t.Backed(if k == i then t.nfds - 1 else k);
    }
  }

  lemma CloseWatches(t: Table, i: nat)
    requires t.Sized() && t.Inverse() && i < t.nfds && t.Close(i).Sized() && t.Close(i).Inverse()
    ensures t.Close(i).WatchOf(t.eventSet[i].fd) == NOBODY && SameBut(t, t.Close(i), t.eventSet[i].fd)
  {
    var t', fd := t.Close(i), t.eventSet[i].fd;
    assert t.idxplus1[fd] == i + 1 && t.idxplus1[t.eventSet[t.nfds - 1].fd] == t.nfds;
    forall x: int | x != fd
      ensures t'.WatchOf(x) == t.WatchOf(x)
    {
      if 0 <= x < |t.idxplus1| && t.idxplus1[x] > 0 {
        assert t.eventSet[t.idxplus1[x] - 1].fd == x;
      }
    }
  }

  // Swapping with the last keeps the array and the index inverse to each other.
  lemma CloseInverse(t: Table, i: nat)
    requires t.Sized() && t.Inverse() && i < t.nfds
    ensures t.Close(i).Sized() && t.Close(i).Inverse()
  {
    var t', n := t.Close(i), t.nfds - 1;
    assert t.idxplus1[t.eventSet[i].fd] == i + 1 && t.idxplus1[t.eventSet[n].fd] == n + 1;
    forall k | 0 <= k < n
      ensures 0 <= t'.eventSet[k].fd < |t'.idxplus1| && t'.idxplus1[t'.eventSet[k].fd] == k + 1
    {
      assert t.idxplus1[t.eventSet[k].fd] == k + 1;
    }
    forall fd | 0 <= fd < |t'.idxplus1| && t'.idxplus1[fd] > 0
      ensures t'.idxplus1[fd] <= n && t'.eventSet[t'.idxplus1[fd] - 1].fd == fd
    {
      assert t.idxplus1[fd] > 0 ==> t.eventSet[t.idxplus1[fd] - 1].fd == fd;
    }
  }

  lemma Regrown(t: Table, t': Table)
    requires t.Valid() && t'.nfds == t.nfds && t'.idxplus1 == t.idxplus1
    requires t.eventSet <= t'.eventSet && t.rBack <= t'.rBack && t.wBack <= t'.wBack
    ensures t'.Valid() && forall fd :: t'.WatchOf(fd) == t.WatchOf(fd)
  {
    forall k | 0 <= k < t.nfds
      ensures t'.Sized() && t'.Backed(k)
    {
      assert t.Backed(k);
    }
  }

  lemma Reindexed(t: Table, n: nat)
    requires t.Valid()
    ensures var t' := t.(idxplus1 := t.idxplus1 + seq(n, _ => 0)); t'.Valid() && forall fd :: t'.WatchOf(fd) == t.WatchOf(fd)
  {
    var t' := t.(idxplus1 := t.idxplus1 + seq(n, _ => 0));
    forall k | 0 <= k < t.nfds
      ensures t'.Sized() && t'.Backed(k)
    {
      assert t.Backed(k);
    }
  }

  ghost function ViewOf(t: Table): (v: View)
    requires t.Valid()
    ensures Total(v)
  {
    imap fd: int :: t.WatchOf(fd)
  }

  lemma ViewChanges(t: Table, t': Table, fd: int, w: Watch)
    requires t.Valid() && t'.Valid() && SameBut(t, t', fd) && t'.WatchOf(fd) == w
    ensures ViewOf(t') == ViewOf(t)[fd := w]
  {
  }

  lemma ViewStays(t: Table, t': Table)
    requires t.Valid() && t'.Valid() && forall fd :: t'.WatchOf(fd) == t.WatchOf(fd)
    ensures ViewOf(t') == ViewOf(t)
  {
  }

  // realloc: the old elements, and room for more that nothing is known of.
  method Grow<T>(s: seq<T>, n: nat, filler: T) returns (t: seq<T>)
    ensures |t| >= n && s <= t
  {
    t := if |s| < n then s + seq(n - |s|, _ => filler) else s;
  }

  class PollOp {
    var eventCount: nat
    var nfds: nat
    var fdCount: nat
    var eventSet: seq<PollFd>
    var rBack: seq<Option<Watcher>>
    var wBack: seq<Option<Watcher>>
    var idxplus1: seq<nat>

    function Tables(): Table
      reads this
    {
      Table(nfds, eventSet, rBack, wBack, idxplus1)
    }

    ghost predicate Valid()
      reads this
    {
      && eventCount <= |eventSet| && eventCount <= |rBack| && eventCount <= |wBack| && fdCount == |idxplus1|
      && nfds <= eventCount && (eventCount == 0 || 32 <= eventCount)
      && Tables().Valid()
    }

    ghost function View(): (v: View)
      requires Valid()
      reads this
      ensures Total(v)
    {
      ViewOf(Tables())
    }

    // poll_init
    constructor ()
      ensures Valid() && forall fd: int :: View()[fd] == NOBODY
    {
      eventCount, nfds, fdCount, eventSet, rBack, wBack, idxplus1 := 0, 0, 0, [], [], [], [];
    }

    // The first part of poll_add: room for one descriptor more. Some of the arrays may have grown when it fails.
    method ReserveSlots(memory: set<nat>) returns (r: int)
      requires Valid()
      modifies this`eventCount, this`eventSet, this`rBack, this`wBack
      ensures Valid() && View() == old(View())
      ensures r == 0 ==> nfds + 1 < eventCount
      ensures memory == {0, 1, 2, 3} ==> r == 0
      ensures r == 0 || r == -1
    {
      hide Table.Valid, Table.WatchOf, ViewOf;
      ghost var t := Tables();
      r := 0;
      if nfds + 1 >= eventCount {
        var count := if eventCount < 32 then 32 else eventCount * 2;
        if 0 !in memory {
          return -1;
        }
        eventSet := Grow(eventSet, count, PollFd(0, false, false));
        if 1 in memory {
          rBack := Grow(rBack, count, None);
          if 2 in memory {
            wBack := Grow(wBack, count, None);
            eventCount := count;
          }
        }
        Regrown(t, Tables());
        ViewStays(t, Tables());
        r := if 1 in memory && 2 in memory then 0 else -1;
      }
    }

    // The second part of poll_add: a place in the index for the descriptor.
    method ReserveIndex(fd: nat, memory: set<nat>) returns (r: int)
      requires Valid()
      modifies this`fdCount, this`idxplus1
      ensures Valid() && View() == old(View())
      ensures (r == 0 ==> fd < fdCount) && old(fdCount) <= fdCount
      ensures memory == {0, 1, 2, 3} ==> r == 0
      ensures r == 0 || r == -1
    {
      hide Table.Valid, Table.WatchOf, ViewOf;
      if fd >= fdCount {
        var newCount := if fdCount < 32 then 32 else fdCount * 2;
        while newCount <= fd
          invariant 0 < newCount && fdCount <= newCount
        {
          newCount := newCount * 2;
        }
        if 3 !in memory {
          return -1;
        }
        Reindexed(Tables(), newCount - fdCount);
        ghost var t := Tables();
        idxplus1 := idxplus1 + seq(newCount - fdCount, _ => 0);
        fdCount := newCount;
        ViewStays(t, Tables());
      }
      return 0;
    }

    // poll_add: when memory fails, nothing is watched that was not before.
    method Add(e: Watcher, memory: set<nat>) returns (r: int)
      requires Valid() && Watchable(e)
      modifies this
      ensures Valid() && (r == 0 || r == -1) && (memory == {0, 1, 2, 3} ==> r == 0)
      ensures (r == 0 ==> e.fd < fdCount) && old(fdCount) <= fdCount
      ensures View() == if r == 0 then Adding(old(View()), e) else old(View())
    {
      hide Table.Valid, ViewOf;
      r := ReserveSlots(memory);
      if r == -1 {
        return;
      }
      r := ReserveIndex(e.fd, memory);
      if r == -1 {
        return;
      }
      Enter(e);
    }

    // The rest of poll_add.
    method Enter(e: Watcher)
      requires Valid() && Watchable(e) && e.fd < fdCount && nfds < eventCount
      modifies this`nfds, this`eventSet, this`rBack, this`wBack, this`idxplus1
      ensures Valid() && View() == Adding(old(View()), e)
    {
      hide ViewOf, Table.Valid, Table.Inverse, Table.Backed, Table.WatchOf, Table.Put;
      ghost var t := Tables();
      Bounds(t, e.fd);
      var i := Place(e.fd);
      Found(t, Tables(), e.fd, i);
      ghost var t1 := Tables();
      Ask(i, e);
      Entered(t, t1, e, i);
    }

    // Place i is asked for what the event wants.
    method Ask(i: nat, e: Watcher)
      requires Tables().Sized() && i < nfds
      requires eventSet[i].pollin == rBack[i].Some? && eventSet[i].pollout == wBack[i].Some?
      modifies this`eventSet, this`rBack, this`wBack
      ensures Tables() == old(Tables()).Put(i, Watch(old(rBack[i]), old(wBack[i])).With(e))
      ensures |eventSet| == old(|eventSet|) && |rBack| == old(|rBack|) && |wBack| == old(|wBack|) && |idxplus1| == old(|idxplus1|)
    {
      ghost var t := Tables();
      if e.wantsWrite {
        eventSet := eventSet[i := eventSet[i].(pollout := true)];
        wBack := wBack[i := Some(e)];
      }
      if e.wantsRead {
        eventSet := eventSet[i := eventSet[i].(pollin := true)];
        rBack := rBack[i := Some(e)];
      }
      assert Tables() == t.Put(i, Watch(t.rBack[i], t.wBack[i]).With(e));
    }

    // Place i is no longer asked for what the event wants.
    method Unask(i: nat, e: Watcher)
      requires Tables().Sized() && i < nfds
      requires eventSet[i].pollin == rBack[i].Some? && eventSet[i].pollout == wBack[i].Some?
      modifies this`eventSet, this`rBack, this`wBack
      ensures Tables() == old(Tables()).Put(i, Watch(old(rBack[i]), old(wBack[i])).Without(e))
      ensures |eventSet| == old(|eventSet|) && |rBack| == old(|rBack|) && |wBack| == old(|wBack|) && |idxplus1| == old(|idxplus1|)
    {
      ghost var t := Tables();
      if e.wantsRead {
        eventSet := eventSet[i := eventSet[i].(pollin := false)];
        rBack := rBack[i := None];
      }
      if e.wantsWrite {
        eventSet := eventSet[i := eventSet[i].(pollout := false)];
        wBack := wBack[i := None];
      }
      assert Tables() == t.Put(i, Watch(t.rBack[i], t.wBack[i]).Without(e));
    }

    // Where the descriptor is, with a new place for it if it is not yet there.
    method Place(fd: nat) returns (i: nat)
      requires Valid() && fd < fdCount && nfds < eventCount
      modifies this`nfds, this`eventSet, this`rBack, this`wBack, this`idxplus1
      ensures i < nfds && Tables() == if old(idxplus1[fd]) > 0 then old(Tables()) else old(Tables()).Open(fd)
      ensures |eventSet| == old(|eventSet|) && |rBack| == old(|rBack|) && |wBack| == old(|wBack|) && |idxplus1| == old(|idxplus1|)
      ensures idxplus1[fd] == i + 1 && nfds <= old(nfds) + 1
    {
      if idxplus1[fd] > 0 {
        i := idxplus1[fd] - 1;
      } else {
        i := nfds;
        nfds := nfds + 1;
        eventSet := eventSet[i := PollFd(fd, false, false)];
        rBack, wBack := rBack[i := None], wBack[i := None];
        idxplus1 := idxplus1[fd := i + 1];
      }
    }

    // A descriptor that somebody watches has a place in the index.
    lemma WatchedIsIndexed(fd: int)
      requires Valid() && View()[fd] != NOBODY
      ensures 0 <= fd < fdCount
    {
    }

    // poll_del, for a descriptor that the index reaches
    method Del(e: Watcher) returns (r: int)
      requires Valid() && Watchable(e) && e.fd < fdCount
      modifies this`nfds, this`eventSet, this`rBack, this`wBack, this`idxplus1
      ensures Valid() && View() == Removing(old(View()), e)
      ensures r == if old(View())[e.fd] == NOBODY then -1 else 0
    {
      hide ViewOf, Table.Valid, Table.Inverse, Table.Backed, Table.WatchOf, Table.Put, Table.Close;
      ghost var t := Tables();
      ViewTells(t, e.fd);
      if idxplus1[e.fd] == 0 {
        ViewIdentity(t, e.fd);
        return -1;
      }
      Bounds(t, e.fd);
      var i := idxplus1[e.fd] - 1;
      Found(t, t, e.fd, i);
      Unask(i, e);
      Left(t, e, i);
      if !eventSet[i].pollin && !eventSet[i].pollout {
        Vacate(i);
      }
      return 0;
    }

    // The scan of poll_dispatch, which may start anywhere: every event that is watched gets the result it is due,
    // and no other. `ready` is what the kernel finds, as far as it is asked.
    method Dispatch(ready: map<int, Ready>, start: nat) returns (calls: seq<Call>)
      requires Valid() && Sound(View()) && (nfds > 0 ==> start < nfds)
      ensures forall e: Watcher :: Marks(calls, e) == Due(View()[e.fd], e, Of(ready, e.fd))
    {
      calls := [];
      ghost var v := View();
      if nfds == 0 {
        NothingDue(Tables());
        return;
      }
      var i, j := start, 0;
      while j < nfds
        invariant 0 <= j <= nfds
        invariant i == if start + j < nfds then start + j else start + j - nfds
        invariant Told(calls, v, ready, Reached(Tables(), start, j))
      {
        i := i + 1;
        if i == nfds {
          i := 0;
        }
        var fd := eventSet[i].fd;
        ReachedOneMore(Tables(), start, j, i);
        ghost var before := calls;
        calls := Tell(Watch(rBack[i], wBack[i]), Of(ready, fd), calls, fd);
        ToldOneMore(before, calls, v, ready, Reached(Tables(), start, j), fd);
        j := j + 1;
      }
      AllReached(Tables(), start, calls, ready);
    }

    // The end of poll_del: the last descriptor moves into the place that is given up.
    method Vacate(i: nat)
      requires Tables().Sized() && Tables().Inverse() && i < nfds
      modifies this`nfds, this`eventSet, this`rBack, this`wBack, this`idxplus1
      ensures Tables() == old(Tables()).Close(i) && nfds == old(nfds) - 1
      ensures |eventSet| == old(|eventSet|) && |rBack| == old(|rBack|) && |wBack| == old(|wBack|) && |idxplus1| == old(|idxplus1|)
    {
      idxplus1 := idxplus1[eventSet[i].fd := 0];
      nfds := nfds - 1;
      if i != nfds {
        eventSet := eventSet[i := eventSet[nfds]];
        rBack := rBack[i := rBack[nfds]];
        wBack := wBack[i := wBack[nfds]];
        idxplus1 := idxplus1[eventSet[i].fd := i + 1];
      }
    }
  }

  lemma AllBacked(t: Table, i: nat, w: Watch)
    requires t.Sized() && t.Inverse() && i < t.nfds && t.Put(i, w).Sized() && t.Put(i, w).Inverse()
    requires forall k :: 0 <= k < t.nfds && k != i ==> t.Put(i, w).Backed(k)
    requires w != NOBODY && (w != NOBODY ==> t.Put(i, w).Backed(i))
    ensures t.Put(i, w).Valid()
  {
  }

  lemma Bounds(t: Table, fd: nat)
    requires t.Valid() && fd < |t.idxplus1|
    ensures t.Sized() && t.Inverse() && t.idxplus1[fd] <= t.nfds
    ensures t.idxplus1[fd] == 0 && t.nfds < |t.eventSet| && t.nfds < |t.rBack| && t.nfds < |t.wBack| ==>
      t.Open(fd).Sized() && t.Open(fd).Inverse()
  {
    if t.idxplus1[fd] == 0 && t.nfds < |t.eventSet| && t.nfds < |t.rBack| && t.nfds < |t.wBack| {
      OpenInverse(t, fd);
    }
  }

  // The table after poll_add.
  lemma Entered(t: Table, t1: Table, e: Watcher, i: nat)
    requires Watchable(e) && IsPlace(t, t1, e.fd, i)
    ensures var t2 := t1.Put(i, Watch(t1.rBack[i], t1.wBack[i]).With(e)); t2.Valid() && ViewOf(t2) == Adding(ViewOf(t), e)
  {
    hide ViewOf;
    var w := Watch(t1.rBack[i], t1.wBack[i]).With(e);
    PutIsLocal(t1, i, w);
    PutBacked(t1, i, w);
    AllBacked(t1, i, w);
    TwoSteps(t, t1, t1.Put(i, w), e.fd);
    ViewTells(t, e.fd);
    ViewChanges(t, t1.Put(i, w), e.fd, w);
  }

  // The table after poll_del.
  lemma Left(t: Table, e: Watcher, i: nat)
    requires Watchable(e) && IsPlace(t, t, e.fd, i) && t.idxplus1[e.fd] > 0
    ensures var t1 := t.Put(i, Watch(t.rBack[i], t.wBack[i]).Without(e));
      && t1.Sized() && t1.Inverse()
      && var t2 := if t1.eventSet[i].pollin || t1.eventSet[i].pollout then t1 else t1.Close(i);
      && t2.Valid() && ViewOf(t2) == Removing(ViewOf(t), e)
  {
    hide ViewOf;
    var w := Watch(t.rBack[i], t.wBack[i]).Without(e);
    var t1 := t.Put(i, w);
    PutIsLocal(t, i, w);
    PutBacked(t, i, w);
    ViewTells(t, e.fd);
    if w != NOBODY {
      AllBacked(t, i, w);
      ViewChanges(t, t1, e.fd, w);
    } else {
      CloseIsLocal(t1, i);
      TwoSteps(t, t1, t1.Close(i), e.fd);
      ViewChanges(t, t1.Close(i), e.fd, w);
    }
  }

  // i is the place of the descriptor, perhaps new in t1, and it holds the watch.
  ghost predicate IsPlace(t: Table, t1: Table, fd: nat, i: nat) {
    && t.Valid() && t1.Sized() && t1.Inverse() && fd < |t.idxplus1| && i < t1.nfds
    && (t1 == t || SameBut(t, t1, fd))
    && t.WatchOf(fd) == Watch(t1.rBack[i], t1.wBack[i]) && t1.eventSet[i].fd == fd
    && t1.eventSet[i].pollin == t1.rBack[i].Some? && t1.eventSet[i].pollout == t1.wBack[i].Some?
    && forall k :: 0 <= k < t1.nfds && k != i ==> t1.Backed(k)
  }

  lemma Found(t: Table, t1: Table, fd: nat, i: nat)
    requires t.Valid() && fd < |t.idxplus1| == |t1.idxplus1| && t1.Sized() && t1.Inverse() && i < t1.nfds && t1.idxplus1[fd] == i + 1
    requires t.idxplus1[fd] > 0 || (t.nfds < |t.eventSet| && t.nfds < |t.rBack| && t.nfds < |t.wBack|)
    requires t1 == if t.idxplus1[fd] > 0 then t else t.Open(fd)
    ensures IsPlace(t, t1, fd, i)
  {
    if t.idxplus1[fd] > 0 {
      assert t.Backed(i);
    } else {
      OpenIsLocal(t, fd);
    }
  }

  lemma TwoSteps(t: Table, t1: Table, t2: Table, fd: int)
    requires t.Sized() && t.Inverse() && t1.Sized() && t1.Inverse() && t2.Sized() && t2.Inverse()
    requires (t == t1 || SameBut(t, t1, fd)) && SameBut(t1, t2, fd)
    ensures SameBut(t, t2, fd)
  {
  }

  lemma ViewTells(t: Table, fd: nat)
    requires t.Valid()
    ensures ViewOf(t)[fd] == t.WatchOf(fd)
    ensures t.WatchOf(fd) == NOBODY <==> fd >= |t.idxplus1| || t.idxplus1[fd] == 0
  {
    if fd < |t.idxplus1| && t.idxplus1[fd] > 0 {
      assert t.Backed(t.idxplus1[fd] - 1);
    }
  }

  lemma ViewIdentity(t: Table, fd: int)
    requires t.Valid() && t.WatchOf(fd) == NOBODY
    ensures ViewOf(t) == ViewOf(t)[fd := NOBODY]
  {
  }

  // The descriptors that a scan has come to in j turns.
  ghost function Reached(t: Table, start: nat, j: nat): iset<int>
    requires t.Sized() && t.Inverse() && start < t.nfds
  {
    iset fd: int | 0 <= fd < |t.idxplus1| && t.idxplus1[fd] > 0 && Turn(start, t.nfds, t.idxplus1[fd] - 1) < j
  }

  lemma ReachedOneMore(t: Table, start: nat, j: nat, i: nat)
    requires t.Valid() && start < t.nfds && i < t.nfds && Turn(start, t.nfds, i) == j
    ensures var fd := t.eventSet[i].fd;
      && fd !in Reached(t, start, j) && Reached(t, start, j + 1) == Reached(t, start, j) + iset{fd}
      && ViewOf(t)[fd] == Watch(t.rBack[i], t.wBack[i])
  {
  }

  lemma AllReached(t: Table, start: nat, calls: seq<Call>, ready: map<int, Ready>)
    requires t.Valid() && start < t.nfds && Told(calls, ViewOf(t), ready, Reached(t, start, t.nfds))
    ensures forall e: Watcher :: Marks(calls, e) == Due(ViewOf(t)[e.fd], e, Of(ready, e.fd))
  {
    var v := ViewOf(t);
    forall e: Watcher
      ensures Marks(calls, e) == Due(v[e.fd], e, Of(ready, e.fd))
    {
      assert e.fd !in Reached(t, start, t.nfds) ==> v[e.fd] == NOBODY;
    }
  }

  lemma NothingDue(t: Table)
    requires t.Valid() && t.nfds == 0
    ensures forall fd: int :: ViewOf(t)[fd] == NOBODY
  {
  }
}
