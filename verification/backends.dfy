// The three backends beside each other: one meaning.
module Backends {
  import opened Bytes
  import opened Watches
  import opened PollBackend
  import opened EpollBackend
  import opened SelectBackend

  datatype Change = Start(event: Watcher) | Stop(event: Watcher)

  // The map of watches after some adds and deletes.
  ghost function After(v: View, cs: seq<Change>): (w: View)
    requires Total(v)
    ensures Total(w)
  {
    if cs == [] then v
    else
      var before, c := After(v, cs[..|cs| - 1]), cs[|cs| - 1];
      if c.Start? then Adding(before, c.event) else Removing(before, c.event)
  }

  // At most one event for a descriptor and direction at any time, and only what is there is deleted.
  ghost predicate InTurn(v: View, cs: seq<Change>)
    requires Total(v)
  {
    cs != [] ==>
      var before, c := After(v, cs[..|cs| - 1]), cs[|cs| - 1];
      InTurn(v, cs[..|cs| - 1]) && if c.Start? then Free(before[c.event.fd], c.event) else Held(before[c.event.fd], c.event)
  }

  lemma {:induction false} StaysSound(v: View, cs: seq<Change>)
    requires Sound(v) && InTurn(v, cs)
    ensures Sound(After(v, cs))
  {
    if cs != [] {
      hide Sound;
      var before, c := After(v, cs[..|cs| - 1]), cs[|cs| - 1];
      StaysSound(v, cs[..|cs| - 1]);
      if c.Start? {
        AddingStaysSound(before, c.event);
      } else {
        RemovingStaysSound(before, c.event);
      }
    }
  }

  // A delete is of an event on a descriptor that somebody watches at first or that one was added for before.
  ghost predicate Addressed(v: View, cs: seq<Change>, i: nat)
    requires Total(v) && i < |cs|
  {
    v[cs[i].event.fd] != NOBODY || exists j :: 0 <= j < i && cs[j].Start? && cs[j].event.fd == cs[i].event.fd
  }

  // Whatever is added and deleted, with memory and a kernel that takes what it is told, the three backends hold
  // the same map.
  method Replay(cs: seq<Change>, poll: PollOp, epoll: EpollOp, select: SelectOp)
    requires forall i :: 0 <= i < |cs| ==> Watchable(cs[i].event)
    requires poll.Valid() && epoll.Valid() && select.Valid() && poll.View() == epoll.View() == select.View()
    requires forall i :: 0 <= i < |cs| && cs[i].Stop? ==> Addressed(poll.View(), cs, i)
    modifies poll, epoll, select
    ensures poll.Valid() && epoll.Valid() && select.Valid()
    ensures poll.View() == epoll.View() == select.View() == After(old(poll.View()), cs)
  {
    hide PollOp.Valid, EpollOp.Valid, SelectOp.Valid, PollOp.View, EpollOp.View, SelectOp.View, Adding, Removing;
    ghost var v := poll.View();
    assert cs[..0] == [];
    InIndexAtFirst(poll);
    for i := 0 to |cs|
      invariant poll.Valid() && epoll.Valid() && select.Valid()
      invariant poll.View() == epoll.View() == select.View() == After(v, cs[..i])
      invariant forall fd: int :: v[fd] != NOBODY ==> fd < poll.fdCount
      invariant forall j :: 0 <= j < i && cs[j].Start? ==> cs[j].event.fd < poll.fdCount
    {
      assert cs[..i + 1][..i] == cs[..i];
      match cs[i]
      case Start(e) =>
        var a := poll.Add(e, {0, 1, 2, 3});
        var b := epoll.Add(e, true, true);
        var c := select.Add(e, ALL);
      case Stop(e) =>
        assert Addressed(v, cs, i);
        var a := poll.Del(e);
        var b := epoll.Del(e, true);
        var c := select.Del(e);
    }
    assert cs[..|cs|] == cs;
  }

  lemma InIndexAtFirst(poll: PollOp)
    requires poll.Valid()
    ensures forall fd: int :: poll.View()[fd] != NOBODY ==> fd < poll.fdCount
  {
    hide PollOp.Valid, PollOp.View;
    forall fd: int | poll.View()[fd] != NOBODY
      ensures fd < poll.fdCount
    {
      poll.WatchedIsIndexed(fd);
    }
  }

  // For the same readiness poll and epoll activate the same events with the same results, wherever poll starts and
  // in whatever order epoll_wait reports, as long as it reports every descriptor that is ready and watched.
  method DispatchBoth(poll: PollOp, epoll: EpollOp, ready: map<int, Ready>, start: nat, reported: seq<int>)
    returns (byPoll: seq<Call>, byEpoll: seq<Call>)
    requires poll.Valid() && epoll.Valid() && poll.View() == epoll.View() && Sound(poll.View())
    requires poll.nfds > 0 ==> start < poll.nfds
    requires forall i, j :: 0 <= i < j < |reported| ==> reported[i] != reported[j]
    requires forall fd :: fd in ready && ready[fd] != IDLE && poll.View()[fd] != NOBODY ==> fd in reported
    ensures forall e: Watcher :: Marks(byPoll, e) == Marks(byEpoll, e)
  {
    hide PollOp.Valid, EpollOp.Valid, PollOp.View, EpollOp.View, Sound, Marks;
    byPoll := poll.Dispatch(ready, start);
    byEpoll := epoll.Dispatch(ready, reported);
    forall e: Watcher
      ensures Marks(byPoll, e) == Marks(byEpoll, e)
    {
      assert e.fd in reported || Due(poll.View()[e.fd], e, Of(ready, e.fd)) == {};
    }
  }
}
