// Every event keeps the invariant, so it holds after every run; what it says about lookups.
module ResolverRuns {
  import opened Bytes
  import opened Names
  import opened NameWriter
  import opened Resolver
  import opened ResolverServers
  import opened ResolverNet
  import opened ResolverBook
  import opened ResolverSafety

  ghost predicate Inv(c: Config, s: State) {
    Good(c, s, {}, multiset{})
  }

  // ---------- Replies and timeouts ----------

  lemma PassOnKeepsInv(c: Config, e: Env, s: State, i: nat, err: Error, calls: seq<Lookup>)
    requires c.Ok() && e.Honest() && i < |s.inflight| && Inv(c, s)
    ensures Inv(c, PassOn(c, e, s, i, err, calls))
  {
    hide InOrder, Total, TryNext, Finished, AnswerAndFinish;
    if s.inflight[i].what.search.Some? && s.inflight[i].what.qtype != PTR {
      TryNextKeepsOrder(c, e, s, i);
      var t := TryNext(c, e, s, i);
      if t.ok {
        FinishKeepsGood(c, e, t.s, i);
      } else {
        AnswerKeepsGood(c, e, t.s, {i}, i, Some(err), calls);
      }
    } else {
      AnswerKeepsGood(c, e, s, {}, i, Some(err), calls);
    }
  }

  lemma KeptKeepsInv(c: Config, s: State, s': State)
    requires Inv(c, s) && Kept(s, s') && NetOk(c, s', {})
    ensures Inv(c, s')
  {
    hide NetOk, Book, Kept, Total;
    KeptKeepsBook(c, s, s', {});
    KeptFields(s, s');
  }

  lemma KeptFields(s: State, s': State)
    requires Kept(s, s')
    ensures s'.asked == s.asked && |s'.inflight| == |s.inflight| && s'.servers.Keys == s.servers.Keys
  {
  }

  lemma BlameKeepsInv(c: Config, s: State, i: nat, err: Error)
    requires c.Ok() && i < |s.inflight| && Inv(c, s) && s.inflight[i].net.ns.Some?
    ensures Inv(c, BlameServer(c, s, i, err).s)
  {
    hide NetOk, Book, Reissue, ServerFailed, ServerUp, Kept;
    var a := s.inflight[i].net.ns.value;
    ServerUpKeepsNet(c, s, {}, a);
    KeptKeepsInv(c, s, ServerUp(s, a));
    if s.inflight[i].net.reissueCount < c.maxReissues {
      var s1 := ServerFailed(s, a);
      ServerFailedKeepsNet(c, s, {}, a);
      KeptKeepsInv(c, s, s1);
      SameReissues(s, a, i);
      KeptFields(s, s1);
      ReissueKeepsNet(c, s1, i);
      KeptKeepsInv(c, s1, Reissue(s1, i).s);
    }
  }

  lemma SameReissues(s: State, a: Address, i: nat)
    requires i < |s.inflight|
    ensures var n, n' := s.inflight[i].net, ServerFailed(s, a).inflight[i].net;
      n' == n.(ns := n'.ns)
  {
    hide Reassign;
  }

  lemma ReplyKeepsInv(c: Config, e: Env, s: State, i: nat, reply: Reply, calls: seq<Lookup>)
    requires c.Ok() && e.Honest() && i < |s.inflight| && s.inflight[i].net.ns.Some? && Inv(c, s)
    ensures Inv(c, ReplyHandle(c, e, s, i, reply, calls))
  {
    hide Inv, AnswerAndFinish, BlameServer, PassOn;
    if reply.Answer? {
      InvIsGood(c, s);
      AnswerKeepsGood(c, e, s, {}, i, None, calls);
      GoodIsInv(c, AnswerAndFinish(c, e, s, i, None, calls));
    } else {
      var err := ErrorOf(reply.truncated, reply.rcode);
      BlameKeepsInv(c, s, i, err);
      var b := BlameServer(c, s, i, err);
      if !b.ok {
        PassOnKeepsInv(c, e, b.s, i, err, calls);
      }
    }
  }

  lemma InvIsGood(c: Config, s: State)
    requires Inv(c, s)
    ensures Good(c, s, {}, multiset{})
  {
  }

  lemma GoodIsInv(c: Config, s: State)
    requires Good(c, s, {}, multiset{})
    ensures Inv(c, s)
  {
  }

  lemma RecordKeepsInv(c: Config, s: State, a: Address, ns: Nameserver)
    requires Inv(c, s) && a in s.servers && ns.up == s.servers[a].up && (ns.choked ==> ns.writeWaiting)
    ensures Inv(c, SetServer(s, a, ns))
  {
    hide ServersOk, Active, Book;
    ServerRecordKeepsNet(c, s, {}, a, ns, s.good);
    KeptKeepsInv(c, s, SetServer(s, a, ns));
  }

  lemma FailureKeepsInv(c: Config, s: State, a: Address)
    requires Inv(c, s)
    ensures Inv(c, ServerFailed(s, a))
  {
    hide NetOk, Book, ServerFailed, Kept;
    ServerFailedKeepsNet(c, s, {}, a);
    KeptKeepsInv(c, s, ServerFailed(s, a));
  }

  lemma ChokedAreWatched(c: Config, s: State, a: Address)
    requires Inv(c, s) && a in s.servers
    ensures s.servers[a].choked ==> s.servers[a].writeWaiting
    ensures s.ring != []
  {
  }

  lemma CountKeepsInv(c: Config, s: State, a: Address)
    requires Inv(c, s) && a in s.servers
    ensures Inv(c, CountTimeout(c, s, a))
  {
    hide Inv, ServerFailed;
    ChokedAreWatched(c, s, a);
    var n := s.servers[a].timedout + 1;
    if n > c.maxTimeouts {
      RecordKeepsInv(c, s, a, s.servers[a].(timedout := 0));
      FailureKeepsInv(c, SetServer(s, a, s.servers[a].(timedout := 0)), a);
    } else {
      RecordKeepsInv(c, s, a, s.servers[a].(timedout := n));
    }
  }

  // The timer of a request stops: it is out of order until it is sent again or leaves.
  lemma TimerStops(c: Config, s: State, i: nat)
    requires i < |s.inflight| && Inv(c, s)
    ensures var n := s.inflight[i].net;
      var s2 := SetNet(s, i, n.(timer := false));
      && Good(c, s2, {i}, multiset{}) && Placed(s.servers, n) && WithinLimits(c, n)
  {
    hide ServersOk, Tracks, TriedOk, WithinLimits;
    var n := s.inflight[i].net;
    var s2 := SetNet(s, i, n.(timer := false));
    assert Active(c, s.servers, n);
    assert NetOk(c, s2, {i});
    KeptKeepsBook(c, s, s2, {});
    assert Hist(c, s2, {i});
  }

  lemma TimedOutKeepsInv(c: Config, e: Env, s: State, i: nat, calls: seq<Lookup>)
    requires c.Ok() && e.Honest() && Inv(c, s) && Enabled(s, RequestTimer(i, calls))
    ensures Inv(c, TimedOut(c, e, s, i, calls))
  {
    hide NetOk, Book, AnswerAndFinish, Transmit, CountTimeout, Total;
    var a := s.inflight[i].net.ns.value;
    var s1 := CountTimeout(c, s, a);
    CountKeepsInv(c, s, a);
    var n := s1.inflight[i].net;
    var s2 := SetNet(s1, i, n.(timer := false));
    TimerStops(c, s1, i);
    if n.txCount >= c.maxRetransmits {
      AnswerKeepsGood(c, e, s2, {i}, i, Some(Timeout), calls);
    } else {
      BackInOrder(c, s1, s2, i);
      assert {} + {i} == {i};
      TransmitKeepsNet(c, e, s2, {}, i);
      KeptKeepsBook(c, s2, Transmit(e, s2, i), {});
      KeptFields(s2, Transmit(e, s2, i));
    }
  }

  lemma BackInOrder(c: Config, s1: State, s2: State, i: nat)
    requires i < |s1.inflight| && Inv(c, s1) && s2 == SetNet(s1, i, s1.inflight[i].net.(timer := false))
    ensures Book(c, s2, {}) && Balanced(s2, multiset{})
  {
    hide NetOk, CountsOk, Hist, Total;
    KeptKeepsBook(c, s1, s2, {});
  }

  // ---------- The other events ----------

  lemma {:induction false} FoundPlaced(c: Config, s: State, i: nat)
    requires Inv(c, s) && i < |s.inflight|
    ensures s.inflight[i].net.ns.Some? && s.inflight[i].net.ns.value in s.servers
  {
    assert Active(c, s.servers, s.inflight[i].net);
  }

  lemma PacketKeepsInv(c: Config, e: Env, s: State, a: Address, id: int, usable: bool, reply: Reply, calls: seq<Lookup>)
    requires c.Ok() && e.Honest() && Inv(c, s) && a in s.servers
    ensures Inv(c, OnPacket(c, e, s, a, id, usable, reply, calls))
  {
    hide Inv, ReplyHandle, FindId;
    var s1 := SetServer(s, a, s.servers[a].(timedout := 0));
    ChokedAreWatched(c, s, a);
    RecordKeepsInv(c, s, a, s.servers[a].(timedout := 0));
    match FindId(s1.inflight, id)
    case None =>
    case Some(i) =>
      FoundPlaced(c, s1, i);
      if usable {
        ReplyKeepsInv(c, e, s1, i, reply, calls);
      }
  }

  lemma WritableKeepsInv(c: Config, e: Env, s: State, a: Address)
    requires c.Ok() && Inv(c, s) && a in s.servers && s.servers[a].writeWaiting
    ensures Inv(c, OnWritable(e, s, a))
  {
    hide NetOk, Book, TransmitAll, Kept;
    var s1 := SetServer(s, a, s.servers[a].(choked := false));
    RecordKeepsInv(c, s, a, s.servers[a].(choked := false));
    TransmitAllKeepsNet(c, e, s1, 0);
    var s2 := TransmitAll(e, s1, 0);
    KeptKeepsInv(c, s1, s2);
    KeptFields(s1, s2);
    if !AnyToTransmit(s1.inflight) {
      NothingToTransmit(e, s1, 0);
      RecordKeepsInv(c, s2, a, s2.servers[a].(writeWaiting := false));
    }
  }

  lemma {:induction false} NothingToTransmit(e: Env, s: State, i: nat)
    requires i <= |s.inflight| && !AnyToTransmit(s.inflight)
    ensures TransmitAll(e, s, i) == s
    decreases |s.inflight| - i
  {
    if i < |s.inflight| {
      NothingToTransmit(e, s, i + 1);
    }
  }

  lemma ProbeKeepsInv(c: Config, e: Env, s: State, a: Address)
    requires c.Ok() && e.Honest() && Inv(c, s) && Enabled(s, ProbeTimer(a))
    ensures Inv(c, SendProbe(c, e, s, a))
  {
    hide NetOk, CountsOk, Hist, Submit, NewRequest, Total, Kept, IdsOf;
    var l := Lookup(PROBE_NAME, A, false);
    var w := Purpose(|s.asked|, Some(a), A, PROBE_NAME, None);
    ChokedAreWatched(c, s, a);
    RecordKeepsInv(c, s, a, s.servers[a].(probeTimer := false));
    var s0 := SetServer(s, a, s.servers[a].(probeTimer := false));
    NewRequestMakes(c, e, s0, {}, w);
    var m := NewRequest(c, e, s0, w);
    if m.req.None? {
      SameBut(c, s0, m.s, {});
      FailedRequest(c, s0, m.s, {});
    } else {
      FreshId(c, e, m.s, m.s.tick);
      var r := m.req.value.(id := e.freeId(m.s.tick, IdsOf(m.s.inflight)), net := FRESH.(ns := Some(a)));
      NewOwner(c, s0, {});
      assert [] + [PROBE_NAME] == [PROBE_NAME];
      ProbeAccepted(c, e, s0, m.s, l, r);
    }
  }

  lemma ProbeAccepted(c: Config, e: Env, s: State, ms: State, l: Lookup, r: Request)
    requires c.Ok() && Inv(c, s) && NetOk(c, ms, {}) && !l.search
    requires ms == s.(ring := ms.ring, tick := ms.tick, tried := s.tried[|s.asked| := [l.name]])
    requires r.what == Purpose(|s.asked|, r.what.probe, l.qtype, l.name, None) && r.what.probe.Some?
    requires r.net == FRESH.(ns := r.net.ns) && Placed(s.servers, r.net)
    requires 0 <= r.id < NO_ID && r.id !in IdsOf(s.inflight)
    ensures Inv(c, Submit(e, ms.(tick := ms.tick + 1, asked := s.asked + [l]), r))
  {
    hide NetOk, CountsOk, Hist, Submit, IdsOf, OwnersOf;
    var s2 := ms.(tick := ms.tick + 1, asked := s.asked + [l]);
    AskKeepsHist(c, s, {}, l, l.name);
    SameBut(c, s.(asked := s2.asked, tried := s2.tried), s2, {});
    CountsSame(c, s, s2);
    NetSame(c, ms, s2, {});
    SubmitKeepsOrder(c, e, s2, {}, r);
    SubmitFields(e, s2, r);
    UpToNext(|s.asked|);
  }

  lemma JoinKeepsInv(c: Config, s: State, a: Address)
    requires Inv(c, s)
    ensures Inv(c, Joined(s, a))
  {
    hide ServersOk, WithinLimits, CountsOk, Tracks, TriedOk, JoinedRing, OwnersOf;
    if a !in s.servers {
      ServersAfterJoin(s.ring, s.servers, s.good, a);
      var s' := Joined(s, a);
      CountsSame(c, s, s');
      forall i | 0 <= i < |s.inflight|
        ensures Active(c, s'.servers, s'.inflight[i].net)
      {
        assert Active(c, s.servers, s.inflight[i].net);
      }
    }
  }

  lemma {:induction false} ShelveKeeps(c: Config, s: State, rs: seq<Request>, waiting: seq<Request>)
    requires forall i :: 0 <= i < |waiting| ==> waiting[i].net == FRESH && Tracks(c, s.asked, s.tried, waiting[i].what)
    requires forall i :: 0 <= i < |rs| ==> Tracks(c, s.asked, s.tried, rs[i].what)
    ensures var all := Shelve(rs, waiting);
      && |all| == |rs| + |waiting|
      && (forall i :: 0 <= i < |all| ==> all[i].net == FRESH && Tracks(c, s.asked, s.tried, all[i].what))
      && multiset(OwnersOf(all)) == multiset(OwnersOf(rs)) + multiset(OwnersOf(waiting))
    decreases |rs|
  {
    hide Tracks;
    if rs == [] {
      assert OwnersOf(rs) == [];
    } else {
      var w := [rs[0].(id := 0, net := FRESH)] + waiting;
      ShelveKeeps(c, s, rs[1..], w);
      assert OwnersOf(w) == [rs[0].what.owner] + OwnersOf(waiting);
      assert OwnersOf(rs) == [rs[0].what.owner] + OwnersOf(rs[1..]);
    }
  }

  // Suspension moves every inflight request ahead of the waiting ones and loses none.
  lemma SuspendKeepsInv(c: Config, s: State)
    requires Inv(c, s)
    ensures Inv(c, Suspended(s))
  {
    hide Tracks, TriedOk, Shelve, Active, OwnersOf;
    if s.ring != [] {
      ShelveKeeps(c, s, s.inflight, s.waiting);
      assert OwnersOf([]) == [];
      assert Ups([], map[]) == [];
    }
  }

  lemma {:induction false} ShelvedGoFirst(rs: seq<Request>, waiting: seq<Request>)
    ensures |Shelve(rs, waiting)| == |rs| + |waiting| && Shelve(rs, waiting)[|rs|..] == waiting
    decreases |rs|
  {
    if rs != [] {
      var w := [rs[0].(id := 0, net := FRESH)] + waiting;
      ShelvedGoFirst(rs[1..], w);
      assert w[1..] == waiting;
      assert Shelve(rs, waiting)[|rs|..] == Shelve(rs[1..], w)[|rs| - 1..][1..];
    }
  }

  // ---------- Runs ----------

  lemma StepKeepsInv(c: Config, e: Env, s: State, ev: Event)
    requires c.Ok() && e.Honest() && Inv(c, s) && Enabled(s, ev)
    ensures Inv(c, Step(c, e, s, ev))
  {
    hide InOrder, Balanced, Resolve, OnPacket, ServerFailed, OnWritable, TimedOut, SendProbe, Joined, Suspended, Pump, Total;
    match ev
    case Ask(l) => ResolveKeepsGood(c, e, s, {}, multiset{}, l);
    case Packet(a, id, usable, reply, calls) => PacketKeepsInv(c, e, s, a, id, usable, reply, calls);
    case ReadError(a) => FailureKeepsInv(c, s, a);
    case Writable(a) => WritableKeepsInv(c, e, s, a);
    case RequestTimer(i, calls) => TimedOutKeepsInv(c, e, s, i, calls);
    case ProbeTimer(a) => ProbeKeepsInv(c, e, s, a);
    case AddServer(a) => JoinKeepsInv(c, s, a);
    case Suspend => SuspendKeepsInv(c, s);
    case Resume => ResumeKeepsInv(c, e, s);
  }

  lemma ResumeKeepsInv(c: Config, e: Env, s: State)
    requires c.Ok() && e.Honest() && Inv(c, s)
    ensures Inv(c, Pump(c, e, s))
  {
    hide InOrder, Total, Pump;
    PumpKeepsOrder(c, e, s);
  }

  lemma {:induction false} RunKeepsInv(c: Config, e: Env, evs: seq<Event>)
    requires c.Ok() && e.Honest() && Run(c, e, evs).Some?
    ensures Inv(c, Run(c, e, evs).value)
    decreases |evs|
  {
    hide Step, Inv, Enabled;
    if evs == [] {
      StartIsGood(c);
    } else {
      var n := |evs| - 1;
      RunKeepsInv(c, e, evs[..n]);
      StepKeepsInv(c, e, Run(c, e, evs[..n]).value, evs[n]);
    }
  }

  lemma StartIsGood(c: Config)
    ensures Inv(c, START)
  {
    assert OwnersOf([]) == [] && UpTo(0) == [];
  }
}
