// What the invariant says to the users of the resolver, and that it is never idle while work waits.
module ResolverResults {
  import opened Bytes
  import opened Names
  import opened NameWriter
  import opened Resolver
  import opened ResolverServers
  import opened ResolverNet
  import opened ResolverBook
  import opened ResolverSafety
  import opened ResolverRuns

  // ---------- Exactly one answer ----------

  ghost predicate OwnedBy(s: State, o: nat) {
    (exists i :: 0 <= i < |s.inflight| && s.inflight[i].what.owner == o)
    || (exists i :: 0 <= i < |s.waiting| && s.waiting[i].what.owner == o)
  }

  lemma OwnedIffCounted(s: State, o: nat)
    ensures OwnedBy(s, o) <==> multiset(OwnersOf(s.inflight))[o] + multiset(OwnersOf(s.waiting))[o] > 0
  {
    var os, ws := OwnersOf(s.inflight), OwnersOf(s.waiting);
    if i :| 0 <= i < |s.inflight| && s.inflight[i].what.owner == o {
      assert os[i] == o;
    }
    if i :| 0 <= i < |s.waiting| && s.waiting[i].what.owner == o {
      assert ws[i] == o;
    }
    if o in os {
      var i :| 0 <= i < |os| && os[i] == o;
      assert s.inflight[i].what.owner == o;
    }
    if o in ws {
      var i :| 0 <= i < |ws| && ws[i] == o;
      assert s.waiting[i].what.owner == o;
    }
  }

  // After any run each accepted lookup has either been answered exactly once and owns no request, or has
  // not been answered and owns exactly one; no other lookup is answered or owns a request.
  lemma ExactlyOneAnswer(c: Config, e: Env, evs: seq<Event>, o: nat)
    requires c.Ok() && e.Honest() && Run(c, e, evs).Some?
    ensures var s := Run(c, e, evs).value;
      && multiset(OwnersOf(s.inflight))[o] + multiset(OwnersOf(s.waiting))[o] + multiset(s.answered)[o]
           == (if o < |s.asked| then 1 else 0)
      && (o < |s.asked| ==> (OwnedBy(s, o) <==> o !in s.answered))
  {
    hide Run, NetOk, Book, OwnersOf, OwnedBy;
    RunKeepsInv(c, e, evs);
    var s := Run(c, e, evs).value;
    UpToCounts(|s.asked|, o);
    assert Total(s)[o] == (multiset(UpTo(|s.asked|)) + multiset{})[o];
    OwnedIffCounted(s, o);
  }

  // ---------- Bounded transmissions ----------

  // Between suspensions no request is sent more than maxRetransmits times, or once if that is zero, for each
  // server it is tried with, and it is tried with at most maxReissues further ones.
  lemma BoundedTransmissions(c: Config, e: Env, evs: seq<Event>, i: nat)
    requires c.Ok() && e.Honest() && Run(c, e, evs).Some? && i < |Run(c, e, evs).value.inflight|
    ensures var n := Run(c, e, evs).value.inflight[i].net;
      && n.txCount <= c.Attempts()
      && (n.transmitMe ==> n.txCount < c.Attempts())
      && n.sends <= c.Attempts() * (c.maxReissues + 1)
  {
    hide Run, Book, Balanced, ServersOk;
    RunKeepsInv(c, e, evs);
    var s := Run(c, e, evs).value;
    var n := s.inflight[i].net;
    assert Active(c, s.servers, n);
    Rounds(c.Attempts(), n.reissueCount, c.maxReissues);
  }

  lemma Rounds(m: nat, r: nat, k: nat)
    requires r <= k
    ensures m * r + m <= m * (k + 1)
  {
    assert m * (k + 1) == m * k + m;
    assert m * r <= m * k;
  }

  // ---------- The order of a search ----------

  // The names a lookup queries are the first ones of its search order, so there are at most as many
  // requests as domains and one more.
  lemma SearchInOrder(c: Config, e: Env, evs: seq<Event>, o: nat)
    requires c.Ok() && e.Honest() && Run(c, e, evs).Some? && o < |Run(c, e, evs).value.asked|
    ensures var s := Run(c, e, evs).value;
      o in s.tried && s.tried[o] != [] && s.tried[o] <= SearchOrder(c, s.asked[o]) && |s.tried[o]| <= |c.domains| + 1
  {
    hide Run, NetOk, CountsOk, Balanced;
    RunKeepsInv(c, e, evs);
  }

  ghost predicate AllCanBeMade(c: Config, e: Env, l: Lookup) {
    && (forall n :: e.memory(n))
    && forall k :: 0 <= k < |SearchOrder(c, l)| ==> |SearchOrder(c, l)[k]| <= MAX_NAME_LEN && ShortLabels(SearchOrder(c, l)[k])
  }

  // A request stops its lookup's search only when every name of the order has been tried: it belongs to no
  // search any more, or there is no next name.
  lemma SearchEndsHere(c: Config, e: Env, s: State, i: nat)
    requires Inv(c, s) && i < |s.inflight|
    requires AllCanBeMade(c, e, s.asked[s.inflight[i].what.owner])
    requires s.inflight[i].what.search.Some? ==> !TryNext(c, e, s, i).ok
    ensures var o := s.inflight[i].what.owner; s.tried[o] == SearchOrder(c, s.asked[o])
  {
    hide NetOk, CountsOk, Balanced, Submit, SearchOrder;
    var w := s.inflight[i].what;
    assert Tracks(c, s.asked, s.tried, w);
    if w.search.Some? {
      NextContinues(c, s.asked, s.tried, w);
      var l, names := s.asked[w.owner], s.tried[w.owner];
      var k, order := w.search.value.done, SearchOrder(c, l);
      if k < |c.domains| {
        NextIsInOrder(order, names, WithDomain(l.name, c.domains[k]));
        assert false;
      } else if Dots(l.name) < c.ndots {
        NextIsInOrder(order, names, l.name);
        assert false;
      }
    }
  }

  lemma NextIsInOrder(order: seq<Name>, names: seq<Name>, next: Name)
    requires names + [next] <= order
    ensures order[|names|] == next
  {
    assert (names + [next])[|names|] == next;
  }

  // ---------- Never idle while requests wait ----------

  predicate Busy(c: Config, s: State) {
    s.waiting == [] || s.nInflight >= c.maxInflight
  }

  lemma KeptStaysBusy(c: Config, s: State, s': State)
    requires Kept(s, s') && Busy(c, s)
    ensures Busy(c, s')
  {
  }

  lemma SubmitStaysBusy(c: Config, e: Env, s: State, r: Request)
    requires Busy(c, s) && (r.net.ns.None? ==> s.nInflight >= c.maxInflight)
    ensures Busy(c, Submit(e, s, r))
  {
    hide Transmit;
    if r.net.ns.Some? {
      KeptStaysBusy(c, s.(inflight := s.inflight + [r], nInflight := s.nInflight + 1), Submit(e, s, r));
    }
  }

  lemma RingOfServers(c: Config, s: State, out: set<nat>)
    requires NetOk(c, s, out) && s.servers != map[]
    ensures s.ring != []
  {
    var a :| a in s.servers;
  }

  // With a nameserver there is one for each request made while there is room.
  lemma RoomMeansServer(c: Config, e: Env, s: State, out: set<nat>, what: Purpose)
    requires NetOk(c, s, out) && s.servers != map[]
    ensures var m := NewRequest(c, e, s, what);
      m.req.Some? && m.req.value.net.ns.None? ==> s.nInflight >= c.maxInflight
  {
    hide ServersOk, Pick, ShortLabels, IdsOf;
    RingOfServers(c, s, out);
    PickKeepsNet(c, s, out);
  }

  lemma NewRequestFields(c: Config, e: Env, s: State, what: Purpose)
    ensures var m := NewRequest(c, e, s, what); m.s == s.(ring := m.s.ring, tick := m.s.tick, tried := m.s.tried)
  {
    hide Pick, ShortLabels, IdsOf;
  }

  lemma ResolveStaysBusy(c: Config, e: Env, s: State, out: set<nat>, l: Lookup)
    requires NetOk(c, s, out) && s.servers != map[] && Busy(c, s)
    ensures var s' := Resolve(c, e, s, l).s; Busy(c, s') && s'.servers.Keys == s.servers.Keys
  {
    hide ServersOk, Submit, NewRequest, FirstQuery, Active;
    var first := FirstQuery(c, l, |s.asked|);
    var s0 := s.(tick := s.tick + 1);
    NewRequestFields(c, e, s0, first);
    var m := NewRequest(c, e, s0, first);
    RoomMeansServer(c, e, s0, out, first);
    if m.req.Some? {
      SubmitStaysBusy(c, e, m.s.(asked := s.asked + [l]), m.req.value);
      SubmitFields(e, m.s.(asked := s.asked + [l]), m.req.value);
    }
  }

  lemma {:induction false} ResolveAllKeepsServers(c: Config, e: Env, s: State, ls: seq<Lookup>)
    ensures ResolveAll(c, e, s, ls).servers.Keys == s.servers.Keys
    decreases |ls|
  {
    hide Submit, NewRequest, FirstQuery;
    if ls != [] {
      var first := FirstQuery(c, ls[0], |s.asked|);
      var m := NewRequest(c, e, s.(tick := s.tick + 1), first);
      NewRequestFields(c, e, s.(tick := s.tick + 1), first);
      if m.req.Some? {
        SubmitFields(e, m.s.(asked := s.asked + [ls[0]]), m.req.value);
      }
      ResolveAllKeepsServers(c, e, Resolve(c, e, s, ls[0]).s, ls[1..]);
    }
  }

  lemma CallbackKeepsServers(c: Config, e: Env, s: State, i: nat, err: Option<Error>, calls: seq<Lookup>)
    requires i < |s.inflight|
    ensures Callback(c, e, s, i, err, calls).servers.Keys == s.servers.Keys
  {
    hide ResolveAll, ServerUp, ProbeFailed;
    ResolveAllKeepsServers(c, e, Heard(s, s.inflight[i].what.owner, err), calls);
  }

  // The end of a request always leaves the resolver busy.
  lemma {:induction false} PumpGetsBusy(c: Config, e: Env, s: State)
    requires c.Ok() && e.Honest() && InOrder(c, s, {}) && s.servers != map[]
    ensures Busy(c, Pump(c, e, s))
    decreases |s.waiting|
  {
    hide NetOk, Hist, CountsOk, Transmit, TransmitAll, Promote;
    RingOfServers(c, s, {});
    CountIsLength(c, s);
    if s.nInflight < c.maxInflight && s.nWaiting != 0 && s.waiting != [] && s.ring != [] {
      var n := |s.inflight|;
      PromoteKeepsBook(c, e, s);
      PromoteFields(e, s);
      var s1 := Promote(e, s);
      assert {} + {n} == {n};
      TransmitKeepsNet(c, e, s1, {}, n);
      var s2 := Transmit(e, s1, n);
      KeptKeepsBook(c, s1, s2, {});
      TransmitAllKeepsNet(c, e, s2, 0);
      KeptKeepsBook(c, s2, TransmitAll(e, s2, 0), {});
      PromoteKeepsServers(e, s);
      PumpGetsBusy(c, e, TransmitAll(e, s2, 0));
    }
  }

  lemma PromoteKeepsServers(e: Env, s: State)
    requires s.waiting != []
    ensures Promote(e, s).servers == s.servers
  {
  }

  lemma CountIsLength(c: Config, s: State)
    requires CountsOk(c, s)
    ensures s.nWaiting == |s.waiting|
  {
  }

  lemma FinishGetsBusy(c: Config, e: Env, s: State, i: nat)
    requires c.Ok() && e.Honest() && i < |s.inflight| && InOrder(c, s, {i}) && s.servers != map[]
    ensures Busy(c, Finished(c, e, s, i))
  {
    hide InOrder, Pump;
    RemoveKeepsOrder(c, s, i);
    PumpGetsBusy(c, e, Without(s, i));
  }

  lemma AnswerGetsBusy(c: Config, e: Env, s: State, out: set<nat>, i: nat, err: Option<Error>, calls: seq<Lookup>)
    requires c.Ok() && e.Honest() && i < |s.inflight| && out <= {i} && Good(c, s, out, multiset{}) && s.servers != map[]
    ensures Busy(c, AnswerAndFinish(c, e, s, i, err, calls))
  {
    hide InOrder, Total, Callback, Finished, ServerUp;
    var s1 := Callback(c, e, s, i, err, calls);
    CallbackKeepsGood(c, e, s, out, i, err, calls);
    CallbackKeepsServers(c, e, s, i, err, calls);
    FewerOut(c, s1, out, {i});
    if err == None && s1.inflight[i].net.ns.Some? {
      ServerUpKeepsOrder(c, s1, {i}, s1.inflight[i].net.ns.value);
      KeptFields(s1, ServerUp(s1, s1.inflight[i].net.ns.value));
      FinishGetsBusy(c, e, ServerUp(s1, s1.inflight[i].net.ns.value), i);
    } else {
      FinishGetsBusy(c, e, s1, i);
    }
  }

  lemma TryNextKeepsServers(c: Config, e: Env, s: State, i: nat)
    requires i < |s.inflight| && s.inflight[i].what.search.Some?
    ensures TryNext(c, e, s, i).s.servers.Keys == s.servers.Keys
  {
    hide Issue;
    forall s1, w
      ensures Issue(c, e, s1, w).s.servers.Keys == s1.servers.Keys
    {
      IssueKeepsServers(c, e, s1, w);
    }
  }

  lemma IssueKeepsServers(c: Config, e: Env, s: State, w: Purpose)
    ensures Issue(c, e, s, w).s.servers.Keys == s.servers.Keys
  {
    hide Submit, NewRequest;
    var m := NewRequest(c, e, s, w);
    NewRequestFields(c, e, s, w);
    if m.req.Some? {
      SubmitFields(e, m.s, m.req.value);
    }
  }

  lemma PassOnGetsBusy(c: Config, e: Env, s: State, i: nat, err: Error, calls: seq<Lookup>)
    requires c.Ok() && e.Honest() && i < |s.inflight| && Inv(c, s) && s.servers != map[]
    ensures Busy(c, PassOn(c, e, s, i, err, calls))
  {
    hide InOrder, Total, TryNext, Finished, AnswerAndFinish;
    if s.inflight[i].what.search.Some? && s.inflight[i].what.qtype != PTR {
      TryNextKeepsOrder(c, e, s, i);
      TryNextKeepsServers(c, e, s, i);
      var t := TryNext(c, e, s, i);
      if t.ok {
        FinishGetsBusy(c, e, t.s, i);
      } else {
        AnswerGetsBusy(c, e, t.s, {i}, i, Some(err), calls);
      }
    } else {
      AnswerGetsBusy(c, e, s, {}, i, Some(err), calls);
    }
  }

  lemma ReplyStaysBusy(c: Config, e: Env, s: State, i: nat, reply: Reply, calls: seq<Lookup>)
    requires c.Ok() && e.Honest() && i < |s.inflight| && s.inflight[i].net.ns.Some? && Inv(c, s) && s.servers != map[]
    requires Busy(c, s)
    ensures Busy(c, ReplyHandle(c, e, s, i, reply, calls))
  {
    hide Inv, AnswerAndFinish, BlameServer, PassOn;
    if reply.Answer? {
      InvIsGood(c, s);
      AnswerGetsBusy(c, e, s, {}, i, None, calls);
    } else {
      var err := ErrorOf(reply.truncated, reply.rcode);
      BlameKeepsInv(c, s, i, err);
      var b := BlameServer(c, s, i, err);
      KeptFields(s, b.s);
      if b.ok {
        KeptStaysBusy(c, s, b.s);
      } else {
        PassOnGetsBusy(c, e, b.s, i, err, calls);
      }
    }
  }

  lemma TimedOutStaysBusy(c: Config, e: Env, s: State, i: nat, calls: seq<Lookup>)
    requires c.Ok() && e.Honest() && Inv(c, s) && Enabled(s, RequestTimer(i, calls)) && Busy(c, s)
    ensures Busy(c, TimedOut(c, e, s, i, calls))
  {
    hide NetOk, Book, AnswerAndFinish, Transmit, CountTimeout, Total, Kept;
    var a := s.inflight[i].net.ns.value;
    var s1 := CountTimeout(c, s, a);
    CountKeepsInv(c, s, a);
    OnlyServersKept(s, s1);
    KeptFields(s, s1);
    KeptStaysBusy(c, s, s1);
    var n := s1.inflight[i].net;
    var s2 := SetNet(s1, i, n.(timer := false));
    TimerStops(c, s1, i);
    if n.txCount >= c.maxRetransmits {
      AnswerGetsBusy(c, e, s2, {i}, i, Some(Timeout), calls);
    } else {
      KeptStaysBusy(c, s2, Transmit(e, s2, i));
    }
  }

  lemma OnlyServersKept(s: State, s': State)
    requires OnlyServersChange(s, s')
    ensures Kept(s, s')
  {
  }

  lemma ProbeStaysBusy(c: Config, e: Env, s: State, a: Address)
    requires a in s.servers && Busy(c, s)
    ensures Busy(c, SendProbe(c, e, s, a))
  {
    hide NewRequest, Submit, IdsOf;
    var s0 := SetServer(s, a, s.servers[a].(probeTimer := false));
    var w := Purpose(|s.asked|, Some(a), A, PROBE_NAME, None);
    NewRequestFields(c, e, s0, w);
    var m := NewRequest(c, e, s0, w);
    if m.req.Some? {
      SubmitStaysBusy(c, e, m.s.(tick := m.s.tick + 1, asked := s.asked + [Lookup(PROBE_NAME, A, false)]),
                      m.req.value.(id := e.freeId(m.s.tick, IdsOf(m.s.inflight)), net := FRESH.(ns := Some(a))));
    }
  }

  lemma PacketStaysBusy(c: Config, e: Env, s: State, a: Address, id: int, usable: bool, reply: Reply, calls: seq<Lookup>)
    requires c.Ok() && e.Honest() && Inv(c, s) && a in s.servers && Busy(c, s)
    ensures Busy(c, OnPacket(c, e, s, a, id, usable, reply, calls))
  {
    hide Inv, ReplyHandle, FindId;
    var s1 := SetServer(s, a, s.servers[a].(timedout := 0));
    ChokedAreWatched(c, s, a);
    RecordKeepsInv(c, s, a, s.servers[a].(timedout := 0));
    match FindId(s1.inflight, id)
    case None =>
    case Some(i) =>
      FoundPlaced(c, s1, i);
      if usable {
        ReplyStaysBusy(c, e, s1, i, reply, calls);
      }
  }

  lemma WritableStaysBusy(c: Config, e: Env, s: State, a: Address)
    requires a in s.servers && Busy(c, s)
    ensures Busy(c, OnWritable(e, s, a))
  {
    hide TransmitAll;
    var s1 := SetServer(s, a, s.servers[a].(choked := false));
    KeptStaysBusy(c, s1, TransmitAll(e, s1, 0));
  }

  lemma FailureStaysBusy(c: Config, s: State, a: Address)
    requires Busy(c, s)
    ensures Busy(c, ServerFailed(s, a))
  {
    hide ServerFailed;
    OnlyServersKept(s, ServerFailed(s, a));
    KeptStaysBusy(c, s, ServerFailed(s, a));
  }

  // While there are nameservers, every event leaves requests waiting only if the inflight ring is full, and
  // resuming brings that about whatever went before.
  lemma NeverIdle(c: Config, e: Env, s: State, ev: Event)
    requires c.Ok() && e.Honest() && Inv(c, s) && Enabled(s, ev) && ev != Suspend && s.servers != map[]
    requires Busy(c, s) || ev == Resume
    ensures Busy(c, Step(c, e, s, ev))
  {
    hide Inv, Busy, Resolve, OnPacket, ServerFailed, OnWritable, TimedOut, SendProbe, Pump;
    match ev
    case Ask(l) => AskStaysBusy(c, e, s, l);
    case Packet(a, id, usable, reply, calls) => PacketStaysBusy(c, e, s, a, id, usable, reply, calls);
    case ReadError(a) => FailureStaysBusy(c, s, a);
    case Writable(a) => WritableStaysBusy(c, e, s, a);
    case RequestTimer(i, calls) => TimedOutStaysBusy(c, e, s, i, calls);
    case ProbeTimer(a) => ProbeStaysBusy(c, e, s, a);
    case AddServer(a) => JoinStaysBusy(c, s, a);
    case Resume => ResumeGetsBusy(c, e, s);
  }

  lemma AskStaysBusy(c: Config, e: Env, s: State, l: Lookup)
    requires Inv(c, s) && s.servers != map[] && Busy(c, s)
    ensures Busy(c, Resolve(c, e, s, l).s)
  {
    hide NetOk, Book, Total;
    ResolveStaysBusy(c, e, s, {}, l);
  }

  lemma JoinStaysBusy(c: Config, s: State, a: Address)
    requires Busy(c, s)
    ensures Busy(c, Joined(s, a))
  {
  }

  lemma ResumeGetsBusy(c: Config, e: Env, s: State)
    requires c.Ok() && e.Honest() && Inv(c, s) && s.servers != map[]
    ensures Busy(c, Pump(c, e, s))
  {
    hide InOrder, Total;
    PumpGetsBusy(c, e, s);
  }
}
