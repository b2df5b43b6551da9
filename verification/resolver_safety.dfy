// The invariant of the resolver and what every event keeps of it.
module ResolverSafety {
  import opened Bytes
  import opened Names
  import opened NameWriter
  import opened Resolver
  import opened ResolverServers
  import opened ResolverNet
  import opened ResolverBook

  ghost predicate InOrder(c: Config, s: State, out: set<nat>) {
    NetOk(c, s, out) && Book(c, s, out)
  }

  ghost predicate Good(c: Config, s: State, out: set<nat>, extra: multiset<nat>) {
    InOrder(c, s, out) && Balanced(s, extra)
  }

  ghost predicate Places(out: set<nat>, n: nat) {
    forall i :: i in out ==> i < n
  }

  // ---------- Submitting ----------

  // A request as request_new makes it.
  ghost predicate Submittable(c: Config, s: State, r: Request) {
    && r.net == FRESH.(ns := r.net.ns)
    && Tracks(c, s.asked, s.tried, r.what)
    && (r.net.ns.Some? ==>
          && Placed(s.servers, r.net)
          && 0 <= r.id < NO_ID && r.id !in IdsOf(s.inflight)
          && (r.what.probe.Some? || s.nInflight < c.maxInflight))
  }

  lemma AppendKeepsBook(c: Config, s: State, out: set<nat>, r: Request)
    requires Book(c, s, out) && Submittable(c, s, r) && r.net.ns.Some? && Places(out, |s.inflight|)
    ensures Book(c, s.(inflight := s.inflight + [r], nInflight := s.nInflight + 1), out)
  {
    NonProbesConcat(s.inflight, [r]);
    NonProbesAtMost(s.inflight);
    assert [r][1..] == [];
    var s' := s.(inflight := s.inflight + [r], nInflight := s.nInflight + 1);
    assert IdsOk(s'.inflight) by {
      forall i | 0 <= i < |s.inflight|
        ensures s.inflight[i].id != r.id
      {
        assert s.inflight[i].id in IdsOf(s.inflight);
      }
    }
  }

  lemma SubmitKeepsOrder(c: Config, e: Env, s: State, out: set<nat>, r: Request)
    requires c.Ok() && InOrder(c, s, out) && Submittable(c, s, r) && Places(out, |s.inflight|)
    ensures InOrder(c, Submit(e, s, r), out)
    ensures Total(Submit(e, s, r)) == Total(s) + multiset{r.what.owner}
  {
    hide NetOk, CountsOk, Hist, Submittable, Transmit, TriedOk, OwnersOf;
    if r.net.ns.Some? {
      var n := |s.inflight|;
      var s1 := s.(inflight := s.inflight + [r], nInflight := s.nInflight + 1);
      AppendKeepsBook(c, s, out, r);
      OwnersAppend(s.inflight, r);
      AppendKeepsNet(c, s, out, r);
      TransmitKeepsNet(c, e, s1, out, n);
      KeptKeepsBook(c, s1, Transmit(e, s1, n), out);
    } else {
      WaitKeepsOrder(c, s, out, r);
      OwnersAppend(s.waiting, r);
    }
  }

  lemma AppendKeepsNet(c: Config, s: State, out: set<nat>, r: Request)
    requires c.Ok() && NetOk(c, s, out) && Submittable(c, s, r) && r.net.ns.Some?
    ensures NetOk(c, s.(inflight := s.inflight + [r], nInflight := s.nInflight + 1), out + {|s.inflight|})
    ensures Sendable(c, s.servers, r.net)
  {
  }

  lemma WaitKeepsOrder(c: Config, s: State, out: set<nat>, r: Request)
    requires InOrder(c, s, out) && Submittable(c, s, r) && r.net.ns.None?
    ensures InOrder(c, s.(waiting := s.waiting + [r], nWaiting := s.nWaiting + 1), out)
  {
    hide ServersOk, Tracks, Active;
  }

  lemma SubmitFields(e: Env, s: State, r: Request)
    ensures var s' := Submit(e, s, r);
      && s'.asked == s.asked && s'.answered == s.answered && s'.told == s.told && s'.tried == s.tried
      && s'.servers.Keys == s.servers.Keys
      && |s.inflight| <= |s'.inflight|
      && forall i :: 0 <= i < |s.inflight| ==> s'.inflight[i].what == s.inflight[i].what
  {
  }

  // ---------- New requests ----------

  lemma FreshId(c: Config, e: Env, s: State, n: nat)
    requires e.Honest() && |s.inflight| < NO_ID
    ensures 0 <= e.freeId(n, IdsOf(s.inflight)) < NO_ID && e.freeId(n, IdsOf(s.inflight)) !in IdsOf(s.inflight)
  {
    FewIds(s.inflight);
  }

  // What request_new makes, and that it changes no more than the ring, the questions asked and the names tried.
  lemma NewRequestMakes(c: Config, e: Env, s: State, out: set<nat>, what: Purpose)
    requires c.Ok() && e.Honest() && NetOk(c, s, out) && CountsOk(c, s)
    ensures var m := NewRequest(c, e, s, what);
      && m.s == s.(ring := m.s.ring, tick := m.s.tick, tried := m.s.tried)
      && NetOk(c, m.s, out) && CountsOk(c, m.s)
      && (m.req.None? ==> m.s.tried == s.tried)
      && (m.req.Some? ==>
            var r := m.req.value;
            && m.s.tried == s.tried[what.owner := (if what.owner in s.tried then s.tried[what.owner] else []) + [what.name]]
            && r.what == what && r.net == FRESH.(ns := r.net.ns)
            && (r.net.ns.Some? ==>
                  && Placed(s.servers, r.net) && s.nInflight < c.maxInflight
                  && 0 <= r.id < NO_ID && r.id !in IdsOf(s.inflight)))
  {
    hide ServersOk, Pick, ShortLabels, IdsOf;
    var issuing := s.nInflight < c.maxInflight;
    if issuing {
      FreshId(c, e, s, s.tick);
      if s.ring != [] {
        PickKeepsNet(c, s, out);
      } else {
        NoServersNoPick(s);
      }
    }
  }

  lemma NoServersNoPick(s: State)
    requires s.ring == []
    ensures Pick(s.ring, s.servers, s.good) == Picked([], None)
  {
  }

  // ---------- Lookups ----------

  // A request of an earlier lookup.
  lemma StillTracks(c: Config, asked: seq<Lookup>, tried: map<nat, seq<Name>>, l: Lookup, names: seq<Name>, w: Purpose)
    requires Tracks(c, asked, tried, w)
    ensures Tracks(c, asked + [l], tried[|asked| := names], w)
  {
    hide SearchOrder, Searches;
  }

  // The history once lookup l has been accepted and its first name tried.
  lemma AskKeepsHist(c: Config, s: State, out: set<nat>, l: Lookup, name: Name)
    requires Hist(c, s, out) && [name] <= SearchOrder(c, l)
    ensures Hist(c, s.(asked := s.asked + [l], tried := s.tried[|s.asked| := [name]]), out)
  {
    hide SearchOrder, Tracks;
    var s' := s.(asked := s.asked + [l], tried := s.tried[|s.asked| := [name]]);
    forall i | 0 <= i < |s.inflight| && i !in out
      ensures Tracks(c, s'.asked, s'.tried, s.inflight[i].what)
    {
      StillTracks(c, s.asked, s.tried, l, [name], s.inflight[i].what);
    }
    forall i | 0 <= i < |s.waiting|
      ensures Tracks(c, s'.asked, s'.tried, s.waiting[i].what)
    {
      StillTracks(c, s.asked, s.tried, l, [name], s.waiting[i].what);
    }
  }

  lemma FirstQueryTracks(c: Config, l: Lookup, asked: seq<Lookup>, tried: map<nat, seq<Name>>)
    requires asked != [] && asked[|asked| - 1] == l
    requires var w := FirstQuery(c, l, |asked| - 1); (|asked| - 1) in tried && tried[|asked| - 1] == [w.name]
    ensures var w := FirstQuery(c, l, |asked| - 1); [w.name] <= SearchOrder(c, l) && Tracks(c, asked, tried, w)
  {
    var w := FirstQuery(c, l, |asked| - 1);
    var o := SearchOrder(c, l);
    assert w.name == o[0];
    assert Searches(c, l) || o == [l.name];
  }

  lemma ResolveKeepsGood(c: Config, e: Env, s: State, out: set<nat>, extra: multiset<nat>, l: Lookup)
    requires c.Ok() && e.Honest() && Good(c, s, out, extra) && Places(out, |s.inflight|)
    ensures var s' := Resolve(c, e, s, l).s;
      && Good(c, s', out, extra)
      && |s.asked| <= |s'.asked|
      && |s.inflight| <= |s'.inflight|
      && forall i :: 0 <= i < |s.inflight| ==> s'.inflight[i].what == s.inflight[i].what
  {
    hide NetOk, CountsOk, Hist, Submit, NewRequest, FirstQuery, Total;
    var w := FirstQuery(c, l, |s.asked|);
    var s0 := s.(tick := s.tick + 1);
    SameBut(c, s, s0, out);
    if !(w.search.Some? && w.search.value.done == 1 && !e.memory(s.tick)) {
      NewRequestMakes(c, e, s0, out, w);
      var m := NewRequest(c, e, s0, w);
      if m.req.None? {
        SameBut(c, s, m.s, out);
      } else {
        FirstQueryOwner(c, l, |s.asked|);
        NewOwner(c, s, out);
        assert [] + [w.name] == [w.name];
        AcceptKeepsGood(c, e, s, m, out, extra, l);
        SubmitFields(e, m.s.(asked := s.asked + [l]), m.req.value);
      }
    }
  }

  // A new lookup whose first request was made.
  ghost predicate MadeFor(c: Config, s: State, m: Made, l: Lookup) {
    && m.s == s.(ring := m.s.ring, tick := m.s.tick, tried := m.s.tried)
    && m.req.Some?
    && var r := m.req.value;
       && r.what == FirstQuery(c, l, |s.asked|)
       && m.s.tried == s.tried[|s.asked| := [r.what.name]]
       && r.net == FRESH.(ns := r.net.ns)
       && (r.net.ns.Some? ==>
             && Placed(s.servers, r.net) && s.nInflight < c.maxInflight
             && 0 <= r.id < NO_ID && r.id !in IdsOf(s.inflight))
  }

  lemma AcceptKeepsGood(c: Config, e: Env, s: State, m: Made, out: set<nat>, extra: multiset<nat>, l: Lookup)
    requires c.Ok() && Good(c, s, out, extra) && Places(out, |s.inflight|)
    requires NetOk(c, m.s, out) && MadeFor(c, s, m, l)
    ensures Good(c, Submit(e, m.s.(asked := s.asked + [l]), m.req.value), out, extra)
  {
    hide NetOk, CountsOk, Hist, Tracks, Submit, SearchOrder, IdsOf, FirstQuery, OwnersOf;
    var w := FirstQuery(c, l, |s.asked|);
    var s2 := m.s.(asked := s.asked + [l]);
    FirstQueryOwner(c, l, |s.asked|);
    FirstQueryTracks(c, l, s2.asked, s2.tried);
    AskKeepsHist(c, s, out, l, w.name);
    SameBut(c, s.(asked := s2.asked, tried := s2.tried), s2, out);
    CountsSame(c, s, s2);
    NetSame(c, m.s, s2, out);
    SubmitKeepsOrder(c, e, s2, out, m.req.value);
    SubmitFields(e, s2, m.req.value);
    UpToNext(|s.asked|);
  }

  lemma FirstQueryOwner(c: Config, l: Lookup, owner: nat)
    ensures FirstQuery(c, l, owner).owner == owner && FirstQuery(c, l, owner).probe.None?
  {
  }

  lemma NewOwner(c: Config, s: State, out: set<nat>)
    requires Hist(c, s, out)
    ensures |s.asked| !in s.tried
  {
  }

  // States that differ only in what the invariant does not mention.
  lemma SameBut(c: Config, s: State, s': State, out: set<nat>)
    requires s' == s.(ring := s'.ring, tick := s'.tick)
    ensures Hist(c, s, out) ==> Hist(c, s', out)
    ensures CountsOk(c, s) ==> CountsOk(c, s')
    ensures s'.ring == s.ring && NetOk(c, s, out) ==> NetOk(c, s', out)
    ensures Total(s') == Total(s)
  {
  }

  lemma CountsSame(c: Config, s: State, s': State)
    requires s'.inflight == s.inflight && s'.waiting == s.waiting && s'.nInflight == s.nInflight && s'.nWaiting == s.nWaiting
    ensures CountsOk(c, s) ==> CountsOk(c, s')
    ensures s'.answered == s.answered ==> Total(s') == Total(s)
  {
  }

  lemma NetSame(c: Config, s: State, s': State, out: set<nat>)
    requires s'.inflight == s.inflight && s'.ring == s.ring && s'.servers == s.servers && s'.good == s.good
    ensures NetOk(c, s, out) ==> NetOk(c, s', out)
  {
  }

  lemma {:induction false} ResolveAllKeepsGood(c: Config, e: Env, s: State, out: set<nat>, extra: multiset<nat>, ls: seq<Lookup>)
    requires c.Ok() && e.Honest() && Good(c, s, out, extra) && Places(out, |s.inflight|)
    ensures var s' := ResolveAll(c, e, s, ls);
      && Good(c, s', out, extra)
      && |s.inflight| <= |s'.inflight|
      && forall i :: 0 <= i < |s.inflight| ==> s'.inflight[i].what == s.inflight[i].what
    decreases |ls|
  {
    hide Good, Resolve;
    if ls != [] {
      ResolveKeepsGood(c, e, s, out, extra, ls[0]);
      ResolveAllKeepsGood(c, e, Resolve(c, e, s, ls[0]).s, out, extra, ls[1..]);
    }
  }

  // ---------- Finishing ----------

  lemma PromoteKeepsBook(c: Config, e: Env, s: State)
    requires c.Ok() && e.Honest() && NetOk(c, s, {}) && Book(c, s, {})
    requires s.nInflight < c.maxInflight && s.waiting != [] && s.ring != []
    ensures var s1 := Promote(e, s);
      && NetOk(c, s1, {|s.inflight|}) && Book(c, s1, {}) && Total(s1) == Total(s)
      && Sendable(c, s1.servers, s1.inflight[|s.inflight|].net)
  {
    hide ServersOk, Pick, Tracks, TriedOk, IdsOf, IdsOk, NonProbes, OwnersOf, WithinLimits;
    var n := |s.inflight|;
    PickKeepsNet(c, s, {});
    FreshId(c, e, s, s.tick);
    var s1 := Promote(e, s);
    var r := s1.inflight[n];
    PromotedIds(s, r);
    NonProbesConcat(s.inflight, [r]);
    NonProbesAtMost(s.inflight);
    NonProbesOfOne(r);
    OwnersAppend(s.inflight, r);
    OwnersRemove(s.waiting, 0);
    FreshIsWithin(c);
    assert Remove(s.waiting, 0) == s.waiting[1..];
    assert s.waiting[0].net == FRESH;
  }

  lemma NonProbesOfOne(r: Request)
    ensures NonProbes([r]) == if r.what.probe.None? then 1 else 0
  {
    assert [r][1..] == [];
  }

  lemma FreshIsWithin(c: Config)
    ensures WithinLimits(c, FRESH)
    ensures forall ns :: WithinLimits(c, FRESH.(ns := ns))
  {
  }

  lemma PromotedIds(s: State, r: Request)
    requires IdsOk(s.inflight) && 0 <= r.id < NO_ID && r.id !in IdsOf(s.inflight)
    ensures IdsOk(s.inflight + [r])
  {
    forall i | 0 <= i < |s.inflight|
      ensures s.inflight[i].id != r.id
    {
      assert s.inflight[i].id in IdsOf(s.inflight);
    }
  }

  lemma {:induction false} PumpKeepsOrder(c: Config, e: Env, s: State)
    requires c.Ok() && e.Honest() && InOrder(c, s, {})
    ensures InOrder(c, Pump(c, e, s), {})
    ensures Total(Pump(c, e, s)) == Total(s) && Pump(c, e, s).asked == s.asked
    decreases |s.waiting|
  {
    hide NetOk, CountsOk, Hist, Transmit, TransmitAll, Promote, Total;
    if s.nInflight < c.maxInflight && s.nWaiting != 0 && s.waiting != [] && s.ring != [] {
      var n := |s.inflight|;
      PromoteFields(e, s);
      PromoteKeepsBook(c, e, s);
      var s1 := Promote(e, s);
      assert {} + {n} == {n};
      TransmitKeepsNet(c, e, s1, {}, n);
      var s2 := Transmit(e, s1, n);
      KeptKeepsBook(c, s1, s2, {});
      TransmitAllKeepsNet(c, e, s2, 0);
      KeptKeepsBook(c, s2, TransmitAll(e, s2, 0), {});
      PumpKeepsOrder(c, e, TransmitAll(e, s2, 0));
    }
  }

  lemma PromoteFields(e: Env, s: State)
    requires s.waiting != []
    ensures var s1 := Promote(e, s);
      && |s1.inflight| == |s.inflight| + 1 && s1.waiting == s.waiting[1..] && s1.asked == s.asked
  {
  }

  function Without(s: State, i: nat): State
    requires i < |s.inflight|
  {
    s.(inflight := Remove(s.inflight, i), nInflight := s.nInflight - 1)
  }

  lemma RemovedAt(rs: seq<Request>, i: nat, k: nat)
    requires i < |rs| && k < |rs| - 1
    ensures Remove(rs, i)[k] == rs[if k < i then k else k + 1]
  {
  }

  lemma RemoveKeepsNet(c: Config, s: State, i: nat)
    requires i < |s.inflight| && NetOk(c, s, {i})
    ensures NetOk(c, Without(s, i), {})
  {
    hide ServersOk, Active, Remove;
    assert |Remove(s.inflight, i)| == |s.inflight| - 1 by {
      RemovedLength(s.inflight, i);
    }
    forall k | 0 <= k < |s.inflight| - 1
      ensures Active(c, s.servers, Remove(s.inflight, i)[k].net)
    {
      RemovedAt(s.inflight, i, k);
    }
  }

  lemma RemovedLength(rs: seq<Request>, i: nat)
    requires i < |rs|
    ensures |Remove(rs, i)| == |rs| - 1
  {
  }

  lemma RemoveKeepsCounts(c: Config, s: State, i: nat)
    requires i < |s.inflight| && CountsOk(c, s)
    ensures CountsOk(c, Without(s, i))
  {
    var rs := s.inflight;
    NonProbesConcat(rs[..i], rs[i..]);
    NonProbesConcat(rs[..i], rs[i + 1..]);
    assert rs[..i] + rs[i..] == rs;
    assert rs[i..][1..] == rs[i + 1..];
    RemoveKeepsIds(rs, i);
  }

  lemma RemoveKeepsIds(rs: seq<Request>, i: nat)
    requires i < |rs| && IdsOk(rs)
    ensures IdsOk(Remove(rs, i))
  {
  }

  lemma RemoveKeepsHist(c: Config, s: State, i: nat)
    requires i < |s.inflight| && Hist(c, s, {i})
    ensures Hist(c, Without(s, i), {})
  {
    hide Tracks, TriedOk, Remove;
    RemovedLength(s.inflight, i);
    forall k | 0 <= k < |s.inflight| - 1
      ensures Tracks(c, s.asked, s.tried, Remove(s.inflight, i)[k].what)
    {
      RemovedAt(s.inflight, i, k);
    }
  }

  lemma RemoveKeepsOrder(c: Config, s: State, i: nat)
    requires i < |s.inflight| && InOrder(c, s, {i})
    ensures InOrder(c, Without(s, i), {})
    ensures Total(Without(s, i)) + multiset{s.inflight[i].what.owner} == Total(s)
  {
    hide NetOk, CountsOk, Hist, OwnersOf;
    RemoveKeepsNet(c, s, i);
    RemoveKeepsCounts(c, s, i);
    RemoveKeepsHist(c, s, i);
    OwnersRemove(s.inflight, i);
  }

  lemma FinishKeepsGood(c: Config, e: Env, s: State, i: nat)
    requires c.Ok() && e.Honest() && i < |s.inflight|
    requires InOrder(c, s, {i}) && Balanced(s, multiset{s.inflight[i].what.owner})
    ensures Good(c, Finished(c, e, s, i), {}, multiset{})
  {
    hide InOrder, Pump, Total;
    RemoveKeepsOrder(c, s, i);
    PumpKeepsOrder(c, e, Without(s, i));
    Cancel(Total(Without(s, i)), multiset(UpTo(|s.asked|)), multiset{s.inflight[i].what.owner});
  }

  lemma Cancel(a: multiset<nat>, b: multiset<nat>, x: multiset<nat>)
    requires a + x == b + x
    ensures a == b + multiset{}
  {
    assert a == a + x - x;
    assert b == b + x - x;
  }

  // ---------- Callbacks ----------

  lemma FewerOut(c: Config, s: State, out: set<nat>, more: set<nat>)
    requires out <= more && InOrder(c, s, out)
    ensures InOrder(c, s, more)
  {
    hide ServersOk, Active, Tracks, TriedOk, CountsOk;
  }

  lemma AnsweredKeepsOrder(c: Config, s: State, out: set<nat>, o: nat, err: Option<Error>)
    requires InOrder(c, s, out)
    ensures var s1 := Heard(s, o, err);
      InOrder(c, s1, out) && Total(s1) == Total(s) + multiset{o}
  {
    hide ServersOk, Active, Tracks, TriedOk, OwnersOf;
  }

  lemma ServerUpKeepsOrder(c: Config, s: State, out: set<nat>, a: Address)
    requires InOrder(c, s, out)
    ensures InOrder(c, ServerUp(s, a), out) && Total(ServerUp(s, a)) == Total(s)
  {
    hide NetOk, Book, ServerUp, Total;
    ServerUpKeepsNet(c, s, out, a);
    KeptKeepsBook(c, s, ServerUp(s, a), out);
  }

  lemma ProbeFailedKeepsOrder(c: Config, s: State, out: set<nat>, a: Address)
    requires InOrder(c, s, out)
    ensures InOrder(c, ProbeFailed(s, a), out) && Total(ProbeFailed(s, a)) == Total(s)
  {
    hide NetOk, Book, ProbeFailed, Total;
    ProbeFailedKeepsNet(c, s, out, a);
    KeptKeepsBook(c, s, ProbeFailed(s, a), out);
  }

  lemma CallbackKeepsGood(c: Config, e: Env, s: State, out: set<nat>, i: nat, err: Option<Error>, calls: seq<Lookup>)
    requires c.Ok() && e.Honest() && i < |s.inflight| && out <= {i} && Good(c, s, out, multiset{})
    ensures var s' := Callback(c, e, s, i, err, calls);
      && Good(c, s', out, multiset{s.inflight[i].what.owner})
      && |s.inflight| <= |s'.inflight| && s'.inflight[i].what == s.inflight[i].what
  {
    hide InOrder, Total, ResolveAll, ServerUp, ProbeFailed;
    var w := s.inflight[i].what;
    var s1 := Heard(s, w.owner, err);
    AnsweredKeepsOrder(c, s, out, w.owner, err);
    match w.probe
    case Some(a) =>
      ServerUpKeepsOrder(c, s1, out, a);
      ProbeFailedKeepsOrder(c, s1, out, a);
    case None =>
      ResolveAllKeepsGood(c, e, s1, out, multiset{w.owner}, calls);
  }

  lemma AnswerKeepsGood(c: Config, e: Env, s: State, out: set<nat>, i: nat, err: Option<Error>, calls: seq<Lookup>)
    requires c.Ok() && e.Honest() && i < |s.inflight| && out <= {i} && Good(c, s, out, multiset{})
    ensures Good(c, AnswerAndFinish(c, e, s, i, err, calls), {}, multiset{})
  {
    hide InOrder, Total, Callback, Finished, ServerUp;
    var s1 := Callback(c, e, s, i, err, calls);
    CallbackKeepsGood(c, e, s, out, i, err, calls);
    FewerOut(c, s1, out, {i});
    if err == None && s1.inflight[i].net.ns.Some? {
      ServerUpKeepsOrder(c, s1, {i}, s1.inflight[i].net.ns.value);
      FinishKeepsGood(c, e, ServerUp(s1, s1.inflight[i].net.ns.value), i);
    } else {
      FinishKeepsGood(c, e, s1, i);
    }
  }

  // ---------- Searching ----------

  // The name tried after those of a request, and how far the search has then come.
  ghost predicate Continues(c: Config, l: Lookup, names: seq<Name>, w: Purpose) {
    && names + [w.name] <= SearchOrder(c, l)
    && w.qtype == l.qtype && (w.probe.Some? ==> !l.search)
    && match w.search
       case None => names + [w.name] == SearchOrder(c, l)
       case Some(sr) =>
         && Searches(c, l) && sr.origname == l.name && sr.done <= |c.domains|
         && |names| + 1 == sr.done + (if Dots(l.name) >= c.ndots then 1 else 0)
  }

  // What search_try_next asks for next goes on with the order, and it stops only at its end.
  lemma NextContinues(c: Config, asked: seq<Lookup>, tried: map<nat, seq<Name>>, w: Purpose)
    requires TriedOk(c, asked, tried) && Tracks(c, asked, tried, w) && w.search.Some?
    ensures var k, l, names := w.search.value.done, asked[w.owner], tried[w.owner];
      && (k < |c.domains| ==>
            Continues(c, l, names, w.(name := WithDomain(l.name, c.domains[k]), search := Some(Search(k + 1, l.name)))))
      && (k >= |c.domains| && Dots(l.name) < c.ndots ==> Continues(c, l, names, w.(name := l.name, search := None)))
      && (k >= |c.domains| && Dots(l.name) >= c.ndots ==> names == SearchOrder(c, l))
  {
    var k, l, names := w.search.value.done, asked[w.owner], tried[w.owner];
    var order, ds := SearchOrder(c, l), WithDomains(l.name, c.domains);
    if k < |c.domains| {
      assert order[|names|] == ds[k];
      assert names + [ds[k]] == order[..|names| + 1];
    } else if Dots(l.name) < c.ndots {
      assert names == order[..|names|] == ds;
    }
  }

  // Marking how far a request has searched concerns that request alone.
  lemma SearchStepKeepsOrder(c: Config, s: State, i: nat, search: Option<Search>)
    requires i < |s.inflight| && InOrder(c, s, {})
    ensures var s1 := s.(inflight := s.inflight[i := s.inflight[i].(what := s.inflight[i].what.(search := search))]);
      && InOrder(c, s1, {i}) && Total(s1) == Total(s)
  {
    hide ServersOk, Active, Tracks, TriedOk;
    var s1 := s.(inflight := s.inflight[i := s.inflight[i].(what := s.inflight[i].what.(search := search))]);
    NonProbesSame(s.inflight, s1.inflight);
    OwnersSame(s.inflight, s1.inflight);
  }

  lemma TickKeepsOrder(c: Config, s: State, out: set<nat>, n: nat)
    requires InOrder(c, s, out)
    ensures InOrder(c, s.(tick := n), out) && Total(s.(tick := n)) == Total(s)
  {
    SameBut(c, s, s.(tick := n), out);
  }

  // One more name tried for the lookup of request i leaves all other requests right.
  lemma TryKeepsHist(c: Config, s: State, tried: map<nat, seq<Name>>, i: nat, w: Purpose)
    requires i < |s.inflight| && Hist(c, s, {i}) && w.owner == s.inflight[i].what.owner && w.owner < |s.asked|
    requires forall j :: 0 <= j < |s.inflight| && j != i ==> s.inflight[j].what.owner != w.owner
    requires forall j :: 0 <= j < |s.waiting| ==> s.waiting[j].what.owner != w.owner
    requires w.owner in s.tried && tried == s.tried[w.owner := s.tried[w.owner] + [w.name]]
    requires Continues(c, s.asked[w.owner], s.tried[w.owner], w)
    ensures Hist(c, s.(tried := tried), {i})
    ensures Tracks(c, s.asked, tried, w)
  {
    hide SearchOrder;
    forall v: Purpose | v.owner != w.owner && Tracks(c, s.asked, s.tried, v)
      ensures Tracks(c, s.asked, tried, v)
    {
    }
  }

  lemma IssueKeepsOrder(c: Config, e: Env, s: State, i: nat, w: Purpose)
    requires c.Ok() && e.Honest() && i < |s.inflight| && InOrder(c, s, {i})
    requires w.owner == s.inflight[i].what.owner && w.owner < |s.asked|
    requires forall j :: 0 <= j < |s.inflight| && j != i ==> s.inflight[j].what.owner != w.owner
    requires forall j :: 0 <= j < |s.waiting| ==> s.waiting[j].what.owner != w.owner
    requires w.owner in s.tried && Continues(c, s.asked[w.owner], s.tried[w.owner], w)
    ensures var n := Issue(c, e, s, w);
      && InOrder(c, n.s, {i}) && n.s.asked == s.asked
      && |s.inflight| <= |n.s.inflight| && n.s.inflight[i].what == s.inflight[i].what
      && Total(n.s) == if n.ok then Total(s) + multiset{w.owner} else Total(s)
  {
    hide NetOk, CountsOk, Hist, Tracks, Continues, Submit, NewRequest, IdsOf, Total;
    var m := NewRequest(c, e, s, w);
    NewRequestMakes(c, e, s, {i}, w);
    if m.req.None? {
      SameBut(c, s, m.s, {i});
      FailedRequest(c, s, m.s, {i});
    } else {
      TryKeepsHist(c, s, m.s.tried, i, w);
      SameBut(c, s.(tried := m.s.tried), m.s, {i});
      CountsSame(c, s, m.s);
      SubmitKeepsOrder(c, e, m.s, {i}, m.req.value);
      SubmitFields(e, m.s, m.req.value);
    }
  }

  lemma FailedRequest(c: Config, s: State, s': State, out: set<nat>)
    requires s' == s.(ring := s'.ring, tick := s'.tick) && Hist(c, s, out)
    ensures Hist(c, s', out)
  {
  }

  lemma TryNextKeepsOrder(c: Config, e: Env, s: State, i: nat)
    requires c.Ok() && e.Honest() && i < |s.inflight| && s.inflight[i].what.search.Some? && Good(c, s, {}, multiset{})
    ensures var n, o := TryNext(c, e, s, i), s.inflight[i].what.owner;
      && InOrder(c, n.s, {i}) && n.s.asked == s.asked
      && |s.inflight| <= |n.s.inflight| && n.s.inflight[i].what.owner == o
      && Total(n.s) == if n.ok then Total(s) + multiset{o} else Total(s)
  {
    hide NetOk, CountsOk, Total, Issue, Continues, SearchOrder;
    var w := s.inflight[i].what;
    var k, name := w.search.value.done, w.search.value.origname;
    OwnedOnce(s, i);
    assert Tracks(c, s.asked, s.tried, w);
    NextContinues(c, s.asked, s.tried, w);
    SearchStepKeepsOrder(c, s, i, Some(Search(k + 1, name)));
    var s1 := s.(inflight := s.inflight[i := s.inflight[i].(what := w.(search := Some(Search(k + 1, name))))]);
    TickKeepsOrder(c, s1, {i}, s.tick + 1);
    if k >= |c.domains| {
      if Dots(name) < c.ndots {
        IssueKeepsOrder(c, e, s1, i, w.(name := name, search := None));
      }
    } else if e.memory(s.tick) {
      IssueKeepsOrder(c, e, s1.(tick := s.tick + 1), i, w.(name := WithDomain(name, c.domains[k]), search := Some(Search(k + 1, name))));
    }
  }
}
