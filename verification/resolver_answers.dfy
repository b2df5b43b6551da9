// What a lookup has behind it when it is answered with an error.
module ResolverAnswers {
  import opened Bytes
  import opened Names
  import opened NameWriter
  import opened Resolver
  import opened ResolverServers
  import opened ResolverNet
  import opened ResolverBook
  import opened ResolverSafety
  import opened ResolverRuns
  import opened ResolverResults

  // The history goes on: nobody is answered, and the earlier lookups try no further name.
  ghost predicate GoesOn(s: State, s': State) {
    && s'.answered == s.answered && s'.told == s.told && s.asked <= s'.asked
    && forall o :: 0 <= o < |s.asked| && o in s.tried ==> o in s'.tried && s'.tried[o] == s.tried[o]
  }

  lemma GoesOnFurther(s: State, s': State, s'': State)
    requires GoesOn(s, s') && GoesOn(s', s'')
    ensures GoesOn(s, s'')
  {
  }

  lemma KeptGoesOn(s: State, s': State)
    requires Kept(s, s')
    ensures GoesOn(s, s')
  {
  }

  lemma ResolveGoesOn(c: Config, e: Env, s: State, l: Lookup)
    ensures GoesOn(s, Resolve(c, e, s, l).s)
  {
    hide Submit, NewRequest, FirstQuery;
    var first := FirstQuery(c, l, |s.asked|);
    assert first.owner == |s.asked| by {
      OwnerOfFirst(c, l, |s.asked|);
    }
    TriesForOwner(c, e, s.(tick := s.tick + 1), first);
    var m := NewRequest(c, e, s.(tick := s.tick + 1), first);
    if m.req.Some? {
      SubmitFields(e, m.s.(asked := s.asked + [l]), m.req.value);
    }
  }

  lemma OwnerOfFirst(c: Config, l: Lookup, owner: nat)
    ensures FirstQuery(c, l, owner).owner == owner
  {
  }

  lemma TriesForOwner(c: Config, e: Env, s: State, what: Purpose)
    ensures var m := NewRequest(c, e, s, what);
      && m.s.asked == s.asked && m.s.answered == s.answered && m.s.told == s.told
      && (forall o :: o != what.owner && o in s.tried ==> o in m.s.tried && m.s.tried[o] == s.tried[o])
      && (m.req.None? ==> m.s.tried == s.tried)
  {
    hide Pick, ShortLabels, IdsOf;
  }

  lemma {:induction false} ResolveAllGoesOn(c: Config, e: Env, s: State, ls: seq<Lookup>)
    ensures GoesOn(s, ResolveAll(c, e, s, ls))
    decreases |ls|
  {
    hide Resolve, GoesOn;
    if ls == [] {
      KeptGoesOn(s, s);
    } else {
      ResolveGoesOn(c, e, s, ls[0]);
      ResolveAllGoesOn(c, e, Resolve(c, e, s, ls[0]).s, ls[1..]);
      GoesOnFurther(s, Resolve(c, e, s, ls[0]).s, ResolveAll(c, e, s, ls));
    }
  }

  lemma PromoteGoesOn(e: Env, s: State)
    requires s.waiting != []
    ensures GoesOn(s, Promote(e, s)) && |Promote(e, s).inflight| == |s.inflight| + 1
    ensures |Promote(e, s).waiting| < |s.waiting|
  {
    hide Pick, IdsOf;
  }

  lemma {:induction false} PumpGoesOn(c: Config, e: Env, s: State)
    ensures GoesOn(s, Pump(c, e, s))
    decreases |s.waiting|
  {
    hide Promote, Transmit, TransmitAll, GoesOn;
    if s.nInflight < c.maxInflight && s.nWaiting != 0 && s.waiting != [] && s.ring != [] {
      PromoteGoesOn(e, s);
      var s1 := Promote(e, s);
      var s2 := Transmit(e, s1, |s.inflight|);
      var s3 := TransmitAll(e, s2, 0);
      KeptGoesOn(s1, s2);
      KeptGoesOn(s2, s3);
      GoesOnFurther(s, s1, s2);
      GoesOnFurther(s, s2, s3);
      PumpGoesOn(c, e, s3);
      GoesOnFurther(s, s3, Pump(c, e, s3));
    } else {
      KeptGoesOn(s, s);
    }
  }

  lemma FinishedGoesOn(c: Config, e: Env, s: State, i: nat)
    requires i < |s.inflight|
    ensures GoesOn(s, Finished(c, e, s, i))
  {
    hide Pump;
    PumpGoesOn(c, e, s.(inflight := Remove(s.inflight, i), nInflight := s.nInflight - 1));
  }

  // Answering a request answers its lookup and no other.
  lemma AnswerAnswersOne(c: Config, e: Env, s: State, i: nat, err: Option<Error>, calls: seq<Lookup>)
    requires i < |s.inflight|
    ensures GoesOn(Heard(s, s.inflight[i].what.owner, err), AnswerAndFinish(c, e, s, i, err, calls))
  {
    hide ResolveAll, ServerUp, ProbeFailed, Finished, GoesOn;
    var s0 := Heard(s, s.inflight[i].what.owner, err);
    var s1 := Callback(c, e, s, i, err, calls);
    match s.inflight[i].what.probe {
      case Some(a) =>
        KeptGoesOn(s0, ServerUp(s0, a));
        KeptGoesOn(s0, ProbeFailed(s0, a));
      case None =>
        ResolveAllGoesOn(c, e, s0, calls);
    }
    assert GoesOn(s0, s1);
    var s2 := if err == None && s1.inflight[i].net.ns.Some? then ServerUp(s1, s1.inflight[i].net.ns.value) else s1;
    if s2 != s1 {
      KeptGoesOn(s1, s2);
      GoesOnFurther(s0, s1, s2);
    }
    FinishedGoesOn(c, e, s2, i);
    GoesOnFurther(s0, s2, Finished(c, e, s2, i));
  }

  // Looking for a next name answers nobody, and adds no name when there is none or it cannot be asked for.
  lemma TryNextAnswersNobody(c: Config, e: Env, s: State, i: nat)
    requires i < |s.inflight| && s.inflight[i].what.search.Some?
    ensures var n := TryNext(c, e, s, i);
      && n.s.answered == s.answered && n.s.told == s.told && n.s.asked == s.asked && i < |n.s.inflight|
      && (!n.ok ==> n.s.tried == s.tried && n.s.inflight[i].what.owner == s.inflight[i].what.owner)
  {
    hide Issue, Dots;
    var w := s.inflight[i].what;
    var k, name := w.search.value.done, w.search.value.origname;
    var s1 := s.(inflight := s.inflight[i := s.inflight[i].(what := w.(search := Some(Search(k + 1, name))))]);
    IssueAnswersNobody(c, e, s1, w.(name := name, search := None));
    if k < |c.domains| {
      IssueAnswersNobody(c, e, s1.(tick := s.tick + 1), w.(name := WithDomain(name, c.domains[k]), search := Some(Search(k + 1, name))));
    }
  }

  lemma IssueAnswersNobody(c: Config, e: Env, s: State, what: Purpose)
    ensures var n := Issue(c, e, s, what);
      && n.s.answered == s.answered && n.s.told == s.told && n.s.asked == s.asked
      && (!n.ok ==> n.s.tried == s.tried && n.s.inflight == s.inflight)
  {
    hide Submit, NewRequest;
    TriesForOwner(c, e, s, what);
    var m := NewRequest(c, e, s, what);
    if m.req.Some? {
      SubmitFields(e, m.s, m.req.value);
    }
  }

  // The lookup was not answered before the event and is answered after it.
  ghost predicate JustAnswered(s: State, s': State, o: nat) {
    o < |s.asked| && o !in s.answered && o in s'.answered
  }

  lemma PassOnAtEnd(c: Config, e: Env, s: State, i: nat, err: Error, calls: seq<Lookup>, o: nat)
    requires Inv(c, s) && i < |s.inflight| && JustAnswered(s, PassOn(c, e, s, i, err, calls), o)
    requires AllCanBeMade(c, e, s.asked[o])
    ensures var s' := PassOn(c, e, s, i, err, calls); o in s'.tried && s'.tried[o] == SearchOrder(c, s.asked[o])
  {
    hide NetOk, CountsOk, Balanced, TryNext, Finished, AnswerAndFinish, SearchOrder, AllCanBeMade, Searches, Dots;
    var w := s.inflight[i].what;
    assert Tracks(c, s.asked, s.tried, w);
    if w.search.Some? && w.qtype != PTR {
      var t := TryNext(c, e, s, i);
      TryNextAnswersNobody(c, e, s, i);
      if t.ok {
        FinishedGoesOn(c, e, t.s, i);
        assert false;
      } else {
        AnswerAnswersOne(c, e, t.s, i, Some(err), calls);
        assert o == w.owner;
        SearchEndsHere(c, e, s, i);
      }
    } else {
      AnswerAnswersOne(c, e, s, i, Some(err), calls);
      assert o == w.owner;
      NoSearchForNames(c, s.asked, s.tried, w);
    }
  }

  lemma NoSearchForNames(c: Config, asked: seq<Lookup>, tried: map<nat, seq<Name>>, w: Purpose)
    requires Tracks(c, asked, tried, w) && (w.search.None? || w.qtype == PTR)
    ensures tried[w.owner] == SearchOrder(c, asked[w.owner])
  {
  }

  // After any run: if a packet with an error makes a lookup be answered, and all its queries can be made, then it has
  // tried every name of its search order.
  lemma SearchEndsAtEnd(c: Config, e: Env, evs: seq<Event>, ev: Event, o: nat)
    requires c.Ok() && e.Honest() && Run(c, e, evs).Some? && Enabled(Run(c, e, evs).value, ev)
    requires ev.Packet? && ev.reply.Failure?
    requires var s := Run(c, e, evs).value; JustAnswered(s, Step(c, e, s, ev), o) && AllCanBeMade(c, e, s.asked[o])
    ensures var s := Run(c, e, evs).value;
      var s' := Step(c, e, s, ev); o in s'.tried && s'.tried[o] == SearchOrder(c, s.asked[o])
  {
    hide Run, Inv, PassOn, BlameServer, FindId, AllCanBeMade, SearchOrder;
    RunKeepsInv(c, e, evs);
    var s := Run(c, e, evs).value;
    var n := s.servers[ev.server];
    var s1 := SetServer(s, ev.server, n.(timedout := 0));
    ChokedAreWatched(c, s, ev.server);
    RecordKeepsInv(c, s, ev.server, n.(timedout := 0));
    var i := FindId(s1.inflight, ev.id).value;
    var err := ErrorOf(ev.reply.truncated, ev.reply.rcode);
    BlameKeepsInv(c, s1, i, err);
    PassOnAtEnd(c, e, BlameServer(c, s1, i, err).s, i, err, ev.calls, o);
  }
}
