// Nameservers that are down are probed until they are back.
module ResolverProbes {
  import opened Bytes
  import opened Names
  import opened NameWriter
  import opened Resolver
  import opened ResolverServers
  import opened ResolverNet
  import opened ResolverBook
  import opened ResolverSafety
  import opened ResolverRuns
  import opened ResolverResults
  import opened ResolverSends
  import opened ResolverAttempts

  // A request, in flight or waiting, that probes server a.
  ghost predicate HasProbe(s: State, a: Address) {
    exists k :: 0 <= k < |All(s)| && All(s)[k].what.probe == Some(a)
  }

  predicate Silent(servers: map<Address, Nameserver>, a: Address) {
    a in servers && !servers[a].up && !servers[a].probeTimer
  }

  // Every server that is down waits for its timer or for the answer to a probe.
  ghost predicate AllProbed(s: State) {
    forall a :: Silent(s.servers, a) ==> HasProbe(s, a)
  }

  // No server falls silent.
  ghost predicate NoneSilenced(servers: map<Address, Nameserver>, servers': map<Address, Nameserver>) {
    forall a :: Silent(servers', a) ==> Silent(servers, a)
  }

  // No server falls silent and no probe is lost, but for one of server `but`.
  ghost predicate Watchful(s: State, s': State, but: Option<Address>) {
    && NoneSilenced(s.servers, s'.servers)
    && forall a: Address :: HasProbe(s, a) && but != Some(a) ==> HasProbe(s', a)
  }

  lemma WatchfulFurther(s: State, s': State, s'': State, but: Option<Address>)
    requires Watchful(s, s', None) && Watchful(s', s'', but)
    ensures Watchful(s, s'', but)
  {
    hide HasProbe, Silent;
  }

  lemma WatchfulAfter(s: State, s': State, s'': State, but: Option<Address>)
    requires Watchful(s, s', but) && Watchful(s', s'', None)
    ensures Watchful(s, s'', but)
  {
    hide HasProbe, Silent;
  }

  // The same requests are there, and the servers did not fall silent.
  lemma SameProbes(s: State, s': State)
    requires NoneSilenced(s.servers, s'.servers) && |All(s')| == |All(s)|
    requires forall k :: 0 <= k < |All(s)| ==> All(s')[k].what.probe == All(s)[k].what.probe
    ensures Watchful(s, s', None)
  {
    forall a: Address | HasProbe(s, a)
      ensures HasProbe(s', a)
    {
      var k :| 0 <= k < |All(s)| && All(s)[k].what.probe == Some(a);
      assert All(s')[k].what.probe == Some(a);
    }
  }

  lemma KeptProbes(s: State, s': State)
    requires Kept(s, s') && NoneSilenced(s.servers, s'.servers)
    ensures Watchful(s, s', None)
  {
    hide NoneSilenced;
    forall k | 0 <= k < |All(s)|
      ensures All(s')[k].what.probe == All(s)[k].what.probe
    {
      if k < |s.inflight| {
        assert s'.inflight[k].what == s.inflight[k].what;
      }
    }
    SameProbes(s, s');
  }

  lemma FailedProbes(s: State, a: Address)
    ensures Watchful(s, ServerFailed(s, a), None)
  {
    hide Reassign;
    if IsUp(s.servers, a) {
      ReassignKeepsServers(SetServer(s, a, s.servers[a].(up := false, failedTimes := 1, probeTimer := true)).(good := s.good - 1), a, 0);
    }
    KeptProbes(s, ServerFailed(s, a));
  }

  lemma UpProbes(s: State, a: Address)
    ensures Watchful(s, ServerUp(s, a), None) && Watchful(s, ProbeFailed(s, a), None)
  {
    KeptProbes(s, ServerUp(s, a));
    KeptProbes(s, ProbeFailed(s, a));
  }

  lemma TransmitProbes(e: Env, s: State, i: nat)
    requires i < |s.inflight|
    ensures Watchful(s, Transmit(e, s, i), None)
  {
    hide ServerFailed, HasProbe, Watchful;
    var n := s.inflight[i].net.(transmitMe := true);
    var s1 := SetNet(s, i, n);
    KeptProbes(s, s1);
    if n.ns.Some? && n.ns.value in s.servers && !s.servers[n.ns.value].choked {
      var a := n.ns.value;
      var s2 := s1.(tick := s.tick + 1, posts := s.posts + [Post(s.inflight[i].made, s.tick)]);
      KeptProbes(s, s2);
      match e.send(s.tick)
      case Blocked => KeptProbes(s, Transmit(e, s, i));
      case Sent => KeptProbes(s, Transmit(e, s, i));
      case Broken =>
        FailedProbes(s2, a);
        KeptProbes(ServerFailed(s2, a), Transmitted(ServerFailed(s2, a), i));
        WatchfulFurther(s, s2, ServerFailed(s2, a), None);
        WatchfulFurther(s, ServerFailed(s2, a), Transmit(e, s, i), None);
    }
  }

  lemma {:induction false} TransmitAllProbes(e: Env, s: State, i: nat)
    requires i <= |s.inflight|
    ensures Watchful(s, TransmitAll(e, s, i), None)
    decreases |s.inflight| - i
  {
    hide Transmit, Watchful;
    if i == |s.inflight| {
      SameProbes(s, s);
    } else if s.inflight[i].net.transmitMe {
      TransmitProbes(e, s, i);
      TransmitAllProbes(e, Transmit(e, s, i), i + 1);
      WatchfulFurther(s, Transmit(e, s, i), TransmitAll(e, s, i), None);
    } else {
      TransmitAllProbes(e, s, i + 1);
    }
  }

  // A request more, wherever it goes.
  lemma MoreProbes(s: State, s': State, r: Request)
    requires s'.servers == s.servers
    requires (s'.inflight == s.inflight + [r] && s'.waiting == s.waiting) || (s'.inflight == s.inflight && s'.waiting == s.waiting + [r])
    ensures Watchful(s, s', None) && (r.what.probe.Some? ==> HasProbe(s', r.what.probe.value))
  {
    var n := if s'.waiting == s.waiting then |s.inflight| else |All(s)|;
    assert All(s')[n] == r;
    forall a: Address | HasProbe(s, a)
      ensures HasProbe(s', a)
    {
      var k :| 0 <= k < |All(s)| && All(s)[k].what.probe == Some(a);
      assert All(s')[if k < n then k else k + 1] == All(s)[k];
    }
  }

  lemma SubmitProbes(e: Env, s: State, r: Request)
    ensures Watchful(s, Submit(e, s, r), None) && (r.what.probe.Some? ==> HasProbe(Submit(e, s, r), r.what.probe.value))
  {
    hide Transmit, HasProbe;
    if r.net.ns.Some? {
      var s1 := s.(inflight := s.inflight + [r], nInflight := s.nInflight + 1);
      MoreProbes(s, s1, r);
      TransmitProbes(e, s1, |s.inflight|);
      WatchfulFurther(s, s1, Submit(e, s, r), None);
    } else {
      MoreProbes(s, Submit(e, s, r), r);
    }
  }

  lemma NewRequestProbes(c: Config, e: Env, s: State, what: Purpose)
    ensures var m := NewRequest(c, e, s, what); Watchful(s, m.s, None) && (m.req.Some? ==> m.req.value.what == what)
  {
    hide Pick, ShortLabels, IdsOf;
    SameProbes(s, NewRequest(c, e, s, what).s);
  }

  lemma IssueProbes(c: Config, e: Env, s: State, what: Purpose)
    ensures var n := Issue(c, e, s, what);
      Watchful(s, n.s, None) && (n.ok && what.probe.Some? ==> HasProbe(n.s, what.probe.value))
  {
    hide NewRequest, Submit, HasProbe, Watchful;
    var m := NewRequest(c, e, s, what);
    NewRequestProbes(c, e, s, what);
    if m.req.Some? {
      SubmitProbes(e, m.s, m.req.value);
      WatchfulFurther(s, m.s, Issue(c, e, s, what).s, None);
    }
  }

  // The request that follows another probes the same server.
  lemma TryNextProbes(c: Config, e: Env, s: State, i: nat)
    requires i < |s.inflight| && s.inflight[i].what.search.Some?
    ensures var n, p := TryNext(c, e, s, i), s.inflight[i].what.probe;
      Watchful(s, n.s, None)
  {
    hide Issue, Dots, HasProbe, Watchful;
    var w := s.inflight[i].what;
    var k, name := w.search.value.done, w.search.value.origname;
    var s1 := s.(inflight := s.inflight[i := s.inflight[i].(what := w.(search := Some(Search(k + 1, name))))]);
    SameProbes(s, s1);
    SameProbes(s, s1.(tick := s.tick + 1));
    var w1 := w.(name := name, search := None);
    IssueProbes(c, e, s1, w1);
    WatchfulFurther(s, s1, Issue(c, e, s1, w1).s, None);
    if k < |c.domains| {
      var s2, w2 := s1.(tick := s.tick + 1), w.(name := WithDomain(name, c.domains[k]), search := Some(Search(k + 1, name)));
      IssueProbes(c, e, s2, w2);
      WatchfulFurther(s, s2, Issue(c, e, s2, w2).s, None);
    }
  }

  lemma ResolveProbes(c: Config, e: Env, s: State, l: Lookup)
    ensures Watchful(s, Resolve(c, e, s, l).s, None)
  {
    hide Submit, NewRequest, FirstQuery, Watchful;
    var first := FirstQuery(c, l, |s.asked|);
    var s0 := s.(tick := s.tick + 1);
    SameProbes(s, s0);
    var m := NewRequest(c, e, s0, first);
    NewRequestProbes(c, e, s0, first);
    WatchfulFurther(s, s0, m.s, None);
    if m.req.Some? {
      var s1 := m.s.(asked := s.asked + [l]);
      SameProbes(m.s, s1);
      WatchfulFurther(s, m.s, s1, None);
      SubmitProbes(e, s1, m.req.value);
      WatchfulFurther(s, s1, Submit(e, s1, m.req.value), None);
    }
  }

  lemma {:induction false} ResolveAllProbes(c: Config, e: Env, s: State, ls: seq<Lookup>)
    ensures Watchful(s, ResolveAll(c, e, s, ls), None)
    decreases |ls|
  {
    hide Resolve, Watchful;
    if ls == [] {
      SameProbes(s, s);
    } else {
      ResolveProbes(c, e, s, ls[0]);
      ResolveAllProbes(c, e, Resolve(c, e, s, ls[0]).s, ls[1..]);
      WatchfulFurther(s, Resolve(c, e, s, ls[0]).s, ResolveAll(c, e, s, ls), None);
    }
  }

  lemma PromoteProbes(e: Env, s: State)
    requires s.waiting != []
    ensures Watchful(s, Promote(e, s), None) && |Promote(e, s).inflight| == |s.inflight| + 1 && |Promote(e, s).waiting| < |s.waiting|
  {
    hide Pick, IdsOf;
    SameProbes(s, Promote(e, s));
  }

  lemma {:induction false} PumpProbes(c: Config, e: Env, s: State)
    ensures Watchful(s, Pump(c, e, s), None)
    decreases |s.waiting|
  {
    hide Promote, Transmit, TransmitAll, Watchful;
    if s.nInflight < c.maxInflight && s.nWaiting != 0 && s.waiting != [] && s.ring != [] {
      PromoteProbes(e, s);
      var s1, s2 := Promote(e, s), Transmit(e, Promote(e, s), |s.inflight|);
      var s3 := TransmitAll(e, s2, 0);
      TransmitProbes(e, s1, |s.inflight|);
      TransmitAllProbes(e, s2, 0);
      WatchfulFurther(s, s1, s2, None);
      WatchfulFurther(s, s2, s3, None);
      PumpProbes(c, e, s3);
      WatchfulFurther(s, s3, Pump(c, e, s3), None);
    } else {
      SameProbes(s, s);
    }
  }

  // A request that ends takes at most its own probe with it.
  lemma FinishedProbes(c: Config, e: Env, s: State, i: nat)
    requires i < |s.inflight|
    ensures Watchful(s, Finished(c, e, s, i), s.inflight[i].what.probe)
  {
    hide Pump;
    var s1 := s.(inflight := Remove(s.inflight, i), nInflight := s.nInflight - 1);
    LessProbes(s, s1, i);
    PumpProbes(c, e, s1);
    WatchfulAfter(s, s1, Pump(c, e, s1), s.inflight[i].what.probe);
  }

  lemma LessProbes(s: State, s': State, i: nat)
    requires i < |s.inflight| && s'.inflight == Remove(s.inflight, i) && s'.waiting == s.waiting && s'.servers == s.servers
    ensures Watchful(s, s', s.inflight[i].what.probe)
  {
    forall a: Address | HasProbe(s, a) && s.inflight[i].what.probe != Some(a)
      ensures HasProbe(s', a)
    {
      var k :| 0 <= k < |All(s)| && All(s)[k].what.probe == Some(a);
      assert All(s')[if k < i then k else k - 1] == All(s)[k];
    }
  }

  lemma StaysProbed(s: State, s': State)
    requires AllProbed(s) && Watchful(s, s', None)
    ensures AllProbed(s')
  {
    hide HasProbe, Silent;
  }

  // Answering a request keeps every server that is down probed: when it was the probe, its server is up or has its timer.
  lemma AnswerStaysProbed(c: Config, e: Env, s: State, i: nat, err: Option<Error>, calls: seq<Lookup>)
    requires i < |s.inflight| && AllProbed(s)
    ensures AllProbed(AnswerAndFinish(c, e, s, i, err, calls))
  {
    hide ResolveAll, ServerUp, ProbeFailed, Finished, Watchful, AllProbed;
    var w := s.inflight[i].what;
    var s0, s1 := Heard(s, w.owner, err), Callback(c, e, s, i, err, calls);
    SameProbes(s, s0);
    match w.probe {
      case Some(a) =>
        UpProbes(s0, a);
        NotSilentAfter(s0, a);
      case None =>
        ResolveAllProbes(c, e, s0, calls);
    }
    CallbackKeepsWhat(c, e, s, i, err, calls);
    WatchfulFurther(s, s0, s1, None);
    var s2 := if err == None && s1.inflight[i].net.ns.Some? then ServerUp(s1, s1.inflight[i].net.ns.value) else s1;
    if s2 != s1 {
      UpProbes(s1, s1.inflight[i].net.ns.value);
      WatchfulFurther(s, s1, s2, None);
      NotSilentStill(s1, s2, w.probe);
    }
    StaysProbed(s, s2);
    FinishedProbes(c, e, s2, i);
    ProbedBut(s2, Finished(c, e, s2, i), w.probe);
  }

  lemma CallbackKeepsWhat(c: Config, e: Env, s: State, i: nat, err: Option<Error>, calls: seq<Lookup>)
    requires i < |s.inflight|
    ensures i < |Callback(c, e, s, i, err, calls).inflight| && Callback(c, e, s, i, err, calls).inflight[i].what == s.inflight[i].what
  {
    hide ResolveAll, ServerUp, ProbeFailed;
    if s.inflight[i].what.probe.None? {
      ResolveAllKeepsWhat(c, e, Heard(s, s.inflight[i].what.owner, err), calls);
    }
  }

  lemma {:induction false} ResolveAllKeepsWhat(c: Config, e: Env, s: State, ls: seq<Lookup>)
    ensures var s' := ResolveAll(c, e, s, ls); |s.inflight| <= |s'.inflight| && forall i :: 0 <= i < |s.inflight| ==> s'.inflight[i].what == s.inflight[i].what
    decreases |ls|
  {
    hide Submit, NewRequest, FirstQuery;
    if ls != [] {
      var first := FirstQuery(c, ls[0], |s.asked|);
      var m := NewRequest(c, e, s.(tick := s.tick + 1), first);
      if m.req.Some? {
        SubmitFields(e, m.s.(asked := s.asked + [ls[0]]), m.req.value);
      }
      ResolveAllKeepsWhat(c, e, Resolve(c, e, s, ls[0]).s, ls[1..]);
    }
  }

  lemma NotSilentAfter(s: State, a: Address)
    ensures !Silent(ServerUp(s, a).servers, a) && !Silent(ProbeFailed(s, a).servers, a)
  {
  }

  lemma NotSilentStill(s: State, s': State, p: Option<Address>)
    requires Watchful(s, s', None)
    ensures p.Some? && !Silent(s.servers, p.value) ==> !Silent(s'.servers, p.value)
  {
  }

  lemma ProbedBut(s: State, s': State, but: Option<Address>)
    requires AllProbed(s) && Watchful(s, s', but) && (but.Some? ==> !Silent(s.servers, but.value))
    ensures AllProbed(s')
  {
    hide HasProbe, Silent;
  }

  lemma ReissueProbes(s: State, i: nat)
    requires i < |s.inflight|
    ensures Watchful(s, Reissue(s, i).s, None)
  {
    hide Pick;
    KeptProbes(s, Reissue(s, i).s);
  }

  lemma BlameProbes(c: Config, s: State, i: nat, err: Error)
    requires i < |s.inflight| && s.inflight[i].net.ns.Some?
    ensures Watchful(s, BlameServer(c, s, i, err).s, None)
  {
    hide ServerUp, ServerFailed, Reissue, Watchful;
    var a := s.inflight[i].net.ns.value;
    UpProbes(s, a);
    FailedProbes(s, a);
    ReissueProbes(ServerFailed(s, a), i);
    WatchfulFurther(s, ServerFailed(s, a), Reissue(ServerFailed(s, a), i).s, None);
    SameProbes(s, s);
  }

  lemma ReplyStaysProbed(c: Config, e: Env, s: State, i: nat, reply: Reply, calls: seq<Lookup>)
    requires i < |s.inflight| && s.inflight[i].net.ns.Some? && AllProbed(s)
    requires s.inflight[i].what.search.Some? ==> s.inflight[i].what.probe.None?
    ensures AllProbed(ReplyHandle(c, e, s, i, reply, calls))
  {
    hide AllProbed, BlameServer, TryNext, Finished, AnswerAndFinish, Watchful;
    if reply.Answer? {
      AnswerStaysProbed(c, e, s, i, None, calls);
    } else {
      var err := ErrorOf(reply.truncated, reply.rcode);
      var s1 := BlameServer(c, s, i, err).s;
      BlameProbes(c, s, i, err);
      StaysProbed(s, s1);
      AnswerStaysProbed(c, e, s1, i, Some(err), calls);
      if s1.inflight[i].what.search.Some? {
        var t := TryNext(c, e, s1, i);
        TryNextProbes(c, e, s1, i);
        StaysProbed(s1, t.s);
        AnswerStaysProbed(c, e, t.s, i, Some(err), calls);
        TryNextKeepsProbe(c, e, s1, i);
        FinishedProbes(c, e, t.s, i);
        ProbedBut(t.s, Finished(c, e, t.s, i), None);
      }
    }
  }

  lemma TryNextKeepsProbe(c: Config, e: Env, s: State, i: nat)
    requires i < |s.inflight| && s.inflight[i].what.search.Some?
    ensures i < |TryNext(c, e, s, i).s.inflight| && TryNext(c, e, s, i).s.inflight[i].what.probe == s.inflight[i].what.probe
  {
    hide Submit, NewRequest, Dots;
    var w := s.inflight[i].what;
    var k, name := w.search.value.done, w.search.value.origname;
    var s1 := s.(inflight := s.inflight[i := s.inflight[i].(what := w.(search := Some(Search(k + 1, name))))]);
    IssueKeepsWhat(c, e, s1, w.(name := name, search := None));
    if k < |c.domains| {
      IssueKeepsWhat(c, e, s1.(tick := s.tick + 1), w.(name := WithDomain(name, c.domains[k]), search := Some(Search(k + 1, name))));
    }
  }

  lemma IssueKeepsWhat(c: Config, e: Env, s: State, what: Purpose)
    ensures var s' := Issue(c, e, s, what).s; |s.inflight| <= |s'.inflight| && forall i :: 0 <= i < |s.inflight| ==> s'.inflight[i].what == s.inflight[i].what
  {
    hide Submit, NewRequest;
    var m := NewRequest(c, e, s, what);
    if m.req.Some? {
      SubmitFields(e, m.s, m.req.value);
    }
  }

  lemma TimedOutStaysProbed(c: Config, e: Env, s: State, i: nat, calls: seq<Lookup>)
    requires Enabled(s, RequestTimer(i, calls)) && AllProbed(s)
    ensures AllProbed(TimedOut(c, e, s, i, calls))
  {
    hide AllProbed, ServerFailed, AnswerAndFinish, Transmit, Watchful;
    var a := s.inflight[i].net.ns.value;
    var t := SetServer(s, a, s.servers[a].(timedout := 0));
    KeptProbes(s, t);
    FailedProbes(t, a);
    WatchfulFurther(s, t, ServerFailed(t, a), None);
    KeptProbes(s, SetServer(s, a, s.servers[a].(timedout := s.servers[a].timedout + 1)));
    var s1 := CountTimeout(c, s, a);
    assert Watchful(s, s1, None);
    var s2 := SetNet(s1, i, s1.inflight[i].net.(timer := false));
    KeptProbes(s1, s2);
    StaysProbed(s, s1);
    StaysProbed(s1, s2);
    AnswerStaysProbed(c, e, s2, i, Some(Timeout), calls);
    TransmitProbes(e, s2, i);
    StaysProbed(s2, Transmit(e, s2, i));
  }

  // Only the timer of a server that is down can leave it silent: when there is no memory for the probe.
  lemma ProbeTimerStaysProbed(c: Config, e: Env, s: State, a: Address)
    requires a in s.servers && AllProbed(s)
    ensures e.memory(s.tick + 1) ==> AllProbed(SendProbe(c, e, s, a))
    ensures !e.memory(s.tick + 1) ==>
      (AllProbed(SendProbe(c, e, s, a)) <==> s.servers[a].up || HasProbe(s, a))
  {
    hide NewRequest, Submit, IdsOf, Watchful, HasProbe;
    var s0 := SetServer(s, a, s.servers[a].(probeTimer := false));
    var w := Purpose(|s.asked|, Some(a), A, PROBE_NAME, None);
    var m := NewRequest(c, e, s0, w);
    OnlyTimer(s, s0, a);
    NewRequestProbes(c, e, s0, w);
    ProbeIsMade(c, e, s0, w);
    if m.req.Some? {
      var r := m.req.value.(id := e.freeId(m.s.tick, IdsOf(m.s.inflight)), net := FRESH.(ns := Some(a)));
      var s1 := m.s.(tick := m.s.tick + 1, asked := s.asked + [Lookup(PROBE_NAME, A, false)]);
      SameProbes(m.s, s1);
      WatchfulFurther(s0, m.s, s1, None);
      SubmitProbes(e, s1, r);
      WatchfulFurther(s0, s1, Submit(e, s1, r), None);
      ProbedWith(s, s0, Submit(e, s1, r), a);
    } else {
      NoProbeMade(s, s0, m.s, a);
    }
  }

  lemma NoProbeMade(s: State, s0: State, s': State, a: Address)
    requires AllProbed(s) && a in s.servers && s0 == SetServer(s, a, s.servers[a].(probeTimer := false))
    requires s'.servers == s0.servers && All(s') == All(s)
    ensures AllProbed(s') <==> s.servers[a].up || HasProbe(s, a)
  {
    assert forall b: Address :: HasProbe(s', b) <==> HasProbe(s, b);
    assert Silent(s'.servers, a) <==> !s.servers[a].up;
    assert forall b :: b != a ==> (Silent(s'.servers, b) <==> Silent(s.servers, b));
  }

  lemma OnlyTimer(s: State, s0: State, a: Address)
    requires a in s.servers && s0 == SetServer(s, a, s.servers[a].(probeTimer := false))
    ensures forall b :: b != a ==> (Silent(s0.servers, b) <==> Silent(s.servers, b))
    ensures forall b: Address :: HasProbe(s, b) ==> HasProbe(s0, b)
  {
    assert All(s0) == All(s);
  }

  lemma ProbedWith(s: State, s0: State, s': State, a: Address)
    requires AllProbed(s) && Watchful(s0, s', None) && HasProbe(s', a)
    requires forall b :: b != a ==> (Silent(s0.servers, b) <==> Silent(s.servers, b))
    requires forall b: Address :: HasProbe(s, b) ==> HasProbe(s0, b)
    ensures AllProbed(s')
  {
    hide HasProbe, Silent;
  }

  lemma ProbeIsMade(c: Config, e: Env, s: State, what: Purpose)
    requires what.name == PROBE_NAME
    ensures var m := NewRequest(c, e, s, what);
      (m.req.Some? <==> e.memory(s.tick + 1)) && m.s.servers == s.servers && All(m.s) == All(s)
  {
    hide Pick, IdsOf, ShortLabels;
    ProbeNameIsShort();
  }

  lemma ProbeNameIsShort()
    ensures |PROBE_NAME| <= MAX_NAME_LEN && ShortLabels(PROBE_NAME)
  {
    SmallLabels(PROBE_NAME);
  }

  lemma {:induction false} SmallLabels(name: Name)
    requires |name| <= 63
    ensures ShortLabels(name)
    decreases |name|
  {
    if IndexOfDot(name) != -1 {
      SmallLabels(Rest(name));
    }
  }

  lemma StepStaysProbed(c: Config, e: Env, s: State, ev: Event)
    requires Inv(c, s) && Enabled(s, ev) && AllProbed(s) && (ev.ProbeTimer? ==> e.memory(s.tick + 1))
    ensures AllProbed(Step(c, e, s, ev))
  {
    hide Inv, AllProbed, Resolve, ReplyHandle, FindId, ServerFailed, TransmitAll, AnyToTransmit, TimedOut, SendProbe, Pump, Watchful;
    match ev
    case Ask(l) =>
      ResolveProbes(c, e, s, l);
      StaysProbed(s, Step(c, e, s, ev));
    case Packet(a, id, usable, reply, calls) => PacketStaysProbed(c, e, s, ev);
    case ReadError(a) =>
      FailedProbes(s, a);
      StaysProbed(s, ServerFailed(s, a));
    case Writable(a) => WritableStaysProbed(e, s, a);
    case RequestTimer(i, calls) => TimedOutStaysProbed(c, e, s, i, calls);
    case ProbeTimer(a) => ProbeTimerStaysProbed(c, e, s, a);
    case AddServer(a) =>
      JoinedProbes(s, a);
      StaysProbed(s, Joined(s, a));
    case Suspend => SuspendStaysProbed(c, s);
    case Resume =>
      PumpProbes(c, e, s);
      StaysProbed(s, Pump(c, e, s));
  }

  lemma JoinedProbes(s: State, a: Address)
    ensures Watchful(s, Joined(s, a), None)
  {
    SameProbes(s, Joined(s, a));
  }

  lemma SuspendStaysProbed(c: Config, s: State)
    requires Inv(c, s)
    ensures AllProbed(Suspended(s))
  {
    hide Shelve, Book, Balanced, Active;
    if s.ring == [] {
      assert forall a :: a !in s.servers;
    }
  }

  lemma WritableStaysProbed(e: Env, s: State, a: Address)
    requires a in s.servers && AllProbed(s)
    ensures AllProbed(OnWritable(e, s, a))
  {
    hide AllProbed, TransmitAll, AnyToTransmit, Watchful;
    var s1 := SetServer(s, a, s.servers[a].(choked := false));
    KeptProbes(s, s1);
    StaysProbed(s, s1);
    TransmitAllProbes(e, s1, 0);
    var s2 := TransmitAll(e, s1, 0);
    StaysProbed(s1, s2);
    KeptProbes(s2, SetServer(s2, a, s2.servers[a].(writeWaiting := false)));
    StaysProbed(s2, SetServer(s2, a, s2.servers[a].(writeWaiting := false)));
  }

  lemma PacketStaysProbed(c: Config, e: Env, s: State, ev: Event)
    requires Inv(c, s) && ev.Packet? && Enabled(s, ev) && AllProbed(s)
    ensures AllProbed(Step(c, e, s, ev))
  {
    hide Inv, AllProbed, ReplyHandle, FindId, Watchful;
    var s1 := SetServer(s, ev.server, s.servers[ev.server].(timedout := 0));
    KeptProbes(s, s1);
    StaysProbed(s, s1);
    var k := FindId(s1.inflight, ev.id);
    if k.Some? && ev.usable && s1.inflight[k.value].net.ns.Some? {
      ProbesDoNotSearch(c, s, k.value);
      ReplyStaysProbed(c, e, s1, k.value, ev.reply, ev.calls);
    }
  }

  lemma ProbesDoNotSearch(c: Config, s: State, i: nat)
    requires Inv(c, s) && i < |s.inflight|
    ensures s.inflight[i].what.search.Some? ==> s.inflight[i].what.probe.None?
  {
    assert Tracks(c, s.asked, s.tried, s.inflight[i].what);
  }

  // After any run in which there was memory for every probe, each nameserver that is down waits for the timer of its
  // next probe or for the answer to one.
  lemma {:induction false} DownServersAreProbed(c: Config, e: Env, evs: seq<Event>)
    requires c.Ok() && e.Honest() && Run(c, e, evs).Some?
    requires forall k :: 0 <= k < |evs| && evs[k].ProbeTimer? && Run(c, e, evs[..k]).Some? ==> e.memory(Run(c, e, evs[..k]).value.tick + 1)
    ensures AllProbed(Run(c, e, evs).value)
    decreases |evs|
  {
    hide Step, Inv, Enabled, AllProbed;
    if evs == [] {
      StartIsProbed();
    } else {
      var n := |evs| - 1;
      var front := evs[..n];
      assert forall k :: 0 <= k < n ==> front[..k] == evs[..k] && front[k] == evs[k];
      DownServersAreProbed(c, e, front);
      RunKeepsInv(c, e, front);
      StepStaysProbed(c, e, Run(c, e, front).value, evs[n]);
    }
  }

  lemma StartIsProbed()
    ensures AllProbed(START)
  {
  }
}
