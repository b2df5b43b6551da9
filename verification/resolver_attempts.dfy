// How often a request goes out, and what ends it, over whole runs.
module ResolverAttempts {
  import opened Bytes
  import opened Names
  import opened NameWriter
  import opened Resolver
  import opened ResolverServers
  import opened ResolverNet
  import opened ResolverBook
  import opened ResolverSafety
  import opened ResolverRuns
  import opened ResolverResults
  import opened ResolverAnswers
  import opened ResolverSends

  // ---------- The books over runs ----------

  lemma WaitingIsFresh(c: Config, s: State)
    requires Inv(c, s)
    ensures forall i :: 0 <= i < |s.waiting| ==> s.waiting[i].net == FRESH
  {
  }

  lemma StepBooks(c: Config, e: Env, s: State, ev: Event)
    requires Inv(c, s) && Enabled(s, ev) && Books(e, s)
    ensures Books(e, Step(c, e, s, ev))
  {
    hide Inv, Books, Resolve, ReplyHandle, FindId, ServerFailed, TransmitAll, TimedOut, SendProbe, Suspended, Pump;
    match ev
    case Ask(l) => ResolveBooks(c, e, s, l);
    case Packet(a, id, usable, reply, calls) =>
      var s1 := SetServer(s, a, s.servers[a].(timedout := 0));
      SameBooks(e, s, s1);
      var k := FindId(s1.inflight, id);
      if k.Some? && usable && s1.inflight[k.value].net.ns.Some? {
        ReplyBooks(c, e, s1, k.value, reply, calls);
      }
    case ReadError(a) => OnlyServersBooks(e, s, ServerFailed(s, a));
    case Writable(a) => WritableBooks(e, s, a);
    case RequestTimer(i, calls) => TimedOutBooks(c, e, s, i, calls);
    case ProbeTimer(a) => SendProbeBooks(c, e, s, a);
    case AddServer(a) => SameBooks(e, s, Joined(s, a));
    case Suspend =>
      WaitingIsFresh(c, s);
      SuspendBooks(e, s);
    case Resume => PumpBooks(c, e, s);
  }

  lemma WritableBooks(e: Env, s: State, a: Address)
    requires a in s.servers && Books(e, s)
    ensures Books(e, OnWritable(e, s, a))
  {
    hide Books, TransmitAll, AnyToTransmit;
    var s1 := SetServer(s, a, s.servers[a].(choked := false));
    SameBooks(e, s, s1);
    TransmitAllBooks(e, s1, 0);
    var s2 := TransmitAll(e, s1, 0);
    SameBooks(e, s2, SetServer(s2, a, s2.servers[a].(writeWaiting := false)));
  }

  lemma {:induction false} RunBooks(c: Config, e: Env, evs: seq<Event>)
    requires c.Ok() && e.Honest() && Run(c, e, evs).Some?
    ensures Books(e, Run(c, e, evs).value)
    decreases |evs|
  {
    hide Step, Inv, Enabled, Books;
    if evs == [] {
      StartBooks(e);
    } else {
      var n := |evs| - 1;
      RunBooks(c, e, evs[..n]);
      RunKeepsInv(c, e, evs[..n]);
      StepBooks(c, e, Run(c, e, evs[..n]).value, evs[n]);
    }
  }

  lemma StartBooks(e: Env)
    ensures Books(e, START)
  {
  }

  // After any run the counters of every request in flight are the numbers of packets taken for it, and each post is a
  // question of its own.
  lemma CountsAreTrue(c: Config, e: Env, evs: seq<Event>, i: nat)
    requires c.Ok() && e.Honest() && Run(c, e, evs).Some? && i < |Run(c, e, evs).value.inflight|
    ensures var s := Run(c, e, evs).value; var r := s.inflight[i];
      Dated(s.posts, s.tick) && r.made < s.tick && Accounted(e, s.posts, r)
  {
    hide Run, Accounted, Dated;
    RunBooks(c, e, evs);
    assert All(Run(c, e, evs).value)[i] == Run(c, e, evs).value.inflight[i];
  }

  // After any run: a request has gone out at most maxRetransmits times since it last turned to another server, or once if
  // that is zero, and at most maxReissues + 1 times as often since it was made or all requests last started over.
  lemma BoundedSends(c: Config, e: Env, evs: seq<Event>, i: nat)
    requires c.Ok() && e.Honest() && Run(c, e, evs).Some? && i < |Run(c, e, evs).value.inflight|
    ensures var s := Run(c, e, evs).value; var r := s.inflight[i];
      && TakenHere(e, s.posts, r.made) <= c.Attempts()
      && (r.net.transmitMe ==> TakenHere(e, s.posts, r.made) < c.Attempts())
      && Taken(e, s.posts, r.made) <= c.Attempts() * (c.maxReissues + 1)
  {
    hide Run, Taken, TakenHere, Dated;
    CountsAreTrue(c, e, evs, i);
    BoundedTransmissions(c, e, evs, i);
  }

  // ---------- A timer ----------

  lemma {:induction false} ReassignKeepsServers(s: State, a: Address, i: nat)
    requires i <= |s.inflight|
    ensures Reassign(s, a, i).servers == s.servers
    decreases |s.inflight| - i
  {
    hide Pick;
    if i < |s.inflight| {
      var n, p := s.inflight[i].net, Pick(s.ring, s.servers, s.good);
      ReassignKeepsServers(SetNet(s, i, n.(ns := p.ns)).(ring := p.ring), a, i + 1);
      ReassignKeepsServers(s, a, i + 1);
    }
  }

  // A failing server leaves the sockets as they are.
  lemma FailedKeepsSockets(s: State, a: Address)
    ensures forall b :: b in s.servers ==> b in ServerFailed(s, a).servers && ServerFailed(s, a).servers[b].choked == s.servers[b].choked
    ensures ServerFailed(s, a).servers.Keys == s.servers.Keys
  {
    hide Reassign;
    if IsUp(s.servers, a) {
      ReassignKeepsServers(SetServer(s, a, s.servers[a].(up := false, failedTimes := 1, probeTimer := true)).(good := s.good - 1), a, 0);
    }
  }

  ghost predicate AllUnchoked(s: State) {
    forall a :: a in s.servers ==> !s.servers[a].choked
  }

  lemma CountTimeoutKeepsSockets(c: Config, s: State, a: Address)
    requires a in s.servers && AllUnchoked(s)
    ensures AllUnchoked(CountTimeout(c, s, a))
  {
    hide ServerFailed;
    FailedKeepsSockets(SetServer(s, a, s.servers[a].(timedout := 0)), a);
  }

  // After any run, when a request's timer fires: if it has gone out maxRetransmits times to its server its lookup is
  // answered with a timeout, and if not it stays and goes out once more, unless the socket is choked.
  lemma TimerDecides(c: Config, e: Env, evs: seq<Event>, i: nat, calls: seq<Lookup>)
    requires c.Ok() && e.Honest() && Run(c, e, evs).Some? && Enabled(Run(c, e, evs).value, RequestTimer(i, calls))
    ensures var s := Run(c, e, evs).value;
      var s', r, k := Step(c, e, s, RequestTimer(i, calls)), s.inflight[i], TakenHere(e, s.posts, s.inflight[i].made);
      && k <= c.Attempts() && (r.net.reissueCount == 0 ==> 0 < k == Taken(e, s.posts, r.made))
      && (k >= c.maxRetransmits ==> s'.answered == s.answered + [r.what.owner] && s'.told == s.told + [Some(Timeout)])
      && (k < c.maxRetransmits ==>
            && s'.answered == s.answered && |s'.inflight| == |s.inflight|
            && s'.inflight[i].made == r.made && s'.inflight[i].what == r.what
            && (AllUnchoked(s) ==>
                  && s'.posts == s.posts + [Post(r.made, s.tick)]
                  && TakenHere(e, s'.posts, r.made) == k + if e.send(s.tick) != Blocked then 1 else 0))
  {
    hide Run, Taken, TakenHere, Dated, CountTimeout, AnswerAndFinish, Transmit, Inv;
    var s := Run(c, e, evs).value;
    RunKeepsInv(c, e, evs);
    CountsAreTrue(c, e, evs, i);
    BoundedSends(c, e, evs, i);
    var a := s.inflight[i].net.ns.value;
    var s1 := CountTimeout(c, s, a);
    CountKeepsInv(c, s, a);
    InvPlaces(c, s1, i);
    var n := s1.inflight[i].net;
    var s2 := SetNet(s1, i, n.(timer := false));
    if n.txCount >= c.maxRetransmits {
      AnswerAnswersOne(c, e, s2, i, Some(Timeout), calls);
    } else {
      TransmitCounts(e, s2, i);
      if AllUnchoked(s) {
        CountTimeoutKeepsSockets(c, s, a);
        TakenNext(e, s.posts, Post(s.inflight[i].made, s.tick), s.inflight[i].made);
      }
    }
  }

  lemma InvPlaces(c: Config, s: State, i: nat)
    requires Inv(c, s) && i < |s.inflight|
    ensures Placed(s.servers, s.inflight[i].net)
  {
    hide Book, Balanced, ServersOk;
    assert Active(c, s.servers, s.inflight[i].net);
  }

  // At its timer, a request that never turned to another server is given up after exactly Attempts() sends.
  lemma GivenUpExactly(c: Config, e: Env, evs: seq<Event>, i: nat, calls: seq<Lookup>)
    requires c.Ok() && e.Honest() && Run(c, e, evs).Some? && Enabled(Run(c, e, evs).value, RequestTimer(i, calls))
    requires Run(c, e, evs).value.inflight[i].net.reissueCount == 0
    ensures var s := Run(c, e, evs).value; var s', r := Step(c, e, s, RequestTimer(i, calls)), s.inflight[i];
      r.what.owner in s'.answered <==> Taken(e, s.posts, r.made) == c.Attempts()
  {
    hide Run, Taken, TakenHere, Step, Inv;
    TimerDecides(c, e, evs, i, calls);
    RunKeepsInv(c, e, evs);
    InvOwns(c, Run(c, e, evs).value, i);
  }

  lemma InvOwns(c: Config, s: State, i: nat)
    requires Inv(c, s) && i < |s.inflight|
    ensures s.inflight[i].what.owner !in s.answered && s.inflight[i].what.owner < |s.asked|
  {
    OwnedOnce(s, i);
  }

  // ---------- What stays in flight ----------

  // Who the requests are: each with its number and its lookup.
  function Ids(rs: seq<Request>): (ids: seq<(nat, nat)>)
    ensures |ids| == |rs|
  {
    seq(|rs|, i requires 0 <= i < |rs| => (rs[i].made, rs[i].what.owner))
  }

  // Nothing but new requests behind the old ones.
  ghost predicate OnlyMore(s: State, s': State) {
    Ids(s.inflight) <= Ids(s'.inflight)
  }

  lemma KeptIsOnlyMore(s: State, s': State)
    requires Kept(s, s')
    ensures OnlyMore(s, s')
  {
    assert Ids(s'.inflight) == Ids(s.inflight);
  }

  lemma AppendIsOnlyMore(s: State, s': State, r: Request)
    requires s'.inflight == s.inflight + [r]
    ensures OnlyMore(s, s')
  {
    assert Ids(s'.inflight)[..|s.inflight|] == Ids(s.inflight);
  }

  lemma SubmitIsOnlyMore(e: Env, s: State, r: Request)
    ensures OnlyMore(s, Submit(e, s, r))
  {
    hide Transmit, Ids;
    if r.net.ns.Some? {
      var s1 := s.(inflight := s.inflight + [r], nInflight := s.nInflight + 1);
      AppendIsOnlyMore(s, s1, r);
      KeptIsOnlyMore(s1, Transmit(e, s1, |s.inflight|));
    }
  }

  lemma IssueIsOnlyMore(c: Config, e: Env, s: State, what: Purpose)
    ensures OnlyMore(s, Issue(c, e, s, what).s)
  {
    hide Submit, NewRequest, Ids;
    var m := NewRequest(c, e, s, what);
    if m.req.Some? {
      SubmitIsOnlyMore(e, m.s, m.req.value);
    }
  }

  lemma TryNextIsOnlyMore(c: Config, e: Env, s: State, i: nat)
    requires i < |s.inflight| && s.inflight[i].what.search.Some?
    ensures OnlyMore(s, TryNext(c, e, s, i).s)
  {
    hide Issue, Dots, Ids;
    var w := s.inflight[i].what;
    var k, name := w.search.value.done, w.search.value.origname;
    var s1 := s.(inflight := s.inflight[i := s.inflight[i].(what := w.(search := Some(Search(k + 1, name))))]);
    SameIds(s.inflight, s1.inflight);
    IssueIsOnlyMore(c, e, s1, w.(name := name, search := None));
    if k < |c.domains| {
      IssueIsOnlyMore(c, e, s1.(tick := s.tick + 1), w.(name := WithDomain(name, c.domains[k]), search := Some(Search(k + 1, name))));
    }
  }

  lemma SameIds(rs: seq<Request>, ws: seq<Request>)
    requires |rs| == |ws| && forall i :: 0 <= i < |rs| ==> rs[i].made == ws[i].made && rs[i].what.owner == ws[i].what.owner
    ensures Ids(rs) == Ids(ws)
  {
  }

  lemma ResolveIsOnlyMore(c: Config, e: Env, s: State, l: Lookup)
    ensures OnlyMore(s, Resolve(c, e, s, l).s)
  {
    hide Submit, NewRequest, FirstQuery, Ids;
    var first := FirstQuery(c, l, |s.asked|);
    var m := NewRequest(c, e, s.(tick := s.tick + 1), first);
    if m.req.Some? {
      SubmitIsOnlyMore(e, m.s.(asked := s.asked + [l]), m.req.value);
    }
  }

  lemma {:induction false} ResolveAllIsOnlyMore(c: Config, e: Env, s: State, ls: seq<Lookup>)
    ensures OnlyMore(s, ResolveAll(c, e, s, ls))
    decreases |ls|
  {
    hide Resolve, Ids;
    if ls != [] {
      ResolveIsOnlyMore(c, e, s, ls[0]);
      ResolveAllIsOnlyMore(c, e, Resolve(c, e, s, ls[0]).s, ls[1..]);
    }
  }

  lemma PromoteIsOnlyMore(e: Env, s: State)
    requires s.waiting != []
    ensures OnlyMore(s, Promote(e, s)) && |Promote(e, s).inflight| == |s.inflight| + 1 && |Promote(e, s).waiting| < |s.waiting|
  {
    hide Pick, IdsOf;
    AppendIsOnlyMore(s, Promote(e, s), Promote(e, s).inflight[|s.inflight|]);
  }

  lemma {:induction false} PumpIsOnlyMore(c: Config, e: Env, s: State)
    ensures OnlyMore(s, Pump(c, e, s))
    decreases |s.waiting|
  {
    hide Promote, Transmit, TransmitAll, Ids;
    if s.nInflight < c.maxInflight && s.nWaiting != 0 && s.waiting != [] && s.ring != [] {
      PromoteIsOnlyMore(e, s);
      var s2 := Transmit(e, Promote(e, s), |s.inflight|);
      KeptIsOnlyMore(Promote(e, s), s2);
      KeptIsOnlyMore(s2, TransmitAll(e, s2, 0));
      PumpIsOnlyMore(c, e, TransmitAll(e, s2, 0));
    }
  }

  // Only the request in place i is taken out.
  ghost predicate OnlyLess(s: State, s': State, i: nat)
    requires i < |s.inflight|
  {
    Ids(s.inflight)[..i] + Ids(s.inflight)[i + 1..] <= Ids(s'.inflight)
  }

  lemma FinishedTakesOne(c: Config, e: Env, s: State, s0: State, i: nat)
    requires i < |s.inflight| && OnlyMore(s, s0)
    ensures i < |s0.inflight| && OnlyLess(s, Finished(c, e, s0, i), i)
  {
    hide Pump;
    var s1 := s0.(inflight := Remove(s0.inflight, i), nInflight := s0.nInflight - 1);
    PumpIsOnlyMore(c, e, s1);
    IdsWithout(s0.inflight, i);
    var a, b := Ids(s.inflight), Ids(s0.inflight);
    assert b == a + b[|a|..];
    assert b[..i] + b[i + 1..] == (a[..i] + a[i + 1..]) + b[|a|..];
  }

  lemma IdsWithout(rs: seq<Request>, i: nat)
    requires i < |rs|
    ensures Ids(Remove(rs, i)) == Ids(rs)[..i] + Ids(rs)[i + 1..]
  {
  }

  lemma AnswerTakesOne(c: Config, e: Env, s: State, s0: State, i: nat, err: Option<Error>, calls: seq<Lookup>)
    requires i < |s.inflight| && OnlyMore(s, s0) && |s.inflight| <= |s0.inflight|
    ensures OnlyLess(s, AnswerAndFinish(c, e, s0, i, err, calls), i)
  {
    hide ResolveAll, ServerUp, ProbeFailed, Finished, Ids;
    var w := s0.inflight[i].what;
    var s1 := Callback(c, e, s0, i, err, calls);
    match w.probe {
      case Some(a) =>
        KeptIsOnlyMore(Heard(s0, w.owner, err), s1);
      case None =>
        ResolveAllIsOnlyMore(c, e, Heard(s0, w.owner, err), calls);
    }
    if err == None && s1.inflight[i].net.ns.Some? {
      KeptIsOnlyMore(s1, ServerUp(s1, s1.inflight[i].net.ns.value));
      FinishedTakesOne(c, e, s, ServerUp(s1, s1.inflight[i].net.ns.value), i);
    } else {
      FinishedTakesOne(c, e, s, s1, i);
    }
  }

  lemma ReplyTakesOne(c: Config, e: Env, s: State, i: nat, reply: Reply, calls: seq<Lookup>)
    requires i < |s.inflight| && s.inflight[i].net.ns.Some?
    ensures var s' := ReplyHandle(c, e, s, i, reply, calls); OnlyMore(s, s') || OnlyLess(s, s', i)
    ensures var s', o := ReplyHandle(c, e, s, i, reply, calls), s.inflight[i].what.owner; s'.answered == s.answered || s'.answered == s.answered + [o]
  {
    hide BlameServer, TryNext, Finished, AnswerAndFinish, Ids;
    if reply.Answer? {
      AnswerTakesOne(c, e, s, s, i, None, calls);
      AnswerAnswersOne(c, e, s, i, None, calls);
    } else {
      var err := ErrorOf(reply.truncated, reply.rcode);
      var b := BlameServer(c, s, i, err);
      KeptIsOnlyMore(s, b.s);
      if !b.ok {
        if b.s.inflight[i].what.search.Some? && b.s.inflight[i].what.qtype != PTR {
          var t := TryNext(c, e, b.s, i);
          TryNextIsOnlyMore(c, e, b.s, i);
          TryNextAnswersNobody(c, e, b.s, i);
          FinishedTakesOne(c, e, s, t.s, i);
          FinishedGoesOn(c, e, t.s, i);
          AnswerTakesOne(c, e, s, t.s, i, Some(err), calls);
          AnswerAnswersOne(c, e, t.s, i, Some(err), calls);
        } else {
          AnswerTakesOne(c, e, s, b.s, i, Some(err), calls);
          AnswerAnswersOne(c, e, b.s, i, Some(err), calls);
        }
      }
    }
  }

  // ---------- What ends a request ----------

  // The request that a packet is for.
  function ReplyTo(s: State, ev: Event): (k: Option<nat>)
    ensures k.Some? ==> k.value < |s.inflight|
  {
    if ev.Packet? && ev.usable then FindId(s.inflight, ev.id) else None
  }

  // The request that an event is about, if it can end it.
  function Concerned(c: Config, s: State, ev: Event): (k: Option<nat>)
    requires Enabled(s, ev)
    ensures k.Some? ==> k.value < |s.inflight|
  {
    if ev.RequestTimer? && s.inflight[ev.index].net.txCount >= c.maxRetransmits then Some(ev.index) else ReplyTo(s, ev)
  }

  // An event takes at most the request in question out of flight, and answers at most its lookup.
  ghost predicate EndsOnly(s: State, s': State, k: Option<nat>)
    requires k.Some? ==> k.value < |s.inflight|
  {
    || (OnlyMore(s, s') && s'.answered == s.answered)
    || (k.Some? && (OnlyMore(s, s') || OnlyLess(s, s', k.value))
        && (s'.answered == s.answered || s'.answered == s.answered + [s.inflight[k.value].what.owner]))
  }

  lemma PacketEndsOnly(c: Config, e: Env, s: State, ev: Event)
    requires ev.Packet? && Enabled(s, ev)
    ensures EndsOnly(s, Step(c, e, s, ev), ReplyTo(s, ev))
  {
    hide ReplyHandle, FindId, Ids;
    var s1 := SetServer(s, ev.server, s.servers[ev.server].(timedout := 0));
    var k := FindId(s1.inflight, ev.id);
    if k.Some? && ev.usable && s1.inflight[k.value].net.ns.Some? {
      ReplyTakesOne(c, e, s1, k.value, ev.reply, ev.calls);
    }
  }

  lemma TimerEndsOnly(c: Config, e: Env, s: State, i: nat, calls: seq<Lookup>)
    requires Enabled(s, RequestTimer(i, calls))
    ensures EndsOnly(s, Step(c, e, s, RequestTimer(i, calls)), Concerned(c, s, RequestTimer(i, calls)))
  {
    hide CountTimeout, AnswerAndFinish, Transmit, Ids;
    var s1 := CountTimeout(c, s, s.inflight[i].net.ns.value);
    var n := s1.inflight[i].net;
    var s2 := SetNet(s1, i, n.(timer := false));
    assert n.txCount == s.inflight[i].net.txCount;
    KeptIsOnlyMore(s, s2);
    if n.txCount >= c.maxRetransmits {
      AnswerTakesOne(c, e, s, s2, i, Some(Timeout), calls);
      AnswerAnswersOne(c, e, s2, i, Some(Timeout), calls);
    } else {
      KeptIsOnlyMore(s, Transmit(e, s2, i));
    }
  }

  lemma StepEndsOnly(c: Config, e: Env, s: State, ev: Event)
    requires Enabled(s, ev) && ev != Suspend
    ensures EndsOnly(s, Step(c, e, s, ev), Concerned(c, s, ev))
  {
    hide Resolve, OnPacket, ReplyTo, ServerFailed, TransmitAll, AnyToTransmit, TimedOut, NewRequest, Submit, Pump, Ids, Concerned;
    NoneConcerned(c, s, ev);
    match ev
    case Ask(l) =>
      ResolveIsOnlyMore(c, e, s, l);
      ResolveGoesOn(c, e, s, l);
    case Packet(_, _, _, _, _) => PacketEndsOnly(c, e, s, ev);
    case ReadError(a) => KeptIsOnlyMore(s, ServerFailed(s, a));
    case Writable(a) => KeptIsOnlyMore(s, OnWritable(e, s, a));
    case RequestTimer(i, calls) => TimerEndsOnly(c, e, s, i, calls);
    case ProbeTimer(a) => ProbeEndsNone(c, e, s, a);
    case AddServer(a) => KeptOrJoined(s, a);
    case Suspend =>
    case Resume =>
      PumpIsOnlyMore(c, e, s);
      PumpGoesOn(c, e, s);
  }

  lemma NoneConcerned(c: Config, s: State, ev: Event)
    requires Enabled(s, ev)
    ensures ev.Packet? ==> Concerned(c, s, ev) == ReplyTo(s, ev)
  {
  }

  lemma ProbeEndsNone(c: Config, e: Env, s: State, a: Address)
    requires a in s.servers
    ensures OnlyMore(s, SendProbe(c, e, s, a)) && SendProbe(c, e, s, a).answered == s.answered
  {
    hide NewRequest, Submit, IdsOf, Ids;
    var w := Purpose(|s.asked|, Some(a), A, PROBE_NAME, None);
    var s0 := SetServer(s, a, s.servers[a].(probeTimer := false));
    NewRequestFields(c, e, s0, w);
    var m := NewRequest(c, e, s0, w);
    if m.req.Some? {
      var r := m.req.value.(id := e.freeId(m.s.tick, IdsOf(m.s.inflight)), net := FRESH.(ns := Some(a)));
      var s1 := m.s.(tick := m.s.tick + 1, asked := s.asked + [Lookup(PROBE_NAME, A, false)]);
      SubmitIsOnlyMore(e, s1, r);
      SubmitFields(e, s1, r);
    }
  }

  lemma KeptOrJoined(s: State, a: Address)
    ensures OnlyMore(s, Joined(s, a)) && Joined(s, a).answered == s.answered
  {
  }

  // After any run: a lookup is answered only by a packet with the id of its request, or at the timer of a request that
  // has gone out maxRetransmits times since it last turned to another server.
  lemma AnsweredHow(c: Config, e: Env, evs: seq<Event>, ev: Event, o: nat)
    requires c.Ok() && e.Honest() && Run(c, e, evs).Some? && Enabled(Run(c, e, evs).value, ev)
    requires JustAnswered(Run(c, e, evs).value, Step(c, e, Run(c, e, evs).value, ev), o)
    ensures var s := Run(c, e, evs).value;
      || (ReplyTo(s, ev).Some? && s.inflight[ReplyTo(s, ev).value].what.owner == o)
      || (ev.RequestTimer? && s.inflight[ev.index].what.owner == o
          && c.maxRetransmits <= TakenHere(e, s.posts, s.inflight[ev.index].made) <= c.Attempts())
  {
    hide Run, Step, ReplyTo, TakenHere, Taken, Dated, OnlyMore, OnlyLess;
    var s := Run(c, e, evs).value;
    if ev == Suspend {
      SuspendAnswersNobody(c, e, s);
    } else {
      StepEndsOnly(c, e, s, ev);
      if ev.RequestTimer? {
        CountsAreTrue(c, e, evs, ev.index);
        BoundedSends(c, e, evs, ev.index);
      }
    }
  }

  lemma SuspendAnswersNobody(c: Config, e: Env, s: State)
    ensures Step(c, e, s, Suspend).answered == s.answered
  {
  }

  // Such a request is in flight.
  predicate InFlight(s: State, id: (nat, nat)) {
    id in Ids(s.inflight)
  }

  lemma InFlightAt(s: State, i: nat)
    requires i < |s.inflight|
    ensures InFlight(s, (s.inflight[i].made, s.inflight[i].what.owner))
  {
    assert Ids(s.inflight)[i] == (s.inflight[i].made, s.inflight[i].what.owner);
  }

  lemma StillInFlight(s: State, s': State, id: (nat, nat), k: Option<nat>)
    requires k.Some? ==> k.value < |s.inflight| && s.inflight[k.value].made != id.0
    requires InFlight(s, id) && EndsOnly(s, s', k)
    ensures InFlight(s', id)
  {
    var a, b := Ids(s.inflight), Ids(s'.inflight);
    var j :| 0 <= j < |a| && a[j] == id;
    if OnlyMore(s, s') {
      assert b[j] == a[j];
    } else {
      var i := k.value;
      var l := if j < i then j else j - 1;
      assert (a[..i] + a[i + 1..])[l] == a[j];
      assert b[l] == (a[..i] + a[i + 1..])[l];
    }
  }

  // An event without a reply to this request, and not a suspend.
  predicate Quiet(s: State, ev: Event, made: nat) {
    ev != Suspend && (ReplyTo(s, ev).Some? ==> s.inflight[ReplyTo(s, ev).value].made != made)
  }

  // From event n of a run on, the request gets no reply.
  ghost predicate NoReply(c: Config, e: Env, evs: seq<Event>, n: nat, made: nat) {
    forall k :: n <= k < |evs| && Run(c, e, evs[..k]).Some? ==> Quiet(Run(c, e, evs[..k]).value, evs[k], made)
  }

  // Event k of a run was the timer that gave the request up, with just as many sends behind it as are allowed.
  ghost predicate GivenUpAt(c: Config, e: Env, evs: seq<Event>, k: nat, id: (nat, nat))
    requires k < |evs|
  {
    && evs[k].RequestTimer? && Run(c, e, evs[..k]).Some? && Enabled(Run(c, e, evs[..k]).value, evs[k])
    && var s := Run(c, e, evs[..k]).value;
       var s', r := Step(c, e, s, evs[k]), s.inflight[evs[k].index];
       && r.made == id.0 && r.what.owner == id.1
       && s'.answered == s.answered + [id.1] && s'.told == s.told + [Some(Timeout)]
       && c.maxRetransmits <= TakenHere(e, s.posts, id.0) <= c.Attempts()
  }

  // A request that gets no reply stays in flight until a timer finds that it has gone out maxRetransmits times.
  lemma {:induction false} Unanswered(c: Config, e: Env, evs: seq<Event>, n: nat, id: (nat, nat))
    requires c.Ok() && e.Honest() && n <= |evs| && Run(c, e, evs).Some? && Run(c, e, evs[..n]).Some?
    requires InFlight(Run(c, e, evs[..n]).value, id) && NoReply(c, e, evs, n, id.0)
    ensures InFlight(Run(c, e, evs).value, id) || exists k :: n <= k < |evs| && GivenUpAt(c, e, evs, k, id)
    decreases |evs|
  {
    hide Step, Enabled, InFlight, Quiet, GivenUpAt;
    if n == |evs| {
      assert evs[..n] == evs;
    } else {
      var m := |evs| - 1;
      var front := evs[..m];
      assert front[..n] == evs[..n];
      NoReplyBefore(c, e, evs, n, id.0);
      Unanswered(c, e, front, n, id);
      if k :| n <= k < m && GivenUpAt(c, e, front, k, id) {
        assert front[..k] == evs[..k] && front[k] == evs[k];
        SameGivenUp(c, e, front, evs, k, id);
      } else {
        LastEvent(c, e, evs, id);
      }
    }
  }

  lemma NoReplyBefore(c: Config, e: Env, evs: seq<Event>, n: nat, made: nat)
    requires evs != [] && NoReply(c, e, evs, n, made)
    ensures NoReply(c, e, evs[..|evs| - 1], n, made)
  {
    hide Run, Quiet;
    var front := evs[..|evs| - 1];
    forall k | n <= k < |front| && Run(c, e, front[..k]).Some?
      ensures Quiet(Run(c, e, front[..k]).value, front[k], made)
    {
      assert front[..k] == evs[..k];
    }
  }

  lemma SameGivenUp(c: Config, e: Env, a: seq<Event>, b: seq<Event>, k: nat, id: (nat, nat))
    requires k < |a| && k < |b| && a[..k] == b[..k] && a[k] == b[k] && GivenUpAt(c, e, a, k, id)
    ensures GivenUpAt(c, e, b, k, id)
  {
    hide Run, Step, Enabled, TakenHere;
  }

  lemma LastEvent(c: Config, e: Env, evs: seq<Event>, id: (nat, nat))
    requires c.Ok() && e.Honest() && evs != [] && Run(c, e, evs).Some?
    requires var m := |evs| - 1; InFlight(Run(c, e, evs[..m]).value, id) && Quiet(Run(c, e, evs[..m]).value, evs[m], id.0)
    ensures InFlight(Run(c, e, evs).value, id) || GivenUpAt(c, e, evs, |evs| - 1, id)
  {
    hide Step, Enabled, InFlight, Books, TakenHere, Taken, EndsOnly, Dated;
    var m := |evs| - 1;
    var s := Run(c, e, evs[..m]).value;
    assert Run(c, e, evs) == Some(Step(c, e, s, evs[m])) && Enabled(s, evs[m]);
    StepEndsOnly(c, e, s, evs[m]);
    RunBooks(c, e, evs[..m]);
    var k := Concerned(c, s, evs[m]);
    if k.Some? && s.inflight[k.value].made == id.0 {
      TimerDecides(c, e, evs[..m], k.value, evs[m].calls);
      CountsAreTrue(c, e, evs[..m], k.value);
      MadeTellsOwner(e, s, k.value, id);
    } else {
      StillInFlight(s, Step(c, e, s, evs[m]), id, k);
    }
  }

  lemma MadeTellsOwner(e: Env, s: State, i: nat, id: (nat, nat))
    requires Books(e, s) && i < |s.inflight| && InFlight(s, id) && s.inflight[i].made == id.0
    ensures s.inflight[i].what.owner == id.1
  {
    hide Accounted, Dated;
    var j :| 0 <= j < |s.inflight| && Ids(s.inflight)[j] == id;
    assert All(s)[i] == s.inflight[i] && All(s)[j] == s.inflight[j];
  }
}
