// Counting what is sent: by the questions put to sendto, not by the counters of the requests.
module ResolverSends {
  import opened Bytes
  import opened Names
  import opened NameWriter
  import opened Resolver
  import opened ResolverServers
  import opened ResolverNet
  import opened ResolverBook
  import opened ResolverSafety
  import opened ResolverRuns
  import opened ResolverResults
  import opened ResolverAnswers

  // ---------- One send ----------

  // A request can be sent: its nameserver is there, and its socket takes packets.
  predicate CanGo(s: State, n: Progress) {
    n.ns.Some? && n.ns.value in s.servers && !s.servers[n.ns.value].choked
  }

  // evdns_request_transmit asks sendto once, if it can. What is not blocked counts, starts the timer and takes the mark
  // off; what is blocked does not, and chokes the socket. No other request is touched but for its nameserver.
  lemma TransmitCounts(e: Env, s: State, i: nat)
    requires i < |s.inflight|
    ensures var s', n := Transmit(e, s, i), s.inflight[i].net; var n' := s'.inflight[i].net;
      if !CanGo(s, n) then s' == SetNet(s, i, n.(transmitMe := true))
      else
        && s'.tick == s.tick + 1 && s'.posts == s.posts + [Post(s.inflight[i].made, s.tick)]
        && if e.send(s.tick) == Blocked
           then n' == n.(transmitMe := true) && n.ns.value in s'.servers && s'.servers[n.ns.value].choked
           else n'.txCount == n.txCount + 1 && n'.timer && !n'.transmitMe && n'.reissueCount == n.reissueCount && n'.sends == n.sends + 1
    ensures var s' := Transmit(e, s, i);
      forall j :: 0 <= j < |s.inflight| && j != i ==>
        s'.inflight[j] == s.inflight[j].(net := s.inflight[j].net.(ns := s'.inflight[j].net.ns))
  {
    hide ServerFailed;
  }

  // ---------- Counting ----------

  // How often a packet was taken for a request since it was made or all requests last started over.
  ghost function Taken(e: Env, posts: seq<Post>, made: nat): nat {
    if posts == [] then 0
    else
      var rest := Taken(e, posts[..|posts| - 1], made);
      match posts[|posts| - 1]
      case Suspension => 0
      case Anew(_) => rest
      case Post(m, q) => if m == made && e.send(q) != Blocked then rest + 1 else rest
  }

  // The same since it last turned to another server.
  ghost function TakenHere(e: Env, posts: seq<Post>, made: nat): nat {
    if posts == [] then 0
    else
      var rest := TakenHere(e, posts[..|posts| - 1], made);
      match posts[|posts| - 1]
      case Suspension => 0
      case Anew(m) => if m == made then 0 else rest
      case Post(m, q) => if m == made && e.send(q) != Blocked then rest + 1 else rest
  }

  lemma TakenNext(e: Env, posts: seq<Post>, p: Post, made: nat)
    ensures Taken(e, posts + [p], made) ==
      if p.Suspension? then 0
      else Taken(e, posts, made) + if p.Post? && p.made == made && e.send(p.question) != Blocked then 1 else 0
    ensures TakenHere(e, posts + [p], made) ==
      if p.Suspension? || (p.Anew? && p.made == made) then 0
      else TakenHere(e, posts, made) + if p.Post? && p.made == made && e.send(p.question) != Blocked then 1 else 0
  {
    assert (posts + [p])[..|posts|] == posts;
  }

  // Each post is of a request made before, with a question asked after that; the questions come in order.
  ghost predicate Dated(posts: seq<Post>, tick: nat) {
    && (forall k :: 0 <= k < |posts| && posts[k].Post? ==> posts[k].made < posts[k].question < tick)
    && forall k, l :: 0 <= k < l < |posts| && posts[k].Post? && posts[l].Post? ==> posts[k].question < posts[l].question
  }

  lemma {:induction false} NoneBefore(e: Env, posts: seq<Post>, made: nat)
    requires forall k :: 0 <= k < |posts| && posts[k].Post? ==> posts[k].made < made
    ensures Taken(e, posts, made) == TakenHere(e, posts, made) == 0
  {
    if posts != [] {
      NoneBefore(e, posts[..|posts| - 1], made);
    }
  }

  // The counters of a request are true.
  ghost predicate Accounted(e: Env, posts: seq<Post>, r: Request) {
    && r.net.sends == Taken(e, posts, r.made) && r.net.txCount == TakenHere(e, posts, r.made)
    && (r.net.reissueCount == 0 ==> r.net.sends == r.net.txCount && (r.net.timer ==> 0 < r.net.txCount))
  }

  ghost predicate Ledger(e: Env, posts: seq<Post>, tick: nat, xs: seq<Request>) {
    && Dated(posts, tick)
    && (forall i :: 0 <= i < |xs| ==> xs[i].made < tick && Accounted(e, posts, xs[i]))
    && forall i, j :: 0 <= i < j < |xs| ==> xs[i].made != xs[j].made
  }

  function All(s: State): seq<Request> {
    s.inflight + s.waiting
  }

  ghost predicate Books(e: Env, s: State) {
    Ledger(e, s.posts, s.tick, All(s))
  }

  // What the counts look at has not changed.
  ghost predicate SameAccount(r: Request, r': Request) {
    && r'.made == r.made && r'.net.sends == r.net.sends && r'.net.txCount == r.net.txCount
    && r'.net.reissueCount == r.net.reissueCount && (r'.net.timer ==> r.net.timer)
  }

  lemma LedgerSame(e: Env, posts: seq<Post>, tick: nat, tick': nat, xs: seq<Request>, ys: seq<Request>)
    requires Ledger(e, posts, tick, xs) && tick <= tick' && |ys| == |xs|
    requires forall i :: 0 <= i < |xs| ==> SameAccount(xs[i], ys[i])
    ensures Ledger(e, posts, tick', ys)
  {
    hide Taken, TakenHere;
  }

  lemma LedgerMore(e: Env, posts: seq<Post>, tick: nat, xs: seq<Request>, ys: seq<Request>, r: Request)
    requires Ledger(e, posts, tick, xs + ys) && r.made < tick && Accounted(e, posts, r)
    requires forall i :: 0 <= i < |xs + ys| ==> (xs + ys)[i].made != r.made
    ensures Ledger(e, posts, tick, xs + [r] + ys)
  {
    hide Accounted, Dated;
    var a, b, n := xs + ys, xs + [r] + ys, |xs|;
    forall i | 0 <= i < |b|
      ensures b[i].made < tick && Accounted(e, posts, b[i])
    {
      assert b[i] == if i < n then a[i] else if i == n then r else a[i - 1];
    }
    forall i, j | 0 <= i < j < |b|
      ensures b[i].made != b[j].made
    {
      assert b[i] == if i < n then a[i] else if i == n then r else a[i - 1];
      assert b[j] == if j < n then a[j] else if j == n then r else a[j - 1];
    }
  }

  lemma LedgerLess(e: Env, posts: seq<Post>, tick: nat, xs: seq<Request>, i: nat)
    requires Ledger(e, posts, tick, xs) && i < |xs|
    ensures Ledger(e, posts, tick, xs[..i] + xs[i + 1..])
  {
    hide Accounted, Dated;
    var b := xs[..i] + xs[i + 1..];
    assert forall k :: 0 <= k < |b| ==> b[k] == if k < i then xs[k] else xs[k + 1];
  }

  // A question on behalf of request i.
  lemma LedgerPost(e: Env, posts: seq<Post>, tick: nat, xs: seq<Request>, i: nat, r: Request)
    requires Ledger(e, posts, tick, xs) && i < |xs| && r.made == xs[i].made && r.net.reissueCount == xs[i].net.reissueCount
    requires var k := if e.send(tick) != Blocked then 1 else 0;
      r.net.sends == xs[i].net.sends + k && r.net.txCount == xs[i].net.txCount + k && (k == 0 ==> r.net.timer == xs[i].net.timer)
    ensures Ledger(e, posts + [Post(r.made, tick)], tick + 1, xs[i := r])
  {
    hide Taken, TakenHere;
    var p, ys := Post(r.made, tick), xs[i := r];
    forall j | 0 <= j < |xs|
      ensures Accounted(e, posts + [p], ys[j])
    {
      assert Accounted(e, posts, xs[j]);
      TakenNext(e, posts, p, xs[j].made);
    }
  }

  // Request i turns to another server.
  lemma LedgerAnew(e: Env, posts: seq<Post>, tick: nat, xs: seq<Request>, i: nat, r: Request)
    requires Ledger(e, posts, tick, xs) && i < |xs| && r.made == xs[i].made
    requires r.net.sends == xs[i].net.sends && r.net.txCount == 0 && 0 < r.net.reissueCount
    ensures Ledger(e, posts + [Anew(r.made)], tick, xs[i := r])
  {
    hide Taken, TakenHere;
    var p, ys := Anew(r.made), xs[i := r];
    forall j | 0 <= j < |xs|
      ensures Accounted(e, posts + [p], ys[j])
    {
      assert Accounted(e, posts, xs[j]);
      TakenNext(e, posts, p, xs[j].made);
    }
  }

  ghost predicate Apart(xs: seq<Request>, tick: nat) {
    && (forall i :: 0 <= i < |xs| ==> xs[i].made < tick)
    && forall i, j :: 0 <= i < j < |xs| ==> xs[i].made != xs[j].made
  }

  // All start over.
  lemma LedgerSuspended(e: Env, posts: seq<Post>, tick: nat, xs: seq<Request>)
    requires Dated(posts, tick) && Apart(xs, tick) && forall i :: 0 <= i < |xs| ==> xs[i].net == FRESH
    ensures Ledger(e, posts + [Suspension], tick, xs)
  {
    hide Taken, TakenHere;
    forall j | 0 <= j < |xs|
      ensures Accounted(e, posts + [Suspension], xs[j])
    {
      TakenNext(e, posts, Suspension, xs[j].made);
    }
  }

  // ---------- Every operation keeps the books ----------

  lemma SameBooks(e: Env, s: State, s': State)
    requires Books(e, s) && s'.posts == s.posts && s.tick <= s'.tick && |All(s')| == |All(s)|
    requires forall i :: 0 <= i < |All(s)| ==> SameAccount(All(s)[i], All(s')[i])
    ensures Books(e, s')
  {
    LedgerSame(e, s.posts, s.tick, s'.tick, All(s), All(s'));
  }

  lemma OnlyServersBooks(e: Env, s: State, s': State)
    requires Books(e, s) && OnlyServersChange(s, s')
    ensures Books(e, s')
  {
    hide Books;
    forall i | 0 <= i < |All(s)|
      ensures SameAccount(All(s)[i], All(s')[i])
    {
      assert i < |s.inflight| ==> s'.inflight[i] == s.inflight[i].(net := s.inflight[i].net.(ns := s'.inflight[i].net.ns));
    }
    SameBooks(e, s, s');
  }

  lemma TransmitBooks(e: Env, s: State, i: nat)
    requires i < |s.inflight| && Books(e, s)
    ensures Books(e, Transmit(e, s, i))
  {
    hide Transmit, Ledger;
    var s', n := Transmit(e, s, i), s.inflight[i].net;
    TransmitCounts(e, s, i);
    if !CanGo(s, n) {
      SameBooks(e, s, s');
    } else {
      var xs := All(s)[i := s'.inflight[i]];
      LedgerPost(e, s.posts, s.tick, All(s), i, s'.inflight[i]);
      LedgerSame(e, s'.posts, s'.tick, s'.tick, xs, All(s'));
    }
  }

  lemma {:induction false} TransmitAllBooks(e: Env, s: State, i: nat)
    requires i <= |s.inflight| && Books(e, s)
    ensures Books(e, TransmitAll(e, s, i))
    decreases |s.inflight| - i
  {
    hide Transmit, Books;
    if i < |s.inflight| {
      if s.inflight[i].net.transmitMe {
        TransmitBooks(e, s, i);
        TransmitAllBooks(e, Transmit(e, s, i), i + 1);
      } else {
        TransmitAllBooks(e, s, i + 1);
      }
    }
  }

  // A request that request_new has just made, which nobody else has.
  ghost predicate New(e: Env, s: State, r: Request) {
    && r.made < s.tick && Accounted(e, s.posts, r) && forall i :: 0 <= i < |All(s)| ==> All(s)[i].made != r.made
  }

  lemma NewRequestBooks(c: Config, e: Env, s: State, what: Purpose)
    requires Books(e, s)
    ensures var m := NewRequest(c, e, s, what);
      && Books(e, m.s) && m.s.posts == s.posts && All(m.s) == All(s) && (m.req.Some? ==> New(e, m.s, m.req.value))
  {
    hide Pick, ShortLabels, IdsOf, Ledger;
    var m := NewRequest(c, e, s, what);
    SameBooks(e, s, m.s);
    if m.req.Some? {
      Unposted(e, s, m.req.value, m.s.tick);
    }
  }

  lemma Unposted(e: Env, s: State, r: Request, tick: nat)
    requires Books(e, s) && r.made == s.tick < tick && r.net == FRESH.(ns := r.net.ns)
    ensures Accounted(e, s.posts, r) && forall i :: 0 <= i < |All(s)| ==> All(s)[i].made != r.made
  {
    NoneBefore(e, s.posts, r.made);
  }

  lemma SubmitBooks(e: Env, s: State, r: Request)
    requires Books(e, s) && New(e, s, r)
    ensures Books(e, Submit(e, s, r))
  {
    hide Transmit, Ledger, Accounted;
    var none: seq<Request> := [];
    if r.net.ns.Some? {
      var s1 := s.(inflight := s.inflight + [r], nInflight := s.nInflight + 1);
      LedgerMore(e, s.posts, s.tick, s.inflight, s.waiting, r);
      TransmitBooks(e, s1, |s.inflight|);
    } else {
      assert All(s) + none == All(s) && s.inflight + (s.waiting + [r]) == All(s) + [r] + none;
      LedgerMore(e, s.posts, s.tick, All(s), none, r);
    }
  }

  lemma IssueBooks(c: Config, e: Env, s: State, what: Purpose)
    requires Books(e, s)
    ensures Books(e, Issue(c, e, s, what).s)
  {
    hide NewRequest, Submit, Books, New;
    var m := NewRequest(c, e, s, what);
    NewRequestBooks(c, e, s, what);
    if m.req.Some? {
      SubmitBooks(e, m.s, m.req.value);
    }
  }

  lemma TryNextBooks(c: Config, e: Env, s: State, i: nat)
    requires i < |s.inflight| && s.inflight[i].what.search.Some? && Books(e, s)
    ensures Books(e, TryNext(c, e, s, i).s)
  {
    hide Issue, Dots, Books;
    var w := s.inflight[i].what;
    var k, name := w.search.value.done, w.search.value.origname;
    var s1 := s.(inflight := s.inflight[i := s.inflight[i].(what := w.(search := Some(Search(k + 1, name))))]);
    SameBooks(e, s, s1);
    IssueBooks(c, e, s1, w.(name := name, search := None));
    if k < |c.domains| {
      SameBooks(e, s1, s1.(tick := s.tick + 1));
      IssueBooks(c, e, s1.(tick := s.tick + 1), w.(name := WithDomain(name, c.domains[k]), search := Some(Search(k + 1, name))));
    }
  }

  lemma ResolveBooks(c: Config, e: Env, s: State, l: Lookup)
    requires Books(e, s)
    ensures Books(e, Resolve(c, e, s, l).s)
  {
    hide Submit, NewRequest, FirstQuery, Books, New;
    var first := FirstQuery(c, l, |s.asked|);
    var s0 := s.(tick := s.tick + 1);
    SameBooks(e, s, s0);
    var m := NewRequest(c, e, s0, first);
    NewRequestBooks(c, e, s0, first);
    if m.req.Some? {
      var s1 := m.s.(asked := s.asked + [l]);
      SameBooks(e, m.s, s1);
      NewStays(e, m.s, s1, m.req.value);
      SubmitBooks(e, s1, m.req.value);
    }
  }

  lemma NewStays(e: Env, s: State, s': State, r: Request)
    requires New(e, s, r) && s'.posts == s.posts && s.tick <= s'.tick && All(s') == All(s)
    ensures New(e, s', r)
  {
  }

  lemma {:induction false} ResolveAllBooks(c: Config, e: Env, s: State, ls: seq<Lookup>)
    requires Books(e, s)
    ensures Books(e, ResolveAll(c, e, s, ls))
    decreases |ls|
  {
    hide Resolve, Books;
    if ls != [] {
      ResolveBooks(c, e, s, ls[0]);
      ResolveAllBooks(c, e, Resolve(c, e, s, ls[0]).s, ls[1..]);
    }
  }

  lemma PromoteBooks(e: Env, s: State)
    requires s.waiting != [] && Books(e, s)
    ensures Books(e, Promote(e, s)) && |Promote(e, s).inflight| == |s.inflight| + 1 && |Promote(e, s).waiting| < |s.waiting|
  {
    hide Pick, IdsOf, Ledger, Books;
    SameBooks(e, s, Promote(e, s));
  }

  lemma {:induction false} PumpBooks(c: Config, e: Env, s: State)
    requires Books(e, s)
    ensures Books(e, Pump(c, e, s))
    decreases |s.waiting|
  {
    hide Promote, Transmit, TransmitAll, Books;
    if s.nInflight < c.maxInflight && s.nWaiting != 0 && s.waiting != [] && s.ring != [] {
      PromoteBooks(e, s);
      var s2 := Transmit(e, Promote(e, s), |s.inflight|);
      TransmitBooks(e, Promote(e, s), |s.inflight|);
      TransmitAllBooks(e, s2, 0);
      PumpBooks(c, e, TransmitAll(e, s2, 0));
    }
  }

  lemma FinishedBooks(c: Config, e: Env, s: State, i: nat)
    requires i < |s.inflight| && Books(e, s)
    ensures Books(e, Finished(c, e, s, i))
  {
    hide Pump, Ledger;
    var s1 := s.(inflight := Remove(s.inflight, i), nInflight := s.nInflight - 1);
    LedgerLess(e, s.posts, s.tick, All(s), i);
    assert All(s)[..i] + All(s)[i + 1..] == All(s1);
    PumpBooks(c, e, s1);
  }

  lemma AnswerBooks(c: Config, e: Env, s: State, i: nat, err: Option<Error>, calls: seq<Lookup>)
    requires i < |s.inflight| && Books(e, s)
    ensures Books(e, AnswerAndFinish(c, e, s, i, err, calls))
  {
    hide ResolveAll, ServerUp, ProbeFailed, Finished, Books;
    var s0, w := Heard(s, s.inflight[i].what.owner, err), s.inflight[i].what;
    SameBooks(e, s, s0);
    match w.probe {
      case Some(a) =>
        UpBooks(e, s0, a);
      case None =>
        ResolveAllBooks(c, e, s0, calls);
    }
    var s1 := Callback(c, e, s, i, err, calls);
    if err == None && s1.inflight[i].net.ns.Some? {
      UpBooks(e, s1, s1.inflight[i].net.ns.value);
      FinishedBooks(c, e, ServerUp(s1, s1.inflight[i].net.ns.value), i);
    } else {
      FinishedBooks(c, e, s1, i);
    }
  }

  lemma UpBooks(e: Env, s: State, a: Address)
    requires Books(e, s)
    ensures Books(e, ServerUp(s, a)) && Books(e, ProbeFailed(s, a))
  {
    hide Ledger;
  }

  lemma ReissueBooks(e: Env, s: State, i: nat)
    requires i < |s.inflight| && Books(e, s)
    ensures Books(e, Reissue(s, i).s)
  {
    hide Pick, Ledger;
    var s' := Reissue(s, i).s;
    if Reissue(s, i).ok {
      LedgerAnew(e, s.posts, s.tick, All(s), i, s'.inflight[i]);
      assert All(s') == All(s)[i := s'.inflight[i]];
    } else {
      SameBooks(e, s, s');
    }
  }

  lemma BlameBooks(c: Config, e: Env, s: State, i: nat, err: Error)
    requires i < |s.inflight| && s.inflight[i].net.ns.Some? && Books(e, s)
    ensures Books(e, BlameServer(c, s, i, err).s)
  {
    hide ServerUp, ServerFailed, Reissue, Books;
    var a := s.inflight[i].net.ns.value;
    UpBooks(e, s, a);
    OnlyServersBooks(e, s, ServerFailed(s, a));
    ReissueBooks(e, ServerFailed(s, a), i);
  }

  lemma ReplyBooks(c: Config, e: Env, s: State, i: nat, reply: Reply, calls: seq<Lookup>)
    requires i < |s.inflight| && s.inflight[i].net.ns.Some? && Books(e, s)
    ensures Books(e, ReplyHandle(c, e, s, i, reply, calls))
  {
    hide Books, BlameServer, TryNext, Finished, AnswerAndFinish;
    if reply.Answer? {
      AnswerBooks(c, e, s, i, None, calls);
    } else {
      var err := ErrorOf(reply.truncated, reply.rcode);
      BlameBooks(c, e, s, i, err);
      var s1 := BlameServer(c, s, i, err).s;
      AnswerBooks(c, e, s1, i, Some(err), calls);
      if s1.inflight[i].what.search.Some? {
        TryNextBooks(c, e, s1, i);
        FinishedBooks(c, e, TryNext(c, e, s1, i).s, i);
        AnswerBooks(c, e, TryNext(c, e, s1, i).s, i, Some(err), calls);
      }
    }
  }

  lemma TimedOutBooks(c: Config, e: Env, s: State, i: nat, calls: seq<Lookup>)
    requires i < |s.inflight| && s.inflight[i].net.ns.Some? && s.inflight[i].net.ns.value in s.servers && Books(e, s)
    ensures Books(e, TimedOut(c, e, s, i, calls))
  {
    hide Books, CountTimeout, AnswerAndFinish, Transmit;
    var s1 := CountTimeout(c, s, s.inflight[i].net.ns.value);
    OnlyServersBooks(e, s, s1);
    var s2 := SetNet(s1, i, s1.inflight[i].net.(timer := false));
    SameBooks(e, s1, s2);
    AnswerBooks(c, e, s2, i, Some(Timeout), calls);
    TransmitBooks(e, s2, i);
  }

  lemma SendProbeBooks(c: Config, e: Env, s: State, a: Address)
    requires a in s.servers && Books(e, s)
    ensures Books(e, SendProbe(c, e, s, a))
  {
    hide Books, NewRequest, Submit, New, IdsOf;
    var s0 := SetServer(s, a, s.servers[a].(probeTimer := false));
    SameBooks(e, s, s0);
    var w := Purpose(|s.asked|, Some(a), A, PROBE_NAME, None);
    NewRequestBooks(c, e, s0, w);
    var m := NewRequest(c, e, s0, w);
    if m.req.Some? {
      var r := m.req.value.(id := e.freeId(m.s.tick, IdsOf(m.s.inflight)), net := FRESH.(ns := Some(a)));
      var s1 := m.s.(tick := m.s.tick + 1, asked := s.asked + [Lookup(PROBE_NAME, A, false)]);
      SameBooks(e, m.s, s1);
      NewIsFresh(c, e, s0, w);
      AlsoNew(e, m.s, s1, m.req.value, r);
      SubmitBooks(e, s1, r);
    }
  }

  lemma NewIsFresh(c: Config, e: Env, s: State, what: Purpose)
    ensures var m := NewRequest(c, e, s, what); m.req.Some? ==> m.req.value.net == FRESH.(ns := m.req.value.net.ns)
  {
    hide Pick, ShortLabels, IdsOf;
  }

  lemma AlsoNew(e: Env, s: State, s': State, r: Request, r': Request)
    requires New(e, s, r) && r'.made == r.made && r.net == FRESH.(ns := r.net.ns) && r'.net == FRESH.(ns := r'.net.ns)
    requires s'.posts == s.posts && s.tick <= s'.tick && All(s') == All(s)
    ensures New(e, s', r')
  {
    hide Taken, TakenHere;
  }

  lemma SuspendBooks(e: Env, s: State)
    requires Books(e, s) && forall i :: 0 <= i < |s.waiting| ==> s.waiting[i].net == FRESH
    ensures Books(e, Suspended(s))
  {
    hide Shelve, Accounted;
    if s.ring != [] {
      ShelvedMades(s.inflight, s.waiting, s.tick);
      LedgerSuspended(e, s.posts, s.tick, Shelve(s.inflight, s.waiting));
      assert All(Suspended(s)) == Shelve(s.inflight, s.waiting);
    }
  }

  // Shelving starts every request over and keeps them apart.
  lemma {:induction false} ShelvedMades(rs: seq<Request>, ws: seq<Request>, tick: nat)
    requires Apart(rs + ws, tick) && forall i :: 0 <= i < |ws| ==> ws[i].net == FRESH
    ensures Apart(Shelve(rs, ws), tick)
    ensures forall i :: 0 <= i < |Shelve(rs, ws)| ==> Shelve(rs, ws)[i].net == FRESH
    decreases |rs|
  {
    if rs == [] {
      assert rs + ws == ws;
    } else {
      var r := rs[0].(id := 0, net := FRESH);
      ApartTurned(rs, ws, r, tick);
      ShelvedMades(rs[1..], [r] + ws, tick);
      assert Shelve(rs, ws) == Shelve(rs[1..], [r] + ws);
    }
  }

  lemma ApartTurned(rs: seq<Request>, ws: seq<Request>, r: Request, tick: nat)
    requires rs != [] && Apart(rs + ws, tick) && r.made == rs[0].made
    ensures Apart(rs[1..] + ([r] + ws), tick)
  {
    var a, b, n := rs + ws, rs[1..] + ([r] + ws), |rs| - 1;
    forall i | 0 <= i < |b|
      ensures b[i].made < tick
    {
      assert b[i].made == a[if i < n then i + 1 else if i == n then 0 else i].made;
    }
    forall i, j | 0 <= i < j < |b|
      ensures b[i].made != b[j].made
    {
      assert b[i].made == a[if i < n then i + 1 else if i == n then 0 else i].made;
      assert b[j].made == a[if j < n then j + 1 else if j == n then 0 else j].made;
    }
  }

  // ---------- Who goes out at once ----------

  // A request that has a nameserver when it is submitted goes out at once, if it can.
  lemma SubmittedIsSent(e: Env, s: State, r: Request)
    requires CanGo(s, r.net)
    ensures var s' := Submit(e, s, r);
      && s'.posts == s.posts + [Post(r.made, s.tick)] && s'.tick == s.tick + 1
      && |s'.inflight| == |s.inflight| + 1 && s'.inflight[|s.inflight|].made == r.made
      && (e.send(s.tick) != Blocked ==> s'.inflight[|s.inflight|].net.txCount == r.net.txCount + 1 && s'.inflight[|s.inflight|].net.timer)
  {
    hide Transmit;
    TransmitCounts(e, s.(inflight := s.inflight + [r], nInflight := s.nInflight + 1), |s.inflight|);
  }

  // No socket opens.
  ghost predicate StaysChoked(s: State, s': State) {
    forall a :: a in s'.servers && !s'.servers[a].choked ==> a in s.servers && !s.servers[a].choked
  }

  // Without errors from sendto, sending leaves the other requests alone and opens no socket.
  lemma TransmitUnbroken(e: Env, s: State, i: nat)
    requires i < |s.inflight| && forall n :: e.send(n) != Broken
    ensures var s' := Transmit(e, s, i);
      && StaysChoked(s, s') && |s'.inflight| == |s.inflight|
      && (forall j :: 0 <= j < |s.inflight| && j != i ==> s'.inflight[j] == s.inflight[j])
      && (s'.inflight[i].net.transmitMe ==> !CanGo(s', s'.inflight[i].net))
  {
  }

  // evdns_transmit: without errors from sendto, what is still marked from place i on cannot go.
  lemma {:induction false} MarkedAreSent(e: Env, s: State, i: nat)
    requires i <= |s.inflight| && forall n :: e.send(n) != Broken
    ensures var s' := TransmitAll(e, s, i);
      && StaysChoked(s, s') && |s'.inflight| == |s.inflight|
      && (forall j :: 0 <= j < i ==> s'.inflight[j] == s.inflight[j])
      && forall j :: i <= j < |s.inflight| && s'.inflight[j].net.transmitMe ==> !CanGo(s', s'.inflight[j].net)
    decreases |s.inflight| - i
  {
    hide Transmit;
    if i < |s.inflight| {
      if s.inflight[i].net.transmitMe {
        TransmitUnbroken(e, s, i);
        MarkedAreSent(e, Transmit(e, s, i), i + 1);
      } else {
        MarkedAreSent(e, s, i + 1);
      }
    }
  }

  // When a socket can be written again, all that waits for it goes out, or it is blocked once more.
  lemma WritableSendsMarked(e: Env, s: State, a: Address, j: nat)
    requires a in s.servers && j < |s.inflight| && forall n :: e.send(n) != Broken
    ensures var s' := OnWritable(e, s, a);
      |s'.inflight| == |s.inflight| && (s'.inflight[j].net.transmitMe && s'.inflight[j].net.ns == Some(a) && a in s'.servers ==> s'.servers[a].choked)
  {
    hide TransmitAll, AnyToTransmit;
    MarkedAreSent(e, SetServer(s, a, s.servers[a].(choked := false)), 0);
  }
}
