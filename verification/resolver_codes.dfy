// What the code in the header of a reply does, by its number.
module ResolverCodes {
  import opened Bytes
  import opened Names
  import opened NameWriter
  import opened Resolver
  import opened ResolverServers
  import opened ResolverNet
  import opened ResolverBook
  import opened ResolverSafety
  import opened ResolverRuns
  import opened ResolverResults
  import opened ResolverAnswers
  import opened ResolverSends
  import opened ResolverAttempts
  import opened ResolverMoves
  import opened ResolverProbes

  // The numbers of DNS_ERR_FORMAT and the others.
  function Number(err: Error): nat {
    match err
    case Format => 1
    case ServerFailure => 2
    case NotExist => 3
    case NotImpl => 4
    case Refused => 5
    case Truncated => 65
    case Unknown => 66
    case Timeout => 67
  }

  // What the user is told for a header: the truncation bit counts first, and the codes 1 to 5 are passed on as they are.
  function NumberFor(truncated: bool, rcode: nat): nat {
    if truncated then 65 else if 1 <= rcode <= 5 then rcode else 66
  }

  lemma ErrorByNumber(truncated: bool, rcode: nat)
    ensures Number(ErrorOf(truncated, rcode)) == NumberFor(truncated, rcode)
    ensures ErrorOf(truncated, rcode) != Timeout
  {
  }

  lemma NumbersDiffer(a: Error, b: Error)
    requires Number(a) == Number(b)
    ensures a == b
  {
  }

  // A packet from server a with this code for the request in place i.
  predicate Failing(s: State, ev: Event, i: nat, truncated: bool, rcode: nat) {
    ev.Packet? && ev.usable && ev.reply == Failure(truncated, rcode) && FindId(s.inflight, ev.id) == Some(i)
  }

  // What any packet does first.
  function Received(s: State, ev: Event): State
    requires ev.Packet? && Enabled(s, ev)
  {
    SetServer(s, ev.server, s.servers[ev.server].(timedout := 0))
  }

  lemma ReceivedKeepsInv(c: Config, s: State, ev: Event)
    requires Inv(c, s) && ev.Packet? && Enabled(s, ev)
    ensures Inv(c, Received(s, ev)) && forall b :: IsUp(Received(s, ev).servers, b) <==> IsUp(s.servers, b)
  {
    hide Inv;
    ChokedAreWatched(c, s, ev.server);
    RecordKeepsInv(c, s, ev.server, s.servers[ev.server].(timedout := 0));
  }

  lemma FindsIn(rs: seq<Request>, id: int, i: nat)
    requires FindId(rs, id) == Some(i)
    ensures i < |rs| && rs[i].id == id
  {
  }

  // With all ids different, a packet finds the request with its id, wherever it stands, or none has it.
  lemma {:induction false} FoundById(rs: seq<Request>, id: int, i: nat)
    requires IdsOk(rs) && i < |rs| && rs[i].id == id
    ensures FindId(rs, id) == Some(i)
  {
    if i > 0 {
      FoundById(rs[1..], id, i - 1);
    }
  }

  // A packet that can be read, with the id of a request in flight, is for that request.
  lemma PacketIsFor(c: Config, s: State, ev: Event, i: nat)
    requires Inv(c, s) && ev.Packet? && ev.usable && i < |s.inflight|
    ensures s.inflight[i].id == ev.id <==> ReplyTo(s, ev) == Some(i)
  {
    hide Active, Tracks, TriedOk, Balanced, ServersOk;
    if s.inflight[i].id == ev.id {
      FoundById(s.inflight, ev.id, i);
    }
  }

  // A nameserver that is added is up, with nothing against it, and the others stay as they are.
  lemma AddedIsClean(c: Config, e: Env, s: State, a: Address)
    requires a !in s.servers
    ensures var s' := Step(c, e, s, AddServer(a));
      && a in s'.servers && s'.good == s.good + 1 && (forall b :: b in s.servers ==> b in s'.servers && s'.servers[b] == s.servers[b])
      && var n := s'.servers[a];
         n.up && !n.choked && !n.writeWaiting && !n.probeTimer && n.timedout == 0 && n.failedTimes == 0
  {
  }

  // ---------- Refusals ----------

  // Both the failing of server a and the reissue pick a server for request i, and pick the same.
  predicate ComesBack(s: State, a: Address, i: nat)
    requires i < |s.inflight|
  {
    IsUp(s.servers, a) && Unsent(s.inflight[i], a) && 1 < s.good
    && UnsentFrom(s.inflight, a, i, |s.inflight|) % (s.good - 1) == 0
  }

  // The request in place i is still there, marked for a good server other than a, as if it had not been sent.
  ghost predicate MovedOn(s: State, s': State, a: Address, i: nat)
    requires i < |s.inflight|
  {
    && |s'.inflight| == |s.inflight| && s'.answered == s.answered && s'.told == s.told
    && var r, r' := s.inflight[i], s'.inflight[i];
       && r'.made == r.made && r'.what == r.what
       && r'.net.ns.Some? && r'.net.ns.value != a && IsUp(s'.servers, r'.net.ns.value)
       && r'.net.txCount == 0 && r'.net.transmitMe && r'.net.reissueCount == r.net.reissueCount + 1
  }

  lemma OthersAreCounted(c: Config, s: State, a: Address, b: Address)
    requires Inv(c, s) && b != a && IsUp(s.servers, b)
    ensures 0 < s.good && (IsUp(s.servers, a) ==> 1 < s.good) && s.ring != []
  {
    hide Inv, Ups;
    InvServers(c, s);
    UpsAreGood(s.ring, s.servers, s.good);
    var u := Ups(s.ring, s.servers);
    var k :| 0 <= k < |u| && u[k] == b;
    RingIsThere(s);
  }

  lemma {:induction false} UnsentSplits(rs: seq<Request>, a: Address, i: nat, k: nat, j: nat)
    requires i <= k <= j <= |rs|
    ensures UnsentFrom(rs, a, i, j) == UnsentFrom(rs, a, i, k) + UnsentFrom(rs, a, k, j)
    decreases k - i
  {
    if i < k {
      UnsentSplits(rs, a, i + 1, k, j);
    }
  }

  // Two turns meet the same one of some different servers if they are whole rounds apart.
  lemma SameTurn(u: seq<Address>, x: nat, d: nat)
    requires u != [] && Distinct(u)
    ensures InTurn(u, x) == InTurn(u, x + d) <==> d % |u| == 0
  {
    var g := |u|;
    RoundsApart(x, d, g);
    assert x % g < g && (x + d) % g < g;
  }

  lemma RoundsApart(x: nat, d: nat, g: nat)
    requires 0 < g
    ensures (x + d) % g == x % g <==> d % g == 0
  {
    var p, t, m := (x + d) / g, x / g, x % g;
    if d % g == 0 {
      var q := d / g;
      Distribute(t, q, g);
      Remainder(x + d, t + q, m, g);
    }
    if (x + d) % g == m {
      Ordered(t, p, g, m, x, d);
      Distribute(t, p - t, g);
      Remainder(d, p - t, 0, g);
    }
  }

  lemma Distribute(t: nat, q: nat, g: nat)
    ensures (t + q) * g == t * g + q * g
  {
  }

  lemma Ordered(t: nat, p: nat, g: nat, m: nat, x: nat, d: nat)
    requires 0 < g && x == t * g + m && x + d == p * g + m
    ensures t <= p
  {
    if p < t {
      Larger(p, t, 0, g);
    }
  }

  // The pick of the reissue, after server a is down.
  lemma SecondPick(c: Config, s: State, a: Address, i: nat)
    requires Inv(c, s) && i < |s.inflight| && s.inflight[i].net.ns == Some(a) && a in s.servers
    requires exists b :: b != a && IsUp(s.servers, b)
    ensures var f := ServerFailed(s, a);
      var p := Pick(f.ring, f.servers, f.good);
      && f.ring != [] && !IsUp(f.servers, a) && p.ns.Some? && IsUp(f.servers, p.ns.value) && p.ns.value != a
      && (p.ns == f.inflight[i].net.ns <==> ComesBack(s, a, i))
  {
    hide Inv, ServerFailed, Pick, Ups;
    var b :| b != a && IsUp(s.servers, b);
    OthersAreCounted(c, s, a, b);
    var f := ServerFailed(s, a);
    FailureKeepsInv(c, s, a);
    InvServers(c, f);
    if IsUp(s.servers, a) {
      PickAfterFailure(c, s, a, i);
    } else {
      DownAlready(s, a);
      InvServers(c, s);
      PickIsFirstGood(s.ring, s.servers, s.good);
      UpsAreGood(s.ring, s.servers, s.good);
    }
  }

  lemma DownAlready(s: State, a: Address)
    requires !IsUp(s.servers, a)
    ensures ServerFailed(s, a) == s
  {
  }

  lemma PickAfterFailure(c: Config, s: State, a: Address, i: nat)
    requires Inv(c, s) && i < |s.inflight| && s.inflight[i].net.ns == Some(a) && IsUp(s.servers, a) && 1 < s.good
    ensures var f := ServerFailed(s, a);
      var p := Pick(f.ring, f.servers, f.good);
      && f.ring != [] && !IsUp(f.servers, a) && p.ns.Some? && IsUp(f.servers, p.ns.value) && p.ns.value != a
      && (p.ns == f.inflight[i].net.ns <==> ComesBack(s, a, i))
  {
    hide Inv, ServerFailed, Pick, Ups, UnsentFrom, Turned;
    var f := ServerFailed(s, a);
    FailedServerIsLeft(c, s, a);
    var u, n := Ups(s.ring, f.servers), |s.inflight|;
    var x := UnsentFrom(s.inflight, a, 0, i);
    RingIsThere(f);
    PickIsFirstGood(f.ring, f.servers, f.good);
    TurnedFirst(u, UnsentFrom(s.inflight, a, 0, n));
    UnsentSplits(s.inflight, a, 0, i, n);
    SameTurn(u, x, UnsentFrom(s.inflight, a, i, n));
    assert InTurn(u, UnsentFrom(s.inflight, a, 0, n)) in u;
  }

  // With another good server, an answer with code 4 or 5 takes the server down, and the request moves on to a good one;
  // unless it was never sent to its server and comes back to the one it was just given, when the error is passed on.
  lemma RefusalMovesOn(c: Config, e: Env, s: State, ev: Event, i: nat, rcode: nat)
    requires c.Ok() && Inv(c, s) && Enabled(s, ev) && Failing(s, ev, i, false, rcode) && (rcode == 4 || rcode == 5)
    requires i < |s.inflight| && s.inflight[i].net.ns.Some? && s.inflight[i].net.reissueCount < c.maxReissues
    requires exists b :: b != s.inflight[i].net.ns.value && IsUp(s.servers, b)
    ensures var a, s' := s.inflight[i].net.ns.value, Step(c, e, s, ev);
      !ComesBack(s, a, i) ==> MovedOn(s, s', a, i) && !IsUp(s'.servers, a)
    ensures var a := s.inflight[i].net.ns.value;
      ComesBack(s, a, i) ==> exists f, err :: Number(err) == rcode && GivesUpOn(s, f, a, i) && Step(c, e, s, ev) == PassOn(c, e, f, i, err, ev.calls)
  {
    hide Inv, PassOn, ServerFailed, FindId, Pick, UnsentFrom, ComesBack;
    var a := s.inflight[i].net.ns.value;
    var s1 := Received(s, ev);
    ReceivedKeepsInv(c, s, ev);
    PlacedThere(c, s1, i);
    SecondPick(c, s1, a, i);
    SameComesBack(s, s1, a, i);
    OnlyServersNow(s1, a, i);
    var f, err := ServerFailed(s1, a), ErrorOf(false, rcode);
    if ComesBack(s, a, i) {
      var f' := Reissue(f, i).s;
      GivenUp(s, s1, a, i, f');
      assert Number(err) == rcode && GivesUpOn(s, f', a, i) && Step(c, e, s, ev) == PassOn(c, e, f', i, err, ev.calls);
    }
  }

  // The server is down, and the request has a good one that it was not sent to.
  ghost predicate GivesUpOn(s: State, f: State, a: Address, i: nat)
    requires i < |s.inflight|
  {
    && |f.inflight| == |s.inflight| && f.answered == s.answered && f.told == s.told && !IsUp(f.servers, a)
    && var r, r' := s.inflight[i], f.inflight[i];
       && r'.made == r.made && r'.what == r.what && r'.net.txCount == 0
       && r'.net.ns.Some? && r'.net.ns.value != a && IsUp(f.servers, r'.net.ns.value)
  }

  lemma GivenUp(s: State, s1: State, a: Address, i: nat, f': State)
    requires i < |s.inflight| && s1.inflight == s.inflight && s1.answered == s.answered && s1.told == s.told
    requires var f := ServerFailed(s1, a); var p := Pick(f.ring, f.servers, f.good);
      && i < |f.inflight| && f' == Reissue(f, i).s && p.ns == f.inflight[i].net.ns
      && p.ns.Some? && p.ns.value != a && IsUp(f.servers, p.ns.value) && !IsUp(f.servers, a)
    requires Unsent(s.inflight[i], a)
    ensures GivesUpOn(s, f', a, i)
  {
    hide ServerFailed, Pick;
    assert OnlyServersChange(s1, ServerFailed(s1, a));
  }

  lemma SameComesBack(s: State, s1: State, a: Address, i: nat)
    requires i < |s.inflight| && s1.inflight == s.inflight && s1.good == s.good && (IsUp(s1.servers, a) <==> IsUp(s.servers, a))
    ensures ComesBack(s1, a, i) <==> ComesBack(s, a, i)
    ensures ComesBack(s, a, i) ==> Unsent(s.inflight[i], a)
  {
  }

  lemma OnlyServersNow(s: State, a: Address, i: nat)
    requires i < |s.inflight|
    ensures var f := ServerFailed(s, a); OnlyServersChange(s, f) && f.inflight[i] == s.inflight[i].(net := s.inflight[i].net.(ns := f.inflight[i].net.ns))
  {
    hide ServerFailed;
  }

  lemma PlacedThere(c: Config, s: State, i: nat)
    requires Inv(c, s) && i < |s.inflight|
    ensures s.inflight[i].net.ns.Some? && s.inflight[i].net.ns.value in s.servers
  {
    InvPlaces(c, s, i);
  }

  // Two good servers, and a request marked for one of them that it was not sent to: a refusal that comes now, say once
  // more from a server it was sent to before, takes that one down and is passed on although the other is good.
  lemma ComesBackExample()
    ensures var name: Name := [97];
      var r := Request(0, Purpose(0, None, A, name, None), 7, Progress(Some(1), 0, 1, true, true, 1));
      var s := State([r], [], 1, 0, [1, 2], map[1 := NEW_SERVER, 2 := NEW_SERVER], 2, [Lookup(name, A, false)], [], [], map[0 := [name]], [], 3);
      Inv(Config(64, 2, 3, 3, [], 1), s) && ComesBack(s, 1, 0) && IsUp(s.servers, 2)
  {
    var name: Name := [97];
    var r := Request(0, Purpose(0, None, A, name, None), 7, Progress(Some(1), 0, 1, true, true, 1));
    var ring, servers: map<Address, Nameserver> := [1, 2], map[1 := NEW_SERVER, 2 := NEW_SERVER];
    var s := State([r], [], 1, 0, ring, servers, 2, [Lookup(name, A, false)], [], [], map[0 := [name]], [], 3);
    var c := Config(64, 2, 3, 3, [], 1);
    BothUp(ring, servers);
    assert Active(c, s.servers, r.net);
    assert NonProbes(s.inflight) == 1 by {
      assert s.inflight[1..] == [];
    }
    assert OwnersOf(s.inflight) == [0] && OwnersOf(s.waiting) == [] && UpTo(1) == [0];
    assert Tracks(c, s.asked, s.tried, r.what);
  }

  lemma BothUp(ring: seq<Address>, servers: map<Address, Nameserver>)
    requires ring == [1, 2] && servers == map[1 := NEW_SERVER, 2 := NEW_SERVER]
    ensures ServersOk(ring, servers, 2)
  {
    assert ring[1..] == [2] && [2 as Address][1..] == [];
    assert Ups([], servers) == [] && Ups([2], servers) == [2] && Ups(ring, servers) == [1, 2];
    assert ring[0] == 1 && ring[1] == 2;
  }

  // ---------- The other codes ----------

  // Code 2 is passed on, and so are 4 and 5 when there are no reissues left, with no server marked.
  lemma FailurePassesOn(c: Config, e: Env, s: State, ev: Event, i: nat, rcode: nat)
    requires Inv(c, s) && Enabled(s, ev) && Failing(s, ev, i, false, rcode) && i < |s.inflight|
    requires rcode == 2 || ((rcode == 4 || rcode == 5) && s.inflight[i].net.reissueCount >= c.maxReissues)
    ensures exists err :: Number(err) == rcode && Step(c, e, s, ev) == PassOn(c, e, Received(s, ev), i, err, ev.calls)
  {
    hide Inv, PassOn, FindId;
    PlacedThere(c, s, i);
    var err := ErrorOf(false, rcode);
    assert Number(err) == rcode && Step(c, e, s, ev) == PassOn(c, e, Received(s, ev), i, err, ev.calls);
  }

  // Any other code, and truncation, is a good sign: the server is up when the error is passed on.
  lemma OtherCodesAreGood(c: Config, e: Env, s: State, ev: Event, i: nat, truncated: bool, rcode: nat)
    requires Inv(c, s) && Enabled(s, ev) && Failing(s, ev, i, truncated, rcode) && i < |s.inflight|
    requires truncated || (rcode != 2 && rcode != 4 && rcode != 5)
    ensures exists f, err ::
      Number(err) == NumberFor(truncated, rcode) && GoodSign(s, f, i) && Step(c, e, s, ev) == PassOn(c, e, f, i, err, ev.calls)
  {
    hide Inv, PassOn, FindId;
    PlacedThere(c, s, i);
    var f, err := ServerUp(Received(s, ev), s.inflight[i].net.ns.value), ErrorOf(truncated, rcode);
    assert GoodSign(s, f, i);
    assert Number(err) == NumberFor(truncated, rcode) && Step(c, e, s, ev) == PassOn(c, e, f, i, err, ev.calls);
  }

  // The server of request i is up, and the others are as they were.
  ghost predicate GoodSign(s: State, f: State, i: nat)
    requires i < |s.inflight|
  {
    && f.inflight == s.inflight && f.answered == s.answered && s.inflight[i].net.ns.Some?
    && var a := s.inflight[i].net.ns.value;
       IsUp(f.servers, a) && forall b :: b != a ==> (IsUp(f.servers, b) <==> IsUp(s.servers, b))
  }

  // ---------- What the user is told ----------

  // Whenever a packet makes a lookup be answered, the user is told success for an answer, and for an error its number.
  lemma ToldByNumber(c: Config, e: Env, evs: seq<Event>, ev: Event, o: nat)
    requires c.Ok() && e.Honest() && Run(c, e, evs).Some? && Enabled(Run(c, e, evs).value, ev) && ev.Packet?
    requires JustAnswered(Run(c, e, evs).value, Step(c, e, Run(c, e, evs).value, ev), o)
    ensures var s := Run(c, e, evs).value;
      var s' := Step(c, e, s, ev);
      && s'.answered == s.answered + [o] && |s'.told| == |s.told| + 1 && s'.told[..|s.told|] == s.told
      && match ev.reply
         case Answer => s'.told[|s.told|] == None
         case Failure(truncated, rcode) =>
           s'.told[|s.told|].Some? && Number(s'.told[|s.told|].value) == NumberFor(truncated, rcode)
  {
    hide Run, AnswerAndFinish, PassOn, BlameServer, FindId;
    var s := Run(c, e, evs).value;
    var s1 := Received(s, ev);
    var i := FindId(s1.inflight, ev.id).value;
    match ev.reply
    case Answer => AnswerAnswersOne(c, e, s1, i, None, ev.calls);
    case Failure(truncated, rcode) =>
      var err := ErrorOf(truncated, rcode);
      var b := BlameServer(c, s1, i, err);
      PassOnTells(c, e, b.s, i, err, ev.calls);
  }

  lemma PassOnTells(c: Config, e: Env, s: State, i: nat, err: Error, calls: seq<Lookup>)
    requires i < |s.inflight|
    ensures var s' := PassOn(c, e, s, i, err, calls);
      || (s'.answered == s.answered && s'.told == s.told)
      || (s'.answered == s.answered + [s.inflight[i].what.owner] && s'.told == s.told + [Some(err)])
  {
    hide TryNext, Finished, AnswerAndFinish;
    if s.inflight[i].what.search.Some? && s.inflight[i].what.qtype != PTR {
      var t := TryNext(c, e, s, i);
      TryNextAnswersNobody(c, e, s, i);
      FinishedGoesOn(c, e, t.s, i);
      AnswerAnswersOne(c, e, t.s, i, Some(err), calls);
    } else {
      AnswerAnswersOne(c, e, s, i, Some(err), calls);
    }
  }

  // ---------- Success, timeouts and errors ----------

  // An answer that could be used: the user is told success first, and then the server is up when the request ends.
  lemma AnswerIsGood(c: Config, e: Env, s: State, ev: Event, i: nat)
    requires Inv(c, s) && Enabled(s, ev) && ev.Packet? && ev.usable && ev.reply == Answer
    requires FindId(s.inflight, ev.id) == Some(i) && i < |s.inflight|
    ensures exists f :: GoodEnd(s, f, i) && Step(c, e, s, ev) == Finished(c, e, f, i)
    ensures ev.calls == [] ==> Step(c, e, s, ev).answered == s.answered + [s.inflight[i].what.owner]
  {
    hide Inv, Finished, FindId, ResolveAll, ServerUp, ProbeFailed;
    PlacedThere(c, s, i);
    var s1 := Received(s, ev);
    var s2 := Callback(c, e, s1, i, None, ev.calls);
    CallbackTellsOnly(c, e, s1, i, None, ev.calls);
    var f := if s2.inflight[i].net.ns.Some? then ServerUp(s2, s2.inflight[i].net.ns.value) else s2;
    if s2.inflight[i].net.ns.Some? {
      UpNow(s2, i);
    }
    assert GoodEnd(s, f, i);
    AnswerAnswersOne(c, e, s1, i, None, ev.calls);
  }

  // Its lookup is answered with success, and the server of the request, if that is known, is up.
  ghost predicate GoodEnd(s: State, f: State, i: nat)
    requires i < |s.inflight|
  {
    && i < |f.inflight| && f.answered == s.answered + [s.inflight[i].what.owner] && f.told == s.told + [None]
    && (f.inflight[i].net.ns.Some? && f.inflight[i].net.ns.value in f.servers ==> IsUp(f.servers, f.inflight[i].net.ns.value))
  }

  lemma UpNow(s: State, i: nat)
    requires i < |s.inflight| && s.inflight[i].net.ns.Some?
    ensures var a := s.inflight[i].net.ns.value;
      a in ServerUp(s, a).servers ==> IsUp(ServerUp(s, a).servers, a)
  {
  }

  lemma CallbackTellsOnly(c: Config, e: Env, s: State, i: nat, err: Option<Error>, calls: seq<Lookup>)
    requires i < |s.inflight|
    ensures var s' := Callback(c, e, s, i, err, calls);
      i < |s'.inflight| && s'.answered == s.answered + [s.inflight[i].what.owner] && s'.told == s.told + [err]
  {
    hide ResolveAll, ServerUp, ProbeFailed;
    if s.inflight[i].what.probe.None? {
      ResolveAllGoesOn(c, e, Heard(s, s.inflight[i].what.owner, err), calls);
    }
  }

  // A timer that fires counts against the server of its request; one timeout more than maxTimeouts takes it down.
  lemma TimeoutsAddUp(c: Config, e: Env, s: State, i: nat, calls: seq<Lookup>)
    requires Enabled(s, RequestTimer(i, calls)) && s.inflight[i].net.txCount < c.maxRetransmits
    requires IsUp(s.servers, s.inflight[i].net.ns.value) && AllUnchoked(s) && forall n :: e.send(n) == Sending.Sent
    ensures var a, s' := s.inflight[i].net.ns.value, Step(c, e, s, RequestTimer(i, calls));
      && a in s'.servers
      && (s.servers[a].timedout < c.maxTimeouts ==> s'.servers[a].up && s'.servers[a].timedout == s.servers[a].timedout + 1)
      && (s.servers[a].timedout >= c.maxTimeouts ==> !s'.servers[a].up && s'.servers[a].timedout == 0)
  {
    hide Reassign, TransmitAll;
    var a := s.inflight[i].net.ns.value;
    FailedKeepsCount(SetServer(s, a, s.servers[a].(timedout := 0)), a);
    SentKeepsServers(e, SetNet(CountTimeout(c, s, a), i, CountTimeout(c, s, a).inflight[i].net.(timer := false)), i);
  }

  lemma FailedKeepsCount(s: State, a: Address)
    requires IsUp(s.servers, a)
    ensures var s' := ServerFailed(s, a); a in s'.servers && !s'.servers[a].up && s'.servers[a].timedout == s.servers[a].timedout
  {
    hide Reassign;
    ReassignKeepsServers(SetServer(s, a, s.servers[a].(up := false, failedTimes := 1, probeTimer := true)).(good := s.good - 1), a, 0);
  }

  lemma SentKeepsServers(e: Env, s: State, i: nat)
    requires i < |s.inflight| && forall n :: e.send(n) == Sending.Sent
    ensures Transmit(e, s, i).servers == s.servers
  {
  }

  // A packet that cannot be read takes the server down, and one that can be starts its count of timeouts again.
  lemma ReadingTells(c: Config, e: Env, s: State, a: Address)
    requires Enabled(s, ReadError(a))
    ensures !IsUp(Step(c, e, s, ReadError(a)).servers, a)
    ensures forall id, usable, reply, calls :: FindId(s.inflight, id).None? ==>
      Step(c, e, s, Packet(a, id, usable, reply, calls)) == SetServer(s, a, s.servers[a].(timedout := 0))
  {
    hide Reassign;
    if IsUp(s.servers, a) {
      FailedKeepsCount(s, a);
    }
  }

  // A probe goes to the server whose timer has fired, and nowhere else.
  lemma ProbeGoesThere(c: Config, e: Env, s: State, a: Address)
    requires Enabled(s, ProbeTimer(a)) && e.memory(s.tick + 1)
    ensures var s' := Step(c, e, s, ProbeTimer(a));
      && |s'.inflight| == |s.inflight| + 1 && !(a in s'.servers && s'.servers[a].up && !s.servers[a].up)
      && var r := s'.inflight[|s.inflight|];
         && r.what.probe == Some(a) && r.what.qtype == A && r.what.name == PROBE_NAME
         && (!s.servers[a].choked && (forall n :: e.send(n) == Sending.Sent) ==>
               r.net.ns == Some(a) && exists q :: s'.posts == s.posts + [Post(r.made, q)])
  {
    hide NewRequest, Transmit, IdsOf, FindId;
    var s0 := SetServer(s, a, s.servers[a].(probeTimer := false));
    var w := Purpose(|s.asked|, Some(a), A, PROBE_NAME, None);
    var m := NewRequest(c, e, s0, w);
    ProbeIsMade(c, e, s0, w);
    NewRequestProbes(c, e, s0, w);
    NewRequestSame(c, e, s0, w);
    var r := m.req.value.(id := e.freeId(m.s.tick, IdsOf(m.s.inflight)), net := FRESH.(ns := Some(a)));
    var s1 := m.s.(tick := m.s.tick + 1, asked := s.asked + [Lookup(PROBE_NAME, A, false)]);
    var s2 := s1.(inflight := s1.inflight + [r], nInflight := s1.nInflight + 1);
    TransmitCounts(e, s2, |s.inflight|);
    SameUps(e, s2, |s.inflight|, a);
    if !s.servers[a].choked && forall n :: e.send(n) == Sending.Sent {
      SentKeepsPlace(e, s2, |s.inflight|);
    }
  }

  lemma NewRequestSame(c: Config, e: Env, s: State, what: Purpose)
    ensures var m := NewRequest(c, e, s, what); m.s.posts == s.posts && m.s.inflight == s.inflight && m.s.servers == s.servers
  {
    hide Pick, ShortLabels, IdsOf;
  }

  lemma SentKeepsPlace(e: Env, s: State, i: nat)
    requires i < |s.inflight| && forall n :: e.send(n) == Sending.Sent
    ensures Transmit(e, s, i).inflight[i].net.ns == s.inflight[i].net.ns
  {
  }

  lemma SameUps(e: Env, s: State, i: nat, a: Address)
    requires i < |s.inflight|
    ensures a in Transmit(e, s, i).servers && Transmit(e, s, i).servers[a].up ==> a in s.servers && s.servers[a].up
  {
    hide Reassign;
    var n := s.inflight[i].net;
    if n.ns.Some? && n.ns.value in s.servers && IsUp(s.servers, n.ns.value) {
      FailedOnly(SetNet(s, i, n.(transmitMe := true)).(tick := s.tick + 1, posts := s.posts + [Post(s.inflight[i].made, s.tick)]), n.ns.value, a);
    }
  }

  lemma FailedOnly(s: State, b: Address, a: Address)
    requires IsUp(s.servers, b)
    ensures a in ServerFailed(s, b).servers && ServerFailed(s, b).servers[a].up ==> a in s.servers && s.servers[a].up
  {
    hide Reassign;
    ReassignKeepsServers(SetServer(s, b, s.servers[b].(up := false, failedTimes := 1, probeTimer := true)).(good := s.good - 1), b, 0);
  }

  // When a socket can be written again and every packet is taken, all that waits for its server goes out.
  lemma WritableSendsAll(c: Config, e: Env, s: State, a: Address, j: nat)
    requires Enabled(s, Writable(a)) && j < |s.inflight| && forall n :: e.send(n) == Sending.Sent
    ensures var s' := Step(c, e, s, Writable(a));
      |s'.inflight| == |s.inflight| && a in s'.servers && !s'.servers[a].choked && (s'.inflight[j].net.transmitMe ==> s'.inflight[j].net.ns != Some(a))
  {
    hide TransmitAll, AnyToTransmit;
    var s1 := SetServer(s, a, s.servers[a].(choked := false));
    WritableSendsMarked(e, s, a, j);
    AllSentKeepsServers(e, s1, 0);
  }

  // With nothing to send the resolver no longer waits to write to it, and otherwise it still does.
  lemma WritableRests(c: Config, e: Env, s: State, a: Address)
    requires Enabled(s, Writable(a)) && forall n :: e.send(n) == Sending.Sent
    ensures var s' := Step(c, e, s, Writable(a));
      a in s'.servers && (s'.servers[a].writeWaiting <==> exists i :: 0 <= i < |s.inflight| && s.inflight[i].net.transmitMe)
  {
    hide TransmitAll;
    AllSentKeepsServers(e, SetServer(s, a, s.servers[a].(choked := false)), 0);
  }

  lemma {:induction false} AllSentKeepsServers(e: Env, s: State, i: nat)
    requires i <= |s.inflight| && forall n :: e.send(n) == Sending.Sent
    ensures TransmitAll(e, s, i).servers == s.servers
    decreases |s.inflight| - i
  {
    hide Transmit;
    if i < |s.inflight| {
      SentKeepsServers(e, s, i);
      AllSentKeepsServers(e, Transmit(e, s, i), i + 1);
      AllSentKeepsServers(e, s, i + 1);
    }
  }

  // ---------- Probes ----------

  // A probe that is answered, or told that its name does not exist (code 3), brings its server back; any other result
  // counts as one more failure of a server that is down, which is probed again, and leaves one that is up alone.
  lemma ProbeTells(c: Config, e: Env, s: State, i: nat, err: Option<Error>, calls: seq<Lookup>, a: Address)
    requires i < |s.inflight| && s.inflight[i].what.probe == Some(a) && a in s.servers
    ensures var s' := Callback(c, e, s, i, err, calls);
      && a in s'.servers
      && (err.None? || Number(err.value) == 3 ==> s'.servers[a].up)
      && (err.Some? && Number(err.value) != 3 ==>
            && s'.servers[a].up == s.servers[a].up
            && (!s.servers[a].up ==> s'.servers[a].probeTimer && s'.servers[a].failedTimes == s.servers[a].failedTimes + 1))
      && forall b :: b != a && b in s.servers ==> b in s'.servers && s'.servers[b] == s.servers[b]
  {
  }
}
