// Whole runs of the resolver: its books are true after any run, and it stays at work once it is.
module ResolverSteady {
  import opened Bytes
  import opened Names
  import opened Resolver
  import opened ResolverServers
  import opened ResolverNet
  import opened ResolverBook
  import opened ResolverSafety
  import opened ResolverRuns
  import opened ResolverResults

  // After any run: the counters are the lengths of the rings, no two inflight requests share an id and none has
  // the id that stands for none, every inflight request has a nameserver of the ring, user requests keep the
  // limit, and the count of good nameservers is the number of those in the ring that are up.
  lemma Bookkeeping(c: Config, e: Env, evs: seq<Event>)
    requires c.Ok() && e.Honest() && Run(c, e, evs).Some?
    ensures var s := Run(c, e, evs).value;
      && s.nInflight == |s.inflight| && s.nWaiting == |s.waiting|
      && IdsOk(s.inflight)
      && NonProbes(s.inflight) <= c.maxInflight
      && (forall i :: 0 <= i < |s.inflight| ==> s.inflight[i].net.ns.Some? && s.inflight[i].net.ns.value in s.ring)
      && (forall i :: 0 <= i < |s.waiting| ==> s.waiting[i].net == FRESH)
      && Distinct(s.ring) && s.good == |Ups(s.ring, s.servers)|
  {
    hide Run, Hist, Balanced, IdsOk, WithinLimits, Ups, Distinct;
    RunKeepsInv(c, e, evs);
    var s := Run(c, e, evs).value;
    forall i | 0 <= i < |s.inflight|
      ensures s.inflight[i].net.ns.Some? && s.inflight[i].net.ns.value in s.ring
    {
      assert Active(c, s.servers, s.inflight[i].net);
    }
  }

  // No two requests, inflight or waiting, are for the same lookup: no request is in both rings, or twice in one.
  lemma RingsAreDisjoint(c: Config, e: Env, evs: seq<Event>)
    requires c.Ok() && e.Honest() && Run(c, e, evs).Some?
    ensures var s := Run(c, e, evs).value; Distinct(OwnersOf(s.inflight) + OwnersOf(s.waiting))
  {
    hide Run, OwnersOf;
    var s := Run(c, e, evs).value;
    var os := OwnersOf(s.inflight) + OwnersOf(s.waiting);
    forall i, j | 0 <= i < j < |os|
      ensures os[i] != os[j]
    {
      ExactlyOneAnswer(c, e, evs, os[i]);
      if os[i] == os[j] {
        TwiceIsTwo(os, i, j);
      }
    }
  }

  lemma TwiceIsTwo(os: seq<nat>, i: nat, j: nat)
    requires i < j < |os| && os[i] == os[j]
    ensures multiset(os)[os[i]] >= 2
  {
    assert os == os[..i] + ([os[i]] + os[i + 1..]);
    var t := os[i + 1..];
    assert t[j - i - 1] == os[j];
    assert os[i] in multiset(t);
    assert multiset(os) == multiset(os[..i]) + (multiset{os[i]} + multiset(t));
  }

  // ---------- Nameservers stay ----------

  lemma {:induction false} PumpKeepsServers(c: Config, e: Env, s: State)
    ensures Pump(c, e, s).servers.Keys == s.servers.Keys
    decreases |s.waiting|
  {
    hide Transmit, TransmitAll, Promote;
    if s.nInflight < c.maxInflight && s.nWaiting != 0 && s.waiting != [] && s.ring != [] {
      PromoteFields(e, s);
      PromoteKeepsServers(e, s);
      PumpKeepsServers(c, e, TransmitAll(e, Transmit(e, Promote(e, s), |s.inflight|), 0));
    }
  }

  lemma AnswerKeepsServers(c: Config, e: Env, s: State, i: nat, err: Option<Error>, calls: seq<Lookup>)
    requires i < |s.inflight|
    ensures AnswerAndFinish(c, e, s, i, err, calls).servers.Keys == s.servers.Keys
  {
    hide Callback, ServerUp, Pump;
    CallbackKeepsServers(c, e, s, i, err, calls);
    var s1 := Callback(c, e, s, i, err, calls);
    var s2 := if err == None && s1.inflight[i].net.ns.Some? then ServerUp(s1, s1.inflight[i].net.ns.value) else s1;
    PumpKeepsServers(c, e, s2.(inflight := Remove(s2.inflight, i), nInflight := s2.nInflight - 1));
  }

  lemma PassOnKeepsServers(c: Config, e: Env, s: State, i: nat, err: Error, calls: seq<Lookup>)
    requires i < |s.inflight|
    ensures PassOn(c, e, s, i, err, calls).servers.Keys == s.servers.Keys
  {
    hide TryNext, AnswerAndFinish, Pump;
    if s.inflight[i].what.search.Some? && s.inflight[i].what.qtype != PTR {
      TryNextKeepsServers(c, e, s, i);
      var t := TryNext(c, e, s, i);
      if t.ok {
        PumpKeepsServers(c, e, t.s.(inflight := Remove(t.s.inflight, i), nInflight := t.s.nInflight - 1));
      } else {
        AnswerKeepsServers(c, e, t.s, i, Some(err), calls);
      }
    } else {
      AnswerKeepsServers(c, e, s, i, Some(err), calls);
    }
  }

  lemma PacketKeepsServers(c: Config, e: Env, s: State, a: Address, id: int, usable: bool, reply: Reply, calls: seq<Lookup>)
    requires a in s.servers
    ensures OnPacket(c, e, s, a, id, usable, reply, calls).servers.Keys == s.servers.Keys
  {
    hide AnswerAndFinish, BlameServer, PassOn, FindId;
    var s1 := SetServer(s, a, s.servers[a].(timedout := 0));
    var k := FindId(s1.inflight, id);
    if k.Some? && usable && s1.inflight[k.value].net.ns.Some? {
      var i := k.value;
      if reply.Answer? {
        AnswerKeepsServers(c, e, s1, i, None, calls);
      } else {
        var err := ErrorOf(reply.truncated, reply.rcode);
        PassOnKeepsServers(c, e, BlameServer(c, s1, i, err).s, i, err, calls);
      }
    }
  }

  lemma TimedOutKeepsServers(c: Config, e: Env, s: State, i: nat, calls: seq<Lookup>)
    requires Enabled(s, RequestTimer(i, calls))
    ensures TimedOut(c, e, s, i, calls).servers.Keys == s.servers.Keys
  {
    hide AnswerAndFinish, CountTimeout, Transmit;
    var s1 := CountTimeout(c, s, s.inflight[i].net.ns.value);
    var s2 := SetNet(s1, i, s1.inflight[i].net.(timer := false));
    AnswerKeepsServers(c, e, s2, i, Some(Timeout), calls);
  }

  lemma ProbeKeepsServers(c: Config, e: Env, s: State, a: Address)
    requires a in s.servers
    ensures SendProbe(c, e, s, a).servers.Keys == s.servers.Keys
  {
    hide NewRequest, Transmit;
  }

  // Only suspending takes nameservers away.
  lemma StepKeepsServers(c: Config, e: Env, s: State, ev: Event)
    requires Enabled(s, ev) && ev != Suspend
    ensures s.servers.Keys <= Step(c, e, s, ev).servers.Keys
  {
    hide Resolve, OnPacket, ServerFailed, TransmitAll, TimedOut, SendProbe, Pump;
    match ev
    case Ask(l) => AskKeepsServers(c, e, s, l);
    case Packet(a, id, usable, reply, calls) => PacketKeepsServers(c, e, s, a, id, usable, reply, calls);
    case RequestTimer(i, calls) => TimedOutKeepsServers(c, e, s, i, calls);
    case ProbeTimer(a) => ProbeKeepsServers(c, e, s, a);
    case Resume => PumpKeepsServers(c, e, s);
    case _ =>
  }

  lemma AskKeepsServers(c: Config, e: Env, s: State, l: Lookup)
    ensures Resolve(c, e, s, l).s.servers.Keys == s.servers.Keys
  {
    hide Resolve;
    ResolveAllKeepsServers(c, e, s, [l]);
    assert [l][1..] == [];
    assert ResolveAll(c, e, s, [l]) == ResolveAll(c, e, Resolve(c, e, s, [l][0]).s, [l][1..]);
  }

  // ---------- Never idle ----------

  // Once there are nameservers, and nothing waits or the limit is reached, it stays like that until the resolver
  // is suspended: requests wait only while the limit is reached.
  lemma {:induction false} StaysAtWork(c: Config, e: Env, evs: seq<Event>, n: nat)
    requires c.Ok() && e.Honest() && Run(c, e, evs).Some? && n <= |evs| && Run(c, e, evs[..n]).Some?
    requires var s := Run(c, e, evs[..n]).value; s.servers != map[] && Busy(c, s)
    requires forall i :: n <= i < |evs| ==> evs[i] != Suspend
    ensures var s := Run(c, e, evs).value; s.servers != map[] && Busy(c, s)
    decreases |evs|
  {
    hide Step, Inv, Enabled, Busy;
    var k := |evs| - 1;
    if n == |evs| {
      assert evs[..n] == evs;
    } else {
      assert evs[..k][..n] == evs[..n];
      StaysAtWork(c, e, evs[..k], n);
      var s := Run(c, e, evs[..k]).value;
      RunKeepsInv(c, e, evs[..k]);
      NeverIdle(c, e, s, evs[k]);
      StepKeepsServers(c, e, s, evs[k]);
      SomeServer(s, Step(c, e, s, evs[k]));
    }
  }

  lemma SomeServer(s: State, s': State)
    requires s.servers != map[] && s.servers.Keys <= s'.servers.Keys
    ensures s'.servers != map[]
  {
    var a :| a in s.servers;
    assert a in s'.servers.Keys;
  }

  // Resuming sets the resolver to work, whatever went before.
  lemma ResumeSetsToWork(c: Config, e: Env, evs: seq<Event>)
    requires c.Ok() && e.Honest() && Run(c, e, evs).Some? && evs != [] && evs[|evs| - 1] == Resume
    ensures var s := Run(c, e, evs).value; s.servers != map[] && Busy(c, s)
  {
    hide Inv, Busy, Pump;
    var k := |evs| - 1;
    var s := Run(c, e, evs[..k]).value;
    RunKeepsInv(c, e, evs[..k]);
    RingHasServers(c, s);
    NeverIdle(c, e, s, Resume);
    PumpKeepsServers(c, e, s);
    SomeServer(s, Step(c, e, s, Resume));
  }

  lemma RingHasServers(c: Config, s: State)
    requires Inv(c, s) && s.ring != []
    ensures s.servers != map[]
  {
    hide Book, Balanced;
    assert s.ring[0] in s.ring;
  }
}
