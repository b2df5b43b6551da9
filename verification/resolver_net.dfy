// Sending: which server a request has, how often it was sent, and that none is forgotten.
module ResolverNet {
  import opened Bytes
  import opened Resolver
  import opened ResolverServers

  ghost predicate Placed(servers: map<Address, Nameserver>, n: Progress) {
    n.ns.Some? && n.ns.value in servers
  }

  // The limits on counted transmissions: per server tried, and over all of them.
  ghost predicate WithinLimits(c: Config, n: Progress) {
    && n.txCount <= c.Attempts()
    && n.reissueCount <= c.maxReissues
    && n.sends <= c.Attempts() * n.reissueCount + n.txCount
  }

  // A request that may be sent again.
  ghost predicate Sendable(c: Config, servers: map<Address, Nameserver>, n: Progress) {
    Placed(servers, n) && WithinLimits(c, n) && n.txCount < c.Attempts()
  }

  // An inflight request is waiting for its timer or marked for sending, and marked only if it may be sent.
  ghost predicate Active(c: Config, servers: map<Address, Nameserver>, n: Progress) {
    && Placed(servers, n) && WithinLimits(c, n)
    && (n.timer || n.transmitMe)
    && (n.transmitMe ==> n.txCount < c.Attempts())
  }

  // Everything is in order, except for inflight requests at the places in `out`, which are about to leave
  // or being changed.
  ghost predicate NetOk(c: Config, s: State, out: set<nat>) {
    && ServersOk(s.ring, s.servers, s.good)
    && forall i :: 0 <= i < |s.inflight| && i !in out ==> Active(c, s.servers, s.inflight[i].net)
  }

  lemma PickKeepsNet(c: Config, s: State, out: set<nat>)
    requires NetOk(c, s, out) && s.ring != []
    ensures var p := Pick(s.ring, s.servers, s.good);
      && p.ns.Some? && p.ns.value in s.servers && (s.good > 0 ==> IsUp(s.servers, p.ns.value))
      && NetOk(c, s.(ring := p.ring), out)
  {
    PickIsFirstGood(s.ring, s.servers, s.good);
    if s.good > 0 {
      UpsAreUp(s.ring, s.servers, 0);
    }
  }

  // Changing a server's record but for its presence keeps every request placed.
  lemma ServerRecordKeepsNet(c: Config, s: State, out: set<nat>, a: Address, ns: Nameserver, good: int)
    requires NetOk(c, s, out) && a in s.servers && (ns.choked ==> ns.writeWaiting)
    requires good == s.good - (if s.servers[a].up then 1 else 0) + (if ns.up then 1 else 0)
    ensures NetOk(c, SetServer(s, a, ns).(good := good), out)
  {
    ServersAfterChange(s.ring, s.servers, s.good, a, ns);
    forall i | 0 <= i < |s.inflight| && i !in out
      ensures Active(c, s.servers[a := ns], s.inflight[i].net)
    {
      assert Active(c, s.servers, s.inflight[i].net);
    }
  }

  lemma ActiveElsewhere(c: Config, servers: map<Address, Nameserver>, n: Progress, ns: Option<Address>)
    requires Active(c, servers, n) && ns.Some? && ns.value in servers
    ensures Active(c, servers, n.(ns := ns))
  {
  }

  lemma {:induction false} ReassignKeepsNet(c: Config, s: State, out: set<nat>, a: Address, i: nat)
    requires NetOk(c, s, out) && i <= |s.inflight| && s.ring != []
    ensures NetOk(c, Reassign(s, a, i), out)
    decreases |s.inflight| - i
  {
    hide ServersOk, WithinLimits, Pick;
    if i < |s.inflight| {
      var n := s.inflight[i].net;
      if n.txCount == 0 && n.ns == Some(a) {
        var p := Pick(s.ring, s.servers, s.good);
        PickKeepsNet(c, s, out);
        var s1 := SetNet(s, i, n.(ns := p.ns)).(ring := p.ring);
        if i !in out {
          assert Active(c, s.servers, s.inflight[i].net);
          ActiveElsewhere(c, s.servers, n, p.ns);
        }
        PickKeepsRing(s.ring, s.servers, s.good);
        ReassignKeepsNet(c, s1, out, a, i + 1);
      } else {
        ReassignKeepsNet(c, s, out, a, i + 1);
      }
    }
  }

  lemma {:induction false} PickUpKeepsRing(ring: seq<Address>, servers: map<Address, Nameserver>, n: nat)
    requires ring != []
    ensures |PickUp(ring, servers, n).ring| == |ring|
    decreases n
  {
    if !IsUp(servers, ring[0]) && n > 1 {
      PickUpKeepsRing(Rotate(ring), servers, n - 1);
    }
  }

  lemma PickKeepsRing(ring: seq<Address>, servers: map<Address, Nameserver>, good: int)
    ensures |Pick(ring, servers, good).ring| == |ring|
  {
    if ring != [] && good != 0 {
      PickUpKeepsRing(ring, servers, |ring|);
    }
  }

  // A server going down keeps everything in order, whether or not requests are moved off it.
  lemma ServerFailedKeepsNet(c: Config, s: State, out: set<nat>, a: Address)
    requires NetOk(c, s, out)
    ensures NetOk(c, ServerFailed(s, a), out)
  {
    hide ServersOk, WithinLimits;
    if IsUp(s.servers, a) {
      var ns := s.servers[a].(up := false, failedTimes := 1, probeTimer := true);
      RingOfServer(s, a);
      ServerRecordKeepsNet(c, s, out, a, ns, s.good - 1);
      var s1 := SetServer(s, a, ns).(good := s.good - 1);
      if s1.good != 0 {
        ReassignKeepsNet(c, s1, out, a, 0);
      }
    }
  }

  lemma RingOfServer(s: State, a: Address)
    requires ServersOk(s.ring, s.servers, s.good) && a in s.servers
    ensures s.ring != []
    ensures s.servers[a].choked ==> s.servers[a].writeWaiting
  {
  }

  lemma ServerUpKeepsNet(c: Config, s: State, out: set<nat>, a: Address)
    requires NetOk(c, s, out)
    ensures NetOk(c, ServerUp(s, a), out)
  {
    if a in s.servers && !s.servers[a].up {
      ServerRecordKeepsNet(c, s, out, a, s.servers[a].(up := true, failedTimes := 0, timedout := 0, probeTimer := false), s.good + 1);
    }
  }

  lemma ProbeFailedKeepsNet(c: Config, s: State, out: set<nat>, a: Address)
    requires NetOk(c, s, out)
    ensures NetOk(c, ProbeFailed(s, a), out)
  {
    if a in s.servers {
      if s.servers[a].up {
        ServerRecordKeepsNet(c, s, out, a, s.servers[a].(probeTimer := false), s.good);
      } else {
        ServerRecordKeepsNet(c, s, out, a, s.servers[a].(failedTimes := s.servers[a].failedTimes + 1, probeTimer := true), s.good);
      }
    }
  }

  // Sending a request that may be sent leaves it, and all others, in order.
  lemma TransmitKeepsNet(c: Config, e: Env, s: State, out: set<nat>, i: nat)
    requires i < |s.inflight| && NetOk(c, s, out + {i}) && Sendable(c, s.servers, s.inflight[i].net)
    ensures NetOk(c, Transmit(e, s, i), out)
  {
    hide ServersOk, ServerFailed;
    var n := s.inflight[i].net.(transmitMe := true);
    var s1 := SetNet(s, i, n);
    assert Active(c, s.servers, n);
    assert NetOk(c, s1, out - {i});
    var a := n.ns.value;
    if !s.servers[a].choked {
      var s2 := s1.(tick := s.tick + 1, posts := s.posts + [Post(s.inflight[i].made, s.tick)]);
      assert NetOk(c, s2, out - {i});
      match e.send(s.tick)
      case Blocked =>
        ServerRecordKeepsNet(c, s2, out - {i}, a, s.servers[a].(choked := true, writeWaiting := true), s.good);
      case Sent =>
        TransmittedKeepsNet(c, s2, out - {i}, i);
      case Broken =>
        ServerFailedKeepsNet(c, s2, out - {i}, a);
        TransmittedKeepsNet(c, ServerFailed(s2, a), out - {i}, i);
    }
  }

  lemma TransmittedKeepsNet(c: Config, s: State, out: set<nat>, i: nat)
    requires i < |s.inflight| && NetOk(c, s, out) && i !in out && s.inflight[i].net.transmitMe
    ensures NetOk(c, Transmitted(s, i), out)
  {
    assert Active(c, s.servers, s.inflight[i].net);
    var s' := Transmitted(s, i);
    assert Active(c, s.servers, s'.inflight[i].net);
  }

  lemma {:induction false} TransmitAllKeepsNet(c: Config, e: Env, s: State, i: nat)
    requires i <= |s.inflight| && NetOk(c, s, {})
    ensures NetOk(c, TransmitAll(e, s, i), {})
    decreases |s.inflight| - i
  {
    hide ServersOk, Transmit;
    if i < |s.inflight| {
      assert Active(c, s.servers, s.inflight[i].net);
      if s.inflight[i].net.transmitMe {
        TransmitKeepsNet(c, e, s, {}, i);
        TransmitAllKeepsNet(c, e, Transmit(e, s, i), i + 1);
      } else {
        TransmitAllKeepsNet(c, e, s, i + 1);
      }
    }
  }

  // Trying another server allows a request a fresh round of transmissions, at most once per reissue.
  lemma ReissueKeepsNet(c: Config, s: State, i: nat)
    requires i < |s.inflight| && NetOk(c, s, {}) && c.Ok() && s.inflight[i].net.reissueCount < c.maxReissues
    ensures NetOk(c, Reissue(s, i).s, {})
  {
    hide ServersOk, Pick;
    var n := s.inflight[i].net;
    assert Active(c, s.servers, n);
    RingOfServer(s, n.ns.value);
    PickKeepsNet(c, s, {});
    var p := Pick(s.ring, s.servers, s.good);
    var s' := Reissue(s, i).s;
    assert c.Attempts() * (n.reissueCount + 1) == c.Attempts() * n.reissueCount + c.Attempts();
    assert Active(c, s.servers, s'.inflight[i].net);
  }
}
