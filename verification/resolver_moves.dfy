// Where the requests of a failed nameserver go.
module ResolverMoves {
  import opened Bytes
  import opened Resolver
  import opened ResolverServers
  import opened ResolverNet
  import opened ResolverBook
  import opened ResolverSafety
  import opened ResolverRuns

  // A request that was never sent to its nameserver a.
  predicate Unsent(r: Request, a: Address) {
    r.net.txCount == 0 && r.net.ns == Some(a)
  }

  // How many of them there are from place i up to place j.
  function UnsentFrom(rs: seq<Request>, a: Address, i: nat, j: nat): nat
    requires j <= |rs|
    decreases j - i
  {
    if i >= j then 0 else (if Unsent(rs[i], a) then 1 else 0) + UnsentFrom(rs, a, i + 1, j)
  }

  // The list u, turned by k places.
  function Turned(u: seq<Address>, k: nat): (t: seq<Address>)
    requires u != []
    ensures |t| == |u|
  {
    u[k % |u|..] + u[..k % |u|]
  }

  function InTurn(u: seq<Address>, k: nat): Address
    requires u != []
  {
    u[k % |u|]
  }

  lemma TurnedFirst(u: seq<Address>, k: nat)
    requires u != []
    ensures Turned(u, k)[0] == InTurn(u, k)
  {
  }

  lemma TurnedNext(u: seq<Address>, k: nat)
    requires u != []
    ensures Turned(u, k)[1..] + [Turned(u, k)[0]] == Turned(u, k + 1)
  {
    NextPlace(k, |u|);
    var m, n := k % |u|, |u|;
    if m + 1 == n {
      assert u[m..] == [u[m]];
    } else {
      assert u[m..] == [u[m]] + u[m + 1..] && u[..m + 1] == u[..m] + [u[m]];
    }
  }

  lemma NextPlace(k: nat, n: nat)
    requires 0 < n
    ensures (k + 1) % n == if k % n + 1 == n then 0 else k % n + 1
  {
    var q, m := k / n, k % n;
    assert k + 1 == q * n + (m + 1);
    if m + 1 == n {
      assert k + 1 == (q + 1) * n + 0;
      Remainder(k + 1, q + 1, 0, n);
    } else {
      Remainder(k + 1, q, m + 1, n);
    }
  }

  lemma Remainder(x: nat, q: nat, r: nat, n: nat)
    requires r < n && x == q * n + r
    ensures x % n == r
  {
    SameQuotient(x / n, x % n, q, r, n);
  }

  lemma SameQuotient(p: nat, s: nat, q: nat, r: nat, n: nat)
    requires r < n && s < n && p * n + s == q * n + r
    ensures s == r
  {
    if p < q {
      Larger(p, q, s, n);
    } else if q < p {
      Larger(q, p, r, n);
    }
  }

  lemma Larger(p: nat, q: nat, s: nat, n: nat)
    requires p < q && s < n
    ensures p * n + s < q * n
  {
    Times(q - p, n);
    assert (q - p) * n == q * n - p * n;
  }

  lemma Times(k: nat, n: nat)
    requires 0 < k
    ensures n <= k * n
  {
  }

  lemma {:induction false} UnsentSame(rs: seq<Request>, ws: seq<Request>, a: Address, i: nat, j: nat)
    requires j <= |rs| == |ws| && forall k :: i <= k < j ==> rs[k] == ws[k]
    ensures UnsentFrom(rs, a, i, j) == UnsentFrom(ws, a, i, j)
    decreases j - i
  {
    if i < j {
      UnsentSame(rs, ws, a, i + 1, j);
    }
  }

  // The unsent requests of server a, from place j on, get the good servers in turn; u is their list, turned by k.
  ghost predicate Dealt(s: State, s': State, a: Address, j: nat, u: seq<Address>, k: nat)
    requires u != []
  {
    && s'.servers == s.servers && s'.good == s.good && |s'.inflight| == |s.inflight|
    && ServersOk(s'.ring, s'.servers, s'.good)
    && Ups(s'.ring, s'.servers) == Turned(u, k + UnsentFrom(s.inflight, a, j, |s.inflight|))
    && forall i {:trigger s'.inflight[i]} :: 0 <= i < |s.inflight| ==>
         s'.inflight[i] ==
         if j <= i && Unsent(s.inflight[i], a)
         then s.inflight[i].(net := s.inflight[i].net.(ns := Some(InTurn(u, k + UnsentFrom(s.inflight, a, j, i)))))
         else s.inflight[i]
  }

  lemma {:induction false} ReassignGoesRound(s: State, a: Address, j: nat, u: seq<Address>, k: nat)
    requires j <= |s.inflight| && ServersOk(s.ring, s.servers, s.good) && 0 < s.good && u != []
    requires Ups(s.ring, s.servers) == Turned(u, k)
    ensures Dealt(s, Reassign(s, a, j), a, j, u, k)
    decreases |s.inflight| - j
  {
    hide Pick, ServersOk, Turned, InTurn, Ups;
    if j < |s.inflight| {
      if Unsent(s.inflight[j], a) {
        RingIsThere(s);
        PickIsFirstGood(s.ring, s.servers, s.good);
        TurnedFirst(u, k);
        TurnedNext(u, k);
        var p, n := Pick(s.ring, s.servers, s.good), s.inflight[j].net;
        var s1 := SetNet(s, j, n.(ns := p.ns)).(ring := p.ring);
        ReassignGoesRound(s1, a, j + 1, u, k + 1);
        DealtOneMore(s, s1, Reassign(s1, a, j + 1), a, j, u, k);
      } else {
        ReassignGoesRound(s, a, j + 1, u, k);
        DealtNoMore(s, Reassign(s, a, j + 1), a, j, u, k);
      }
    }
  }

  lemma RingIsThere(s: State)
    requires ServersOk(s.ring, s.servers, s.good) && 0 < s.good
    ensures s.ring != []
  {
  }

  lemma DealtOneMore(s: State, s1: State, s': State, a: Address, j: nat, u: seq<Address>, k: nat)
    requires j < |s.inflight| && Unsent(s.inflight[j], a) && u != []
    requires s1 == SetNet(s, j, s.inflight[j].net.(ns := Some(InTurn(u, k)))).(ring := s1.ring) && Dealt(s1, s', a, j + 1, u, k + 1)
    ensures Dealt(s, s', a, j, u, k)
  {
    hide ServersOk, Turned, InTurn, Ups;
    UnsentSame(s.inflight, s1.inflight, a, j + 1, |s.inflight|);
    forall i | 0 <= i < |s.inflight|
      ensures s'.inflight[i] ==
        if j <= i && Unsent(s.inflight[i], a)
        then s.inflight[i].(net := s.inflight[i].net.(ns := Some(InTurn(u, k + UnsentFrom(s.inflight, a, j, i)))))
        else s.inflight[i]
    {
      if j < i {
        UnsentSame(s.inflight, s1.inflight, a, j + 1, i);
      }
    }
  }

  lemma DealtNoMore(s: State, s': State, a: Address, j: nat, u: seq<Address>, k: nat)
    requires j < |s.inflight| && !Unsent(s.inflight[j], a) && u != [] && Dealt(s, s', a, j + 1, u, k)
    ensures Dealt(s, s', a, j, u, k)
  {
    hide ServersOk, Turned, InTurn, Ups;
  }

  // When a nameserver fails and another is good, its unsent requests go to good ones, in turn, and no other moves.
  lemma FailedServerIsLeft(c: Config, s: State, a: Address)
    requires Inv(c, s) && IsUp(s.servers, a) && 1 < s.good
    ensures var s' := ServerFailed(s, a); var u := Ups(s.ring, s'.servers);
      && s'.servers == s.servers[a := s.servers[a].(up := false, failedTimes := 1, probeTimer := true)]
      && s'.good == s.good - 1 == |u| && Distinct(u) && a !in u && (forall b :: b in u ==> IsUp(s'.servers, b))
      && Dealt(s.(servers := s'.servers, good := s'.good), s', a, 0, u, 0)
  {
    hide Ups, Reassign, Book, Balanced, Dealt;
    var down := s.servers[a].(up := false, failedTimes := 1, probeTimer := true);
    var s1 := SetServer(s, a, down).(good := s.good - 1);
    InvServers(c, s);
    ServersAfterChange(s.ring, s.servers, s.good, a, down);
    var u := Ups(s1.ring, s1.servers);
    UpsAreGood(s1.ring, s1.servers, s1.good);
    NoTurn(u);
    ReassignGoesRound(s1, a, 0, u, 0);
    DealtServers(s1, Reassign(s1, a, 0), a, 0, u, 0);
  }

  lemma DealtServers(s: State, s': State, a: Address, j: nat, u: seq<Address>, k: nat)
    requires u != [] && Dealt(s, s', a, j, u, k)
    ensures s'.servers == s.servers && s'.good == s.good
  {
  }

  lemma NoTurn(u: seq<Address>)
    requires u != []
    ensures Turned(u, 0) == u
  {
  }

  lemma InvServers(c: Config, s: State)
    requires Inv(c, s)
    ensures ServersOk(s.ring, s.servers, s.good) && forall a :: a in s.servers && s.servers[a].choked ==> s.servers[a].writeWaiting
  {
  }

  lemma UpsAreGood(ring: seq<Address>, servers: map<Address, Nameserver>, good: int)
    requires ServersOk(ring, servers, good)
    ensures var u := Ups(ring, servers); |u| == good && Distinct(u) && forall b :: b in u <==> IsUp(servers, b)
  {
    hide Ups;
    var u := Ups(ring, servers);
    UpsDistinct(ring, servers);
    forall b
      ensures b in u <==> IsUp(servers, b)
    {
      if IsUp(servers, b) {
        UpIsListed(ring, servers, b);
      }
      if b in u {
        var k :| 0 <= k < |u| && u[k] == b;
        UpsAreUp(ring, servers, k);
      }
    }
  }
}
