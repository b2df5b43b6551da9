// The ring of nameservers: the count of good ones is true, and picking goes round them in order.
module ResolverServers {
  import opened Bytes
  import opened Resolver

  ghost predicate Distinct<T>(xs: seq<T>) {
    forall i, j :: 0 <= i < j < |xs| ==> xs[i] != xs[j]
  }

  ghost predicate RingOk(ring: seq<Address>, servers: map<Address, Nameserver>) {
    Distinct(ring) && forall a :: a in servers <==> a in ring
  }

  // The servers of the ring that are up, from the head on.
  function Ups(ring: seq<Address>, servers: map<Address, Nameserver>): seq<Address> {
    if ring == [] then []
    else (if IsUp(servers, ring[0]) then [ring[0]] else []) + Ups(ring[1..], servers)
  }

  ghost predicate ServersOk(ring: seq<Address>, servers: map<Address, Nameserver>, good: int) {
    && RingOk(ring, servers)
    && good == |Ups(ring, servers)|
    && forall a :: a in servers && servers[a].choked ==> servers[a].writeWaiting
  }

  lemma {:induction false} UpsConcat(a: seq<Address>, b: seq<Address>, servers: map<Address, Nameserver>)
    ensures Ups(a + b, servers) == Ups(a, servers) + Ups(b, servers)
  {
    if a == [] {
      assert a + b == b;
    } else {
      UpsConcat(a[1..], b, servers);
      assert (a + b)[1..] == a[1..] + b;
    }
  }

  lemma RotateRing(ring: seq<Address>, servers: map<Address, Nameserver>)
    requires ring != [] && RingOk(ring, servers)
    ensures RingOk(Rotate(ring), servers)
    ensures var u := Ups(ring, servers);
      Ups(Rotate(ring), servers) == if IsUp(servers, ring[0]) then u[1..] + [u[0]] else u
  {
    var r := Rotate(ring);
    forall a
      ensures a in servers <==> a in r
    {
      if a in ring {
        var k :| 0 <= k < |ring| && ring[k] == a;
        assert r[if k == 0 then |ring| - 1 else k - 1] == a;
      }
    }
    UpsConcat(ring[1..], [ring[0]], servers);
    assert Ups([ring[0]], servers) == if IsUp(servers, ring[0]) then [ring[0]] else [];
  }

  lemma {:induction false} PickUpFindsFirst(ring: seq<Address>, servers: map<Address, Nameserver>, n: nat)
    requires RingOk(ring, servers) && 0 < n <= |ring| && Ups(ring[..n], servers) != []
    ensures var p, u := PickUp(ring, servers, n), Ups(ring, servers);
      && u != [] && p.ns == Some(u[0])
      && RingOk(p.ring, servers) && Ups(p.ring, servers) == u[1..] + [u[0]]
    decreases n
  {
    hide RingOk, Ups;
    RotateRing(ring, servers);
    var x, t := ring[0], ring[1..n];
    assert ring[..n] == [x] + t;
    UpsCons(x, t, servers);
    if IsUp(servers, x) {
      assert ring == [x] + ring[1..];
      UpsCons(x, ring[1..], servers);
    } else {
      assert t == Rotate(ring)[..n - 1];
      assert Ups(ring[..n], servers) == Ups(t, servers);
      PickUpFindsFirst(Rotate(ring), servers, n - 1);
    }
  }

  lemma UpsCons(x: Address, ring: seq<Address>, servers: map<Address, Nameserver>)
    ensures Ups([x] + ring, servers) == (if IsUp(servers, x) then [x] else []) + Ups(ring, servers)
    ensures Ups([], servers) == []
  {
    assert ([x] + ring)[1..] == ring;
  }

  // With a good server in the ring, the first good one from the head is picked, and the good ones of the
  // ring move round by one; the exit for a ring without good servers is never taken.
  lemma PickIsFirstGood(ring: seq<Address>, servers: map<Address, Nameserver>, good: int)
    requires ServersOk(ring, servers, good) && ring != []
    ensures var p, u := Pick(ring, servers, good), Ups(ring, servers);
      && p.ns.Some? && p.ns.value in servers
      && ServersOk(p.ring, servers, good)
      && (good > 0 ==> u != [] && p.ns.value == u[0] && Ups(p.ring, servers) == u[1..] + [u[0]])
  {
    var u := Ups(ring, servers);
    if good == 0 {
      RotateRing(ring, servers);
      assert Rotate(ring)[0] in Rotate(ring);
    } else {
      assert ring[..|ring|] == ring;
      PickUpFindsFirst(ring, servers, |ring|);
      UpsAreUp(ring, servers, 0);
    }
  }

  lemma {:induction false} UpsAreUp(ring: seq<Address>, servers: map<Address, Nameserver>, k: nat)
    requires k < |Ups(ring, servers)|
    ensures IsUp(servers, Ups(ring, servers)[k]) && Ups(ring, servers)[k] in ring
  {
    if IsUp(servers, ring[0]) {
      if k > 0 {
        UpsAreUp(ring[1..], servers, k - 1);
      }
    } else {
      UpsAreUp(ring[1..], servers, k);
    }
  }

  // The servers chosen by n picks in a row while none goes down or comes back.
  function Picks(ring: seq<Address>, servers: map<Address, Nameserver>, good: int, n: nat): seq<Address>
    decreases n
  {
    if n == 0 then []
    else
      var p := Pick(ring, servers, good);
      if p.ns.None? then [] else [p.ns.value] + Picks(p.ring, servers, good, n - 1)
  }

  lemma {:induction false} PicksGoRound(ring: seq<Address>, servers: map<Address, Nameserver>, good: int, n: nat)
    requires ServersOk(ring, servers, good) && 0 < good && n <= good
    ensures Picks(ring, servers, good, n) == Ups(ring, servers)[..n]
    decreases n
  {
    if n > 0 {
      var p, u := Pick(ring, servers, good), Ups(ring, servers);
      PickIsFirstGood(ring, servers, good);
      PicksGoRound(p.ring, servers, good, n - 1);
      assert u[..n] == [u[0]] + (u[1..] + [u[0]])[..n - 1];
    }
  }

  // As many picks in a row as there are good servers return each of them once, in the order of the ring.
  lemma PicksVisitEachGoodServer(ring: seq<Address>, servers: map<Address, Nameserver>, good: int)
    requires ServersOk(ring, servers, good) && 0 < good
    ensures var ps := Picks(ring, servers, good, good);
      && ps == Ups(ring, servers) && Distinct(ps)
      && forall a :: a in ps <==> IsUp(servers, a)
  {
    var u := Ups(ring, servers);
    PicksGoRound(ring, servers, good, good);
    assert u[..good] == u;
    UpsDistinct(ring, servers);
    forall a
      ensures a in u <==> IsUp(servers, a)
    {
      if IsUp(servers, a) {
        UpIsListed(ring, servers, a);
      }
      if a in u {
        var k :| 0 <= k < |u| && u[k] == a;
        UpsAreUp(ring, servers, k);
      }
    }
  }

  lemma {:induction false} UpIsListed(ring: seq<Address>, servers: map<Address, Nameserver>, a: Address)
    requires a in ring && IsUp(servers, a)
    ensures a in Ups(ring, servers)
  {
    if ring[0] != a {
      UpIsListed(ring[1..], servers, a);
    }
  }

  lemma {:induction false} UpsDistinct(ring: seq<Address>, servers: map<Address, Nameserver>)
    requires Distinct(ring)
    ensures Distinct(Ups(ring, servers))
  {
    if ring != [] {
      var rest := Ups(ring[1..], servers);
      UpsDistinct(ring[1..], servers);
      forall k | 0 <= k < |rest|
        ensures rest[k] != ring[0]
      {
        UpsAreUp(ring[1..], servers, k);
        var j :| 0 <= j < |ring| - 1 && ring[1..][j] == rest[k];
        assert ring[j + 1] == rest[k];
      }
    }
  }

  // ---------- Changing one server ----------

  lemma {:induction false} UpsSame(ring: seq<Address>, servers: map<Address, Nameserver>, servers': map<Address, Nameserver>)
    requires forall k :: 0 <= k < |ring| ==> IsUp(servers, ring[k]) == IsUp(servers', ring[k])
    ensures Ups(ring, servers') == Ups(ring, servers)
  {
    if ring != [] {
      assert forall k :: 0 <= k < |ring| - 1 ==> ring[1..][k] == ring[k + 1];
      UpsSame(ring[1..], servers, servers');
    }
  }

  // Marking a server down or up changes the number of good servers by one.
  lemma {:induction false} UpsAfterChange(ring: seq<Address>, servers: map<Address, Nameserver>, a: Address, ns: Nameserver)
    requires Distinct(ring) && a in ring && a in servers
    ensures var before, after := |Ups(ring, servers)|, |Ups(ring, servers[a := ns])|;
      after == before - (if servers[a].up then 1 else 0) + (if ns.up then 1 else 0)
  {
    var servers' := servers[a := ns];
    if ring[0] == a {
      forall k | 0 <= k < |ring| - 1
        ensures IsUp(servers, ring[1..][k]) == IsUp(servers', ring[1..][k])
      {
        assert ring[1..][k] == ring[k + 1];
      }
      UpsSame(ring[1..], servers, servers');
    } else {
      UpsAfterChange(ring[1..], servers, a, ns);
    }
  }

  lemma ServersAfterChange(ring: seq<Address>, servers: map<Address, Nameserver>, good: int, a: Address, ns: Nameserver)
    requires ServersOk(ring, servers, good) && a in servers
    requires ns.choked ==> ns.writeWaiting
    ensures ServersOk(ring, servers[a := ns], good - (if servers[a].up then 1 else 0) + (if ns.up then 1 else 0))
  {
    UpsAfterChange(ring, servers, a, ns);
  }

  lemma RingAfterJoin(ring: seq<Address>, servers: map<Address, Nameserver>, a: Address)
    requires RingOk(ring, servers) && a !in servers
    ensures RingOk(JoinedRing(ring, a), servers[a := NEW_SERVER])
  {
    var ring' := JoinedRing(ring, a);
    forall x
      ensures x in servers[a := NEW_SERVER] <==> x in ring'
    {
      if x in ring {
        var k :| 0 <= k < |ring| && ring[k] == x;
        assert ring'[if k == 0 then 0 else k + 1] == x;
      }
      if x == a {
        assert ring'[if ring == [] then 0 else 1] == a;
      }
    }
  }

  lemma UpsAfterJoin(ring: seq<Address>, servers: map<Address, Nameserver>, a: Address)
    requires RingOk(ring, servers) && a !in servers
    ensures |Ups(JoinedRing(ring, a), servers[a := NEW_SERVER])| == |Ups(ring, servers)| + 1
  {
    var servers' := servers[a := NEW_SERVER];
    UpsSame(ring, servers, servers');
    assert Ups([a], servers') == [a] by {
      assert [a][1..] == [];
    }
    if ring != [] {
      UpsConcat([ring[0]], ring[1..], servers');
      UpsConcat([ring[0], a], ring[1..], servers');
      UpsConcat([ring[0]], [a], servers');
      assert [ring[0]] + ring[1..] == ring && [ring[0]] + [a] == [ring[0], a];
    }
  }

  lemma ServersAfterJoin(ring: seq<Address>, servers: map<Address, Nameserver>, good: int, a: Address)
    requires ServersOk(ring, servers, good) && a !in servers
    ensures ServersOk(JoinedRing(ring, a), servers[a := NEW_SERVER], good + 1)
  {
    RingAfterJoin(ring, servers, a);
    UpsAfterJoin(ring, servers, a);
  }
}
