// The resolver as evdns keeps it: two rings of requests and one of nameservers, linked through the nodes themselves,
// and counters beside them. `Now` is the state of module Resolver that they stand for; each method is proved to do
// to it what the matching function says, and to keep the rings linked.
module Evdns {
  import opened Bytes
  import opened Names
  import opened NameWriter
  import opened Resolver
  import opened ResolverServers
  import opened ResolverNet
  import opened ResolverBook
  import opened ResolverSafety
  import opened ResolverRuns
  import opened Rings

  // A request points to a nameserver of the ring, if to any.
  ghost predicate PointsInto(x: Node, known: set<Server>)
    reads x`req, x`ns
  {
    x.req.net.ns == AddressOf(x.ns) && (x.ns != null ==> x.ns in known)
  }

  class Evdns {
    const c: Config
    const e: Env
    var reqHead: Node?
    var waitHead: Node?
    var serverHead: Server?
    var nInflight: int
    var nWaiting: int
    var good: int
    // History and the number of questions asked, as in Resolver.State.
    var asked: seq<Lookup>
    var answered: seq<nat>
    var told: seq<Option<Error>>
    var tried: map<nat, seq<Name>>
    var posts: seq<Post>
    var tick: nat
    // The rings, each from its head on, and all nodes there are.
    ghost var flying: seq<Node>
    ghost var idle: seq<Node>
    ghost var ring: seq<Server>
    ghost var nodes: set<Node>
    ghost var known: set<Server>

    // Both rings of requests are linked both ways round, and no request is in both.
    ghost predicate RequestsLinked()
      reads this`reqHead, this`waitHead, this`flying, this`idle, this`nodes
      reads flying`next, flying`prev, idle`next, idle`prev
    {
      && Linked(reqHead, flying) && Linked(waitHead, idle)
      && (forall x :: x in flying ==> x in nodes && x !in idle)
      && forall x :: x in idle ==> x in nodes
    }

    ghost predicate ServersLinked()
      reads this`serverHead, this`ring, this`known, ring`next
    {
      && Chained(serverHead, ring)
      && (forall i :: 0 <= i < |ring| ==> ring[i] in known)
      && forall x :: x in known ==> x in ring
    }

    // Requests point into the ring; one that waits points to no nameserver.
    ghost predicate Pointing()
      reads this`flying, this`idle, this`known, flying`req, flying`ns, idle`req, idle`ns
    {
      && (forall i :: 0 <= i < |flying| ==> PointsInto(flying[i], known))
      && forall i :: 0 <= i < |idle| ==> idle[i].req.net.ns == None && idle[i].ns == null
    }

    ghost predicate Valid()
      reads this, flying, idle, ring
    {
      RequestsLinked() && ServersLinked() && Pointing()
    }

    ghost function Now(): State
      requires ServersLinked()
      reads this, flying`req, idle`req, ring`record, ring`next
    {
      State(Contents(flying), Contents(idle), nInflight, nWaiting, Addresses(ring), Records(ring), good,
            asked, answered, told, tried, posts, tick)
    }

    // evdns with nothing asked and no nameservers
    constructor (c: Config, e: Env)
      ensures Valid() && Now() == START && this.c == c && this.e == e && nodes == {} && known == {}
    {
      this.c, this.e := c, e;
      reqHead, waitHead, serverHead, nInflight, nWaiting, good := null, null, null, 0, 0, 0;
      asked, answered, told, tried, posts, tick := [], [], [], map[], [], 0;
      flying, idle, ring, nodes, known := [], [], [], {}, {};
    }

    // ---------- What the links say ----------

    // Both rings of requests are well-formed, and no request is in both or twice in one.
    lemma RingsAreWellFormed()
      requires Valid()
      ensures forall i :: 0 <= i < |flying| ==>
        flying[i].next != null && flying[i].prev != null && flying[i].next.prev == flying[i].prev.next == flying[i]
      ensures forall i :: 0 <= i < |idle| ==>
        idle[i].next != null && idle[i].prev != null && idle[i].next.prev == idle[i].prev.next == idle[i]
      ensures Distinct(flying + idle)
      ensures (reqHead == null <==> flying == []) && (waitHead == null <==> idle == [])
    {
      hide ServersLinked, Pointing, Linked, Distinct;
      Apart();
      BothWays(reqHead, flying);
      BothWays(waitHead, idle);
      DistinctTogether(flying, idle);
    }

    // With the invariant of the resolver the counters are the lengths of the rings.
    lemma CountersAreLengths()
      requires Valid() && Inv(c, Now())
      ensures nInflight == |flying| && nWaiting == |idle| && good == |Ups(Addresses(ring), Records(ring))|
      ensures forall i :: 0 <= i < |flying| ==> flying[i].ns != null && flying[i].ns in ring
    {
      hide RequestsLinked, ServersLinked, Active, Hist, Total;
      ServersHead();
      forall i | 0 <= i < |flying|
        ensures flying[i].ns != null && flying[i].ns in ring
      {
        Flies(i);
        assert Active(c, Now().servers, Now().inflight[i].net);
        HasServer(c, Now().servers, Now().inflight[i].net);
        KnownInRing(flying[i].ns);
      }
    }

    lemma KnownInRing(srv: Server?)
      requires ServersLinked() && (srv != null ==> srv in known)
      ensures srv != null ==> srv in ring
    {
    }

    // From the request in place i the next link leads to place i + 1, and from the last to the head.
    lemma NextFlying(i: nat)
      requires RequestsLinked() && i < |flying|
      ensures reqHead == flying[0] && flying[i].next == flying[Succ(i, |flying|)]
      ensures flying[i].next == flying[0] <==> i + 1 == |flying|
      ensures flying[i] in nodes && flying[i] in flying
    {
    }

    lemma HeadFlying()
      requires RequestsLinked()
      ensures reqHead == null <==> flying == []
      ensures flying != [] ==> reqHead == flying[0]
    {
    }

    lemma Flies(i: nat)
      requires Valid() && i < |flying|
      ensures var s := Now();
        && |s.inflight| == |flying| && s.inflight[i] == flying[i].req
        && flying[i].req.net.ns == AddressOf(flying[i].ns) && (flying[i].ns != null ==> flying[i].ns in known)
    {
      assert PointsInto(flying[i], known);
    }

    lemma Recorded(srv: Server)
      requires ServersLinked() && srv in known
      ensures srv.address in Now().servers && Now().servers[srv.address] == srv.record
    {
      var i :| 0 <= i < |ring| && ring[i] == srv;
    }

    lemma NotIdle(i: nat)
      requires RequestsLinked() && i < |flying|
      ensures flying[i] in flying && flying[i] in nodes
      ensures forall j :: 0 <= j < |flying| && j != i ==> flying[j] != flying[i]
      ensures forall j :: 0 <= j < |idle| ==> idle[j] != flying[i]
    {
      assert flying[i] in flying && forall j :: 0 <= j < |idle| ==> idle[j] in idle;
    }

    // ---------- Changing one node ----------

    // Another request in place i, at the same nameserver.
    method SetRequest(x: Node, r: Request, ghost i: nat)
      requires Valid() && i < |flying| && flying[i] == x && r.net.ns == x.req.net.ns
      modifies x`req
      ensures Valid() && x.req == r && Now() == old(Now()).(inflight := old(Now()).inflight[i := r])
    {
      hide RequestsLinked, ServersLinked, Records, Addresses, Contents;
      ghost var rs, ws := Contents(flying), Contents(idle);
      NotIdle(i);
      x.req := r;
      ContentsAfter(flying, idle, i, rs, ws);
    }

    // The request in place i with other progress, at the same nameserver.
    method SetProgress(x: Node, n: Progress, ghost i: nat)
      requires Valid() && i < |flying| && flying[i] == x && n.ns == x.req.net.ns
      modifies x`req
      ensures Valid() && Now() == SetNet(old(Now()), i, n) && x.req == old(x.req).(net := n)
    {
      hide Linked, Chained, Records, Pointing, Contents;
      Flies(i);
      SetRequest(x, x.req.(net := n), i);
    }

    // req->ns = ns
    method PointTo(x: Node, srv: Server?, ghost i: nat)
      requires Valid() && i < |flying| && flying[i] == x && (srv != null ==> srv in known)
      modifies x`req, x`ns
      ensures Valid() && x.ns == srv && x.req == old(x.req).(net := old(x.req.net).(ns := AddressOf(srv)))
      ensures Now() == SetNet(old(Now()), i, old(x.req.net).(ns := AddressOf(srv)))
    {
      hide RequestsLinked, ServersLinked, Records, Addresses, Contents;
      ghost var rs, ws := Contents(flying), Contents(idle);
      NotIdle(i);
      x.ns := srv;
      x.req := x.req.(net := x.req.net.(ns := AddressOf(srv)));
      ContentsAfter(flying, idle, i, rs, ws);
    }

    // What is kept of a nameserver.
    method SetRecord(srv: Server, n: Nameserver)
      requires Valid() && srv in known
      modifies srv`record
      ensures Valid() && srv.record == n && Now() == SetServer(old(Now()), srv.address, n)
    {
      hide Contents, RequestsLinked, Pointing, Records, Addresses, Distinct;
      ghost var was := Now();
      ghost var i :| 0 <= i < |ring| && ring[i] == srv;
      ghost var before := Records(ring);
      SamePlace(ring, i);
      srv.record := n;
      RecordsAfter(ring, i, before);
      assert Now().inflight == was.inflight && Now().waiting == was.waiting;
    }

    // ---------- Nameservers ----------

    // server_head = server_head->next
    method Advance()
      requires Valid() && ring != []
      modifies this`serverHead, this`ring
      ensures Valid() && Now() == old(Now()).(ring := Rotate(old(Now()).ring))
      ensures ring == OneOn(old(ring)) && ring != [] && serverHead == ring[0]
    {
      hide RequestsLinked, ServersLinked, Pointing, Contents, Records, Addresses, Chained, Distinct, OneOn, Rotate;
      TurnedLinks();
      TurnRing();
    }

    method TurnRing()
      requires ServersLinked() && ring != []
      modifies this`serverHead, this`ring
      ensures ServersLinked() && ring == OneOn(old(ring)) && ring != [] && serverHead == ring[0]
    {
      hide ServersLinked, Records, Addresses, Chained, Distinct, OneOn, Rotate;
      TurnedLinks();
      serverHead := serverHead.next;
      ring := OneOn(ring);
      ServersTogether();
    }

    lemma ServersTogether()
      requires Chained(serverHead, ring) && (forall i :: 0 <= i < |ring| ==> ring[i] in known)
      requires forall x :: x in known ==> x in ring
      ensures ServersLinked()
    {
    }

    // The ring from its second member on.
    lemma TurnedLinks()
      requires ServersLinked() && ring != []
      ensures serverHead != null && Distinct(Addresses(ring))
      ensures var ts := OneOn(ring);
        && ts != [] && Chained(serverHead.next, ts) && serverHead.next == ts[0] && Distinct(Addresses(ts))
        && Addresses(ts) == Rotate(Addresses(ring)) && Records(ts) == Records(ring)
        && (forall i :: 0 <= i < |ts| ==> ts[i] in known) && forall x :: x in known ==> x in ts
    {
      hide Records, Addresses;
      Turned(serverHead, ring);
      TurnedRecords(ring);
      TurnedKnown(ring, known);
    }

    lemma ServersHead()
      requires ServersLinked()
      ensures serverHead == null <==> ring == []
      ensures ring != [] ==> serverHead == ring[0] && Now().ring != [] && serverHead.address == Now().ring[0]
      ensures |Now().ring| == |ring| && Distinct(Addresses(ring)) && (ring != [] ==> ring[0] in known)
    {
    }

    // nameserver_pick: round the ring from its head until a nameserver is up or the walk is back where it started.
    method NameserverPick() returns (ns: Server?)
      requires Valid()
      modifies this`serverHead, this`ring
      ensures Valid() && (ns != null ==> ns in known)
      ensures var p := Pick(old(Now()).ring, old(Now()).servers, good); Now() == old(Now()).(ring := p.ring) && AddressOf(ns) == p.ns
    {
      hide RequestsLinked, ServersLinked, Pointing, PickUp;
      ServersHead();
      if serverHead == null {
        return null;
      }
      if good == 0 {
        Advance();
        ServersHead();
        return serverHead;
      }
      ns := FirstUp();
    }

    // The loop of nameserver_pick.
    method FirstUp() returns (picked: Server)
      requires Valid() && ring != []
      modifies this`serverHead, this`ring
      ensures Valid() && picked in known
      ensures var s := old(Now()); var p := PickUp(s.ring, s.servers, |s.ring|);
        Now() == s.(ring := p.ring) && Some(picked.address) == p.ns
    {
      hide RequestsLinked, ServersLinked, Pointing, Now, Distinct, TurnBy, PickUp, Addresses;
      ghost var first, s0, k := ring, Now(), 0;
      ServersHead();
      NoTurns(ring);
      var started: Server := serverHead;
      while true
        invariant Valid() && k < |first| && ring == TurnBy(first, k) && started == first[0]
        invariant Now() == s0.(ring := Now().ring) && |Now().ring| == |first|
        invariant PickUp(Now().ring, s0.servers, |first| - k) == PickUp(s0.ring, s0.servers, |first|)
        decreases |first| - k
      {
        ServersHead();
        Recorded(serverHead);
        PickUpNext(Now().ring, s0.servers, |first| - k);
        if serverHead.record.up {
          picked := serverHead;
          Advance();
          return;
        }
        Advance();
        k := k + 1;
        TurnedOnce(first, k);
        ServersHead();
        if serverHead == started {
          picked := serverHead;
          Advance();
          return;
        }
      }
    }

    lemma SameServer(x: Server, y: Server)
      requires ServersLinked() && x in known && y in known
      ensures x == y <==> x.address == y.address
    {
      var i :| 0 <= i < |ring| && ring[i] == x;
      SamePlace(ring, i);
    }

    method SetGood(n: int)
      requires Valid()
      modifies this`good
      ensures Valid() && good == n && Now() == old(Now()).(good := n)
    {
      hide RequestsLinked, ServersLinked, Pointing, Contents, Records, Addresses;
      good := n;
    }

    // The next question to the surroundings.
    method SetTick(n: nat)
      requires Valid()
      modifies this`tick
      ensures Valid() && tick == n && Now() == old(Now()).(tick := n)
    {
      hide RequestsLinked, ServersLinked, Pointing, Contents, Records, Addresses;
      tick := n;
    }

    // What was sent, or a mark beside it.
    method AddPost(p: Post, n: nat)
      requires Valid()
      modifies this`tick, this`posts
      ensures Valid() && tick == n && Now() == old(Now()).(tick := n, posts := old(Now()).posts + [p])
    {
      hide RequestsLinked, ServersLinked, Pointing, Contents, Records, Addresses;
      tick, posts := n, posts + [p];
    }

    lemma Counters()
      requires ServersLinked()
      ensures var s := Now();
        && s.nInflight == nInflight && s.nWaiting == nWaiting && s.good == good && s.tick == tick
        && s.asked == asked && s.answered == answered && s.told == told && s.tried == tried && s.posts == posts
        && |s.inflight| == |flying| && |s.waiting| == |idle|
    {
    }

    // nameserver_failed
    method NameserverFailed(srv: Server)
      requires Valid() && srv in known
      modifies this`good, this`serverHead, this`ring, srv`record, flying`req, flying`ns
      ensures Valid() && Now() == ServerFailed(old(Now()), srv.address)
    {
      hide RequestsLinked, ServersLinked, Pointing, Now, Reassign;
      Recorded(srv);
      Counters();
      if !srv.record.up {
        return;
      }
      SetGood(good - 1);
      SetRecord(srv, srv.record.(up := false, failedTimes := 1, probeTimer := true));
      if good != 0 {
        ReassignRequests(srv);
      }
    }

    // The walk of nameserver_failed over the inflight ring.
    method ReassignRequests(srv: Server)
      requires Valid() && srv in known
      modifies this`serverHead, this`ring, flying`req, flying`ns
      ensures Valid() && Now() == Reassign(old(Now()), srv.address, 0)
    {
      hide RequestsLinked, ServersLinked, Pointing, Now, Reassign;
      ghost var i, s := 0, Now();
      HeadFlying();
      Counters();
      if reqHead == null {
        NoMoreToReassign(srv.address);
        return;
      }
      var startedAt: Node := reqHead;
      var req := startedAt;
      while true
        invariant Valid() && i < |flying| && req == flying[i] && startedAt == flying[0]
        invariant |Now().inflight| == |flying| && Reassign(Now(), srv.address, i) == Reassign(s, srv.address, 0)
        decreases |flying| - i
      {
        ReassignOne(req, srv, i);
        Counters();
        NextFlying(i);
        req := req.next;
        i := i + 1;
        if req == startedAt {
          break;
        }
      }
      NoMoreToReassign(srv.address);
    }

    lemma NoMoreToReassign(a: Address)
      requires Valid()
      ensures |Now().inflight| == |flying| && Reassign(Now(), a, |flying|) == Now()
    {
    }

    // One request, still waiting to go out, moves to another nameserver.
    method ReassignOne(x: Node, srv: Server, ghost i: nat)
      requires Valid() && srv in known && i < |flying| && flying[i] == x
      modifies this`serverHead, this`ring, x`req, x`ns
      ensures Valid() && Reassign(Now(), srv.address, i + 1) == Reassign(old(Now()), srv.address, i)
    {
      hide RequestsLinked, ServersLinked, Pointing, Contents, Records, Addresses, Pick;
      Flies(i);
      if x.ns != null {
        SameServer(x.ns, srv);
      }
      if x.req.net.txCount == 0 && x.ns == srv {
        var ns := NameserverPick();
        PointTo(x, ns, i);
      }
    }

    // nameserver_up
    method NameserverUp(srv: Server)
      requires Valid() && srv in known
      modifies this`good, srv`record
      ensures Valid() && Now() == ServerUp(old(Now()), srv.address)
    {
      hide RequestsLinked, ServersLinked, Pointing, Contents, Records, Addresses;
      Recorded(srv);
      if !srv.record.up {
        SetRecord(srv, srv.record.(up := true, failedTimes := 0, timedout := 0, probeTimer := false));
        good := good + 1;
      }
    }

    // nameserver_probe_failed
    method NameserverProbeFailed(srv: Server)
      requires Valid() && srv in known
      modifies srv`record
      ensures Valid() && Now() == ProbeFailed(old(Now()), srv.address)
    {
      hide RequestsLinked, ServersLinked, Pointing, Contents, Records, Addresses;
      Recorded(srv);
      if srv.record.up {
        SetRecord(srv, srv.record.(probeTimer := false));
      } else {
        SetRecord(srv, srv.record.(failedTimes := srv.record.failedTimes + 1, probeTimer := true));
      }
    }

    // ---------- Sending ----------

    // evdns_request_transmit, for the request in place i
    method RequestTransmit(x: Node, ghost i: nat)
      requires Valid() && i < |flying| && flying[i] == x
      modifies this`good, this`serverHead, this`ring, this`tick, this`posts, known`record, flying`req, flying`ns
      ensures Valid() && Now() == Transmit(e, old(Now()), i)
    {
      hide RequestsLinked, ServersLinked, Pointing, Now, ServerFailed;
      Counters();
      Flies(i);
      SetProgress(x, x.req.net.(transmitMe := true), i);
      var srv := x.ns;
      if srv == null {
        return;
      }
      Recorded(srv);
      if srv.record.choked {
        return;
      }
      var r := e.send(tick);
      AddPost(Post(x.req.made, tick), tick + 1);
      if r == Blocked {
        SetRecord(srv, srv.record.(choked := true, writeWaiting := true));
        return;
      }
      if r == Broken {
        NameserverFailed(srv);
      }
      CountSend(x, i);
    }

    // The end of evdns_request_transmit.
    method CountSend(x: Node, ghost i: nat)
      requires Valid() && i < |flying| && flying[i] == x
      modifies x`req
      ensures Valid() && i < |old(Now()).inflight| && Now() == Transmitted(old(Now()), i)
    {
      hide RequestsLinked, ServersLinked, Pointing, Contents, Records, Addresses;
      Flies(i);
      var n := x.req.net;
      SetProgress(x, n.(timer := true, txCount := n.txCount + 1, transmitMe := false, sends := n.sends + 1), i);
    }

    method TransmitIfMarked(x: Node, ghost i: nat) returns (marked: bool)
      requires Valid() && i < |flying| && flying[i] == x
      modifies this`good, this`serverHead, this`ring, this`tick, this`posts, known`record, flying`req, flying`ns
      ensures Valid() && i < |old(Now()).inflight| && marked == old(Now()).inflight[i].net.transmitMe
      ensures Now() == if marked then Transmit(e, old(Now()), i) else old(Now())
    {
      hide RequestsLinked, ServersLinked, Pointing, Now, Transmit;
      Flies(i);
      marked := x.req.net.transmitMe;
      if marked {
        RequestTransmit(x, i);
      }
    }

    // evdns_transmit
    method TransmitMarked() returns (didTry: bool)
      requires Valid()
      modifies this`good, this`serverHead, this`ring, this`tick, this`posts, known`record, flying`req, flying`ns
      ensures Valid() && Now() == TransmitAll(e, old(Now()), 0)
      ensures didTry == AnyToTransmit(old(Now()).inflight)
    {
      hide RequestsLinked, ServersLinked, Pointing, Now, Transmit, TransmitAll, AnyToTransmit, SentSoFar;
      ghost var i, s := 0, Now();
      didTry := false;
      HeadFlying();
      Counters();
      SendingStarts(e, s);
      if reqHead == null {
        SendingEnds(e, s, Now(), didTry);
        return;
      }
      var startedAt: Node := reqHead;
      var req := startedAt;
      while true
        invariant Valid() && i < |flying| && req == flying[i] && startedAt == flying[0]
        invariant |Now().inflight| == |flying| && SentSoFar(e, s, Now(), i, didTry)
        decreases |flying| - i
      {
        Counters();
        SendingGoesOn(e, s, Now(), i, didTry);
        var marked := TransmitIfMarked(req, i);
        didTry := didTry || marked;
        NextFlying(i);
        req := req.next;
        i := i + 1;
        if req == startedAt {
          break;
        }
      }
      Counters();
      SendingEnds(e, s, Now(), didTry);
    }

    // All nodes of the rings are among those there are.
    lemma Framed()
      requires Valid()
      ensures forall x :: x in flying ==> x in nodes
      ensures forall x :: x in idle ==> x in nodes
    {
    }

    // request_find_from_trans_id
    method FindFromTransId(id: int) returns (x: Node?, ghost k: nat)
      requires Valid()
      ensures if x == null then FindId(Now().inflight, id) == None
              else k < |flying| && flying[k] == x && FindId(Now().inflight, id) == Some(k)
    {
      hide RequestsLinked, ServersLinked, Pointing, Now, FindId;
      k := 0;
      HeadFlying();
      Counters();
      FirstWithId(Now().inflight, id, 0);
      if reqHead == null {
        return null, 0;
      }
      var startedAt: Node := reqHead;
      var req := startedAt;
      while true
        invariant k < |flying| == |Now().inflight| && req == flying[k] && startedAt == flying[0]
        invariant forall j :: 0 <= j < k ==> Now().inflight[j].id != id
        decreases |flying| - k
      {
        Flies(k);
        FirstWithId(Now().inflight, id, k);
        if req.req.id == id {
          return req, k;
        }
        NextFlying(k);
        req := req.next;
        k := k + 1;
        if req == startedAt {
          break;
        }
      }
      FirstWithId(Now().inflight, id, k);
      return null, 0;
    }

    // The ids that transaction_id_pick must not give.
    method IdsInUse() returns (ids: set<int>)
      requires Valid()
      ensures ids == IdsOf(Now().inflight)
    {
      hide RequestsLinked, ServersLinked, Pointing, Now, IdsOf;
      ids := {};
      ghost var k := 0;
      HeadFlying();
      Counters();
      if reqHead == null {
        NoIds(Now().inflight);
        return;
      }
      NoIds(Now().inflight[..0]);
      var startedAt: Node := reqHead;
      var req := startedAt;
      while true
        invariant k < |flying| == |Now().inflight| && req == flying[k] && startedAt == flying[0]
        invariant ids == IdsOf(Now().inflight[..k])
        decreases |flying| - k
      {
        Flies(k);
        OneMoreId(Now().inflight, k);
        ids := ids + {req.req.id};
        NextFlying(k);
        req := req.next;
        k := k + 1;
        if req == startedAt {
          break;
        }
      }
      assert Now().inflight[..k] == Now().inflight;
    }

    // The nameserver with this address, looked for as _evdns_nameserver_add_impl does.
    method FindServer(a: Address) returns (srv: Server?)
      requires Valid()
      ensures if srv == null then a !in Now().servers else srv in known && srv.address == a && a in Now().servers
    {
      hide RequestsLinked, ServersLinked, Pointing, Now;
      ServersHead();
      if serverHead == null {
        NoSuchServer(a);
        return null;
      }
      ghost var k := 0;
      var startedAt: Server := serverHead;
      var server := startedAt;
      while true
        invariant k < |ring| && server == ring[k] && startedAt == ring[0]
        invariant forall j :: 0 <= j < k ==> ring[j].address != a
        decreases |ring| - k
      {
        NextServer(k);
        if server.address == a {
          return server;
        }
        server := server.next;
        k := k + 1;
        if server == startedAt {
          break;
        }
      }
      NoSuchServer(a);
      return null;
    }

    lemma NoSuchServer(a: Address)
      requires ServersLinked() && forall j :: 0 <= j < |ring| ==> ring[j].address != a
      ensures a !in Now().servers
    {
    }

    lemma NextServer(i: nat)
      requires ServersLinked() && i < |ring|
      ensures serverHead == ring[0] && ring[i].next == ring[Succ(i, |ring|)]
      ensures ring[i].next == ring[0] <==> i + 1 == |ring|
      ensures ring[i] in known && ring[i].address in Now().servers
    {
      SamePlace(ring, 0);
    }

    // ---------- Making and submitting requests ----------

    // request_new
    method RequestNew(what: Purpose) returns (x: Node?)
      requires Valid()
      modifies this`serverHead, this`ring, this`tick, this`tried, this`nodes
      ensures Valid() && fresh(nodes - old(nodes))
      ensures x != null ==> fresh(x) && x in nodes && x !in flying && x !in idle && PointsInto(x, known)
      ensures var m := NewRequest(c, e, old(Now()), what); Now() == m.s && m.req == if x == null then None else Some(x.req)
    {
      hide RequestsLinked, ServersLinked, Pointing, Now, Pick, IdsOf, ShortLabels;
      Counters();
      var issuingNow := nInflight < c.maxInflight;
      var ids := IdsInUse();
      var id := if issuingNow then e.freeId(tick, ids) else NO_ID;
      var gotMemory := e.memory(tick + 1);
      var made := tick;
      SetTick(tick + 2);
      if !gotMemory || |what.name| > MAX_NAME_LEN || !ShortLabels(what.name) {
        return null;
      }
      var ns: Server? := null;
      if issuingNow {
        ns := NameserverPick();
      }
      AddTried(what.owner, what.name);
      x := new Node(Request(made, what, id, FRESH.(ns := AddressOf(ns))), ns);
      Know(x);
    }

    method Know(x: Node)
      requires Valid()
      modifies this`nodes
      ensures Valid() && nodes == old(nodes) + {x} && Now() == old(Now())
    {
      hide ServersLinked, Pointing, Linked, Contents, Records, Addresses;
      nodes := nodes + {x};
    }

    // A further name was asked for; only the history knows.
    method AddTried(owner: nat, name: Name)
      requires Valid()
      modifies this`tried
      ensures Valid()
      ensures var s := old(Now()); Now() == s.(tried := s.tried[owner := (if owner in s.tried then s.tried[owner] else []) + [name]])
    {
      hide RequestsLinked, ServersLinked, Pointing, Contents, Records, Addresses;
      tried := tried[owner := (if owner in tried then tried[owner] else []) + [name]];
    }

    // A lookup was accepted.
    method AddAsked(l: Lookup)
      requires Valid()
      modifies this`asked
      ensures Valid() && Now() == old(Now()).(asked := old(Now()).asked + [l])
    {
      hide RequestsLinked, ServersLinked, Pointing, Contents, Records, Addresses;
      asked := asked + [l];
    }

    // A lookup is answered.
    method AddAnswered(o: nat, err: Option<Error>)
      requires Valid()
      modifies this`answered, this`told
      ensures Valid() && Now() == Heard(old(Now()), o, err)
    {
      hide RequestsLinked, ServersLinked, Pointing, Contents, Records, Addresses;
      answered, told := answered + [o], told + [err];
    }

    // Both counters.
    method SetCounts(inflight: int, waiting: int)
      requires Valid()
      modifies this`nInflight, this`nWaiting
      ensures Valid() && Now() == old(Now()).(nInflight := inflight, nWaiting := waiting)
    {
      hide RequestsLinked, ServersLinked, Pointing, Contents, Records, Addresses;
      nInflight, nWaiting := inflight, waiting;
    }

    // evdns_request_insert(req, &req_head)
    method JoinFlying(x: Node)
      requires Valid() && x in nodes && x !in flying && x !in idle && PointsInto(x, known)
      modifies this`reqHead, this`flying, x`next, x`prev, flying`next, flying`prev
      ensures Valid() && flying == old(flying) + [x]
      ensures Now() == old(Now()).(inflight := old(Now()).inflight + [x.req])
    {
      hide RequestsLinked, ServersLinked, Pointing, PointsInto, Chained, Records, Addresses, Contents, Linked;
      Points();
      ContentsOn(flying, x);
      LinkFlying(x);
      PointsTogether(flying);
    }

    method LinkFlying(x: Node)
      requires RequestsLinked() && x in nodes && x !in flying && x !in idle
      modifies this`reqHead, this`flying, x`next, x`prev, flying`next, flying`prev
      ensures RequestsLinked() && flying == old(flying) + [x]
    {
      hide RequestsLinked, Linked;
      Apart();
      ghost var xs := flying + [x];
      reqHead := Insert(x, reqHead, flying);
      flying := xs;
      Together();
    }

    // evdns_request_insert(req, &req_waiting_head)
    method JoinIdle(x: Node)
      requires Valid() && x in nodes && x !in flying && x !in idle && x.ns == null && x.req.net.ns == None
      modifies this`waitHead, this`idle, x`next, x`prev, idle`next, idle`prev
      ensures Valid()
      ensures Now() == old(Now()).(waiting := old(Now()).waiting + [x.req])
    {
      hide RequestsLinked, ServersLinked, Pointing, PointsInto, Chained, Records, Addresses, Contents, Linked;
      Points();
      ContentsOn(idle, x);
      LinkIdle(x);
      PointsTogether(flying);
    }

    method LinkIdle(x: Node)
      requires RequestsLinked() && x in nodes && x !in flying && x !in idle
      modifies this`waitHead, this`idle, x`next, x`prev, idle`next, idle`prev
      ensures RequestsLinked() && idle == old(idle) + [x]
    {
      hide RequestsLinked, Linked;
      Apart();
      ghost var xs := idle + [x];
      waitHead := Insert(x, waitHead, idle);
      idle := xs;
      Together();
    }

    // The head of the waiting ring leaves it.
    method LeaveIdle() returns (x: Node)
      requires Valid() && idle != []
      modifies this`waitHead, this`idle, idle`next, idle`prev
      ensures Valid() && x in nodes && x !in flying && x !in idle && x.ns == null && x.req.net.ns == None
      ensures old(Now()).waiting != [] && x.req == old(Now()).waiting[0]
      ensures Now() == old(Now()).(waiting := old(Now()).waiting[1..])
    {
      hide RequestsLinked, ServersLinked, Pointing, PointsInto, Chained, Records, Addresses, Contents, Linked;
      Points();
      RestOf(idle);
      x := UnlinkIdle();
      PointsTogether(flying);
    }

    method UnlinkIdle() returns (x: Node)
      requires RequestsLinked() && idle != []
      modifies this`waitHead, this`idle, idle`next, idle`prev
      ensures RequestsLinked() && idle == old(idle)[1..] && x == old(idle)[0] && x !in idle && x !in flying && x in nodes
    {
      hide RequestsLinked, Linked;
      Apart();
      FirstOf(waitHead, idle);
      ghost var xs := idle[1..];
      x := waitHead;
      waitHead := Unlink(x, waitHead, idle, 0);
      idle := xs;
      Together();
    }

    // The unlinking in request_finished: the request in place i leaves the inflight ring.
    method LeaveFlying(x: Node, ghost i: nat)
      requires Valid() && i < |flying| && flying[i] == x
      modifies this`reqHead, this`flying, flying`next, flying`prev
      ensures Valid() && i < |old(Now()).inflight|
      ensures Now() == old(Now()).(inflight := Remove(old(Now()).inflight, i))
    {
      hide RequestsLinked, ServersLinked, Pointing, PointsInto, Chained, Records, Addresses, Contents, Linked;
      Points();
      ContentsBut(flying, i);
      UnlinkFlying(x, i);
      PointsTogether(flying);
    }

    method UnlinkFlying(x: Node, ghost i: nat)
      requires RequestsLinked() && i < |flying| && flying[i] == x
      modifies this`reqHead, this`flying, flying`next, flying`prev
      ensures RequestsLinked() && flying == old(flying)[..i] + old(flying)[i + 1..]
    {
      hide RequestsLinked, Linked;
      Apart();
      ghost var xs := flying[..i] + flying[i + 1..];
      reqHead := Unlink(x, reqHead, flying, i);
      flying := xs;
      Together();
    }

    lemma PointsTo(x: Node)
      requires PointsInto(x, known)
      ensures x.req.net.ns == AddressOf(x.ns) && (x.ns != null ==> x.ns in known)
    {
    }

    // request_submit
    method RequestSubmit(x: Node)
      requires Valid() && x in nodes && x !in flying && x !in idle && PointsInto(x, known)
      modifies this, nodes, known
      ensures Valid() && nodes == old(nodes) && known == old(known) && old(flying) <= flying
      ensures Now() == Submit(e, old(Now()), old(x.req))
    {
      hide RequestsLinked, ServersLinked, Pointing, Now, Transmit, PointsInto;
      Framed();
      Counters();
      PointsTo(x);
      if x.ns != null {
        JoinFlying(x);
        SetCounts(nInflight + 1, nWaiting);
        Framed();
        RequestTransmit(x, |flying| - 1);
      } else {
        JoinIdle(x);
        SetCounts(nInflight, nWaiting + 1);
      }
    }

    // A request outside both rings gets an id and a nameserver.
    method Assign(x: Node, r: Request, srv: Server?)
      requires Valid() && x !in flying && x !in idle && r.net.ns == AddressOf(srv) && (srv != null ==> srv in known)
      modifies x`req, x`ns
      ensures Valid() && Now() == old(Now()) && x.req == r && x.ns == srv && PointsInto(x, known)
    {
      hide RequestsLinked, ServersLinked, Pointing, Contents, Records, Addresses;
      x.req, x.ns := r, srv;
    }

    // transaction_id_pick
    method TransactionIdPick() returns (id: int)
      requires Valid()
      modifies this`tick
      ensures Valid() && id == e.freeId(old(tick), IdsOf(old(Now()).inflight)) && tick == old(tick) + 1
      ensures Now() == old(Now()).(tick := tick)
    {
      hide RequestsLinked, ServersLinked, Pointing, Now, IdsOf;
      var ids := IdsInUse();
      id := e.freeId(tick, ids);
      SetTick(tick + 1);
    }

    // The first waiting request gets a server and an id and joins the inflight ring.
    method PromoteHead() returns (x: Node)
      requires Valid() && idle != []
      modifies this, nodes
      ensures Valid() && nodes == old(nodes) && known == old(known) && flying == old(flying) + [x]
      ensures old(Now()).waiting != [] && Now() == Promote(e, old(Now()))
    {
      hide RequestsLinked, ServersLinked, Pointing, Now, Pick, IdsOf;
      Framed();
      Counters();
      x := LeaveIdle();
      SetCounts(nInflight + 1, nWaiting - 1);
      Framed();
      Launch(x);
    }

    method Launch(x: Node)
      requires Valid() && x in nodes && x !in flying && x !in idle
      modifies this`serverHead, this`ring, this`tick, this`reqHead, this`flying
      modifies x`req, x`ns, x`next, x`prev, flying`next, flying`prev
      ensures Valid() && flying == old(flying) + [x]
      ensures var s, r := old(Now()), old(x.req); var p := Pick(s.ring, s.servers, s.good);
        Now() == s.(ring := p.ring, tick := s.tick + 1,
                    inflight := s.inflight + [r.(id := e.freeId(s.tick, IdsOf(s.inflight)), net := r.net.(ns := p.ns))])
    {
      hide RequestsLinked, ServersLinked, Pointing, Now, Pick, IdsOf, PointsInto;
      Counters();
      var ns := NameserverPick();
      var id := TransactionIdPick();
      Assign(x, x.req.(id := id, net := x.req.net.(ns := AddressOf(ns))), ns);
      JoinFlying(x);
    }

    // The two rings of requests side by side.
    lemma Apart()
      requires RequestsLinked()
      ensures Linked(reqHead, flying) && Linked(waitHead, idle)
      ensures (forall x :: x in flying ==> x in nodes && x !in idle) && forall x :: x in idle ==> x in nodes
      ensures forall i :: 0 <= i < |idle| ==> idle[i] !in flying
    {
      assert forall i :: 0 <= i < |idle| ==> idle[i] in idle;
    }

    lemma Points()
      requires Pointing()
      ensures forall i :: 0 <= i < |flying| ==> PointsInto(flying[i], known)
      ensures forall i :: 0 <= i < |idle| ==> idle[i].req.net.ns == None && idle[i].ns == null
    {
    }

    lemma PointsTogether(xs: seq<Node>)
      requires flying == xs && forall i :: 0 <= i < |xs| ==> PointsInto(xs[i], known)
      requires forall i :: 0 <= i < |idle| ==> idle[i].req.net.ns == None && idle[i].ns == null
      ensures Pointing()
    {
    }

    lemma Together()
      requires Linked(reqHead, flying) && Linked(waitHead, idle)
      requires (forall x :: x in flying ==> x in nodes && x !in idle) && forall x :: x in idle ==> x in nodes
      ensures RequestsLinked()
    {
    }

    lemma HeadIdle()
      requires RequestsLinked()
      ensures waitHead == null <==> idle == []
    {
    }

    // evdns_requests_pump_waiting_queue
    method PumpWaitingQueue()
      requires Valid()
      modifies this, nodes, known
      ensures Valid() && nodes == old(nodes) && known == old(known) && old(flying) <= flying
      ensures Now() == Pump(c, e, old(Now()))
    {
      hide RequestsLinked, ServersLinked, Pointing, Now, Pump;
      ghost var s := Now();
      while nInflight < c.maxInflight && nWaiting != 0 && waitHead != null && serverHead != null
        invariant Valid() && nodes == old(nodes) && known == old(known) && old(flying) <= flying
        invariant Pump(c, e, Now()) == Pump(c, e, s)
        decreases |Now().waiting|
      {
        HeadIdle();
        HeadsTell();
        PumpGoesOn(c, e, Now());
        PumpOnce();
      }
      HeadsTell();
      PumpEnds(c, e, Now());
    }

    lemma HeadsTell()
      requires Valid()
      ensures (waitHead == null <==> Now().waiting == []) && (serverHead == null <==> Now().ring == [])
      ensures Now().nInflight == nInflight && Now().nWaiting == nWaiting
    {
      hide Records, Distinct;
    }

    // One turn of its loop.
    method PumpOnce()
      requires Valid() && idle != []
      modifies this, nodes, known
      ensures Valid() && nodes == old(nodes) && known == old(known) && old(flying) <= flying
      ensures old(Now()).waiting != [] && Now() == PumpedOnce(e, old(Now()))
    {
      hide RequestsLinked, ServersLinked, Pointing, Now, Promote, Transmit, TransmitAll;
      Counters();
      Framed();
      PromoteLonger(e, Now());
      var x := PromoteHead();
      Framed();
      RequestTransmit(x, |flying| - 1);
      Framed();
      var _ := TransmitMarked();
    }

    // request_finished for the request in place i of the inflight ring
    method RequestFinished(x: Node, ghost i: nat)
      requires Valid() && i < |flying| && flying[i] == x
      modifies this, nodes, known
      ensures Valid() && nodes == old(nodes) && known == old(known)
      ensures i < |old(Now()).inflight| && Now() == Finished(c, e, old(Now()), i)
    {
      hide RequestsLinked, ServersLinked, Pointing, Now, Pump, Remove;
      Counters();
      Framed();
      LeaveFlying(x, i);
      Counters();
      SetCounts(nInflight - 1, nWaiting);
      Framed();
      PumpWaitingQueue();
    }

    // A request for the given purpose, submitted if it can be made.
    method IssueRequest(what: Purpose) returns (ok: bool)
      requires Valid()
      modifies this, nodes, known
      ensures Valid() && fresh(nodes - old(nodes)) && known == old(known) && old(flying) <= flying
      ensures var n := Issue(c, e, old(Now()), what); Now() == n.s && ok == n.ok
    {
      hide RequestsLinked, ServersLinked, Pointing, Now, NewRequest, Submit, PointsInto;
      var x := RequestNew(what);
      if x == null {
        return false;
      }
      RequestSubmit(x);
      return true;
    }

    // search_try_next; ok when another request was submitted
    method SearchTryNext(x: Node, ghost i: nat) returns (ok: bool)
      requires Valid() && i < |flying| && flying[i] == x && x.req.what.search.Some?
      modifies this, nodes, known
      ensures Valid() && fresh(nodes - old(nodes)) && known == old(known) && old(flying) <= flying
      ensures i < |old(Now()).inflight| && old(Now()).inflight[i] == old(x.req)
      ensures var n := TryNext(c, e, old(Now()), i); Now() == n.s && ok == n.ok
    {
      hide RequestsLinked, ServersLinked, Pointing, Now, Issue, Dots;
      Flies(i);
      Counters();
      Framed();
      var w := x.req.what;
      var k, name := w.search.value.done, w.search.value.origname;
      SetRequest(x, x.req.(what := w.(search := Some(Search(k + 1, name)))), i);
      if k >= |c.domains| {
        if Dots(name) < c.ndots {
          ok := IssueRequest(w.(name := name, search := None));
          return;
        }
        return false;
      }
      var gotMemory := e.memory(tick);
      SetTick(tick + 1);
      if !gotMemory {
        return false;
      }
      ok := IssueRequest(w.(name := WithDomain(name, c.domains[k]), search := Some(Search(k + 1, name))));
    }

    // evdns_resolve_ipv4, evdns_resolve_ipv6 and evdns_resolve_reverse
    method StartLookup(l: Lookup) returns (ok: bool)
      requires Valid()
      modifies this, nodes, known
      ensures Valid() && fresh(nodes - old(nodes)) && known == old(known) && old(flying) <= flying
      ensures var n := Resolve(c, e, old(Now()), l); Now() == n.s && ok == n.ok
    {
      hide RequestsLinked, ServersLinked, Pointing, Now, NewRequest, Submit, FirstQuery, PointsInto;
      Counters();
      var first := FirstQuery(c, l, |asked|);
      var gotMemory := e.memory(tick);
      SetTick(tick + 1);
      if first.search.Some? && first.search.value.done == 1 && !gotMemory {
        return false;
      }
      NewRequestAsked(c, e, Now(), first);
      var x := RequestNew(first);
      if x == null {
        return false;
      }
      Counters();
      AddAsked(l);
      RequestSubmit(x);
      return true;
    }

    // reply_callback: the callback of a probe, or that of the user, who may start the lookups in `calls`
    method ReplyCallback(x: Node, err: Option<Error>, calls: seq<Lookup>, ghost i: nat)
      requires Valid() && i < |flying| && flying[i] == x
      modifies this, nodes, known
      ensures Valid() && fresh(nodes - old(nodes)) && known == old(known) && old(flying) <= flying
      ensures i < |old(Now()).inflight| && Now() == Callback(c, e, old(Now()), i, err, calls)
    {
      hide RequestsLinked, ServersLinked, Pointing, Now, ResolveAll, ServerUp, ProbeFailed;
      Flies(i);
      Counters();
      Framed();
      var w := x.req.what;
      AddAnswered(w.owner, err);
      if w.probe.Some? {
        TellServer(w.probe.value, err == None || err == Some(NotExist));
      } else {
        UserCalls(calls);
      }
    }

    // nameserver_probe_callback
    method TellServer(a: Address, good: bool)
      requires Valid()
      modifies this`good, known`record
      ensures Valid() && Now() == if good then ServerUp(old(Now()), a) else ProbeFailed(old(Now()), a)
    {
      hide RequestsLinked, ServersLinked, Pointing, Now;
      var srv := FindServer(a);
      if srv != null {
        if good {
          NameserverUp(srv);
        } else {
          NameserverProbeFailed(srv);
        }
      }
    }

    method UserCalls(calls: seq<Lookup>)
      requires Valid()
      modifies this, nodes, known
      ensures Valid() && fresh(nodes - old(nodes)) && known == old(known) && old(flying) <= flying
      ensures Now() == ResolveAll(c, e, old(Now()), calls)
    {
      hide RequestsLinked, ServersLinked, Pointing, Now, Resolve, ResolveAll;
      ghost var s := Now();
      var k := 0;
      assert calls[0..] == calls;
      while k < |calls|
        invariant 0 <= k <= |calls|
        invariant Valid() && fresh(nodes - old(nodes)) && known == old(known) && old(flying) <= flying
        invariant ResolveAll(c, e, Now(), calls[k..]) == ResolveAll(c, e, s, calls)
      {
        ResolveNext(c, e, Now(), calls, k);
        var _ := StartLookup(calls[k]);
        k := k + 1;
      }
      assert calls[k..] == [];
      ResolveNone(c, e, Now());
    }

    // The callback for the request in place i, then its end.
    method AnswerRequest(x: Node, err: Option<Error>, calls: seq<Lookup>, ghost i: nat)
      requires Valid() && i < |flying| && flying[i] == x
      modifies this, nodes, known
      ensures Valid() && fresh(nodes - old(nodes)) && known == old(known)
      ensures i < |old(Now()).inflight| && Now() == AnswerAndFinish(c, e, old(Now()), i, err, calls)
    {
      hide RequestsLinked, ServersLinked, Pointing, Now, Callback, Finished, ServerUp;
      Counters();
      ReplyCallback(x, err, calls, i);
      Flies(i);
      if err == None && x.ns != null {
        NameserverUp(x.ns);
      }
      RequestFinished(x, i);
    }

    // request_reissue; ok when the request is to be sent again
    method RequestReissue(x: Node, ghost i: nat) returns (ok: bool)
      requires Valid() && i < |flying| && flying[i] == x
      modifies this`serverHead, this`ring, this`tick, this`posts, x`req, x`ns
      ensures Valid() && i < |old(Now()).inflight|
      ensures var n := Reissue(old(Now()), i); Now() == n.s && ok == n.ok
    {
      hide RequestsLinked, ServersLinked, Pointing, Now, Pick;
      Flies(i);
      Counters();
      var lastNs := x.ns;
      var ns := NameserverPick();
      PointTo(x, ns, i);
      SameOrNone(lastNs, ns);
      if ns == lastNs {
        return false;
      }
      var n := x.req.net;
      SetProgress(x, n.(reissueCount := n.reissueCount + 1, txCount := 0, transmitMe := true), i);
      Counters();
      AddPost(Anew(x.req.made), tick);
      return true;
    }

    lemma SameOrNone(x: Server?, y: Server?)
      requires ServersLinked() && (x != null ==> x in known) && (y != null ==> y in known)
      ensures x == y <==> AddressOf(x) == AddressOf(y)
    {
      if x != null && y != null {
        SameServer(x, y);
      }
    }

    // The part of reply_handle that judges the server; ok when the request is to be sent again.
    method JudgeServer(x: Node, err: Error, ghost i: nat) returns (ok: bool)
      requires Valid() && i < |flying| && flying[i] == x && x.ns != null
      modifies this`good, this`serverHead, this`ring, this`tick, this`posts, known`record, flying`req, flying`ns
      ensures Valid() && i < |old(Now()).inflight| && old(Now()).inflight[i].net.ns.Some?
      ensures var n := BlameServer(c, old(Now()), i, err); Now() == n.s && ok == n.ok
    {
      hide RequestsLinked, ServersLinked, Pointing, Now, ServerFailed, ServerUp, Reissue;
      Flies(i);
      ok := false;
      if err == NotImpl || err == Refused {
        if x.req.net.reissueCount < c.maxReissues {
          NameserverFailed(x.ns);
          ok := RequestReissue(x, i);
        }
      } else if err != ServerFailure {
        NameserverUp(x.ns);
      }
    }

    // reply_handle
    method HandleReply(x: Node, reply: Reply, calls: seq<Lookup>, ghost i: nat)
      requires Valid() && i < |flying| && flying[i] == x && x.ns != null
      modifies this, nodes, known
      ensures Valid() && fresh(nodes - old(nodes)) && known == old(known)
      ensures i < |old(Now()).inflight| && old(Now()).inflight[i].net.ns.Some?
      ensures Now() == ReplyHandle(c, e, old(Now()), i, reply, calls)
    {
      hide RequestsLinked, ServersLinked, Pointing, Now, BlameServer, PassOn, AnswerAndFinish;
      Flies(i);
      Framed();
      if reply.Answer? {
        AnswerRequest(x, None, calls, i);
        return;
      }
      var err := ErrorOf(reply.truncated, reply.rcode);
      var again := JudgeServer(x, err, i);
      if !again {
        PassOnError(x, err, calls, i);
      }
    }

    // Its end: the next name of the search, or else the error for the user.
    method PassOnError(x: Node, err: Error, calls: seq<Lookup>, ghost i: nat)
      requires Valid() && i < |flying| && flying[i] == x
      modifies this, nodes, known
      ensures Valid() && fresh(nodes - old(nodes)) && known == old(known)
      ensures i < |old(Now()).inflight| && Now() == PassOn(c, e, old(Now()), i, err, calls)
    {
      hide RequestsLinked, ServersLinked, Pointing, Now, TryNext, AnswerAndFinish, Finished;
      Flies(i);
      if x.req.what.search.Some? && x.req.what.qtype != PTR {
        var ok := SearchTryNext(x, i);
        if ok {
          RequestFinished(x, i);
          return;
        }
      }
      AnswerRequest(x, Some(err), calls, i);
    }

    // The counting of a timeout in evdns_request_timeout_callback
    method BlameForTimeout(srv: Server)
      requires Valid() && srv in known
      modifies this`good, this`serverHead, this`ring, srv`record, flying`req, flying`ns
      ensures Valid() && srv.address in old(Now()).servers && Now() == CountTimeout(c, old(Now()), srv.address)
    {
      hide RequestsLinked, ServersLinked, Pointing, Now, ServerFailed;
      Recorded(srv);
      SetTwice(Now(), srv.address, srv.record.(timedout := srv.record.timedout + 1), srv.record.(timedout := 0));
      SetRecord(srv, srv.record.(timedout := srv.record.timedout + 1));
      if srv.record.timedout > c.maxTimeouts {
        SetRecord(srv, srv.record.(timedout := 0));
        NameserverFailed(srv);
      }
    }

    // evdns_request_timeout_callback
    method RequestTimeout(x: Node, calls: seq<Lookup>, ghost i: nat)
      requires Valid() && i < |flying| && flying[i] == x && x.ns != null
      modifies this, nodes, known
      ensures Valid() && fresh(nodes - old(nodes)) && known == old(known)
      ensures var s := old(Now()); i < |s.inflight| && s.inflight[i].net.ns.Some? && s.inflight[i].net.ns.value in s.servers
      ensures Now() == TimedOut(c, e, old(Now()), i, calls)
    {
      hide RequestsLinked, ServersLinked, Pointing, Now, CountTimeout, AnswerAndFinish, Transmit;
      Flies(i);
      Recorded(x.ns);
      Framed();
      BlameForTimeout(x.ns);
      Flies(i);
      SetProgress(x, x.req.net.(timer := false), i);
      if x.req.net.txCount >= c.maxRetransmits {
        AnswerRequest(x, Some(Timeout), calls, i);
      } else {
        RequestTransmit(x, i);
      }
    }

    // The part of nameserver_read and reply_parse that concerns one packet.
    method ReadPacket(srv: Server, id: int, usable: bool, reply: Reply, calls: seq<Lookup>)
      requires Valid() && srv in known
      modifies this, nodes, known
      ensures Valid() && fresh(nodes - old(nodes)) && known == old(known)
      ensures srv.address in old(Now()).servers && Now() == OnPacket(c, e, old(Now()), srv.address, id, usable, reply, calls)
    {
      hide RequestsLinked, ServersLinked, Pointing, Now, FindId, ReplyHandle;
      Recorded(srv);
      Framed();
      SetRecord(srv, srv.record.(timedout := 0));
      ghost var k;
      var x;
      x, k := FindFromTransId(id);
      if x == null {
        return;
      }
      Flies(k);
      if usable && x.ns != null {
        HandleReply(x, reply, calls, k);
      }
    }

    // nameserver_ready_callback for a socket that can be written
    method SocketWritable(srv: Server)
      requires Valid() && srv in known
      modifies this`good, this`serverHead, this`ring, this`tick, this`posts, known`record, flying`req, flying`ns
      ensures Valid() && srv.address in old(Now()).servers && Now() == OnWritable(e, old(Now()), srv.address)
    {
      hide RequestsLinked, ServersLinked, Pointing, Now, TransmitAll, AnyToTransmit;
      Recorded(srv);
      SetRecord(srv, srv.record.(choked := false));
      var didTry := TransmitMarked();
      if !didTry {
        Recorded(srv);
        SetRecord(srv, srv.record.(writeWaiting := false));
      }
    }

    // nameserver_send_probe
    method SendProbeTo(srv: Server)
      requires Valid() && srv in known
      modifies this, nodes, known
      ensures Valid() && fresh(nodes - old(nodes)) && known == old(known)
      ensures srv.address in old(Now()).servers && Now() == SendProbe(c, e, old(Now()), srv.address)
    {
      hide RequestsLinked, ServersLinked, Pointing, Now, NewRequest, Submit, IdsOf, PointsInto;
      Recorded(srv);
      Counters();
      SetRecord(srv, srv.record.(probeTimer := false));
      var w := Purpose(|asked|, Some(srv.address), A, PROBE_NAME, None);
      NewRequestAsked(c, e, Now(), w);
      var x := RequestNew(w);
      if x != null {
        Counters();
        AimProbe(x, srv);
        RequestSubmit(x);
      }
    }

    // The probe gets an id and goes to the server in question.
    method AimProbe(x: Node, srv: Server)
      requires Valid() && srv in known && x !in flying && x !in idle
      modifies this`tick, this`asked, x`req, x`ns
      ensures Valid() && PointsInto(x, known)
      ensures var s := old(Now());
        && Now() == s.(tick := s.tick + 1, asked := s.asked + [Lookup(PROBE_NAME, A, false)])
        && x.req == old(x.req).(id := e.freeId(s.tick, IdsOf(s.inflight)), net := FRESH.(ns := Some(srv.address)))
    {
      hide RequestsLinked, ServersLinked, Pointing, Now, IdsOf, PointsInto;
      Counters();
      var id := TransactionIdPick();
      Assign(x, x.req.(id := id, net := FRESH.(ns := Some(srv.address))), srv);
      AddAsked(Lookup(PROBE_NAME, A, false));
    }

    // evdns_count_nameservers
    method CountNameservers() returns (n: nat)
      requires Valid()
      ensures n == |Now().ring|
    {
      hide RequestsLinked, ServersLinked, Pointing, Now;
      ServersHead();
      n := 0;
      if serverHead == null {
        return;
      }
      var server: Server := serverHead;
      while true
        invariant n < |ring| && server == ring[n]
        decreases |ring| - n
      {
        NextServer(n);
        n := n + 1;
        server := server.next;
        if server == serverHead {
          break;
        }
      }
    }

    // _evdns_nameserver_add_impl
    method NameserverAdd(a: Address)
      requires Valid()
      modifies this, known
      ensures Valid() && nodes == old(nodes) && flying == old(flying) && fresh(known - old(known))
      ensures Now() == Joined(old(Now()), a)
    {
      hide RequestsLinked, ServersLinked, Pointing, Now;
      var srv := FindServer(a);
      if srv != null {
        return;
      }
      var x := new Server(a, NEW_SERVER);
      JoinRing(x);
      Counters();
      SetGood(good + 1);
    }

    method JoinRing(x: Server)
      requires Valid() && x !in known && x.address !in Now().servers
      modifies this`serverHead, this`ring, this`known, x`next, x`prev, known`next, known`prev
      ensures Valid() && known == old(known) + {x}
      ensures var s := old(Now()); Now() == s.(ring := JoinedRing(s.ring, x.address), servers := s.servers[x.address := x.record])
    {
      hide RequestsLinked, ServersLinked, Pointing, PointsInto, Contents, Records, Addresses, Second, JoinedRing;
      Points();
      ServersHead();
      ghost var before := known;
      ghost var ts := Second(x, ring);
      SecondRecords(x, ring);
      ghost var servers := Records(ts);
      LinkServer(x);
      PointsMore(x, before);
      assert Records(ts) == servers;
    }

    method LinkServer(x: Server)
      requires ServersLinked() && x !in known && x.address !in Addresses(ring)
      modifies this`serverHead, this`ring, this`known, x`next, x`prev, known`next, known`prev
      ensures ServersLinked() && ring == Second(x, old(ring)) && known == old(known) + {x}
    {
      hide ServersLinked, Chained, Addresses, Second;
      ServersApart();
      SecondKnown(x, ring, known);
      serverHead := InsertServer(x, serverHead, ring);
      ring := Second(x, ring);
      known := known + {x};
      ServersTogether();
    }

    lemma ServersApart()
      requires ServersLinked()
      ensures Chained(serverHead, ring) && (forall i :: 0 <= i < |ring| ==> ring[i] in known)
      ensures forall x :: x in known ==> x in ring
    {
    }

    // A pointer into the ring stays one.
    lemma PointsMore(x: Server, before: set<Server>)
      requires known == before + {x} && forall i :: 0 <= i < |flying| ==> PointsInto(flying[i], before)
      requires forall i :: 0 <= i < |idle| ==> idle[i].req.net.ns == None && idle[i].ns == null
      ensures Pointing()
    {
    }

    // evdns_clear_nameservers_and_suspend
    method ClearNameserversAndSuspend()
      requires Valid()
      modifies this, nodes
      ensures Valid() && nodes == old(nodes) && (known == old(known) || known == {})
      ensures Now() == Suspended(old(Now()))
    {
      hide RequestsLinked, ServersLinked, Pointing, Contents, Records, Addresses, Shelve;
      ServersHead();
      Framed();
      if serverHead != null {
        ClearAll();
        NoServers();
        AddPost(Suspension, tick);
      }
    }

    method ClearAll()
      requires Valid()
      modifies this, nodes
      ensures Valid() && ring == [] && known == {} && good == 0 && nodes == old(nodes)
      ensures asked == old(asked) && answered == old(answered) && told == old(told)
      ensures tried == old(tried) && posts == old(posts) && tick == old(tick)
      ensures flying == [] && Contents(flying) == [] && Contents(idle) == Shelve(old(Contents(flying)), old(Contents(idle)))
      ensures nInflight == 0 && nWaiting == old(nWaiting) + |old(flying)|
    {
      hide RequestsLinked, ServersLinked, Pointing, Contents, Records, Addresses, Shelve;
      Framed();
      Points();
      ClearServers();
      ShelveAll();
    }

    method ClearServers()
      modifies this`serverHead, this`ring, this`known, this`good
      ensures ServersLinked() && ring == [] && known == {} && good == 0
    {
      serverHead, good := null, 0;
      ring, known := [], {};
    }

    lemma NoServers()
      requires ServersLinked() && ring == []
      ensures Addresses(ring) == [] && Records(ring) == map[]
    {
    }

    // Every inflight request goes to the waiting ring.
    method ShelveAll()
      requires RequestsLinked()
      requires forall i :: 0 <= i < |idle| ==> idle[i].req.net.ns == None && idle[i].ns == null
      modifies this`reqHead, this`waitHead, this`flying, this`idle, this`nInflight, this`nWaiting
      modifies flying`req, flying`ns, flying`next, flying`prev, idle`next, idle`prev
      ensures RequestsLinked() && Pointing() && flying == [] && Contents(flying) == []
      ensures Contents(idle) == Shelve(old(Contents(flying)), old(Contents(idle)))
      ensures nInflight == 0 && nWaiting == old(nWaiting) + |old(flying)|
    {
      hide RequestsLinked, Pointing, Linked, Contents, Shelve, InFront;
      Apart();
      ghost var xs, ws := flying, idle;
      var head, moved := MoveAll(reqHead, waitHead, flying, idle);
      ShelvedPlaces(xs, ws, nodes);
      waitHead, nWaiting, reqHead, nInflight := head, nWaiting + moved, null, 0;
      flying, idle := [], InFront(xs, ws);
      NoneLinked();
      Together();
      PointsTogether([]);
    }

    // The request in place i; the event loop keeps a pointer to it with its timer.
    method RequestAt(i: nat) returns (x: Node)
      requires Valid() && i < |flying|
      ensures x == flying[i]
    {
      hide RequestsLinked, ServersLinked, Pointing;
      HeadFlying();
      x := reqHead;
      var k := 0;
      while k < i
        invariant 0 <= k <= i && x == flying[k]
      {
        NextFlying(k);
        x := x.next;
        k := k + 1;
      }
    }

    // One call from the event loop or the user.
    method Handle(ev: Event)
      requires Valid() && Enabled(Now(), ev)
      modifies this, nodes, known
      ensures Valid() && fresh(nodes - old(nodes)) && fresh(known - old(known))
      ensures Now() == Step(c, e, old(Now()), ev)
      ensures c.Ok() && e.Honest() && Inv(c, old(Now())) ==> Inv(c, Now())
    {
      hide RequestsLinked, ServersLinked, Pointing, Now, Inv;
      hide Resolve, OnPacket, ServerFailed, OnWritable, TimedOut, SendProbe, Joined, Suspended, Pump;
      if c.Ok() && e.Honest() && Inv(c, Now()) {
        StepKeepsInv(c, e, Now(), ev);
      }
      Framed();
      match ev
      case Ask(l) => var _ := StartLookup(l);
      case AddServer(a) => NameserverAdd(a);
      case Suspend => ClearNameserversAndSuspend();
      case Resume => PumpWaitingQueue();
      case RequestTimer(i, calls) =>
        Counters();
        var x := RequestAt(i);
        Flies(i);
        RequestTimeout(x, calls, i);
      case _ => HandleServer(ev);
    }

    // The calls that concern one nameserver.
    method HandleServer(ev: Event)
      requires Valid() && Enabled(Now(), ev) && (ev.Packet? || ev.ReadError? || ev.Writable? || ev.ProbeTimer?)
      modifies this, nodes, known
      ensures Valid() && fresh(nodes - old(nodes)) && known == old(known)
      ensures Now() == Step(c, e, old(Now()), ev)
    {
      hide RequestsLinked, ServersLinked, Pointing, Now;
      hide OnPacket, ServerFailed, OnWritable, SendProbe;
      Framed();
      var srv := FindServer(ev.server);
      match ev
      case Packet(_, id, usable, reply, calls) => ReadPacket(srv, id, usable, reply, calls);
      case ReadError(_) => NameserverFailed(srv);
      case Writable(_) => SocketWritable(srv);
      case ProbeTimer(_) => SendProbeTo(srv);
    }
  }

  lemma BothWays(head: Node?, xs: seq<Node>)
    requires Linked(head, xs)
    ensures forall i :: 0 <= i < |xs| ==>
      xs[i].next != null && xs[i].prev != null && xs[i].next.prev == xs[i].prev.next == xs[i]
    ensures (head == null <==> xs == []) && Distinct(xs)
  {
    forall i | 0 <= i < |xs|
      ensures xs[i].next != null && xs[i].prev != null && xs[i].next.prev == xs[i].prev.next == xs[i]
    {
      var j, k := Succ(i, |xs|), Pred(i, |xs|);
      assert xs[i].next == xs[j] && xs[i].prev == xs[k] && Pred(j, |xs|) == i == Succ(k, |xs|);
      assert xs[j].prev == xs[i] && xs[k].next == xs[i];
    }
  }

  lemma DistinctTogether(xs: seq<Node>, ys: seq<Node>)
    requires Distinct(xs) && Distinct(ys) && forall j :: 0 <= j < |ys| ==> ys[j] !in xs
    ensures Distinct(xs + ys)
  {
  }

  lemma HasServer(c: Config, servers: map<Address, Nameserver>, n: Progress)
    requires Active(c, servers, n)
    ensures n.ns.Some?
  {
  }

  // The events of a run, one after another: the rings are linked after all of them, and stand for the state that the
  // run leads to.
  method Serve(c: Config, e: Env, evs: seq<Event>) returns (dns: Evdns)
    requires Run(c, e, evs).Some?
    ensures fresh(dns) && dns.Valid() && dns.c == c && dns.e == e && dns.Now() == Run(c, e, evs).value
  {
    hide Step, Enabled, Inv, Evdns.RequestsLinked, Evdns.ServersLinked, Evdns.Pointing, Evdns.Now;
    dns := new Evdns(c, e);
    assert evs[..0] == [];
    for i := 0 to |evs|
      invariant fresh(dns) && dns.Valid() && dns.c == c && dns.e == e && fresh(dns.nodes) && fresh(dns.known)
      invariant Run(c, e, evs[..i]) == Some(dns.Now())
    {
      RunUpTo(c, e, evs, i + 1);
      assert evs[..i + 1][..i] == evs[..i];
      dns.Handle(evs[i]);
    }
    assert evs[..|evs|] == evs;
  }

  lemma {:induction false} RunUpTo(c: Config, e: Env, evs: seq<Event>, n: nat)
    requires n <= |evs| && Run(c, e, evs).Some?
    ensures Run(c, e, evs[..n]).Some?
    decreases |evs|
  {
    hide Step, Enabled;
    if n == |evs| {
      assert evs[..n] == evs;
    } else {
      var front := evs[..|evs| - 1];
      RunUpTo(c, e, front, n);
      assert front[..n] == evs[..n];
    }
  }

  lemma NoneLinked()
    ensures Linked(null, [])
  {
  }

  lemma SecondKnown(x: Server, ss: seq<Server>, known: set<Server>)
    requires (forall i :: 0 <= i < |ss| ==> ss[i] in known) && forall y :: y in known ==> y in ss
    ensures var ts := Second(x, ss);
      (forall i :: 0 <= i < |ts| ==> ts[i] in known + {x}) && forall y :: y in known + {x} ==> y in ts
  {
    var ts := Second(x, ss);
    forall y | y in known + {x}
      ensures y in ts
    {
      if y == x {
        assert ts[if ss == [] then 0 else 1] == x;
      } else {
        var i :| 0 <= i < |ss| && ss[i] == y;
        assert ts[if i == 0 then 0 else i + 1] == y;
      }
    }
  }

  lemma SecondRecords(x: Server, ss: seq<Server>)
    requires Distinct(Addresses(ss)) && x.address !in Addresses(ss)
    ensures Addresses(Second(x, ss)) == JoinedRing(Addresses(ss), x.address) && Distinct(Addresses(Second(x, ss)))
    ensures Records(Second(x, ss)) == Records(ss)[x.address := x.record]
  {
    hide Addresses;
    if ss == [] {
      SecondOfNone(x);
      assert Addresses([x]) == [x.address];
    } else {
      SecondAddresses(x, ss);
    }
    JoinedDistinct(Addresses(ss), x.address);
    SecondRecord(x, ss);
  }

  lemma SecondRecord(x: Server, ss: seq<Server>)
    requires Distinct(Addresses(ss)) && x.address !in Addresses(ss) && Distinct(Addresses(Second(x, ss)))
    ensures Records(Second(x, ss)) == Records(ss)[x.address := x.record]
  {
    hide Distinct, Records, Addresses;
    var ts := Second(x, ss);
    var after, before := Records(ts), Records(ss)[x.address := x.record];
    forall a | a in after
      ensures a in before && after[a] == before[a]
    {
      var j :| 0 <= j < |ts| && Addresses(ts)[j] == a;
      assert j > 1 || (ss != [] && j == 0) ==> ts[j] == ss[if j == 0 then 0 else j - 1];
    }
    forall a | a in before
      ensures a in after
    {
      if a == x.address {
        assert ts[if ss == [] then 0 else 1] == x;
      } else {
        var j :| 0 <= j < |ss| && Addresses(ss)[j] == a;
        assert ts[if j == 0 then 0 else j + 1] == ss[j];
      }
    }
  }

  // Every place of the joined ring is known, and free of a nameserver.
  lemma ShelvedPlaces(xs: seq<Node>, ws: seq<Node>, nodes: set<Node>)
    requires (forall x :: x in xs ==> x in nodes && x.ns == null && x.req.net.ns == None) && forall x :: x in ws ==> x in nodes
    requires forall i :: 0 <= i < |ws| ==> ws[i].req.net.ns == None && ws[i].ns == null
    ensures var all := InFront(xs, ws);
      && (forall x :: x in all ==> x in nodes)
      && forall i :: 0 <= i < |all| ==> all[i].req.net.ns == None && all[i].ns == null
  {
    InFrontMembers(xs, ws);
    var all := InFront(xs, ws);
    forall i | 0 <= i < |all|
      ensures all[i].req.net.ns == None && all[i].ns == null
    {
      assert all[i] in all;
    }
  }

  lemma SetTwice(s: State, a: Address, n: Nameserver, m: Nameserver)
    ensures SetServer(SetServer(s, a, n), a, m) == SetServer(s, a, m)
  {
    assert s.servers[a := n][a := m] == s.servers[a := m];
  }

  function PumpedOnce(e: Env, s: State): State
    requires s.waiting != []
  {
    TransmitAll(e, Transmit(e, Promote(e, s), |s.inflight|), 0)
  }

  lemma PromoteLonger(e: Env, s: State)
    requires s.waiting != []
    ensures |Promote(e, s).inflight| == |s.inflight| + 1
  {
    hide Pick, IdsOf;
  }

  lemma PumpGoesOn(c: Config, e: Env, s: State)
    requires s.nInflight < c.maxInflight && s.nWaiting != 0 && s.waiting != [] && s.ring != []
    ensures Pump(c, e, s) == Pump(c, e, PumpedOnce(e, s)) && |PumpedOnce(e, s).waiting| < |s.waiting|
  {
    hide Transmit, TransmitAll, Pick, IdsOf;
  }

  lemma PumpEnds(c: Config, e: Env, s: State)
    requires !(s.nInflight < c.maxInflight && s.nWaiting != 0 && s.waiting != [] && s.ring != [])
    ensures Pump(c, e, s) == s
  {
  }

  lemma ResolveNext(c: Config, e: Env, s: State, calls: seq<Lookup>, k: nat)
    requires k < |calls|
    ensures ResolveAll(c, e, s, calls[k..]) == ResolveAll(c, e, Resolve(c, e, s, calls[k]).s, calls[k + 1..])
  {
    hide Resolve;
    assert calls[k..][1..] == calls[k + 1..];
  }

  lemma ResolveNone(c: Config, e: Env, s: State)
    ensures ResolveAll(c, e, s, []) == s
  {
  }

  lemma NewRequestAsked(c: Config, e: Env, s: State, what: Purpose)
    ensures var m := NewRequest(c, e, s, what); m.s == s.(ring := m.s.ring, tick := m.s.tick, tried := m.s.tried)
  {
    hide Pick, ShortLabels, IdsOf;
  }

  lemma FirstOf(head: Node?, xs: seq<Node>)
    requires Linked(head, xs) && xs != []
    ensures head == xs[0] && xs[0] !in xs[1..] && xs[..0] + xs[1..] == xs[1..]
  {
  }

  lemma RestOf(xs: seq<Node>)
    requires xs != []
    ensures Contents(xs[1..]) == Contents(xs)[1..] && Contents(xs)[0] == xs[0].req
  {
    hide Contents;
  }

  lemma ContentsBut(xs: seq<Node>, i: nat)
    requires i < |xs|
    ensures Contents(xs[..i] + xs[i + 1..]) == Remove(Contents(xs), i)
  {
    hide Contents;
    ContentsConcat(xs[..i], xs[i + 1..]);
    ContentsPart(xs, 0, i);
    ContentsPart(xs, i + 1, |xs|);
  }

  lemma ContentsConcat(xs: seq<Node>, ys: seq<Node>)
    ensures Contents(xs + ys) == Contents(xs) + Contents(ys)
  {
    hide Contents;
  }

  lemma ContentsPart(xs: seq<Node>, i: nat, j: nat)
    requires i <= j <= |xs|
    ensures Contents(xs[i..j]) == Contents(xs)[i..j]
  {
    hide Contents;
    var a, b := Contents(xs[i..j]), Contents(xs)[i..j];
    forall k | 0 <= k < j - i
      ensures a[k] == b[k]
    {
      assert xs[i..j][k] == xs[i + k];
    }
  }

  lemma ContentsOn(xs: seq<Node>, x: Node)
    ensures Contents(xs + [x]) == Contents(xs) + [x.req]
  {
    assert (xs + [x])[..|xs|] == xs;
  }

  // Where FindId looks on from place k.
  lemma {:induction false} FirstWithId(rs: seq<Request>, id: int, k: nat)
    requires k <= |rs| && forall j :: 0 <= j < k ==> rs[j].id != id
    ensures k == |rs| ==> FindId(rs, id) == None
    ensures k < |rs| && rs[k].id == id ==> FindId(rs, id) == Some(k)
  {
    if 0 < k {
      FirstWithId(rs[1..], id, k - 1);
    }
  }

  lemma NoIds(rs: seq<Request>)
    requires rs == []
    ensures IdsOf(rs) == {}
  {
  }

  lemma OneMoreId(rs: seq<Request>, k: nat)
    requires k < |rs|
    ensures IdsOf(rs[..k + 1]) == IdsOf(rs[..k]) + {rs[k].id}
  {
    var more := rs[..k + 1];
    forall id | id in IdsOf(more)
      ensures id in IdsOf(rs[..k]) + {rs[k].id}
    {
      var j :| 0 <= j < |more| && more[j].id == id;
      assert j < k ==> rs[..k][j].id == id;
    }
    forall id | id in IdsOf(rs[..k]) + {rs[k].id}
      ensures id in IdsOf(more)
    {
      if id == rs[k].id {
        assert more[k].id == id;
      } else {
        var j :| 0 <= j < k && rs[..k][j].id == id;
        assert more[j].id == id;
      }
    }
  }

  lemma ContentsAfter(xs: seq<Node>, ys: seq<Node>, i: nat, rs: seq<Request>, ws: seq<Request>)
    requires |rs| == |xs| && |ws| == |ys| && i < |xs|
    requires forall j :: 0 <= j < |xs| && j != i ==> xs[j].req == rs[j]
    requires forall j :: 0 <= j < |ys| ==> ys[j].req == ws[j]
    ensures Contents(xs) == rs[i := xs[i].req] && Contents(ys) == ws
  {
  }

  lemma RecordsAfter(ss: seq<Server>, i: nat, before: map<Address, Nameserver>)
    requires Distinct(Addresses(ss)) && i < |ss| && before.Keys == Records(ss).Keys
    requires forall j :: 0 <= j < |ss| && j != i ==> ss[j].address != ss[i].address && before[ss[j].address] == ss[j].record
    ensures Records(ss) == before[ss[i].address := ss[i].record]
  {
    var after := Records(ss);
    forall a | a in after
      ensures after[a] == before[ss[i].address := ss[i].record][a]
    {
      var j :| 0 <= j < |ss| && Addresses(ss)[j] == a;
    }
  }

  lemma SamePlace(ss: seq<Server>, i: nat)
    requires Distinct(Addresses(ss)) && i < |ss|
    ensures forall j :: 0 <= j < |ss| && j != i ==> ss[j] != ss[i] && ss[j].address != ss[i].address
  {
    assert forall j :: 0 <= j < |ss| ==> Addresses(ss)[j] == ss[j].address;
  }

  lemma TurnedKnown(ss: seq<Server>, known: set<Server>)
    requires ss != [] && (forall i :: 0 <= i < |ss| ==> ss[i] in known) && forall x :: x in known ==> x in ss
    ensures var ts := ss[1..] + [ss[0]]; (forall i :: 0 <= i < |ts| ==> ts[i] in known) && forall x :: x in known ==> x in ts
  {
    var ts := ss[1..] + [ss[0]];
    forall x | x in known
      ensures x in ts
    {
      var i :| 0 <= i < |ss| && ss[i] == x;
      assert ts[if i == 0 then |ss| - 1 else i - 1] == x;
    }
  }

  lemma TurnedRecords(ss: seq<Server>)
    requires ss != [] && Distinct(Addresses(ss)) && Distinct(Addresses(OneOn(ss)))
    ensures Addresses(OneOn(ss)) == Rotate(Addresses(ss)) && Records(OneOn(ss)) == Records(ss)
  {
    hide Distinct, Records, Addresses;
    var ts := OneOn(ss);
    assert Addresses(ts) == Rotate(Addresses(ss));
    forall a | a in Records(ss)
      ensures a in Records(ts) && Records(ts)[a] == Records(ss)[a]
    {
      var i :| 0 <= i < |ss| && Addresses(ss)[i] == a;
      assert ts[if i == 0 then |ss| - 1 else i - 1] == ss[i];
    }
    forall a | a in Records(ts)
      ensures a in Records(ss)
    {
      var i :| 0 <= i < |ts| && Addresses(ts)[i] == a;
      assert ss[Succ(i, |ss|)] == ts[i];
    }
  }

  // The ring seen from its second member.
  ghost function OneOn(ss: seq<Server>): seq<Server>
    requires ss != []
  {
    ss[1..] + [ss[0]]
  }

  lemma Turned(head: Server?, ss: seq<Server>)
    requires Chained(head, ss) && ss != []
    ensures var ts := ss[1..] + [ss[0]]; Chained(head.next, ts) && Distinct(Addresses(ss)) && Distinct(Addresses(ts))
  {
    var ts := ss[1..] + [ss[0]];
    assert ss == [ss[0]] + ss[1..];
    assert forall i :: 0 <= i < |ts| ==> ts[i] == ss[Succ(i, |ss|)];
    TurnedDistinct(Addresses(ss), Addresses(ts));
  }

  lemma TurnedDistinct(a: seq<Address>, b: seq<Address>)
    requires Distinct(a) && a != [] && |b| == |a| && forall i :: 0 <= i < |a| ==> b[i] == a[Succ(i, |a|)]
    ensures Distinct(b)
  {
  }

  // The ring seen from its member k places on.
  ghost function TurnBy(ss: seq<Server>, k: nat): seq<Server>
    requires k <= |ss|
  {
    ss[k..] + ss[..k]
  }

  lemma NoTurns(ss: seq<Server>)
    ensures TurnBy(ss, 0) == ss
  {
  }

  lemma TurnedOnce(ss: seq<Server>, k: nat)
    requires 0 < k <= |ss| && Distinct(Addresses(ss))
    ensures var ts := TurnBy(ss, k - 1); ts != [] && TurnBy(ss, k) == OneOn(ts)
    ensures TurnBy(ss, k) != [] && (TurnBy(ss, k)[0] == ss[0] <==> k == |ss|)
  {
    SamePlace(ss, 0);
  }

  lemma PickUpNext(ring: seq<Address>, servers: map<Address, Nameserver>, n: nat)
    requires ring != []
    ensures PickUp(ring, servers, n) ==
      if IsUp(servers, ring[0]) then Picked(Rotate(ring), Some(ring[0]))
      else if n <= 1 then Picked(Rotate(Rotate(ring)), Some(Rotate(ring)[0]))
      else PickUp(Rotate(ring), servers, n - 1)
  {
  }

  // ---------- Sending one after another ----------

  // The requests before place i have been sent if they were marked.
  ghost predicate SentSoFar(e: Env, s0: State, s: State, i: nat, didTry: bool) {
    && i <= |s.inflight| == |s0.inflight|
    && TransmitAll(e, s, i) == TransmitAll(e, s0, 0)
    && (forall k :: i <= k < |s.inflight| ==> s.inflight[k].net.transmitMe == s0.inflight[k].net.transmitMe)
    && didTry == AnyToTransmit(s0.inflight[..i])
  }

  lemma SendingStarts(e: Env, s: State)
    ensures SentSoFar(e, s, s, 0, false)
  {
    hide TransmitAll;
  }

  lemma SendingGoesOn(e: Env, s0: State, s: State, i: nat, didTry: bool)
    requires SentSoFar(e, s0, s, i, didTry) && i < |s.inflight|
    ensures var marked := s.inflight[i].net.transmitMe;
      SentSoFar(e, s0, if marked then Transmit(e, s, i) else s, i + 1, didTry || marked)
  {
    hide Transmit;
    AnyNext(s0.inflight, i);
    OthersMarked(e, s, i);
  }

  lemma SendingEnds(e: Env, s0: State, s: State, didTry: bool)
    requires SentSoFar(e, s0, s, |s.inflight|, didTry)
    ensures s == TransmitAll(e, s0, 0) && didTry == AnyToTransmit(s0.inflight)
  {
    assert s0.inflight[..|s.inflight|] == s0.inflight;
  }

  lemma AnyNext(rs: seq<Request>, i: nat)
    requires i < |rs|
    ensures AnyToTransmit(rs[..i + 1]) == (AnyToTransmit(rs[..i]) || rs[i].net.transmitMe)
  {
    if k :| 0 <= k < i && rs[..i][k].net.transmitMe {
      assert rs[..i + 1][k].net.transmitMe;
    }
    if rs[i].net.transmitMe {
      assert rs[..i + 1][i].net.transmitMe;
    }
  }

  // Sending one request leaves the marks of the others.
  lemma OthersMarked(e: Env, s: State, i: nat)
    requires i < |s.inflight|
    ensures var s' := Transmit(e, s, i);
      |s'.inflight| == |s.inflight| &&
      forall k :: 0 <= k < |s.inflight| && k != i ==> s'.inflight[k].net.transmitMe == s.inflight[k].net.transmitMe
  {
    hide ServerFailed;
  }
}
