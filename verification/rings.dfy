// The circular lists of evdns: requests and nameservers that know their neighbours.
module Rings {
  import opened Bytes
  import opened Resolver
  import opened ResolverServers

  // struct nameserver: the links, and the rest of it
  class Server {
    const address: Address
    var record: Nameserver
    var next: Server?
    var prev: Server?

    constructor (address: Address, record: Nameserver)
      ensures this.address == address && this.record == record && next == null && prev == null
    {
      this.address, this.record, next, prev := address, record, null, null;
    }
  }

  function AddressOf(ns: Server?): Option<Address> {
    if ns == null then None else Some(ns.address)
  }

  // struct request: the links, the pointer to its nameserver, and the rest of it, with the address that the
  // pointer leads to
  class Node {
    var req: Request
    var ns: Server?
    var next: Node?
    var prev: Node?

    constructor (req: Request, ns: Server?)
      ensures this.req == req && this.ns == ns && next == null && prev == null
    {
      this.req, this.ns, next, prev := req, ns, null, null;
    }
  }

  // ---------- Going round ----------

  function Succ(i: nat, n: nat): nat {
    if i + 1 == n then 0 else i + 1
  }

  function Pred(i: nat, n: nat): nat
    requires 0 < n
  {
    if i == 0 then n - 1 else i - 1
  }

  // The ring that starts at head is xs, both ways round; a null head is the empty ring.
  ghost predicate Linked(head: Node?, xs: seq<Node>)
    reads xs`next, xs`prev
  {
    && head == (if xs == [] then null else xs[0])
    && Distinct(xs)
    && (forall i {:trigger xs[i].next} :: 0 <= i < |xs| ==> xs[i].next == xs[Succ(i, |xs|)])
    && forall i {:trigger xs[i].prev} :: 0 <= i < |xs| ==> xs[i].prev == xs[Pred(i, |xs|)]
  }

  // The requests of a ring, from its head on.
  ghost function Contents(xs: seq<Node>): (rs: seq<Request>)
    reads xs`req
    ensures |rs| == |xs|
    ensures forall i :: 0 <= i < |xs| ==> rs[i] == xs[i].req
  {
    if xs == [] then [] else Contents(xs[..|xs| - 1]) + [xs[|xs| - 1].req]
  }

  // evdns_request_insert: x goes to the tail of the queue.
  method Insert(x: Node, head: Node?, ghost xs: seq<Node>) returns (head': Node?)
    requires Linked(head, xs) && x !in xs
    modifies x`next, x`prev, xs`next, xs`prev
    ensures Linked(head', xs + [x])
  {
    if head == null {
      x.next, x.prev := x, x;
      return x;
    }
    ghost var n := |xs|;
    assert head.prev == xs[n - 1];
    x.prev := head.prev;
    x.prev.next := x;
    x.next := head;
    head.prev := x;
    return head;
  }

  // The ring with place i left out, place by place.
  lemma Left<T>(xs: seq<T>, i: nat)
    requires Distinct(xs) && i < |xs|
    ensures var ys := xs[..i] + xs[i + 1..];
      && |ys| == |xs| - 1 && Distinct(ys) && xs[i] !in ys
      && forall k :: 0 <= k < |ys| ==> ys[k] == xs[if k < i then k else k + 1]
  {
  }

  lemma Relinked(head: Node?, head': Node?, xs: seq<Node>, i: nat)
    requires Distinct(xs) && i < |xs| && 1 < |xs| && head == xs[0] && head' == (if i == 0 then xs[1] else xs[0])
    requires forall j {:trigger xs[j].next} :: 0 <= j < |xs| && j != Pred(i, |xs|) && j != i ==> xs[j].next == xs[Succ(j, |xs|)]
    requires forall j {:trigger xs[j].prev} :: 0 <= j < |xs| && j != Succ(i, |xs|) && j != i ==> xs[j].prev == xs[Pred(j, |xs|)]
    requires xs[Pred(i, |xs|)].next == xs[Succ(i, |xs|)] && xs[Succ(i, |xs|)].prev == xs[Pred(i, |xs|)]
    ensures Linked(head', xs[..i] + xs[i + 1..])
  {
    hide Distinct;
    Left(xs, i);
    var ys, n := xs[..i] + xs[i + 1..], |xs|;
    forall k | 0 <= k < |ys|
      ensures ys[k].next == ys[Succ(k, |ys|)] && ys[k].prev == ys[Pred(k, |ys|)]
    {
      var j := if k < i then k else k + 1;
      assert ys[k] == xs[j];
      assert ys[Succ(k, |ys|)] == xs[if j == Pred(i, n) then Succ(i, n) else Succ(j, n)];
      assert ys[Pred(k, |ys|)] == xs[if j == Succ(i, n) then Pred(i, n) else Pred(j, n)];
    }
  }

  // The unlinking in request_finished and in evdns_requests_pump_waiting_queue: x, in place i, leaves its ring.
  method Unlink(x: Node, head: Node?, ghost xs: seq<Node>, ghost i: nat) returns (head': Node?)
    requires Linked(head, xs) && i < |xs| && xs[i] == x
    modifies xs`next, xs`prev
    ensures Linked(head', xs[..i] + xs[i + 1..])
  {
    ghost var n := |xs|;
    assert x.next == xs[Succ(i, n)] && x.prev == xs[Pred(i, n)];
    if x.next == x {
      return null;
    }
    x.next.prev := x.prev;
    x.prev.next := x.next;
    head' := if head == x then x.next else head;
    Relinked(head, head', xs, i);
  }

  // Stepping the head back by one brings the last in front.
  lemma StepsBack(head: Node?, xs: seq<Node>)
    requires Linked(head, xs) && xs != []
    ensures head.prev == xs[|xs| - 1] && Linked(head.prev, [xs[|xs| - 1]] + xs[..|xs| - 1])
  {
    var n := |xs|;
    var ys := [xs[n - 1]] + xs[..n - 1];
    forall k | 0 <= k < n
      ensures ys[k] == xs[Pred(k, n)]
    {
    }
  }

  // ---------- Moving a whole ring in front of another ----------

  // The nodes of xs go in front of ws one by one, so the first of them ends up last.
  function InFront(xs: seq<Node>, ws: seq<Node>): seq<Node> {
    if xs == [] then ws else InFront(xs[1..], [xs[0]] + ws)
  }

  lemma {:induction false} InFrontMembers(xs: seq<Node>, ws: seq<Node>)
    ensures |InFront(xs, ws)| == |xs| + |ws|
    ensures forall x :: x in InFront(xs, ws) <==> x in xs || x in ws
  {
    if xs != [] {
      InFrontMembers(xs[1..], [xs[0]] + ws);
    }
  }

  function Cleared(r: Request): Request {
    r.(id := 0, net := FRESH)
  }

  // One turn of the loop in evdns_clear_nameservers_and_suspend: the request is cleared, goes to the tail of the
  // waiting ring, and becomes its head by a step back.
  method MoveOne(x: Node, head: Node?, ghost ws: seq<Node>) returns (head': Node?)
    requires Linked(head, ws) && x !in ws
    modifies x`req, x`ns, x`next, x`prev, ws`next, ws`prev
    ensures Linked(head', [x] + ws)
    ensures x.req == Cleared(old(x.req)) && x.ns == null
  {
    x.req := x.req.(net := x.req.net.(txCount := 0, reissueCount := 0, sends := 0));
    x.ns := null;
    x.req := x.req.(net := x.req.net.(ns := None, timer := false));
    x.req := x.req.(id := 0, net := x.req.net.(transmitMe := false));
    head' := Insert(x, head, ws);
    StepsBack(head', ws + [x]);
    assert (ws + [x])[..|ws|] == ws;
    head' := head'.prev;
  }

  // What is still to be moved: the nodes from place i on, as they were.
  ghost predicate ToMove(xs: seq<Node>, rs: seq<Request>, i: nat, ws: seq<Node>)
    requires |rs| == |xs|
    reads xs`next, xs`req
  {
    && (forall k {:trigger xs[k].next} :: i <= k < |xs| ==> xs[k].next == xs[Succ(k, |xs|)])
    && forall k :: i <= k < |xs| ==> xs[k] !in ws && xs[k].req == rs[k]
  }

  lemma NextOf(xs: seq<Node>, rs: seq<Request>, i: nat, ws: seq<Node>)
    requires |rs| == |xs| && Distinct(xs) && i < |xs| && ToMove(xs, rs, i, ws)
    ensures xs[i].next == xs[Succ(i, |xs|)] && xs[i] !in ws && xs[i].req == rs[i]
    ensures xs[i].next == xs[0] <==> i + 1 == |xs|
    ensures ToMove(xs, rs, i + 1, [xs[i]] + ws)
  {
  }

  lemma ShelveOne(rs: seq<Request>, ws: seq<Request>)
    requires rs != []
    ensures Shelve(rs, ws) == Shelve(rs[1..], [Cleared(rs[0])] + ws)
  {
  }

  // What is still to be moved makes `all` and `res` of what is there.
  ghost predicate Ahead(xs: seq<Node>, rs: seq<Request>, i: nat, cur: seq<Node>, ws: seq<Request>, all: seq<Node>, res: seq<Request>)
    requires |rs| == |xs| && i <= |xs|
  {
    InFront(xs[i..], cur) == all && Shelve(rs[i..], ws) == res
  }

  lemma AheadOne(xs: seq<Node>, rs: seq<Request>, i: nat, cur: seq<Node>, ws: seq<Request>, all: seq<Node>, res: seq<Request>)
    requires |rs| == |xs| && i < |xs| && Ahead(xs, rs, i, cur, ws, all, res)
    ensures Ahead(xs, rs, i + 1, [xs[i]] + cur, [Cleared(rs[i])] + ws, all, res)
  {
    hide Shelve, InFront, Cleared;
    RestAfter(xs, i);
    RestAfter(rs, i);
    ShelveOne(rs[i..], ws);
    InFrontOne(xs[i..], cur);
  }

  // Where the loop stands: the first i nodes of xs are in front of ws, in cur; `all` and `res` are what it makes.
  ghost predicate Moving(xs: seq<Node>, rs: seq<Request>, i: nat, head: Node?, cur: seq<Node>, ws: seq<Node>,
                         all: seq<Node>, res: seq<Request>)
    requires |rs| == |xs| && i <= |xs|
    reads xs`next, xs`req, xs`ns, cur`next, cur`prev, cur`req
  {
    && Linked(head, cur) && ToMove(xs, rs, i, cur)
    && Ahead(xs, rs, i, cur, Contents(cur), all, res)
    && forall k :: 0 <= k < i ==> xs[k].ns == null && xs[k].req.net.ns == None
  }

  lemma MovingStarts(xs: seq<Node>, head: Node?, waitHead: Node?, ws: seq<Node>)
    requires Linked(head, xs) && Linked(waitHead, ws) && forall x :: x in xs ==> x !in ws
    ensures Moving(xs, Contents(xs), 0, waitHead, ws, ws, InFront(xs, ws), Shelve(Contents(xs), Contents(ws)))
  {
    hide InFront, Shelve, Linked, ToMove, Contents;
    assert xs[0..] == xs && Contents(xs)[0..] == Contents(xs);
    AllToMove(head, xs, ws);
  }

  lemma AllToMove(head: Node?, xs: seq<Node>, ws: seq<Node>)
    requires Linked(head, xs) && forall x :: x in xs ==> x !in ws
    ensures ToMove(xs, Contents(xs), 0, ws)
  {
    assert forall k :: 0 <= k < |xs| ==> xs[k] in xs;
  }

  lemma MovingEnds(xs: seq<Node>, rs: seq<Request>, head: Node?, cur: seq<Node>, ws: seq<Node>, all: seq<Node>, res: seq<Request>)
    requires |rs| == |xs| && Moving(xs, rs, |xs|, head, cur, ws, all, res)
    ensures cur == all && Linked(head, all) && Contents(all) == res && forall x :: x in xs ==> x.ns == null && x.req.net.ns == None
  {
  }

  // One turn of the loop.
  method MoveNext(req: Node, head: Node?, ghost xs: seq<Node>, ghost rs: seq<Request>, ghost i: nat, ghost cur: seq<Node>,
                  ghost ws: seq<Node>, ghost all: seq<Node>, ghost res: seq<Request>) returns (next: Node?, head': Node?)
    requires |rs| == |xs| && i < |xs| && req == xs[i] && Distinct(xs) && Moving(xs, rs, i, head, cur, ws, all, res)
    modifies req`req, req`ns, req`next, req`prev, cur`next, cur`prev
    ensures Moving(xs, rs, i + 1, head', [req] + cur, ws, all, res)
    ensures next == xs[Succ(i, |xs|)] && (next == xs[0] <==> i + 1 == |xs|)
  {
    hide Ahead, Linked, Distinct, Contents, Succ;
    NextOf(xs, rs, i, cur);
    next := req.next;
    ghost var before := Contents(cur);
    head' := MoveOne(req, head, cur);
    MovedOne(req, xs, rs, i, head', cur, before, ws, all, res);
  }

  lemma MovedOne(x: Node, xs: seq<Node>, rs: seq<Request>, i: nat, head: Node?, cur: seq<Node>, before: seq<Request>,
                 ws: seq<Node>, all: seq<Node>, res: seq<Request>)
    requires |rs| == |xs| && i < |xs| && x == xs[i] && Linked(head, [x] + cur) && ToMove(xs, rs, i + 1, [x] + cur)
    requires Ahead(xs, rs, i, cur, before, all, res)
    requires |before| == |cur| && (forall k :: 0 <= k < |cur| ==> cur[k].req == before[k]) && x.req == Cleared(rs[i])
    requires forall k :: 0 <= k <= i ==> xs[k].ns == null && xs[k].req.net.ns == None
    ensures Moving(xs, rs, i + 1, head, [x] + cur, ws, all, res)
  {
    hide Ahead, Linked, Contents, ToMove, Cleared;
    AheadOne(xs, rs, i, cur, before, all, res);
    ContentsInFront(x, cur, before);
  }

  lemma RestAfter<T>(s: seq<T>, i: nat)
    requires i < |s|
    ensures s[i..] != [] && s[i..][0] == s[i] && s[i..][1..] == s[i + 1..]
  {
  }

  lemma ContentsInFront(x: Node, xs: seq<Node>, rs: seq<Request>)
    requires |rs| == |xs| && forall k :: 0 <= k < |xs| ==> xs[k].req == rs[k]
    ensures Contents([x] + xs) == [x.req] + rs
  {
    hide Contents;
    var ys, ws := [x] + xs, [x.req] + rs;
    forall k | 0 <= k < |ys|
      ensures Contents(ys)[k] == ws[k]
    {
      assert ys[k] == if k == 0 then x else xs[k - 1];
    }
  }

  lemma InFrontOne(xs: seq<Node>, ws: seq<Node>)
    requires xs != []
    ensures InFront(xs, ws) == InFront(xs[1..], [xs[0]] + ws)
  {
  }

  lemma HeadOf(head: Node?, xs: seq<Node>)
    requires Linked(head, xs)
    ensures head == (if xs == [] then null else xs[0]) && Distinct(xs)
  {
  }

  // The loop in evdns_clear_nameservers_and_suspend, which walks one ring while it builds the other.
  method MoveAll(head: Node?, waitHead: Node?, ghost xs: seq<Node>, ghost ws: seq<Node>)
    returns (head': Node?, moved: nat)
    requires Linked(head, xs) && Linked(waitHead, ws) && forall x :: x in xs ==> x !in ws
    modifies xs`req, xs`ns, xs`next, xs`prev, ws`next, ws`prev
    ensures Linked(head', InFront(xs, ws)) && moved == |xs|
    ensures forall x :: x in xs ==> x.ns == null && x.req.net.ns == None
    ensures Contents(InFront(xs, ws)) == Shelve(old(Contents(xs)), old(Contents(ws)))
  {
    hide Shelve, InFront, Moving, Linked, Contents, Distinct;
    HeadOf(head, xs);
    head', moved := waitHead, 0;
    MovingStarts(xs, head, waitHead, ws);
    ghost var rs, cur, all, res := Contents(xs), ws, InFront(xs, ws), Shelve(Contents(xs), Contents(ws));
    if head == null {
      MovingEnds(xs, rs, head', cur, ws, all, res);
      return;
    }
    var req: Node := head;
    while true
      invariant moved < |xs| && req == xs[moved]
      invariant Moving(xs, rs, moved, head', cur, ws, all, res)
      invariant forall k :: 0 <= k < |cur| ==> cur[k] in xs || cur[k] in ws
      decreases |xs| - moved
    {
      var next;
      next, head' := MoveNext(req, head', xs, rs, moved, cur, ws, all, res);
      cur, moved := [req] + cur, moved + 1;
      if next == head {
        break;
      }
      req := next;
    }
    MovingEnds(xs, rs, head', cur, ws, all, res);
  }

  // ---------- Nameservers ----------

  // The ring of nameservers is only ever walked forward.
  ghost predicate Chained(head: Server?, ss: seq<Server>)
    reads ss`next
  {
    && head == (if ss == [] then null else ss[0])
    && Distinct(Addresses(ss))
    && forall i {:trigger ss[i].next} :: 0 <= i < |ss| ==> ss[i].next == ss[Succ(i, |ss|)]
  }

  // Whether it could also be walked back.
  ghost predicate ChainedBack(ss: seq<Server>)
    reads ss`prev
  {
    forall i {:trigger ss[i].prev} :: 0 <= i < |ss| ==> ss[i].prev == ss[Pred(i, |ss|)]
  }

  function Addresses(ss: seq<Server>): (ring: seq<Address>)
    ensures |ring| == |ss|
    ensures forall i :: 0 <= i < |ss| ==> ring[i] == ss[i].address
  {
    seq(|ss|, i requires 0 <= i < |ss| => ss[i].address)
  }

  // What is kept of each nameserver.
  ghost function Records(ss: seq<Server>): (servers: map<Address, Nameserver>)
    requires Distinct(Addresses(ss))
    reads ss`record
    ensures forall a :: a in servers <==> a in Addresses(ss)
    ensures forall i :: 0 <= i < |ss| ==> ss[i].address in servers && servers[ss[i].address] == ss[i].record
  {
    assert forall i :: 0 <= i < |ss| ==> Addresses(ss)[i] == ss[i].address;
    map i | 0 <= i < |ss| :: ss[i].address := ss[i].record
  }

  function Second(x: Server, ss: seq<Server>): seq<Server> {
    if ss == [] then [x] else [ss[0], x] + ss[1..]
  }

  lemma SecondPlaces(x: Server, ss: seq<Server>)
    requires ss != []
    ensures var ts := Second(x, ss);
      |ts| == |ss| + 1 && ts[0] == ss[0] && ts[1] == x && forall k :: 2 <= k < |ts| ==> ts[k] == ss[k - 1]
  {
  }

  lemma SecondChained(x: Server, ss: seq<Server>)
    requires ss != [] && Distinct(Addresses(ss)) && x.address !in Addresses(ss)
    requires ss[0].next == x && x.next == ss[Succ(0, |ss|)]
    requires forall i {:trigger ss[i].next} :: 1 <= i < |ss| ==> ss[i].next == ss[Succ(i, |ss|)]
    ensures Chained(ss[0], Second(x, ss))
  {
    hide Second, Addresses, Distinct;
    SecondPlaces(x, ss);
    var ts := Second(x, ss);
    forall k | 0 <= k < |ts|
      ensures ts[k].next == ts[Succ(k, |ts|)]
    {
      SecondNext(x, ss, ts, k);
    }
    SecondAddresses(x, ss);
    JoinedDistinct(Addresses(ss), x.address);
  }

  lemma SecondNext(x: Server, ss: seq<Server>, ts: seq<Server>, k: nat)
    requires ss != [] && |ts| == |ss| + 1 && ts[0] == ss[0] && ts[1] == x && k < |ts|
    requires k > 1 ==> ts[k] == ss[k - 1] && ss[k - 1].next == ss[Succ(k - 1, |ss|)]
    requires k > 0 && k + 1 < |ts| ==> ts[k + 1] == ss[k]
    requires ss[0].next == x && x.next == ss[Succ(0, |ss|)]
    ensures ts[k].next == ts[Succ(k, |ts|)]
  {
  }

  lemma SecondAddresses(x: Server, ss: seq<Server>)
    requires ss != []
    ensures Addresses(Second(x, ss)) == JoinedRing(Addresses(ss), x.address)
  {
    hide Addresses;
  }

  lemma JoinedDistinct(ring: seq<Address>, a: Address)
    requires Distinct(ring) && a !in ring
    ensures Distinct(JoinedRing(ring, a))
  {
    var r := JoinedRing(ring, a);
    if ring != [] {
      assert forall k :: 2 <= k < |r| ==> r[k] == ring[k - 1];
    }
  }

  // A prev link that is not set again stays at the node before, which is no longer the one before.
  lemma SecondBack(x: Server, ss: seq<Server>)
    requires ss != [] && x !in ss && x.prev == ss[0]
    requires if |ss| == 1 then ss[0].prev == x else forall i {:trigger ss[i].prev} :: 0 <= i < |ss| ==> ss[i].prev == ss[Pred(i, |ss|)]
    ensures ChainedBack(Second(x, ss)) <==> |ss| == 1
  {
    hide Second;
    SecondPlaces(x, ss);
    var ts := Second(x, ss);
    if |ss| > 1 {
      assert ts[2].prev == ss[0] && ts[Pred(2, |ts|)] == x;
    }
  }

  // The insertion in _evdns_nameserver_add_impl: x goes second. A ring whose prev links are right keeps them right
  // only while it has at most two members.
  method InsertServer(x: Server, head: Server?, ghost ss: seq<Server>) returns (head': Server?)
    requires Chained(head, ss) && x.address !in Addresses(ss)
    modifies x`next, x`prev, ss`next, ss`prev
    ensures Chained(head', Second(x, ss))
    ensures old(ChainedBack(ss)) ==> (ChainedBack(Second(x, ss)) <==> |ss| <= 1)
  {
    hide Second, Addresses;
    NotAmong(x, ss);
    if head == null {
      x.next, x.prev := x, x;
      assert Second(x, ss) == [x] by {
        SecondOfNone(x);
      }
      return x;
    }
    ghost var back := ChainedBack(ss);
    x.next := head.next;
    x.prev := head;
    head.next := x;
    if head.prev == head {
      head.prev := x;
    }
    SecondChained(x, ss);
    if back {
      SecondBack(x, ss);
    }
    return head;
  }

  lemma SecondOfNone(x: Server)
    ensures Second(x, []) == [x] && Distinct(Addresses([x]))
  {
  }

  lemma NotAmong(x: Server, ss: seq<Server>)
    requires x.address !in Addresses(ss) && Distinct(Addresses(ss))
    ensures x !in ss && Distinct(ss)
  {
    forall i | 0 <= i < |ss|
      ensures ss[i] != x
    {
      assert Addresses(ss)[i] == ss[i].address;
    }
    forall i, j | 0 <= i < j < |ss|
      ensures ss[i] != ss[j]
    {
      assert Addresses(ss)[i] == ss[i].address && Addresses(ss)[j] == ss[j].address;
    }
  }
}
