// The asynchronous resolver of evdns as a state machine. The circular lists of requests and of
// nameservers are sequences read from their heads; a nameserver is known by its address.
module Resolver {
  import opened Bytes
  import opened Names
  import opened NameWriter

  type Name = seq<Byte>
  type Address = nat

  const NO_ID := 0xffff

  datatype QueryType = A | PTR | AAAA

  // ---------- Configuration and surroundings ----------

  datatype Config = Config(maxInflight: nat, maxReissues: nat, maxRetransmits: nat, maxTimeouts: nat,
                           domains: seq<Name>, ndots: int) {
    predicate Ok() {
      1 <= maxInflight <= 65000
    }

    // A request is sent once even when no attempts are allowed.
    function Attempts(): (n: nat)
      ensures 1 <= n && maxRetransmits <= n && (1 <= maxRetransmits ==> n == maxRetransmits)
    {
      if maxRetransmits == 0 then 1 else maxRetransmits
    }
  }

  // What sendto did: took the packet, had no room for now (or took part of it), or failed.
  datatype Sending = Sent | Blocked | Broken

  // What the resolver cannot decide, as answers to the questions it asks, numbered in the order asked:
  // the outcome of a send, an id from the generator once it gives one that is not in use, and whether
  // an allocation succeeds.
  datatype Env = Env(send: nat -> Sending, freeId: (nat, set<int>) -> int, memory: nat -> bool) {
    ghost predicate Honest() {
      forall n: nat, used: set<int> :: |used| < NO_ID ==> 0 <= freeId(n, used) < NO_ID && freeId(n, used) !in used
    }
  }

  // ---------- State ----------

  // A call to one of the evdns_resolve functions, or the lookup behind a probe of a nameserver.
  datatype Lookup = Lookup(name: Name, qtype: QueryType, search: bool)

  // Where a request stands in the search that its lookup goes through: how many of the domains have been
  // tried, which is search_index + 1, and the name that was asked for.
  datatype Search = Search(done: nat, origname: Name)

  // What a request is for. `owner` numbers the lookup; a probe has the nameserver's callback.
  datatype Purpose = Purpose(owner: nat, probe: Option<Address>, qtype: QueryType, name: Name, search: Option<Search>)

  // How sending a request stands. `sends` counts all transmissions since it was made or last suspended.
  datatype Progress = Progress(ns: Option<Address>, txCount: nat, reissueCount: nat, transmitMe: bool, timer: bool, sends: nat)

  // `made` is the number of the question that was asked when the request was made; no two requests share it.
  datatype Request = Request(made: nat, what: Purpose, id: int, net: Progress)

  datatype Nameserver = Nameserver(up: bool, choked: bool, writeWaiting: bool, timedout: nat, failedTimes: nat, probeTimer: bool)

  // What sending leaves behind: each time a packet was given to sendto, for which request and with which question, and
  // the moments at which a request turned to another server or all of them started over.
  datatype Post = Post(made: nat, question: nat) | Anew(made: nat) | Suspension

  datatype State = State(
    inflight: seq<Request>, waiting: seq<Request>, nInflight: int, nWaiting: int,
    ring: seq<Address>, servers: map<Address, Nameserver>, good: int,
    // History: the lookups accepted so far, those answered and what each was told (None for success), the names each
    // has queried, and what was sent.
    asked: seq<Lookup>, answered: seq<nat>, told: seq<Option<Error>>, tried: map<nat, seq<Name>>, posts: seq<Post>,
    // The number of questions put to the surroundings.
    tick: nat)

  function SetNet(s: State, i: nat, n: Progress): State
    requires i < |s.inflight|
  {
    s.(inflight := s.inflight[i := s.inflight[i].(net := n)])
  }

  function SetServer(s: State, a: Address, ns: Nameserver): State {
    s.(servers := s.servers[a := ns])
  }

  function IdsOf(rs: seq<Request>): set<int> {
    set i | 0 <= i < |rs| :: rs[i].id
  }

  // What sending leaves alone: the requests but for their progress, the counters and the history.
  ghost predicate Kept(s: State, s': State) {
    && |s'.inflight| == |s.inflight|
    && (forall i :: 0 <= i < |s.inflight| ==> s'.inflight[i].what == s.inflight[i].what && s'.inflight[i].id == s.inflight[i].id)
    && (forall i :: 0 <= i < |s.inflight| ==> s'.inflight[i].made == s.inflight[i].made)
    && s'.waiting == s.waiting && s'.nInflight == s.nInflight && s'.nWaiting == s.nWaiting
    && s'.asked == s.asked && s'.answered == s.answered && s'.told == s.told && s'.tried == s.tried
    && s'.servers.Keys == s.servers.Keys
  }

  // A failing server leaves even the progress alone, but for the servers of requests.
  ghost predicate OnlyServersChange(s: State, s': State) {
    && Kept(s, s') && s'.posts == s.posts && s'.tick == s.tick
    && forall i :: 0 <= i < |s.inflight| ==>
         s'.inflight[i] == s.inflight[i].(net := s.inflight[i].net.(ns := s'.inflight[i].net.ns))
  }

  // ---------- Choosing a nameserver ----------

  function Rotate(ring: seq<Address>): (r: seq<Address>)
    requires ring != []
    ensures |r| == |ring|
  {
    ring[1..] + [ring[0]]
  }

  predicate IsUp(servers: map<Address, Nameserver>, a: Address) {
    a in servers && servers[a].up
  }

  // The head of the ring moves past the server picked.
  datatype Picked = Picked(ring: seq<Address>, ns: Option<Address>)

  // Looks for a server that is up; n are left to look at.
  function PickUp(ring: seq<Address>, servers: map<Address, Nameserver>, n: nat): Picked
    requires ring != []
    decreases n
  {
    if IsUp(servers, ring[0]) then Picked(Rotate(ring), Some(ring[0]))
    else if n <= 1 then Picked(Rotate(Rotate(ring)), Some(Rotate(ring)[0]))
    else PickUp(Rotate(ring), servers, n - 1)
  }

  function Pick(ring: seq<Address>, servers: map<Address, Nameserver>, good: int): Picked {
    if ring == [] then Picked(ring, None)
    else if good == 0 then Picked(Rotate(ring), Some(Rotate(ring)[0]))
    else PickUp(ring, servers, |ring|)
  }

  // ---------- Nameservers going down and coming back ----------

  // Requests of server a that were never sent, from place i of the inflight ring on, go to other servers.
  function Reassign(s: State, a: Address, i: nat): (s': State)
    requires i <= |s.inflight|
    ensures OnlyServersChange(s, s')
    decreases |s.inflight| - i
  {
    if i == |s.inflight| then s
    else
      var n := s.inflight[i].net;
      if n.txCount == 0 && n.ns == Some(a) then
        var p := Pick(s.ring, s.servers, s.good);
        Reassign(SetNet(s, i, n.(ns := p.ns)).(ring := p.ring), a, i + 1)
      else Reassign(s, a, i + 1)
  }

  function ServerFailed(s: State, a: Address): (s': State)
    ensures OnlyServersChange(s, s')
  {
    if !IsUp(s.servers, a) then s
    else
      var s1 := SetServer(s, a, s.servers[a].(up := false, failedTimes := 1, probeTimer := true)).(good := s.good - 1);
      if s1.good == 0 then s1 else Reassign(s1, a, 0)
  }

  function ServerUp(s: State, a: Address): (s': State)
    ensures Kept(s, s') && s'.inflight == s.inflight
  {
    if a !in s.servers || s.servers[a].up then s
    else SetServer(s, a, s.servers[a].(up := true, failedTimes := 0, timedout := 0, probeTimer := false)).(good := s.good + 1)
  }

  function ProbeFailed(s: State, a: Address): (s': State)
    ensures Kept(s, s') && s'.inflight == s.inflight
  {
    if a !in s.servers then s
    else if s.servers[a].up then SetServer(s, a, s.servers[a].(probeTimer := false))
    else SetServer(s, a, s.servers[a].(failedTimes := s.servers[a].failedTimes + 1, probeTimer := true))
  }

  // ---------- Transmitting ----------

  // evdns_request_transmit. A request without a server, which the invariant rules out, is left alone.
  function Transmit(e: Env, s: State, i: nat): (s': State)
    requires i < |s.inflight|
    ensures Kept(s, s')
  {
    var n := s.inflight[i].net.(transmitMe := true);
    var s1 := SetNet(s, i, n);
    if n.ns.None? || n.ns.value !in s.servers || s.servers[n.ns.value].choked then s1
    else
      var a := n.ns.value;
      var s2 := s1.(tick := s.tick + 1, posts := s.posts + [Post(s.inflight[i].made, s.tick)]);
      match e.send(s.tick)
      case Blocked => SetServer(s2, a, s.servers[a].(choked := true, writeWaiting := true))
      case Sent => Transmitted(s2, i)
      case Broken => Transmitted(ServerFailed(s2, a), i)
  }

  function Transmitted(s: State, i: nat): (s': State)
    requires i < |s.inflight|
    ensures Kept(s, s')
  {
    var n := s.inflight[i].net;
    SetNet(s, i, n.(timer := true, txCount := n.txCount + 1, transmitMe := false, sends := n.sends + 1))
  }

  // evdns_transmit from place i of the inflight ring on.
  function TransmitAll(e: Env, s: State, i: nat): (s': State)
    requires i <= |s.inflight|
    ensures Kept(s, s')
    decreases |s.inflight| - i
  {
    if i == |s.inflight| then s
    else if s.inflight[i].net.transmitMe then TransmitAll(e, Transmit(e, s, i), i + 1)
    else TransmitAll(e, s, i + 1)
  }

  predicate AnyToTransmit(rs: seq<Request>) {
    exists i :: 0 <= i < |rs| && rs[i].net.transmitMe
  }

  // ---------- Making, submitting and finishing requests ----------

  const FRESH := Progress(None, 0, 0, false, false, 0)

  datatype Made = Made(s: State, req: Option<Request>)

  // request_new. A query can be built for names of at most 255 bytes whose labels all fit.
  function NewRequest(c: Config, e: Env, s: State, what: Purpose): (m: Made)
    ensures m.s.inflight == s.inflight && m.s.servers == s.servers
  {
    var issuing := s.nInflight < c.maxInflight;
    var id := if issuing then e.freeId(s.tick, IdsOf(s.inflight)) else NO_ID;
    var s1 := s.(tick := s.tick + 2);
    if !e.memory(s.tick + 1) || |what.name| > MAX_NAME_LEN || !ShortLabels(what.name) then Made(s1, None)
    else
      var p := if issuing then Pick(s.ring, s.servers, s.good) else Picked(s.ring, None);
      var names := if what.owner in s.tried then s.tried[what.owner] else [];
      Made(s1.(ring := p.ring, tried := s.tried[what.owner := names + [what.name]]),
           Some(Request(s.tick, what, id, FRESH.(ns := p.ns))))
  }

  function Submit(e: Env, s: State, r: Request): (s': State)
    ensures |s.inflight| <= |s'.inflight|
  {
    if r.net.ns.Some? then
      Transmit(e, s.(inflight := s.inflight + [r], nInflight := s.nInflight + 1), |s.inflight|)
    else s.(waiting := s.waiting + [r], nWaiting := s.nWaiting + 1)
  }

  // Moves the first waiting request to the inflight ring.
  function Promote(e: Env, s: State): State
    requires s.waiting != []
  {
    var p := Pick(s.ring, s.servers, s.good);
    var r := s.waiting[0];
    var r' := r.(id := e.freeId(s.tick, IdsOf(s.inflight)), net := r.net.(ns := p.ns));
    s.(waiting := s.waiting[1..], nWaiting := s.nWaiting - 1, inflight := s.inflight + [r'], nInflight := s.nInflight + 1,
       ring := p.ring, tick := s.tick + 1)
  }

  function Pump(c: Config, e: Env, s: State): State
    decreases |s.waiting|
  {
    if s.nInflight < c.maxInflight && s.nWaiting != 0 && s.waiting != [] && s.ring != [] then
      Pump(c, e, TransmitAll(e, Transmit(e, Promote(e, s), |s.inflight|), 0))
    else s
  }

  function Remove(rs: seq<Request>, i: nat): seq<Request>
    requires i < |rs|
  {
    rs[..i] + rs[i + 1..]
  }

  function Finished(c: Config, e: Env, s: State, i: nat): State
    requires i < |s.inflight|
  {
    Pump(c, e, s.(inflight := Remove(s.inflight, i), nInflight := s.nInflight - 1))
  }

  // ---------- Searching ----------

  function Dots(name: Name): nat {
    if name == [] then 0 else (if name[0] == DOT then 1 else 0) + Dots(name[1..])
  }

  function WithDomain(base: Name, domain: Name): Name {
    base + (if base != [] && base[|base| - 1] == DOT then [] else [DOT]) + domain
  }

  // search_try_next: the request after inflight[i] in its search, if there is one and it could be made.
  datatype Next = Next(s: State, ok: bool)

  function TryNext(c: Config, e: Env, s: State, i: nat): (n: Next)
    requires i < |s.inflight| && s.inflight[i].what.search.Some?
    ensures |s.inflight| <= |n.s.inflight|
  {
    var w := s.inflight[i].what;
    var k := w.search.value.done;
    var name := w.search.value.origname;
    var s1 := s.(inflight := s.inflight[i := s.inflight[i].(what := w.(search := Some(Search(k + 1, name))))]);
    if k >= |c.domains| then
      if Dots(name) < c.ndots then Issue(c, e, s1, w.(name := name, search := None)) else Next(s1, false)
    else if !e.memory(s.tick) then Next(s1.(tick := s.tick + 1), false)
    else
      Issue(c, e, s1.(tick := s.tick + 1), w.(name := WithDomain(name, c.domains[k]), search := Some(Search(k + 1, name))))
  }

  function Issue(c: Config, e: Env, s: State, what: Purpose): (n: Next)
    ensures |s.inflight| <= |n.s.inflight|
  {
    var m := NewRequest(c, e, s, what);
    if m.req.None? then Next(m.s, false) else Next(Submit(e, m.s, m.req.value), true)
  }

  // evdns_resolve_ipv4, _ipv6 and _reverse: a lookup whose first request could be made is accepted.
  function Resolve(c: Config, e: Env, s: State, l: Lookup): (n: Next)
    ensures |s.inflight| <= |n.s.inflight|
  {
    var first := FirstQuery(c, l, |s.asked|);
    if first.search.Some? && first.search.value.done == 1 && !e.memory(s.tick) then Next(s.(tick := s.tick + 1), false)
    else
      var m := NewRequest(c, e, s.(tick := s.tick + 1), first);
      if m.req.None? then Next(m.s, false) else Next(Submit(e, m.s.(asked := s.asked + [l]), m.req.value), true)
  }

  predicate Searches(c: Config, l: Lookup) {
    l.search && l.qtype != PTR && c.domains != []
  }

  function FirstQuery(c: Config, l: Lookup, owner: nat): Purpose {
    if !Searches(c, l) then Purpose(owner, None, l.qtype, l.name, None)
    else if Dots(l.name) >= c.ndots then Purpose(owner, None, l.qtype, l.name, Some(Search(0, l.name)))
    else Purpose(owner, None, l.qtype, WithDomain(l.name, c.domains[0]), Some(Search(1, l.name)))
  }

  function ResolveAll(c: Config, e: Env, s: State, ls: seq<Lookup>): (s': State)
    ensures |s.inflight| <= |s'.inflight|
    decreases |ls|
  {
    if ls == [] then s else ResolveAll(c, e, Resolve(c, e, s, ls[0]).s, ls[1..])
  }

  // ---------- Answers ----------

  datatype Error = Format | ServerFailure | NotExist | NotImpl | Refused | Truncated | Unknown | Timeout

  // A reply to a request: its addresses or name, or an error given by the truncation bit and the code
  // in the header; a code of zero stands for a reply without an answer.
  datatype Reply = Answer | Failure(truncated: bool, rcode: nat)

  function ErrorOf(truncated: bool, rcode: nat): Error {
    if truncated then Truncated
    else match rcode
      case 1 => Format
      case 2 => ServerFailure
      case 3 => NotExist
      case 4 => NotImpl
      case 5 => Refused
      case _ => Unknown
  }

  // reply_callback for inflight[i]: a probe marks its server, and a user's callback may start lookups.
  function Callback(c: Config, e: Env, s: State, i: nat, err: Option<Error>, calls: seq<Lookup>): (s': State)
    requires i < |s.inflight|
    ensures |s.inflight| <= |s'.inflight|
  {
    var w := s.inflight[i].what;
    var s1 := Heard(s, w.owner, err);
    match w.probe
    case Some(a) => if err == None || err == Some(NotExist) then ServerUp(s1, a) else ProbeFailed(s1, a)
    case None => ResolveAll(c, e, s1, calls)
  }

  // A lookup is answered, with an error or without.
  function Heard(s: State, o: nat, err: Option<Error>): State {
    s.(answered := s.answered + [o], told := s.told + [err])
  }

  // The callback for inflight[i], then its end.
  function AnswerAndFinish(c: Config, e: Env, s: State, i: nat, err: Option<Error>, calls: seq<Lookup>): State
    requires i < |s.inflight|
  {
    var s1 := Callback(c, e, s, i, err, calls);
    var s2 := if err == None && s1.inflight[i].net.ns.Some? then ServerUp(s1, s1.inflight[i].net.ns.value) else s1;
    Finished(c, e, s2, i)
  }

  // request_reissue: ok when another server was found for inflight[i].
  function Reissue(s: State, i: nat): (n: Next)
    requires i < |s.inflight|
    ensures Kept(s, n.s)
  {
    var n := s.inflight[i].net;
    var p := Pick(s.ring, s.servers, s.good);
    var s1 := SetNet(s, i, n.(ns := p.ns)).(ring := p.ring);
    if p.ns == n.ns then Next(s1, false)
    else
      Next(SetNet(s1, i, n.(ns := p.ns, reissueCount := n.reissueCount + 1, txCount := 0, transmitMe := true))
             .(posts := s.posts + [Anew(s.inflight[i].made)]), true)
  }

  // What an error does to the server that sent it; ok when the request goes out again.
  function BlameServer(c: Config, s: State, i: nat, err: Error): (n: Next)
    requires i < |s.inflight| && s.inflight[i].net.ns.Some?
    ensures Kept(s, n.s)
  {
    var a := s.inflight[i].net.ns.value;
    match err
    case NotImpl => if s.inflight[i].net.reissueCount < c.maxReissues then FailAndReissue(s, i, a) else Next(s, false)
    case Refused => if s.inflight[i].net.reissueCount < c.maxReissues then FailAndReissue(s, i, a) else Next(s, false)
    case ServerFailure => Next(s, false)
    case _ => Next(ServerUp(s, a), false)
  }

  function FailAndReissue(s: State, i: nat, a: Address): (n: Next)
    requires i < |s.inflight|
    ensures Kept(s, n.s)
  {
    Reissue(ServerFailed(s, a), i)
  }

  function ReplyHandle(c: Config, e: Env, s: State, i: nat, reply: Reply, calls: seq<Lookup>): State
    requires i < |s.inflight| && s.inflight[i].net.ns.Some?
  {
    if reply.Answer? then AnswerAndFinish(c, e, s, i, None, calls)
    else
      var err := ErrorOf(reply.truncated, reply.rcode);
      var b := BlameServer(c, s, i, err);
      if b.ok then b.s
      else PassOn(c, e, b.s, i, err, calls)
  }

  // The next name of the search, or else the error for the user.
  function PassOn(c: Config, e: Env, s: State, i: nat, err: Error, calls: seq<Lookup>): State
    requires i < |s.inflight|
  {
    if s.inflight[i].what.search.Some? && s.inflight[i].what.qtype != PTR then
      var t := TryNext(c, e, s, i);
      if t.ok then Finished(c, e, t.s, i)
      else AnswerAndFinish(c, e, t.s, i, Some(err), calls)
    else AnswerAndFinish(c, e, s, i, Some(err), calls)
  }

  // evdns_request_timeout_callback for inflight[i].
  function TimedOut(c: Config, e: Env, s: State, i: nat, calls: seq<Lookup>): State
    requires i < |s.inflight| && s.inflight[i].net.ns.Some? && s.inflight[i].net.ns.value in s.servers
  {
    var s1 := CountTimeout(c, s, s.inflight[i].net.ns.value);
    var n := s1.inflight[i].net;
    var s2 := SetNet(s1, i, n.(timer := false));
    if n.txCount >= c.maxRetransmits then AnswerAndFinish(c, e, s2, i, Some(Timeout), calls)
    else Transmit(e, s2, i)
  }

  function CountTimeout(c: Config, s: State, a: Address): (s': State)
    requires a in s.servers
    ensures OnlyServersChange(s, s')
  {
    var n := s.servers[a].timedout + 1;
    if n > c.maxTimeouts then ServerFailed(SetServer(s, a, s.servers[a].(timedout := 0)), a)
    else SetServer(s, a, s.servers[a].(timedout := n))
  }

  // ---------- Events ----------

  datatype Event =
    | Ask(lookup: Lookup)
    // A packet from a server; `id` is its transaction id and `usable` says that the rest of it was read.
    | Packet(server: Address, id: int, usable: bool, reply: Reply, calls: seq<Lookup>)
    | ReadError(server: Address)
    | Writable(server: Address)
    | RequestTimer(index: nat, calls: seq<Lookup>)
    | ProbeTimer(server: Address)
    | AddServer(server: Address)
    | Suspend
    | Resume

  // The place of the inflight request with this transaction id.
  function FindId(rs: seq<Request>, id: int): (k: Option<nat>)
    ensures k.Some? ==> k.value < |rs| && rs[k.value].id == id
  {
    if rs == [] then None
    else if rs[0].id == id then Some(0)
    else match FindId(rs[1..], id)
      case None => None
      case Some(k) => Some(k + 1)
  }

  function OnPacket(c: Config, e: Env, s: State, a: Address, id: int, usable: bool, reply: Reply, calls: seq<Lookup>): State
    requires a in s.servers
  {
    var s1 := SetServer(s, a, s.servers[a].(timedout := 0));
    match FindId(s1.inflight, id)
    case None => s1
    case Some(i) =>
      if !usable || s1.inflight[i].net.ns.None? then s1
      else ReplyHandle(c, e, s1, i, reply, calls)
  }

  function OnWritable(e: Env, s: State, a: Address): State
    requires a in s.servers
  {
    var s1 := SetServer(s, a, s.servers[a].(choked := false));
    var s2 := TransmitAll(e, s1, 0);
    if AnyToTransmit(s1.inflight) then s2
    else SetServer(s2, a, s2.servers[a].(writeWaiting := false))
  }

  const PROBE_NAME: Name := [119, 119, 119, 46, 103, 111, 111, 103, 108, 101, 46, 99, 111, 109]

  // nameserver_send_probe: the probe goes straight to the inflight ring.
  function SendProbe(c: Config, e: Env, s: State, a: Address): State
    requires a in s.servers
  {
    var m := NewRequest(c, e, SetServer(s, a, s.servers[a].(probeTimer := false)), Purpose(|s.asked|, Some(a), A, PROBE_NAME, None));
    if m.req.None? then m.s
    else
      var r := m.req.value.(id := e.freeId(m.s.tick, IdsOf(m.s.inflight)), net := FRESH.(ns := Some(a)));
      Submit(e, m.s.(tick := m.s.tick + 1, asked := s.asked + [Lookup(PROBE_NAME, A, false)]), r)
  }

  const NEW_SERVER := Nameserver(true, false, false, 0, 0, false)

  function JoinedRing(ring: seq<Address>, a: Address): seq<Address> {
    if ring == [] then [a] else [ring[0], a] + ring[1..]
  }

  function Joined(s: State, a: Address): State {
    if a in s.servers then s
    else
      s.(ring := JoinedRing(s.ring, a),
         servers := s.servers[a := NEW_SERVER], good := s.good + 1)
  }

  // The inflight requests go in front of the waiting ones, the first of them last.
  function Shelve(rs: seq<Request>, waiting: seq<Request>): seq<Request> {
    if rs == [] then waiting
    else Shelve(rs[1..], [rs[0].(id := 0, net := FRESH)] + waiting)
  }

  function Suspended(s: State): State {
    if s.ring == [] then s
    else
      s.(inflight := [], nInflight := 0, waiting := Shelve(s.inflight, s.waiting), nWaiting := s.nWaiting + |s.inflight|,
         ring := [], servers := map[], good := 0, posts := s.posts + [Suspension])
  }

  // When an event can happen.
  predicate Enabled(s: State, ev: Event) {
    match ev
    case Ask(_) => true
    case Packet(a, _, _, _, _) => a in s.servers
    case ReadError(a) => a in s.servers
    case Writable(a) => a in s.servers && s.servers[a].writeWaiting
    case RequestTimer(i, _) =>
      && i < |s.inflight| && s.inflight[i].net.timer
      && s.inflight[i].net.ns.Some? && s.inflight[i].net.ns.value in s.servers
    case ProbeTimer(a) => a in s.servers && s.servers[a].probeTimer && |s.inflight| < NO_ID
    case AddServer(_) => true
    case Suspend => true
    case Resume => s.ring != []
  }

  function Step(c: Config, e: Env, s: State, ev: Event): State
    requires Enabled(s, ev)
  {
    match ev
    case Ask(l) => Resolve(c, e, s, l).s
    case Packet(a, id, usable, reply, calls) => OnPacket(c, e, s, a, id, usable, reply, calls)
    case ReadError(a) => ServerFailed(s, a)
    case Writable(a) => OnWritable(e, s, a)
    case RequestTimer(i, calls) => TimedOut(c, e, s, i, calls)
    case ProbeTimer(a) => SendProbe(c, e, s, a)
    case AddServer(a) => Joined(s, a)
    case Suspend => Suspended(s)
    case Resume => Pump(c, e, s)
  }

  const START := State([], [], 0, 0, [], map[], 0, [], [], [], map[], [], 0)

  function Run(c: Config, e: Env, evs: seq<Event>): Option<State> {
    if evs == [] then Some(START)
    else match Run(c, e, evs[..|evs| - 1])
      case None => None
      case Some(s) => if Enabled(s, evs[|evs| - 1]) then Some(Step(c, e, s, evs[|evs| - 1])) else None
  }
}
