// Bookkeeping: the rings and their counters, who owns which request, and the names a lookup has queried.
module ResolverBook {
  import opened Bytes
  import opened Names
  import opened NameWriter
  import opened Resolver
  import opened ResolverServers
  import opened ResolverNet

  // ---------- Rings and counters ----------

  function NonProbes(rs: seq<Request>): nat {
    if rs == [] then 0 else (if rs[0].what.probe.None? then 1 else 0) + NonProbes(rs[1..])
  }

  ghost predicate IdsOk(rs: seq<Request>) {
    && (forall i :: 0 <= i < |rs| ==> 0 <= rs[i].id < NO_ID)
    && (forall i, j :: 0 <= i < j < |rs| ==> rs[i].id != rs[j].id)
  }

  ghost predicate CountsOk(c: Config, s: State) {
    && s.nInflight == |s.inflight| && s.nWaiting == |s.waiting|
    && IdsOk(s.inflight)
    && NonProbes(s.inflight) <= c.maxInflight
    && forall i :: 0 <= i < |s.waiting| ==> s.waiting[i].net == FRESH
  }

  lemma {:induction false} NonProbesConcat(a: seq<Request>, b: seq<Request>)
    ensures NonProbes(a + b) == NonProbes(a) + NonProbes(b)
  {
    if a == [] {
      assert a + b == b;
    } else {
      NonProbesConcat(a[1..], b);
      assert (a + b)[1..] == a[1..] + b;
    }
  }

  lemma {:induction false} NonProbesAtMost(rs: seq<Request>)
    ensures NonProbes(rs) <= |rs|
  {
    if rs != [] {
      NonProbesAtMost(rs[1..]);
    }
  }

  lemma {:induction false} NonProbesSame(a: seq<Request>, b: seq<Request>)
    requires |a| == |b| && forall i :: 0 <= i < |a| ==> a[i].what.probe == b[i].what.probe
    ensures NonProbes(a) == NonProbes(b)
  {
    if a != [] {
      forall i | 0 <= i < |a| - 1
        ensures a[1..][i].what.probe == b[1..][i].what.probe
      {
        assert a[1..][i] == a[i + 1] && b[1..][i] == b[i + 1];
      }
      NonProbesSame(a[1..], b[1..]);
    }
  }

  lemma {:induction false} FewIds(rs: seq<Request>)
    ensures |IdsOf(rs)| <= |rs|
    decreases |rs|
  {
    if rs == [] {
      assert IdsOf(rs) == {};
    } else {
      var n := |rs| - 1;
      FewIds(rs[..n]);
      assert IdsOf(rs) == IdsOf(rs[..n]) + {rs[n].id};
    }
  }

  // ---------- Who owns a request ----------

  function OwnersOf(rs: seq<Request>): (owners: seq<nat>)
    ensures |owners| == |rs|
  {
    seq(|rs|, i requires 0 <= i < |rs| => rs[i].what.owner)
  }

  function UpTo(n: nat): (ns: seq<nat>)
    ensures |ns| == n
  {
    seq(n, i => i)
  }

  // The lookups that own a request, once for each, and those answered, once for each answer.
  function Total(s: State): multiset<nat> {
    multiset(OwnersOf(s.inflight)) + multiset(OwnersOf(s.waiting)) + multiset(s.answered)
  }

  // Each lookup accepted so far owns one request or has had one answer, and nothing else does; `extra` is
  // what there is beyond that while a request is being replaced or answered.
  ghost predicate Balanced(s: State, extra: multiset<nat>) {
    Total(s) == multiset(UpTo(|s.asked|)) + extra
  }

  lemma OwnersAppend(rs: seq<Request>, r: Request)
    ensures multiset(OwnersOf(rs + [r])) == multiset(OwnersOf(rs)) + multiset{r.what.owner}
  {
    assert OwnersOf(rs + [r]) == OwnersOf(rs) + [r.what.owner];
  }

  lemma OwnersRemove(rs: seq<Request>, i: nat)
    requires i < |rs|
    ensures multiset(OwnersOf(Remove(rs, i))) + multiset{rs[i].what.owner} == multiset(OwnersOf(rs))
  {
    var os := OwnersOf(rs);
    assert OwnersOf(Remove(rs, i)) == os[..i] + os[i + 1..];
    assert os == os[..i] + [os[i]] + os[i + 1..];
  }

  lemma OwnersSame(a: seq<Request>, b: seq<Request>)
    requires |a| == |b| && forall i :: 0 <= i < |a| ==> a[i].what.owner == b[i].what.owner
    ensures OwnersOf(a) == OwnersOf(b)
  {
  }

  lemma UpToNext(n: nat)
    ensures multiset(UpTo(n + 1)) == multiset(UpTo(n)) + multiset{n}
  {
    assert UpTo(n + 1) == UpTo(n) + [n];
  }

  lemma {:induction false} UpToCounts(n: nat, o: nat)
    ensures multiset(UpTo(n))[o] == if o < n then 1 else 0
  {
    if n > 0 {
      UpToCounts(n - 1, o);
      UpToNext(n - 1);
    } else {
      assert UpTo(0) == [];
    }
  }

  // ---------- The order of a search ----------

  function WithDomains(name: Name, domains: seq<Name>): (names: seq<Name>)
    ensures |names| == |domains|
  {
    seq(|domains|, i requires 0 <= i < |domains| => WithDomain(name, domains[i]))
  }

  // All names a lookup may query, in order: with enough dots the name itself comes first, otherwise last.
  function SearchOrder(c: Config, l: Lookup): (names: seq<Name>)
    ensures 1 <= |names| <= |c.domains| + 1
  {
    if !Searches(c, l) then [l.name]
    else if Dots(l.name) >= c.ndots then [l.name] + WithDomains(l.name, c.domains)
    else WithDomains(l.name, c.domains) + [l.name]
  }

  ghost predicate TriedOk(c: Config, asked: seq<Lookup>, tried: map<nat, seq<Name>>) {
    && (forall o :: o in tried <==> 0 <= o < |asked|)
    && forall o :: o in tried ==> tried[o] != [] && tried[o] <= SearchOrder(c, asked[o])
  }

  // A request queries the last name tried for its lookup, and what it knows of the search is true.
  ghost predicate Tracks(c: Config, asked: seq<Lookup>, tried: map<nat, seq<Name>>, w: Purpose) {
    && w.owner < |asked| && w.owner in tried
    && var l, names := asked[w.owner], tried[w.owner];
       && names != [] && w.name == names[|names| - 1] && w.qtype == l.qtype
       && (w.probe.Some? ==> !l.search)
       && match w.search
          case None => names == SearchOrder(c, l)
          case Some(sr) =>
            && Searches(c, l) && sr.origname == l.name && sr.done <= |c.domains|
            && |names| == sr.done + (if Dots(l.name) >= c.ndots then 1 else 0)
  }

  ghost predicate Hist(c: Config, s: State, out: set<nat>) {
    && TriedOk(c, s.asked, s.tried)
    && (forall i :: 0 <= i < |s.inflight| && i !in out ==> Tracks(c, s.asked, s.tried, s.inflight[i].what))
    && (forall i :: 0 <= i < |s.waiting| ==> Tracks(c, s.asked, s.tried, s.waiting[i].what))
  }

  ghost predicate Book(c: Config, s: State, out: set<nat>) {
    CountsOk(c, s) && Hist(c, s, out)
  }

  // ---------- What keeps the books ----------

  lemma KeptKeepsBook(c: Config, s: State, s': State, out: set<nat>)
    requires Kept(s, s') && Book(c, s, out)
    ensures Book(c, s', out) && Total(s') == Total(s)
  {
    NonProbesSame(s.inflight, s'.inflight);
    OwnersSame(s.inflight, s'.inflight);
    forall i | 0 <= i < |s'.inflight| && i !in out
      ensures Tracks(c, s'.asked, s'.tried, s'.inflight[i].what)
    {
      assert Tracks(c, s.asked, s.tried, s.inflight[i].what);
    }
  }

  // Only one request, inflight or waiting, belongs to a lookup.
  lemma OwnedOnce(s: State, i: nat)
    requires Balanced(s, multiset{}) && i < |s.inflight|
    ensures var o := s.inflight[i].what.owner;
      && o < |s.asked| && o !in s.answered
      && (forall j :: 0 <= j < |s.inflight| && j != i ==> s.inflight[j].what.owner != o)
      && (forall j :: 0 <= j < |s.waiting| ==> s.waiting[j].what.owner != o)
  {
    var o := s.inflight[i].what.owner;
    UpToCounts(|s.asked|, o);
    var os, ws := OwnersOf(s.inflight), OwnersOf(s.waiting);
    assert os == os[..i] + [os[i]] + os[i + 1..];
    assert Total(s)[o] == (multiset(UpTo(|s.asked|)) + multiset{})[o];
    assert Total(s)[o] == multiset(os)[o] + multiset(ws)[o] + multiset(s.answered)[o];
    assert multiset(os) == multiset(os[..i]) + multiset{o} + multiset(os[i + 1..]);
    assert multiset(os)[o] == multiset(os[..i])[o] + 1 + multiset(os[i + 1..])[o];
    forall j | 0 <= j < |s.inflight| && j != i
      ensures s.inflight[j].what.owner != o
    {
      if j < i {
        assert os[..i][j] == os[j];
      } else {
        assert os[i + 1..][j - i - 1] == os[j];
      }
    }
    forall j | 0 <= j < |s.waiting|
      ensures s.waiting[j].what.owner != o
    {
      assert ws[j] in ws;
    }
  }
}
