// The names of a search, label by label.
module SearchNames {
  import opened Bytes
  import opened Names
  import opened NameWriter
  import Messages
  import opened Resolver
  import opened ResolverBook
  import opened ResolverSafety
  import opened ResolverRuns
  import opened ResolverResults

  // A name without empty labels, with or without a dot at its end.
  ghost predicate Proper(name: Name) {
    WithoutDot(name) != [] && Dotted(WithoutDot(name))
  }

  predicate EndsInDot(name: Name) {
    name != [] && name[|name| - 1] == DOT
  }

  function WithoutDot(name: Name): Name {
    if EndsInDot(name) then name[..|name| - 1] else name
  }

  lemma FirstDot(s: Name, i: nat)
    requires i <= |s| && (forall k :: 0 <= k < i ==> s[k] != DOT) && (i < |s| ==> s[i] == DOT)
    ensures IndexOfDot(s) == if i == |s| then -1 else i
  {
    IndexOfDotIsFirst(s);
  }

  // Two names with a dot between them have the labels of the one and then those of the other.
  lemma {:induction false} JoinedLabels(base: Name, rest: Name)
    requires base != [] && Dotted(base)
    ensures Labels(base + [DOT] + rest) == Labels(base) + Labels(rest)
    decreases |base|
  {
    hide Labels, Dotted, IndexOfDot;
    var i, s := IndexOfDot(base), base + [DOT] + rest;
    IndexOfDotIsFirst(base);
    if i == -1 {
      assert s[..|base|] == base && s[|base| + 1..] == rest;
      FirstLabelOf(s, |base|);
      OneLabel(base);
    } else {
      NoEmptyFirst(base, i);
      DottedRest(base, i);
      assert s[..i] == base[..i] && s[i + 1..] == base[i + 1..] + [DOT] + rest;
      FirstLabelOf(s, i);
      FirstLabelOf(base, i);
      JoinedLabels(base[i + 1..], rest);
      assert Labels(s) == [base[..i]] + (Labels(base[i + 1..]) + Labels(rest));
    }
  }

  lemma NoEmptyFirst(s: Name, i: nat)
    requires Dotted(s) && i < |s| && s[i] == DOT
    ensures 0 < i && i + 1 < |s| && s[i + 1] != DOT
  {
  }

  lemma OneLabel(s: Name)
    requires s != [] && IndexOfDot(s) == -1
    ensures Labels(s) == [s]
  {
  }

  // The labels are the first and those after its dot.
  lemma FirstLabelOf(s: Name, i: nat)
    requires 0 < i < |s| && s[i] == DOT && forall k :: 0 <= k < i ==> s[k] != DOT
    ensures Labels(s) == [s[..i]] + Labels(s[i + 1..])
  {
    FirstDot(s, i);
  }

  lemma JoinedIsDotted(base: Name, rest: Name)
    requires base != [] && Dotted(base) && rest != [] && Dotted(rest)
    ensures Dotted(base + [DOT] + rest)
  {
    var s, n := base + [DOT] + rest, |base|;
    forall i | 0 <= i < |s| && s[i] == DOT
      ensures 0 < i && i + 1 < |s| && s[i + 1] != DOT
    {
      if i < n {
        assert base[i] == DOT;
      } else if i > n {
        assert rest[i - n - 1] == DOT;
      } else {
        assert rest[0] != DOT && s[n + 1] == rest[0];
      }
    }
  }

  // A dot at the end adds no label.
  lemma LabelsWithoutDot(name: Name)
    requires Proper(name)
    ensures Labels(name) == Labels(WithoutDot(name))
  {
    if EndsInDot(name) {
      var base, none: Name := WithoutDot(name), [];
      assert name == base + [DOT] + none;
      JoinedLabels(base, none);
      assert Labels(none) == [];
    }
  }

  // search_make_new: the labels of the name, then those of the domain, with one dot between any two.
  lemma WithDomainLabels(name: Name, domain: Name)
    requires Proper(name) && domain != [] && Dotted(domain)
    ensures Labels(WithDomain(name, domain)) == Labels(name) + Labels(domain)
    ensures Dotted(WithDomain(name, domain))
    ensures WithDomain(name, domain) == WithoutDot(name) + [DOT] + domain
  {
    hide Labels, Dotted;
    var base := WithoutDot(name);
    assert EndsInDot(name) ==> name == base + [DOT];
    assert WithDomain(name, domain) == base + [DOT] + domain;
    LabelsWithoutDot(name);
    JoinedLabels(base, domain);
    JoinedIsDotted(base, domain);
  }

  // string_num_dots counts the dots between labels and the one at the end.
  lemma {:induction false} DotsAreBetweenLabels(name: Name)
    requires name != [] && Dotted(name)
    ensures Dots(name) == |Labels(name)| - 1
    decreases |name|
  {
    var i := IndexOfDot(name);
    IndexOfDotIsFirst(name);
    if i == -1 {
      NoDots(name);
    } else {
      DottedRest(name, i);
      DotsAfter(name, i);
      DotsAreBetweenLabels(name[i + 1..]);
      assert Labels(name) == [name[..i]] + Labels(name[i + 1..]);
    }
  }

  lemma {:induction false} NoDots(s: Name)
    requires forall k :: 0 <= k < |s| ==> s[k] != DOT
    ensures Dots(s) == 0
  {
    if s != [] {
      NoDots(s[1..]);
    }
  }

  lemma {:induction false} DotsAfter(s: Name, i: nat)
    requires i < |s| && s[i] == DOT && forall k :: 0 <= k < i ==> s[k] != DOT
    ensures Dots(s) == 1 + Dots(s[i + 1..])
  {
    if i > 0 {
      assert s[1..][i - 1 + 1..] == s[i + 1..];
      DotsAfter(s[1..], i - 1);
    }
  }

  lemma {:induction false} DotsConcat(s: Name, t: Name)
    ensures Dots(s + t) == Dots(s) + Dots(t)
  {
    if s == [] {
      assert s + t == t;
    } else {
      assert (s + t)[1..] == s[1..] + t;
      DotsConcat(s[1..], t);
    }
  }

  // The number of dots, by the labels.
  function DotCount(name: Name): int {
    |Labels(name)| - 1 + if EndsInDot(name) then 1 else 0
  }

  lemma DotsByLabels(name: Name)
    requires Proper(name)
    ensures Dots(name) == DotCount(name)
  {
    hide Labels, Dots, Dotted;
    var base := WithoutDot(name);
    LabelsWithoutDot(name);
    DotsAreBetweenLabels(base);
    if EndsInDot(name) {
      assert name == base + [DOT];
      DotsConcat(base, [DOT]);
      OneDot();
    }
  }

  lemma OneDot()
    ensures Dots([DOT]) == 1
  {
    var none: Name := [];
    assert [DOT][1..] == none && Dots(none) == 0;
  }

  // The labels that a lookup may query, in order: its own, alone and before those of each domain.
  function LabelOrder(c: Config, l: Lookup): seq<seq<Label>> {
    var own := Labels(l.name);
    var longer := seq(|c.domains|, i requires 0 <= i < |c.domains| => own + Labels(c.domains[i]));
    if !l.search || l.qtype == PTR || c.domains == [] then [own]
    else if DotCount(l.name) >= c.ndots then [own] + longer
    else longer + [own]
  }

  ghost predicate ProperSearch(c: Config, l: Lookup) {
    Proper(l.name) && forall i :: 0 <= i < |c.domains| ==> c.domains[i] != [] && Dotted(c.domains[i])
  }

  lemma OrderInLabels(c: Config, l: Lookup)
    requires ProperSearch(c, l)
    ensures |SearchOrder(c, l)| == |LabelOrder(c, l)|
    ensures forall k :: 0 <= k < |SearchOrder(c, l)| ==> Labels(SearchOrder(c, l)[k]) == LabelOrder(c, l)[k]
  {
    hide Labels, Dots, Dotted, DotCount, WithDomain;
    DotsByLabels(l.name);
    forall i | 0 <= i < |c.domains|
      ensures Labels(WithDomain(l.name, c.domains[i])) == Labels(l.name) + Labels(c.domains[i])
    {
      WithDomainLabels(l.name, c.domains[i]);
    }
  }

  // After any run: what a lookup has queried are the first of its label lists, in order. A query for one of them has
  // just these labels on the wire.
  lemma SearchInLabelOrder(c: Config, e: Env, evs: seq<Event>, o: nat, k: nat)
    requires c.Ok() && e.Honest() && Run(c, e, evs).Some? && o < |Run(c, e, evs).value.asked|
    requires ProperSearch(c, Run(c, e, evs).value.asked[o])
    requires var s := Run(c, e, evs).value; o in s.tried ==> k < |s.tried[o]|
    ensures var s := Run(c, e, evs).value; var order := LabelOrder(c, s.asked[o]);
      && o in s.tried && k < |order| && Labels(s.tried[o][k]) == order[k]
      && forall id: nat, qtype: nat :: var q := Messages.Request(s.tried[o][k], id, qtype);
           NoNul(s.tried[o][k]) && q.Some? ==> NameAt(q.value, 12).Some? && NameAt(q.value, 12).value.labels == order[k]
  {
    hide Run, SearchOrder, LabelOrder, Labels, Messages.Request, NameAt, ProperSearch;
    var s := Run(c, e, evs).value;
    SearchInOrder(c, e, evs, o);
    OrderInLabels(c, s.asked[o]);
    var name := s.tried[o][k];
    assert name == SearchOrder(c, s.asked[o])[k];
    forall id: nat, qtype: nat | NoNul(name) && Messages.Request(name, id, qtype).Some?
      ensures var q := Messages.Request(name, id, qtype); NameAt(q.value, 12).Some? && NameAt(q.value, 12).value.labels == LabelOrder(c, s.asked[o])[k]
    {
      Messages.RequestReadsBack(name, id, qtype);
    }
  }
}
