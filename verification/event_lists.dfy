// Lists of events as event.c keeps them, and counting what is on them.
module EventLists {
  import opened Events

  ghost predicate Distinct(q: seq<Event>) {
    forall i, j :: 0 <= i < j < |q| ==> q[i] != q[j]
  }

  // The list without the events in es.
  function Minus(q: seq<Event>, es: set<Event>): seq<Event> {
    if q == [] then []
    else (if q[0] in es then [] else [q[0]]) + Minus(q[1..], es)
  }

  // How many events of a list are not internal: what it adds to event_count.
  function Listed(q: seq<Event>): nat {
    if q == [] then 0 else (if q[0].isInternal then 0 else 1) + Listed(q[1..])
  }

  function ListedAll(qs: seq<seq<Event>>): nat {
    if qs == [] then 0 else Listed(qs[0]) + ListedAll(qs[1..])
  }

  function LengthAll(qs: seq<seq<Event>>): nat {
    if qs == [] then 0 else |qs[0]| + LengthAll(qs[1..])
  }

  ghost function ListedSet(es: set<Event>): nat {
    |Counted(es)|
  }

  ghost function Counted(es: set<Event>): set<Event> {
    set e | e in es && !e.isInternal
  }

  function Weight(e: Event): nat {
    if e.isInternal then 0 else 1
  }

  lemma {:induction false} MinusKeeps(q: seq<Event>, es: set<Event>, x: Event)
    ensures x in Minus(q, es) <==> x in q && x !in es
  {
    if q != [] {
      MinusKeeps(q[1..], es, x);
    }
  }

  lemma MinusMembers(q: seq<Event>, es: set<Event>)
    ensures forall x :: x in Minus(q, es) <==> x in q && x !in es
  {
    forall x
      ensures x in Minus(q, es) <==> x in q && x !in es
    {
      MinusKeeps(q, es, x);
    }
  }

  lemma {:induction false} MinusDistinct(q: seq<Event>, es: set<Event>)
    requires Distinct(q)
    ensures Distinct(Minus(q, es))
  {
    if q != [] {
      var rest := Minus(q[1..], es);
      MinusDistinct(q[1..], es);
      forall k | 0 <= k < |rest|
        ensures rest[k] != q[0]
      {
        assert rest[k] in rest;
        MinusKeeps(q[1..], es, rest[k]);
        var j :| 0 <= j < |q| - 1 && q[1..][j] == rest[k];
        assert q[j + 1] == rest[k];
      }
    }
  }

  lemma {:induction false} MinusNothing(q: seq<Event>, es: set<Event>)
    requires forall i :: 0 <= i < |q| ==> q[i] !in es
    ensures Minus(q, es) == q
  {
    if q != [] {
      assert forall i :: 0 <= i < |q| - 1 ==> q[1..][i] == q[i + 1];
      MinusNothing(q[1..], es);
    }
  }

  function Kept(x: Event, es: set<Event>): seq<Event> {
    if x in es then [] else [x]
  }

  lemma MinusCons(x: Event, q: seq<Event>, es: set<Event>)
    ensures Minus([x] + q, es) == Kept(x, es) + Minus(q, es)
  {
    assert ([x] + q)[1..] == q;
  }

  lemma {:induction false} MinusConcat(a: seq<Event>, b: seq<Event>, es: set<Event>)
    ensures Minus(a + b, es) == Minus(a, es) + Minus(b, es)
  {
    hide Minus, Kept;
    if a == [] {
      MinusNothing(a, es);
      assert a + b == b;
      assert a + Minus(b, es) == Minus(b, es);
    } else {
      var x, t := a[0], a[1..];
      MinusConcat(t, b, es);
      MinusCons(x, t + b, es);
      MinusCons(x, t, es);
      assert [x] + t == a && a + b == [x] + (t + b);
      assert Kept(x, es) + Minus(t, es) + Minus(b, es) == Kept(x, es) + (Minus(t, es) + Minus(b, es));
    }
  }

  lemma {:induction false} MinusTwice(q: seq<Event>, es: set<Event>, fs: set<Event>)
    ensures Minus(Minus(q, es), fs) == Minus(q, es + fs)
  {
    if q != [] {
      MinusTwice(q[1..], es, fs);
      var rest := Minus(q[1..], es);
      if q[0] in es {
        assert [] + rest == rest;
        assert [] + Minus(rest, fs) == Minus(rest, fs);
      } else {
        MinusCons(q[0], rest, fs);
      }
    }
  }

  lemma {:induction false} MinusOne(q: seq<Event>, e: Event)
    requires Distinct(q) && e in q
    ensures |Minus(q, {e})| == |q| - 1 && Listed(Minus(q, {e})) == Listed(q) - Weight(e)
  {
    hide Minus;
    var x, t := q[0], q[1..];
    assert q == [x] + t;
    MinusCons(x, t, {e});
    if x == e {
      MinusNothing(t, {e});
      assert Minus(q, {e}) == t;
    } else {
      MinusOne(t, e);
      ListedCons(x, Minus(t, {e}));
    }
  }

  lemma ListedCons(x: Event, q: seq<Event>)
    ensures Listed([x] + q) == Weight(x) + Listed(q)
  {
    assert ([x] + q)[1..] == q;
  }

  lemma {:induction false} ListedAppend(q: seq<Event>, e: Event)
    ensures Listed(q + [e]) == Listed(q) + Weight(e)
  {
    if q == [] {
      assert [e][1..] == [];
    } else {
      ListedAppend(q[1..], e);
      assert (q + [e])[1..] == q[1..] + [e];
    }
  }

  // Replacing one queue changes the totals by the difference it makes.
  lemma {:induction false} TotalsAfterChange(qs: seq<seq<Event>>, k: nat, q: seq<Event>)
    requires k < |qs|
    ensures ListedAll(qs[k := q]) == ListedAll(qs) - Listed(qs[k]) + Listed(q)
    ensures LengthAll(qs[k := q]) == LengthAll(qs) - |qs[k]| + |q|
  {
    if k == 0 {
      assert qs[k := q][1..] == qs[1..];
    } else {
      TotalsAfterChange(qs[1..], k - 1, q);
      assert qs[k := q][1..] == qs[1..][k - 1 := q];
    }
  }

  lemma ListedSetWith(es: set<Event>, e: Event)
    requires e !in es
    ensures ListedSet(es + {e}) == ListedSet(es) + Weight(e)
  {
    if e.isInternal {
      assert Counted(es + {e}) == Counted(es);
    } else {
      assert Counted(es + {e}) == Counted(es) + {e};
    }
  }

  lemma ListedSetWithout(es: set<Event>, e: Event)
    requires e in es
    ensures ListedSet(es - {e}) == ListedSet(es) - Weight(e)
  {
    ListedSetWith(es - {e}, e);
    assert es - {e} + {e} == es;
  }
}
