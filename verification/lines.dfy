// Where lines end in a run of bytes: the four styles of evbuffer_readln.
module Lines {
  import opened Bytes

  const CR: Byte := 13
  const LF: Byte := 10

  datatype EolStyle = AnyEol | CrLf | CrLfStrict | LfOnly

  // The bytes of a line end lie in s[start..end].
  datatype Eol = Eol(start: nat, end: nat)

  predicate IsEol(b: Byte) {
    b == CR || b == LF
  }

  // The first place at or after i where b is, or the length: memchr.
  function Index(s: seq<Byte>, i: nat, b: Byte): (k: nat)
    requires i <= |s|
    ensures i <= k <= |s|
    ensures k < |s| ==> s[k] == b
    ensures forall j :: i <= j < k ==> s[j] != b
    decreases |s| - i
  {
    if i == |s| || s[i] == b then i else Index(s, i + 1, b)
  }

  // The first place at or after i that is an end-of-line byte, or is none, or the length.
  function EolIndex(s: seq<Byte>, i: nat, eol: bool): (k: nat)
    requires i <= |s|
    ensures i <= k <= |s|
    ensures k < |s| ==> IsEol(s[k]) == eol
    ensures forall j :: i <= j < k ==> IsEol(s[j]) != eol
    decreases |s| - i
  {
    if i == |s| || IsEol(s[i]) == eol then i else EolIndex(s, i + 1, eol)
  }

  predicate CrLfAt(s: seq<Byte>, i: nat) {
    i + 1 < |s| && s[i] == CR && s[i + 1] == LF
  }

  // The first CR at or after i with a LF behind it, trying one CR after another; or the length.
  function CrLfIndex(s: seq<Byte>, i: nat): (k: nat)
    requires i <= |s|
    ensures i <= k <= |s|
    ensures k < |s| ==> CrLfAt(s, k)
    ensures forall j :: i <= j < k ==> !CrLfAt(s, j)
    decreases |s| - i
  {
    var cp := Index(s, i, CR);
    if cp == |s| || CrLfAt(s, cp) then cp else CrLfIndex(s, cp + 1)
  }

  function Cut(s: seq<Byte>, style: EolStyle): Option<Eol> {
    match style
    case AnyEol =>
      var i := EolIndex(s, 0, true);
      if i == |s| then None else Some(Eol(i, EolIndex(s, i + 1, false)))
    case CrLf =>
      var i := Index(s, 0, LF);
      if i == |s| then None
      else if i > 0 && s[i - 1] == CR then Some(Eol(i - 1, i + 1))
      else Some(Eol(i, i + 1))
    case CrLfStrict =>
      var i := CrLfIndex(s, 0);
      if i == |s| then None else Some(Eol(i, i + 2))
    case LfOnly =>
      var i := Index(s, 0, LF);
      if i == |s| then None else Some(Eol(i, i + 1))
  }

  // What a line end of each style is: the first of its kind, whatever stray bytes come before it.
  predicate LineEnd(s: seq<Byte>, style: EolStyle, e: Eol) {
    && e.start < e.end <= |s|
    && match style
       case AnyEol =>
         && (forall j :: 0 <= j < e.start ==> !IsEol(s[j]))
         && (forall j :: e.start <= j < e.end ==> IsEol(s[j]))
         && (e.end < |s| ==> !IsEol(s[e.end]))
       case CrLf =>
         && s[e.end - 1] == LF && (forall j :: 0 <= j < e.end - 1 ==> s[j] != LF)
         && e.start == if e.end > 1 && s[e.end - 2] == CR then e.end - 2 else e.end - 1
       case CrLfStrict =>
         && e.end == e.start + 2 && CrLfAt(s, e.start) && forall j :: 0 <= j < e.start ==> !CrLfAt(s, j)
       case LfOnly =>
         && e.end == e.start + 1 && s[e.start] == LF && forall j :: 0 <= j < e.start ==> s[j] != LF
  }

  lemma {:induction false} EolIndexIs(s: seq<Byte>, i: nat, eol: bool, k: nat)
    requires i <= k <= |s| && (k < |s| ==> IsEol(s[k]) == eol) && forall j :: i <= j < k ==> IsEol(s[j]) != eol
    ensures EolIndex(s, i, eol) == k
    decreases |s| - i
  {
    if i < k {
      EolIndexIs(s, i + 1, eol, k);
    }
  }

  lemma CutIsTheLineEnd(s: seq<Byte>, style: EolStyle, e: Eol)
    ensures Cut(s, style) == Some(e) <==> LineEnd(s, style, e)
  {
    match style
    case AnyEol =>
      if LineEnd(s, style, e) {
        var i := EolIndex(s, 0, true);
        assert IsEol(s[e.start]);
        EolIndexIs(s, 0, true, e.start);
        EolIndexIs(s, e.start + 1, false, e.end);
      }
    case CrLf =>
      if LineEnd(s, style, e) {
        assert Index(s, 0, LF) == e.end - 1;
      }
    case CrLfStrict =>
      if LineEnd(s, style, e) {
        assert CrLfIndex(s, 0) == e.start;
      }
    case LfOnly =>
      if LineEnd(s, style, e) {
        assert Index(s, 0, LF) == e.start;
      }
  }

  // ---------- Reading line after line ----------

  // What reading lines until there is none gives, and what is left.
  datatype Split = Split(lines: seq<seq<Byte>>, rest: seq<Byte>)

  function AllLines(s: seq<Byte>, style: EolStyle): Split
    decreases |s|
  {
    match Cut(s, style)
    case None => Split([], s)
    case Some(e) =>
      CutIsTheLineEnd(s, style, e);
      var more := AllLines(s[e.end..], style);
      Split([s[..e.start]] + more.lines, more.rest)
  }

  function Occurrences(s: seq<Byte>, b: Byte): nat {
    if s == [] then 0 else (if s[0] == b then 1 else 0) + Occurrences(s[1..], b)
  }

  function Joined(lines: seq<seq<Byte>>, end: seq<Byte>): seq<Byte> {
    if lines == [] then [] else lines[0] + end + Joined(lines[1..], end)
  }

  lemma {:induction false} OccurrencesConcat(s: seq<Byte>, t: seq<Byte>, b: Byte)
    ensures Occurrences(s + t, b) == Occurrences(s, b) + Occurrences(t, b)
  {
    if s == [] {
      assert s + t == t;
    } else {
      OccurrencesConcat(s[1..], t, b);
      assert (s + t)[1..] == s[1..] + t;
    }
  }

  lemma {:induction false} NoOccurrence(s: seq<Byte>, b: Byte)
    ensures Occurrences(s, b) == 0 <==> b !in s
  {
    if s != [] {
      NoOccurrence(s[1..], b);
    }
  }

  // Ended by LF, there are as many lines as LFs, no line and no rest holds one, and nothing is lost.
  lemma {:induction false} LinesRebuild(s: seq<Byte>)
    ensures var a := AllLines(s, LfOnly);
      && |a.lines| == Occurrences(s, LF)
      && (forall i :: 0 <= i < |a.lines| ==> LF !in a.lines[i])
      && LF !in a.rest
      && Joined(a.lines, [LF]) + a.rest == s
    decreases |s|
  {
    var i := Index(s, 0, LF);
    if i == |s| {
      NoOccurrence(s, LF);
    } else {
      hide Joined, Occurrences;
      var line, t := s[..i], s[i + 1..];
      LinesRebuild(t);
      AroundLf(s, i);
      LinesStep(line, AllLines(t, LfOnly), [LF]);
    }
  }

  lemma SplitAround(s: seq<Byte>, i: nat)
    requires i < |s|
    ensures s == s[..i] + ([s[i]] + s[i + 1..])
  {
  }

  lemma AroundLf(s: seq<Byte>, i: nat)
    requires i < |s| && s[i] == LF && forall j :: 0 <= j < i ==> s[j] != LF
    ensures s == s[..i] + [LF] + s[i + 1..] && LF !in s[..i]
    ensures Occurrences(s, LF) == 1 + Occurrences(s[i + 1..], LF)
  {
    hide Occurrences;
    var line, t := s[..i], s[i + 1..];
    SplitAround(s, i);
    assert line + ([LF] + t) == line + [LF] + t;
    NoOccurrence(line, LF);
    OccurrencesConcat(line, [LF] + t, LF);
    OccurrencesCons(LF, t);
  }

  lemma OccurrencesCons(b: Byte, s: seq<Byte>)
    ensures Occurrences([b] + s, b) == 1 + Occurrences(s, b)
  {
    assert ([b] + s)[1..] == s;
  }

  lemma LinesStep(line: seq<Byte>, more: Split, end: seq<Byte>)
    ensures Joined([line] + more.lines, end) + more.rest == line + end + (Joined(more.lines, end) + more.rest)
  {
    assert ([line] + more.lines)[1..] == more.lines;
  }

  predicate NoCrLf(s: seq<Byte>) {
    forall j :: 0 <= j < |s| ==> !CrLfAt(s, j)
  }

  lemma StrictPrefix(s: seq<Byte>, i: nat)
    requires i <= |s| && forall j :: 0 <= j < i ==> !CrLfAt(s, j)
    ensures NoCrLf(s[..i])
  {
    forall j | 0 <= j < i
      ensures !CrLfAt(s[..i], j)
    {
      assert !CrLfAt(s, j);
    }
  }

  lemma AroundCrLf(s: seq<Byte>, i: nat)
    requires CrLfAt(s, i)
    ensures i + 2 <= |s| && s == s[..i] + [CR, LF] + s[i + 2..]
  {
    assert s[i..i + 2] == [CR, LF];
  }

  lemma StrictStep(s: seq<Byte>)
    ensures var i := CrLfIndex(s, 0);
      if i == |s| then AllLines(s, CrLfStrict) == Split([], s)
      else
        && i + 2 <= |s|
        && var more := AllLines(s[i + 2..], CrLfStrict);
           AllLines(s, CrLfStrict) == Split([s[..i]] + more.lines, more.rest)
  {
  }

  // Ended strictly by CR LF, no line holds that pair and nothing is lost.
  lemma {:induction false} StrictLinesRebuild(s: seq<Byte>)
    ensures var a := AllLines(s, CrLfStrict);
      && (forall i :: 0 <= i < |a.lines| ==> NoCrLf(a.lines[i]))
      && NoCrLf(a.rest)
      && Joined(a.lines, [CR, LF]) + a.rest == s
    decreases |s|
  {
    hide NoCrLf, CrLfAt, AllLines;
    var i := CrLfIndex(s, 0);
    StrictPrefix(s, i);
    StrictStep(s);
    if i == |s| {
      assert s[..i] == s;
    } else {
      hide Joined;
      AroundCrLf(s, i);
      var line, t := s[..i], s[i + 2..];
      StrictLinesRebuild(t);
      LinesStep(line, AllLines(t, CrLfStrict), [CR, LF]);
    }
  }

  // ---------- Finding a pattern ----------

  predicate MatchAt(s: seq<Byte>, what: seq<Byte>, i: nat) {
    i + |what| <= |s| && s[i..i + |what|] == what
  }
}
