// Writing names with compression: dnslabel_table and dnsname_to_labels.
module NameWriter {
  import opened Bytes
  import opened Names

  const MAX_LABELS := 128
  const MAX_NAME_LEN := 255

  // A suffix of a written name and the offset where it was written.
  datatype Entry = Entry(suffix: seq<Byte>, pos: nat)

  // What writing a name leaves behind: the bytes written and the table, and the code of a failure.
  datatype Writing =
    | Failed(code: int, bytes: seq<Byte>, table: seq<Entry>)
    | Written(bytes: seq<Byte>, table: seq<Entry>)

  // ---------- Specification ----------

  function Find(table: seq<Entry>, name: seq<Byte>): int {
    if table == [] then -1
    else if table[0].suffix == name then table[0].pos
    else Find(table[1..], name)
  }

  function Remember(table: seq<Entry>, name: seq<Byte>, pos: nat, memory: bool): seq<Entry> {
    if |table| != MAX_LABELS && memory then table + [Entry(name, pos)] else table
  }

  function IndexOfDot(s: seq<Byte>): (i: int)
    ensures -1 <= i < |s|
  {
    if s == [] then -1
    else if s[0] == DOT then 0
    else
      var i := IndexOfDot(s[1..]);
      if i == -1 then -1 else i + 1
  }

  lemma {:induction false} IndexOfDotIsFirst(s: seq<Byte>)
    ensures var i := IndexOfDot(s);
      && (i != -1 ==> s[i] == DOT)
      && forall k :: 0 <= k < (if i == -1 then |s| else i) ==> s[k] != DOT
  {
    if s != [] && s[0] != DOT {
      IndexOfDotIsFirst(s[1..]);
      forall k | 0 < k < if IndexOfDot(s) == -1 then |s| else IndexOfDot(s)
        ensures s[k] != DOT
      {
        assert s[k] == s[1..][k - 1];
      }
    }
  }

  function FirstLabel(name: seq<Byte>): seq<Byte> {
    if IndexOfDot(name) == -1 then name else name[..IndexOfDot(name)]
  }

  // What follows the first dot.
  function Rest(name: seq<Byte>): (rest: seq<Byte>)
    requires IndexOfDot(name) != -1
    ensures |rest| < |name|
  {
    name[IndexOfDot(name) + 1..]
  }

  // A length byte and the bytes of a label.
  function LabelBytes(l: Label): (b: seq<Byte>)
    requires |l| < 64
    ensures |b| == |l| + 1
  {
    [|l| as Byte] + l
  }

  // The 16 bits (ref | 0xc000).
  function PointerTo(ref: nat): (b: seq<Byte>)
    ensures |b| == 2
  {
    U16(0xc000 + ref % 0x4000)
  }

  function Prepend(bytes: seq<Byte>, w: Writing): Writing {
    match w
    case Failed(code, more, table) => Failed(code, bytes + more, table)
    case Written(more, table) => Written(bytes + more, table)
  }

  // `oom` holds the offsets at which the copy of a suffix could not be allocated.
  function Encode(name: seq<Byte>, j: nat, bufLen: nat, table: seq<Entry>, compress: bool, oom: set<nat>): Writing
    decreases |name|
  {
    if compress && Find(table, name) >= 0 then
      if j + 2 > bufLen then Failed(-2, [], table) else Written(PointerTo(Find(table, name)), table)
    else
      var first := FirstLabel(name);
      if |first| > 63 then Failed(-1, [], table)
      else if j + |first| + 1 > bufLen then Failed(-2, [], table)
      else
        var table' := NextTable(name, j, table, compress, oom);
        if IndexOfDot(name) == -1 then
          Written(LabelBytes(first) + (if first == [] then [] else [0]), table')
        else
          Prepend(LabelBytes(first), Encode(Rest(name), j + 1 + |first|, bufLen, table', compress, oom))
  }

  // The table once the label that starts `name` is written at offset j.
  function NextTable(name: seq<Byte>, j: nat, table: seq<Entry>, compress: bool, oom: set<nat>): seq<Entry> {
    if compress then Remember(table, name, j, j !in oom) else table
  }

  lemma EncodeStep(name: seq<Byte>, j: nat, bufLen: nat, table: seq<Entry>, compress: bool, oom: set<nat>, bytes: seq<Byte>)
    requires !(compress && Find(table, name) >= 0) && IndexOfDot(name) != -1
    requires |FirstLabel(name)| <= 63 && j + |FirstLabel(name)| + 1 <= bufLen
    ensures var l := FirstLabel(name);
      var w := Encode(Rest(name), j + 1 + |l|, bufLen, NextTable(name, j, table, compress, oom), compress, oom);
      && Encode(name, j, bufLen, table, compress, oom) == Prepend(LabelBytes(l), w)
      && Prepend(bytes, Encode(name, j, bufLen, table, compress, oom)) == Prepend(bytes + LabelBytes(l), w)
  {
    var l := FirstLabel(name);
    var w := Encode(Rest(name), j + 1 + |l|, bufLen, NextTable(name, j, table, compress, oom), compress, oom);
    assert Encode(name, j, bufLen, table, compress, oom) == Prepend(LabelBytes(l), w);
    assert bytes + (LabelBytes(l) + w.bytes) == bytes + LabelBytes(l) + w.bytes;
  }

  function EncodeName(name: seq<Byte>, j: nat, bufLen: nat, table: seq<Entry>, compress: bool, oom: set<nat>): Writing {
    if |name| > MAX_NAME_LEN then Failed(-2, [], table) else Encode(name, j, bufLen, table, compress, oom)
  }

  // ---------- What a written name means ----------

  // The labels of a name up to its first empty one, which the wire form cannot tell from the end.
  function Labels(name: seq<Byte>): seq<Label>
    decreases |name|
  {
    var first := FirstLabel(name);
    if first == [] then []
    else if IndexOfDot(name) == -1 then [first]
    else [first] + Labels(Rest(name))
  }

  // Every label but perhaps the last is nonempty.
  predicate NoInnerEmptyLabel(name: seq<Byte>)
    decreases |name|
  {
    IndexOfDot(name) == -1 || (IndexOfDot(name) > 0 && NoInnerEmptyLabel(Rest(name)))
  }

  // No dot at either end and no two dots in a row.
  ghost predicate Dotted(name: seq<Byte>) {
    forall i :: 0 <= i < |name| && name[i] == DOT ==> 0 < i && i + 1 < |name| && name[i + 1] != DOT
  }

  // Every label has at most 63 bytes.
  predicate ShortLabels(name: seq<Byte>)
    decreases |name|
  {
    && |FirstLabel(name)| <= 63
    && (IndexOfDot(name) == -1 || ShortLabels(Rest(name)))
  }

  // A table entry can be used as the target of a pointer in message m.
  ghost predicate Points(m: seq<Byte>, e: Entry) {
    && e.pos < 0x4000
    && NameAt(m, e.pos).Some?
    && NameAt(m, e.pos).value.labels == Labels(e.suffix)
  }

  ghost predicate TableValid(m: seq<Byte>, table: seq<Entry>) {
    forall i :: 0 <= i < |table| ==> Points(m, table[i])
  }

  lemma TableValidLonger(m: seq<Byte>, tail: seq<Byte>, table: seq<Entry>)
    requires TableValid(m, table)
    ensures TableValid(m + tail, table)
  {
    forall i | 0 <= i < |table|
      ensures Points(m + tail, table[i])
    {
      assert Points(m, table[i]);
      NameAtLonger(m, tail, table[i].pos);
    }
  }

  // The text read back is the name itself exactly when the name has no empty label.
  lemma {:induction false} TextIsName(name: seq<Byte>)
    ensures Join(Labels(name)) == name <==> Dotted(name)
    ensures Dotted(name) ==> NoInnerEmptyLabel(name)
    decreases |name|
  {
    var i := IndexOfDot(name);
    IndexOfDotIsFirst(name);
    if i == -1 {
      assert name == [] ==> Labels(name) == [];
    } else if i == 0 {
      assert Labels(name) == [];
      assert name[0] == DOT;
    } else {
      var rest := Rest(name);
      assert name == name[..i] + [DOT] + rest;
      TextIsName(rest);
      var text := Join(Labels(name));
      if rest == [] || rest[0] == DOT {
        assert Labels(rest) == [];
        assert text == name[..i];
        assert |text| < |name|;
        assert name[i] == DOT && (i + 1 < |name| ==> name[i + 1] == DOT);
      } else {
        assert IndexOfDot(rest) != 0;
        assert Labels(name)[1..] == Labels(rest) != [];
        assert text == name[..i] + [DOT] + Join(Labels(rest));
        if text == name {
          assert Join(Labels(rest)) == text[i + 1..] == rest;
        }
        DottedRest(name, i);
      }
    }
  }

  lemma DottedRest(name: seq<Byte>, i: nat)
    requires i == IndexOfDot(name) && 0 < i && i + 1 < |name| && name[i + 1] != DOT
    ensures Dotted(name) <==> Dotted(name[i + 1..])
  {
    var rest := name[i + 1..];
    IndexOfDotIsFirst(name);
    if Dotted(rest) {
      forall k | 0 <= k < |name| && name[k] == DOT
        ensures 0 < k && k + 1 < |name| && name[k + 1] != DOT
      {
        if k > i {
          assert rest[k - i - 1] == DOT;
        }
      }
    }
    if Dotted(name) {
      forall k | 0 <= k < |rest| && rest[k] == DOT
        ensures 0 < k && k + 1 < |rest| && rest[k + 1] != DOT
      {
        assert name[k + i + 1] == DOT;
      }
    }
  }

  lemma LabelThenName(m: seq<Byte>, j: nat, first: Label)
    requires 0 < |first| < 64 && j + 1 + |first| < |m|
    requires m[j] as int == |first| && m[j + 1..j + 1 + |first|] == first
    requires NameAt(m, j + 1 + |first|).Some?
    ensures var d := NameAt(m, j + 1 + |first|).value;
      NameAt(m, j) == Some(Decoded([first] + d.labels, d.next))
  {
  }

  lemma PointerThenName(m: seq<Byte>, j: nat, ref: nat)
    requires ref < 0x4000 && j + 2 <= |m| && m[j..j + 2] == PointerTo(ref)
    requires NameAt(m, ref).Some?
    ensures NameAt(m, j) == Some(Decoded(NameAt(m, ref).value.labels, j + 2))
  {
    var d := NameAt(m, ref).value;
    assert m[j] == m[j..j + 2][0] && m[j + 1] == m[j..j + 2][1];
    assert PointerTarget(m, j) == ref;
    assert ref < |m|;
    assert Decode(m, j, |m| + 1) == Some(Decoded(d.labels, j + 2));
    JumpLimitIsExact(m, j, Decoded(d.labels, j + 2));
  }

  lemma {:induction false} FindIsEntry(table: seq<Entry>, name: seq<Byte>) returns (i: nat)
    requires Find(table, name) >= 0
    ensures i < |table| && table[i].suffix == name && table[i].pos == Find(table, name)
  {
    if table[0].suffix == name {
      i := 0;
    } else {
      i := FindIsEntry(table[1..], name);
      i := i + 1;
    }
  }

  // Entries usable while `name` is being written: those still being completed belong to longer suffixes.
  ghost predicate Usable(m: seq<Byte>, table: seq<Entry>, name: seq<Byte>) {
    forall i :: 0 <= i < |table| ==> |table[i].suffix| > |name| || Points(m, table[i])
  }

  // The bytes written after message m read back as the labels of the name, whatever was compressed,
  // and every entry added to the table is good from then on.
  ghost predicate ReadsBack(m: seq<Byte>, bytes: seq<Byte>, name: seq<Byte>, table: seq<Entry>, after: seq<Entry>) {
    var m' := m + bytes;
    && NameAt(m', |m|).Some?
    && NameAt(m', |m|).value.labels == Labels(name)
    && (NoInnerEmptyLabel(name) ==> NameAt(m', |m|).value.next == |m'|)
    && table <= after
    && TableValid(m', after[|table|..])
  }

  lemma {:induction false} EncodeThenDecode(m: seq<Byte>, name: seq<Byte>, bufLen: nat, table: seq<Entry>,
                                            compress: bool, oom: set<nat>)
    requires bufLen <= 0x4000 && Usable(m, table, name)
    requires Encode(name, |m|, bufLen, table, compress, oom).Written?
    ensures var w := Encode(name, |m|, bufLen, table, compress, oom);
      ReadsBack(m, w.bytes, name, table, w.table)
    decreases |name|
  {
    hide Encode, ReadsBack, Usable, NextTable;
    var first := FirstLabel(name);
    if compress && Find(table, name) >= 0 {
      PointerWritten(name, |m|, bufLen, table, compress, oom);
      PointerReadsBack(m, name, table);
    } else if IndexOfDot(name) == -1 {
      LastWritten(m, name, bufLen, table, compress, oom);
    } else {
      var table' := NextTable(name, |m|, table, compress, oom);
      LabelWritten(name, |m|, bufLen, table, compress, oom);
      var head := LabelBytes(first);
      StillUsable(m, head, name, table, table');
      EncodeThenDecode(m + head, Rest(name), bufLen, table', compress, oom);
      var w' := Encode(Rest(name), |m + head|, bufLen, table', compress, oom);
      StepReadsBack(m, name, table, table', w'.bytes, w'.table);
    }
  }

  lemma PointerWritten(name: seq<Byte>, j: nat, bufLen: nat, table: seq<Entry>, compress: bool, oom: set<nat>)
    requires compress && Find(table, name) >= 0 && Encode(name, j, bufLen, table, compress, oom).Written?
    ensures Encode(name, j, bufLen, table, compress, oom) == Written(PointerTo(Find(table, name)), table)
  {
  }

  lemma LastWritten(m: seq<Byte>, name: seq<Byte>, bufLen: nat, table: seq<Entry>, compress: bool, oom: set<nat>)
    requires !(compress && Find(table, name) >= 0) && IndexOfDot(name) == -1 && bufLen <= 0x4000
    requires Encode(name, |m|, bufLen, table, compress, oom).Written?
    ensures var w := Encode(name, |m|, bufLen, table, compress, oom);
      ReadsBack(m, w.bytes, name, table, w.table)
  {
    var w := Encode(name, |m|, bufLen, table, compress, oom);
    LastReadsBack(m, name);
    NewEntriesValid(m + w.bytes, name, |m|, table, w.table, w.table);
  }

  lemma LabelWritten(name: seq<Byte>, j: nat, bufLen: nat, table: seq<Entry>, compress: bool, oom: set<nat>)
    requires !(compress && Find(table, name) >= 0) && IndexOfDot(name) != -1
    requires Encode(name, j, bufLen, table, compress, oom).Written?
    ensures var first, table' := FirstLabel(name), NextTable(name, j, table, compress, oom);
      && |first| <= 63 && j + |first| + 1 <= bufLen && (table' == table || table' == table + [Entry(name, j)])
      && var w := Encode(Rest(name), j + 1 + |first|, bufLen, table', compress, oom);
         w.Written? && Encode(name, j, bufLen, table, compress, oom) == Written(LabelBytes(first) + w.bytes, w.table)
  {
  }

  lemma PointerReadsBack(m: seq<Byte>, name: seq<Byte>, table: seq<Entry>)
    requires Usable(m, table, name) && Find(table, name) >= 0
    ensures ReadsBack(m, PointerTo(Find(table, name)), name, table, table)
  {
    var e := FindIsEntry(table, name);
    var bytes := PointerTo(Find(table, name));
    assert Points(m, table[e]);
    NameAtLonger(m, bytes, table[e].pos);
    assert (m + bytes)[|m|..|m| + 2] == bytes;
    PointerThenName(m + bytes, |m|, table[e].pos);
  }

  lemma StillUsable(m: seq<Byte>, head: seq<Byte>, name: seq<Byte>, table: seq<Entry>, table': seq<Entry>)
    requires IndexOfDot(name) != -1 && Usable(m, table, name)
    requires table' == table || table' == table + [Entry(name, |m|)]
    ensures Usable(m + head, table', Rest(name))
  {
    forall k | 0 <= k < |table'|
      ensures |table'[k].suffix| > |Rest(name)| || Points(m + head, table'[k])
    {
      if k < |table| && |table[k].suffix| <= |Rest(name)| {
        assert Points(m, table[k]);
        NameAtLonger(m, head, table[k].pos);
      }
    }
  }

  lemma NameEndsHere(m: seq<Byte>, j: nat)
    requires j < |m| && m[j] == 0
    ensures NameAt(m, j) == Some(Decoded([], j + 1))
  {
  }

  lemma NameInside(m: seq<Byte>, j: nat)
    requires NameAt(m, j).Some?
    ensures j < |m|
  {
  }

  lemma LabelStands(m: seq<Byte>, l: Label, bytes: seq<Byte>)
    requires |l| < 64
    ensures var m' := m + (LabelBytes(l) + bytes);
      && m' == m + LabelBytes(l) + bytes && |m| + 1 + |l| <= |m'|
      && m'[|m|] as int == |l| && m'[|m| + 1..|m| + 1 + |l|] == l
  {
  }

  lemma StepReadsBack(m: seq<Byte>, name: seq<Byte>, table: seq<Entry>, table': seq<Entry>, bytes: seq<Byte>, after: seq<Entry>)
    requires |m| < 0x4000 && IndexOfDot(name) != -1 && |FirstLabel(name)| < 64
    requires table' == table || table' == table + [Entry(name, |m|)]
    requires ReadsBack(m + LabelBytes(FirstLabel(name)), bytes, Rest(name), table', after)
    ensures ReadsBack(m, LabelBytes(FirstLabel(name)) + bytes, name, table, after)
  {
    hide IndexOfDot, LabelBytes, NameAt;
    var first := FirstLabel(name);
    var head := LabelBytes(first);
    var m' := m + (head + bytes);
    LabelStands(m, first, bytes);
    NameInside(m', |m + head|);
    if first != [] {
      LabelThenName(m', |m|, first);
    } else {
      NameEndsHere(m', |m|);
    }
    NewEntriesValid(m', name, |m|, table, table', after);
  }

  lemma LastReadsBack(m: seq<Byte>, name: seq<Byte>)
    requires IndexOfDot(name) == -1 && |name| < 64
    ensures var m' := m + (LabelBytes(name) + if name == [] then [] else [0]);
      NameAt(m', |m|) == Some(Decoded(Labels(name), |m'|))
  {
    var m' := m + (LabelBytes(name) + if name == [] then [] else [0]);
    assert m'[|m|] as int == |name|;
    if name != [] {
      assert m'[|m| + 1..|m| + 1 + |name|] == name;
      assert m'[|m| + 1 + |name|] == 0;
      assert NameAt(m', |m| + 1 + |name|) == Some(Decoded([], |m'|));
      LabelThenName(m', |m|, name);
      assert [name] + [] == [name];
    }
  }

  lemma NewEntriesValid(m: seq<Byte>, name: seq<Byte>, pos: nat, table: seq<Entry>, table': seq<Entry>, after: seq<Entry>)
    requires table' <= after && (table' == table || table' == table + [Entry(name, pos)])
    requires TableValid(m, after[|table'|..]) && Points(m, Entry(name, pos))
    ensures table <= after && TableValid(m, after[|table|..])
  {
    forall k | 0 <= k < |after| - |table|
      ensures Points(m, after[|table|..][k])
    {
      var at := |table| + k;
      if at < |table'| {
        assert after[at] == table'[at] == Entry(name, pos);
      } else {
        assert after[at] == after[|table'|..][at - |table'|];
      }
    }
  }

  // Without a table a label that is too long is always noticed.
  lemma {:induction false} PlainNeedsShortLabels(name: seq<Byte>, j: nat, bufLen: nat, table: seq<Entry>, oom: set<nat>)
    requires Encode(name, j, bufLen, table, false, oom).Written?
    ensures ShortLabels(name)
    decreases |name|
  {
    if IndexOfDot(name) != -1 {
      var first := FirstLabel(name);
      PlainNeedsShortLabels(Rest(name), j + 1 + |first|, bufLen, table, oom);
    }
  }

  // Some end of the name, from a label on, is in the table.
  predicate KnownSuffix(name: seq<Byte>, table: seq<Entry>)
    decreases |name|
  {
    Find(table, name) >= 0 || (IndexOfDot(name) != -1 && KnownSuffix(Rest(name), table))
  }

  lemma {:induction false} FindAfterMore(table: seq<Entry>, e: Entry, name: seq<Byte>)
    requires e.suffix != name
    ensures Find(table + [e], name) == Find(table, name)
  {
    if table != [] {
      assert (table + [e])[1..] == table[1..] + [e];
      FindAfterMore(table[1..], e, name);
    }
  }

  // The entries that a name adds for its own ends are of no use to its later ends.
  lemma {:induction false} KnownAsBefore(name: seq<Byte>, table: seq<Entry>, e: Entry)
    requires |e.suffix| > |name|
    ensures KnownSuffix(name, table + [e]) <==> KnownSuffix(name, table)
    decreases |name|
  {
    FindAfterMore(table, e, name);
    if IndexOfDot(name) != -1 {
      KnownAsBefore(Rest(name), table, e);
    }
  }

  lemma KnownInNext(name: seq<Byte>, j: nat, table: seq<Entry>, compress: bool, oom: set<nat>)
    requires IndexOfDot(name) != -1
    ensures KnownSuffix(Rest(name), NextTable(name, j, table, compress, oom)) <==> KnownSuffix(Rest(name), table)
  {
    hide KnownSuffix;
    KnownAsBefore(Rest(name), table, Entry(name, j));
  }

  // A zero byte is stored after the labels unless the last of them is empty.
  predicate EndsInLabel(name: seq<Byte>) {
    name != [] && name[|name| - 1] != DOT
  }

  // The length of a name that is written, and when there is room for it.
  predicate EndsAsSaid(w: Writing, name: seq<Byte>, j: nat, bufLen: nat, known: bool) {
    && (w.Failed? ==> w.bytes == [] || j + |w.bytes| <= bufLen)
    && (w.Written? ==> 1 <= |w.bytes| <= |name| + 2)
    && if known then (w.Written? ==> j + |w.bytes| <= bufLen) && (ShortLabels(name) && j + |name| + 2 <= bufLen ==> w.Written?)
    else
      && (w.Written? <==> ShortLabels(name) && j + |name| + 1 <= bufLen)
      && (w.Written? ==> |w.bytes| == |name| + 1 + if EndsInLabel(name) then 1 else 0)
  }

  lemma {:induction false} EncodeEnds(name: seq<Byte>, j: nat, bufLen: nat, table: seq<Entry>, compress: bool, oom: set<nat>)
    ensures EndsAsSaid(Encode(name, j, bufLen, table, compress, oom), name, j, bufLen, compress && KnownSuffix(name, table))
    decreases |name|
  {
    hide EndsAsSaid, Encode;
    if IndexOfDot(name) == -1 || (compress && Find(table, name) >= 0) {
      LastEnds(name, j, bufLen, table, compress, oom);
    } else {
      var first := FirstLabel(name);
      var w := Encode(Rest(name), j + 1 + |first|, bufLen, NextTable(name, j, table, compress, oom), compress, oom);
      KnownInNext(name, j, table, compress, oom);
      EncodeEnds(Rest(name), j + 1 + |first|, bufLen, NextTable(name, j, table, compress, oom), compress, oom);
      EncodeUnfold(name, j, bufLen, table, compress, oom);
      StepEnds(w, name, j, bufLen, compress && KnownSuffix(Rest(name), table));
    }
  }

  lemma LastEnds(name: seq<Byte>, j: nat, bufLen: nat, table: seq<Entry>, compress: bool, oom: set<nat>)
    requires IndexOfDot(name) == -1 || (compress && Find(table, name) >= 0)
    ensures EndsAsSaid(Encode(name, j, bufLen, table, compress, oom), name, j, bufLen, compress && KnownSuffix(name, table))
  {
    if !(compress && Find(table, name) >= 0) {
      IndexOfDotIsFirst(name);
    }
  }

  // The writing of a name of several labels whose first is written out.
  function AfterFirst(w: Writing, name: seq<Byte>, j: nat, bufLen: nat, table: seq<Entry>): Writing {
    var first := FirstLabel(name);
    if |first| > 63 then Failed(-1, [], table)
    else if j + |first| + 1 > bufLen then Failed(-2, [], table)
    else Prepend(LabelBytes(first), w)
  }

  lemma EncodeUnfold(name: seq<Byte>, j: nat, bufLen: nat, table: seq<Entry>, compress: bool, oom: set<nat>)
    requires IndexOfDot(name) != -1 && !(compress && Find(table, name) >= 0)
    ensures var l := |FirstLabel(name)|;
      Encode(name, j, bufLen, table, compress, oom) ==
      AfterFirst(Encode(Rest(name), j + 1 + l, bufLen, NextTable(name, j, table, compress, oom), compress, oom), name, j, bufLen, table)
  {
  }

  lemma StepEnds(w: Writing, name: seq<Byte>, j: nat, bufLen: nat, known: bool)
    requires IndexOfDot(name) != -1
    requires EndsAsSaid(w, Rest(name), j + 1 + |FirstLabel(name)|, bufLen, known)
    ensures forall table :: EndsAsSaid(AfterFirst(w, name, j, bufLen, table), name, j, bufLen, known)
  {
    EndsLikeRest(name);
  }

  lemma EndsLikeRest(name: seq<Byte>)
    requires IndexOfDot(name) != -1
    ensures EndsInLabel(name) <==> EndsInLabel(Rest(name))
  {
    IndexOfDotIsFirst(name);
  }

  // When the zero byte at the end of a name lies behind a buffer of bufLen bytes: the name is written out to its
  // last label, which is not empty and ends where the buffer does.
  predicate Spills(name: seq<Byte>, j: nat, bufLen: nat, table: seq<Entry>, compress: bool) {
    && |name| <= MAX_NAME_LEN && ShortLabels(name) && EndsInLabel(name)
    && j + |name| + 1 == bufLen
    && !(compress && KnownSuffix(name, table))
  }

  lemma {:induction false} SpillsExactly(name: seq<Byte>, j: nat, bufLen: nat, table: seq<Entry>, compress: bool, oom: set<nat>)
    ensures var w := EncodeName(name, j, bufLen, table, compress, oom);
      && (w.Written? && j + |w.bytes| > bufLen <==> Spills(name, j, bufLen, table, compress))
      && (w.Written? ==> 1 <= |w.bytes| && j + |w.bytes| <= bufLen + 1)
  {
    hide KnownSuffix, Encode;
    EncodeEnds(name, j, bufLen, table, compress, oom);
  }

  lemma {:induction false} EncodeBounds(name: seq<Byte>, j: nat, bufLen: nat, table: seq<Entry>, compress: bool, oom: set<nat>)
    ensures var w := Encode(name, j, bufLen, table, compress, oom);
      w.Written? ==> 1 <= |w.bytes| && j + |w.bytes| <= bufLen + 1
  {
    hide KnownSuffix, Encode;
    EncodeEnds(name, j, bufLen, table, compress, oom);
  }

  // With room for the plain form of a name whose labels all fit, writing it cannot fail, and compression never makes
  // it longer than that.
  lemma {:induction false} EncodeFits(name: seq<Byte>, j: nat, bufLen: nat, table: seq<Entry>, compress: bool, oom: set<nat>)
    requires ShortLabels(name) && j + |name| + 2 <= bufLen
    ensures var w := Encode(name, j, bufLen, table, compress, oom);
      w.Written? && |w.bytes| <= |name| + 2
  {
    hide KnownSuffix, Encode;
    EncodeEnds(name, j, bufLen, table, compress, oom);
  }

  // What a failing call has written stays inside the buffer.
  lemma {:induction false} FailedInside(name: seq<Byte>, j: nat, bufLen: nat, table: seq<Entry>, compress: bool, oom: set<nat>)
    ensures var w := Encode(name, j, bufLen, table, compress, oom);
      w.Failed? ==> w.bytes == [] || j + |w.bytes| <= bufLen
  {
    hide KnownSuffix, Encode;
    EncodeEnds(name, j, bufLen, table, compress, oom);
  }

  // ---------- The code ----------

  class LabelTable {
    var entries: seq<Entry>

    constructor ()
      ensures entries == []
    {
      entries := [];
    }

    // dnslabel_table_get_pos
    method GetPos(name: seq<Byte>) returns (pos: int)
      ensures pos == Find(entries, name)
    {
      var i := 0;
      while i < |entries|
        invariant 0 <= i <= |entries|
        invariant Find(entries[i..], name) == Find(entries, name)
      {
        if entries[i].suffix == name {
          return entries[i].pos;
        }
        i := i + 1;
      }
      return -1;
    }

    // dnslabel_table_add
    method Add(name: seq<Byte>, pos: nat, memory: bool) returns (r: int)
      modifies this
      ensures entries == Remember(old(entries), name, pos, memory)
      ensures r == if |entries| > |old(entries)| then 0 else -1
    {
      if |entries| == MAX_LABELS {
        return -1;
      }
      if !memory {
        return -1;
      }
      entries := entries + [Entry(name, pos)];
      return 0;
    }
  }

  // strchr(name + from, '.')
  method FindDot(name: seq<Byte>, from: nat) returns (k: int)
    requires from <= |name|
    ensures k == -1 <==> IndexOfDot(name[from..]) == -1
    ensures k == -1 ==> FirstLabel(name[from..]) == name[from..]
    ensures k != -1 ==> from <= k < |name| && name[from..k] == FirstLabel(name[from..]) && name[k + 1..] == Rest(name[from..])
  {
    k := from;
    while k < |name|
      invariant from <= k <= |name|
      invariant IndexOfDot(name[from..]) == if IndexOfDot(name[k..]) == -1 then -1 else k - from + IndexOfDot(name[k..])
    {
      if name[k] == DOT {
        return;
      }
      assert name[k..][1..] == name[k + 1..];
      k := k + 1;
    }
    k := -1;
  }

  // The buffer is as it was before, but for the bytes written from an offset on.
  ghost predicate Holds(now: seq<Byte>, before: seq<Byte>, from: nat, bytes: seq<Byte>) {
    && |now| == |before|
    && (bytes != [] ==> from + |bytes| <= |now|)
    && (forall i :: 0 <= i < |now| && !(from <= i < from + |bytes|) ==> now[i] == before[i])
    && (forall i :: from <= i < from + |bytes| ==> now[i] == bytes[i - from])
  }

  // memcpy(buf + at, src, |src|)
  method CopyIn(src: seq<Byte>, buf: array<Byte>, at: nat, ghost before: seq<Byte>, ghost from: nat, ghost bytes: seq<Byte>)
    requires Holds(buf[..], before, from, bytes) && at == from + |bytes|
    requires at + |src| <= buf.Length
    modifies buf
    ensures Holds(buf[..], before, from, bytes + src)
  {
    var k := 0;
    while k < |src|
      invariant 0 <= k <= |src|
      invariant Holds(buf[..], before, from, bytes + src[..k])
    {
      buf[at + k] := src[k];
      k := k + 1;
    }
    assert bytes + src[..k] == bytes + src;
  }

  // How a buffer and a return value show the outcome of writing at offset `from`.
  ghost predicate Stored(w: Writing, before: seq<Byte>, after: seq<Byte>, from: nat, r: int) {
    && Holds(after, before, from, w.bytes)
    && if w.Failed? then r == w.code < 0 else r == from + |w.bytes| && w.bytes != []
  }

  ghost function Entries(table: LabelTable?): seq<Entry>
    reads table
  {
    if table == null then [] else table.entries
  }

  // A call in progress: the outcome it must have, what the buffer held before, and its arguments.
  datatype Call = Call(w: Writing, before: seq<Byte>, from: nat, bufLen: nat, compress: bool, oom: set<nat>) {
    ghost predicate Answered(now: seq<Byte>, table: seq<Entry>, r: int) {
      Stored(w, before, now, from, r) && w.table == table
    }

    // The buffer is as large as it is said to be, and also holds the byte that ends the name.
    ghost predicate HasRoom() {
      bufLen <= |before| && (w.Written? ==> from + |w.bytes| <= |before|)
    }

    // `bytes` have been written, and writing `suffix` after them gives the rest of w.
    ghost predicate Underway(now: seq<Byte>, table: seq<Entry>, bytes: seq<Byte>, suffix: seq<Byte>) {
      && (bytes == [] || from + |bytes| <= bufLen) && HasRoom()
      && Holds(now, before, from, bytes)
      && w == Prepend(bytes, Encode(suffix, from + |bytes|, bufLen, table, compress, oom))
    }

    // Every label has been written.
    ghost predicate LabelsDone(now: seq<Byte>, table: seq<Entry>, bytes: seq<Byte>) {
      && bytes != [] && from + |bytes| <= bufLen && HasRoom()
      && Holds(now, before, from, bytes)
      && w == Written(if bytes[|bytes| - 1] == 0 then bytes else bytes + [0], table)
    }

    lemma Starts(name: seq<Byte>, table: seq<Entry>)
      requires w == Encode(name, from, bufLen, table, compress, oom) && HasRoom()
      ensures Underway(before, table, [], name)
    {
      assert [] + w.bytes == w.bytes;
    }

    lemma Unfold(now: seq<Byte>, table: seq<Entry>, bytes: seq<Byte>, suffix: seq<Byte>)
      requires Underway(now, table, bytes, suffix)
      ensures Holds(now, before, from, bytes)
      ensures |now| == |before|
    {
    }

    lemma UsesPointer(now: seq<Byte>, table: seq<Entry>, bytes: seq<Byte>, suffix: seq<Byte>)
      requires Underway(now, table, bytes, suffix) && compress && Find(table, suffix) >= 0
      ensures w == if from + |bytes| + 2 > bufLen then Failed(-2, bytes, table) else Written(bytes + PointerTo(Find(table, suffix)), table)
    {
    }

    lemma GivesUp(now: seq<Byte>, table: seq<Entry>, bytes: seq<Byte>, suffix: seq<Byte>)
      requires Underway(now, table, bytes, suffix) && !(compress && Find(table, suffix) >= 0)
      ensures var l := |FirstLabel(suffix)|;
        && (l > 63 ==> Answered(now, table, -1))
        && (l <= 63 && from + |bytes| + l + 1 > bufLen ==> Answered(now, table, -2))
    {
    }

    lemma GoesOn(was: seq<Byte>, now: seq<Byte>, table: seq<Entry>, bytes: seq<Byte>, suffix: seq<Byte>)
      requires Underway(was, table, bytes, suffix) && !(compress && Find(table, suffix) >= 0)
      requires |FirstLabel(suffix)| <= 63 && from + |bytes| + |FirstLabel(suffix)| + 1 <= bufLen
      requires IndexOfDot(suffix) != -1
      requires Holds(now, before, from, bytes + LabelBytes(FirstLabel(suffix)))
      ensures Underway(now, NextTable(suffix, from + |bytes|, table, compress, oom),
                       bytes + LabelBytes(FirstLabel(suffix)), Rest(suffix))
    {
      EncodeStep(suffix, from + |bytes|, bufLen, table, compress, oom, bytes);
    }

    lemma IsLast(was: seq<Byte>, now: seq<Byte>, table: seq<Entry>, bytes: seq<Byte>, l: seq<Byte>)
      requires Underway(was, table, bytes, l) && !(compress && Find(table, l) >= 0)
      requires |l| <= 63 && from + |bytes| + |l| + 1 <= bufLen
      requires IndexOfDot(l) == -1 && NoNul(l)
      requires Holds(now, before, from, bytes + LabelBytes(l))
      ensures LabelsDone(now, NextTable(l, from + |bytes|, table, compress, oom), bytes + LabelBytes(l))
    {
      var ending: seq<Byte> := if l == [] then [] else [0];
      var table' := NextTable(l, from + |bytes|, table, compress, oom);
      assert Encode(l, from + |bytes|, bufLen, table, compress, oom) == Written(LabelBytes(l) + ending, table');
      assert bytes + (LabelBytes(l) + ending) == bytes + LabelBytes(l) + ending;
      assert l == [] ==> bytes + LabelBytes(l) + ending == bytes + LabelBytes(l);
    }
  }

  // A pointer in place of a suffix that is in the table.
  method PutPointer(buf: array<Byte>, j: nat, ref: nat, bufLen: nat, ghost c: Call, ghost table: seq<Entry>, ghost bytes: seq<Byte>,
                    ghost suffix: seq<Byte>)
    returns (r: int)
    requires c.Underway(buf[..], table, bytes, suffix) && c.compress && ref == Find(table, suffix)
    requires j == c.from + |bytes| && bufLen == c.bufLen <= buf.Length
    modifies buf
    ensures c.Answered(buf[..], table, r)
  {
    c.UsesPointer(buf[..], table, bytes, suffix);
    if j + 2 > bufLen {
      return -2;
    }
    CopyIn(PointerTo(ref), buf, j, c.before, c.from, bytes);
    return j + 2;
  }

  // The byte that ends a name, unless the name's own last byte is already zero.
  method PutTerminator(buf: array<Byte>, j: nat, ghost c: Call, ghost table: seq<Entry>, ghost bytes: seq<Byte>)
    returns (r: int)
    requires c.LabelsDone(buf[..], table, bytes) && j == c.from + |bytes|
    modifies buf
    ensures c.Answered(buf[..], table, r)
  {
    r := j;
    assert buf[j - 1] == buf[..][j - 1];
    if j == 0 || buf[j - 1] != 0 {
      CopyIn([0], buf, j, c.before, c.from, bytes);
      r := j + 1;
    }
  }

  lemma EntriesOf(table: LabelTable)
    ensures Entries(table) == table.entries
  {
  }

  lemma Remembered(table: LabelTable?, name: seq<Byte>, pos: nat, before: seq<Entry>, compress: bool, oom: set<nat>)
    requires compress == (table != null)
    requires table != null ==> table.entries == Remember(before, name, pos, pos !in oom)
    requires table == null ==> before == []
    ensures Entries(table) == NextTable(name, pos, before, compress, oom)
  {
  }

  // The label at name[at..end], if it is short enough and there is room, and its table entry.
  method PutLabel(buf: array<Byte>, j: nat, name: seq<Byte>, at: nat, end: nat, bufLen: nat, table: LabelTable?,
                  oom: set<nat>, ghost c: Call, ghost bytes: seq<Byte>)
    returns (r: int)
    requires NoNul(name) && at <= end <= |name| && name[at..end] == FirstLabel(name[at..])
    requires end < |name| <==> IndexOfDot(name[at..]) != -1
    requires c.Underway(buf[..], Entries(table), bytes, name[at..]) && !(table != null && Find(table.entries, name[at..]) >= 0)
    requires j == c.from + |bytes| && bufLen == c.bufLen <= buf.Length && c.compress == (table != null) && c.oom == oom
    modifies buf, table
    ensures r < 0 ==> c.Answered(buf[..], Entries(table), r)
    ensures r >= 0 ==> end - at < 64
    ensures r >= 0 && end == |name| ==> c.LabelsDone(buf[..], Entries(table), bytes + LabelBytes(name[at..end]))
    ensures r >= 0 && end < |name| ==> c.Underway(buf[..], Entries(table), bytes + LabelBytes(name[at..end]), Rest(name[at..]))
  {
    hide Call.Underway, Call.LabelsDone, Call.Answered, Find, FirstLabel, IndexOfDot, Holds, NextTable, Encode;
    ghost var was, suffix, entries := buf[..], name[at..], Entries(table);
    c.GivesUp(buf[..], entries, bytes, suffix);
    if end - at > 63 {
      return -1;
    }
    if j + (end - at) + 1 > bufLen {
      return -2;
    }
    if table != null {
      var _ := table.Add(name[at..], j, j !in oom);
    }
    c.Unfold(was, entries, bytes, suffix);
    CopyIn([(end - at) as Byte], buf, j, c.before, c.from, bytes);
    CopyIn(name[at..end], buf, j + 1, c.before, c.from, bytes + [(end - at) as Byte]);
    assert bytes + [(end - at) as Byte] + name[at..end] == bytes + LabelBytes(name[at..end]);
    Remembered(table, suffix, j, entries, c.compress, oom);
    if end == |name| {
      assert name[at..end] == suffix;
      c.IsLast(was, buf[..], entries, bytes, suffix);
    } else {
      c.GoesOn(was, buf[..], entries, bytes, suffix);
    }
    return 0;
  }

  // dnsname_to_labels. The byte that ends a name is stored without a test for room, so a name that spills needs
  // one byte more than `bufLen` says.
  method DnsnameToLabels(buf: array<Byte>, bufLen: nat, from: nat, name: seq<Byte>, table: LabelTable?, oom: set<nat>)
    returns (r: int)
    requires NoNul(name) && bufLen <= buf.Length
    requires Spills(name, from, bufLen, Entries(table), table != null) ==> bufLen < buf.Length
    modifies buf, table
    ensures var w := EncodeName(name, from, bufLen, old(Entries(table)), table != null, oom);
      && Stored(w, old(buf[..]), buf[..], from, r)
      && Entries(table) == w.table
  {
    if |name| > MAX_NAME_LEN {
      return -2;
    }
    SpillsExactly(name, from, bufLen, Entries(table), table != null, oom);
    ghost var c := Call(Encode(name, from, bufLen, Entries(table), table != null, oom), buf[..], from, bufLen, table != null, oom);
    r := PutName(buf, bufLen, from, name, table, oom, c);
  }

  method PutName(buf: array<Byte>, bufLen: nat, from: nat, name: seq<Byte>, table: LabelTable?, oom: set<nat>, ghost c: Call)
    returns (r: int)
    requires bufLen <= buf.Length && NoNul(name) && c.HasRoom()
    requires c == Call(Encode(name, from, bufLen, Entries(table), table != null, oom), buf[..], from, bufLen, table != null, oom)
    modifies buf, table
    ensures c.Answered(buf[..], Entries(table), r)
  {
    hide *;
    var j := from;
    var at := 0;
    ghost var bytes: seq<Byte> := [];
    assert name[0..] == name;
    c.Starts(name, Entries(table));
    while true
      invariant 0 <= at <= |name| && j == from + |bytes|
      invariant c.Underway(buf[..], Entries(table), bytes, name[at..])
      decreases |name| - at
    {
      if table != null {
        var ref := table.GetPos(name[at..]);
        if ref >= 0 {
          EntriesOf(table);
          r := PutPointer(buf, j, ref, bufLen, c, Entries(table), bytes, name[at..]);
          return;
        }
      }
      var dot := FindDot(name, at);
      var end := if dot == -1 then |name| else dot;
      var ok := PutLabel(buf, j, name, at, end, bufLen, table, oom, c, bytes);
      if ok < 0 {
        return ok;
      }
      j := j + 1 + (end - at);
      bytes := bytes + LabelBytes(name[at..end]);
      if dot == -1 {
        r := PutTerminator(buf, j, c, Entries(table), bytes);
        return;
      }
      at := dot + 1;
    }
  }
}
